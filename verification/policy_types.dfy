/** The shapes shared by the backend modules: a policy as handed to the store
    (`IPolicy` without its generated fields), a stored policy row, and the
    `AppError` that carries an HTTP status. */
module PolicyTypes {
  import opened Wrappers

  /** The capture method: the plain HTTP fetch or the headless browser. */
  datatype Method = Axios | Puppeteer

  function MethodName(m: Method): (name: string)
    ensures name == "axios" || name == "puppeteer"
  {
    match m
    case Axios => "axios"
    case Puppeteer => "puppeteer"
  }

  /** A policy before it is stored: what scraping extracts and what `save` receives. */
  datatype PolicyInput = PolicyInput(
    sourceUrl: string, title: string, content: string, category: string, capture: Option<Method>)

  /** A stored row. Identifiers are drawn from a counter and timestamps from a
      logical clock that ticks once per write. */
  datatype Policy = Policy(
    id: nat, title: string, sourceUrl: string, content: string, category: string,
    createdAt: nat, updatedAt: nat, capture: Option<Method>)

  /** `AppError(message, statusCode)` */
  datatype AppError = AppError(message: string, status: int)

  /** What a `catch` clause receives: an `Error` with its message, or any other
      thrown value. */
  datatype Thrown = Error(message: string) | NotAnError

  const UnknownError := "Erro desconhecido"

  /** `error instanceof Error ? error.message : 'Erro desconhecido'` */
  function Describe(e: Thrown): (text: string)
    ensures e.Error? ==> text == e.message
    ensures e.NotAnError? ==> text == UnknownError
  {
    match e
    case Error(m) => m
    case NotAnError => UnknownError
  }
}
