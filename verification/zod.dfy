/** The field rules the zod schemas of both the backend and the frontend are built
    from: the string length checks with their messages, `.url()`, `.uuid()`, the
    capture-method enum and the integer checks on numbers. A schema reports one
    issue per failed check, field by field in declaration order. */
module Zod {
  import opened Wrappers
  import opened Urls
  import opened PolicyTypes

  /** A failed check: the field and the message the schema gives, or None where
      zod's own default message is used. */
  datatype Issue = Issue(field: string, message: Option<string>)

  const TitleRequired := "Título é obrigatório"
  const TitleTooLong := "Título muito longo"
  const InvalidUrl := "URL inválida"
  const ContentRequired := "Conteúdo é obrigatório"
  const CategoryRequired := "Categoria é obrigatória"
  const MaxTitle := 500

  /** `.min(1, 'Título é obrigatório').max(500, 'Título muito longo')` */
  function TitleIssues(title: string): (issues: seq<Issue>)
    ensures issues == [] <==> 1 <= |title| <= MaxTitle
    ensures |title| == 0 ==> issues == [Issue("title", Some(TitleRequired))]
    ensures |title| > MaxTitle ==> issues == [Issue("title", Some(TitleTooLong))]
  {
    if |title| < 1 then [Issue("title", Some(TitleRequired))]
    else if |title| > MaxTitle then [Issue("title", Some(TitleTooLong))]
    else []
  }

  /** `.url('URL inválida')` on `field`. */
  function UrlIssues(field: string, url: string): (issues: seq<Issue>)
    ensures issues == [] <==> IsUrl(url)
    ensures !IsUrl(url) ==> issues == [Issue(field, Some(InvalidUrl))]
  {
    if IsUrl(url) then [] else [Issue(field, Some(InvalidUrl))]
  }

  /** `.min(1, message)` on `field`. */
  function RequiredIssues(field: string, s: string, message: string): (issues: seq<Issue>)
    ensures issues == [] <==> s != ""
    ensures s == "" ==> issues == [Issue(field, Some(message))]
  {
    if s == "" then [Issue(field, Some(message))] else []
  }

  /** `z.enum(['axios', 'puppeteer'])` */
  predicate IsMethodName(s: string) {
    s == "axios" || s == "puppeteer"
  }

  /** The enum admits exactly the names of the two capture methods. */
  lemma MethodNamesAreMethods(s: string)
    ensures IsMethodName(s) <==> exists m: Method :: MethodName(m) == s
  {
    if IsMethodName(s) {
      assert MethodName(if s == "axios" then Axios else Puppeteer) == s;
    }
  }

  function ParseMethod(s: string): (m: Method)
    requires IsMethodName(s)
    ensures MethodName(m) == s
  {
    if s == "axios" then Axios else Puppeteer
  }

  /** `method: z.enum(['axios', 'puppeteer']).optional()` */
  function MethodIssues(m: Option<string>): (issues: seq<Issue>)
    ensures issues == [] <==> m.None? || IsMethodName(m.value)
  {
    if m.Some? && !IsMethodName(m.value) then [Issue("method", None)] else []
  }

  function ParseOptionalMethod(m: Option<string>): (r: Option<Method>)
    requires m.None? || IsMethodName(m.value)
    ensures r.None? <==> m.None?
    ensures r.Some? ==> MethodName(r.value) == m.value
  {
    if m.Some? then Some(ParseMethod(m.value)) else None
  }

  /** `.uuid(message)` on `field`. */
  function UuidIssues(field: string, id: string, message: Option<string>): (issues: seq<Issue>)
    ensures issues == [] <==> IsUuid(id)
  {
    if IsUuid(id) then [] else [Issue(field, message)]
  }

  /** A JavaScript number. Zod's `z.number()` refuses NaN; `.int()` refuses the
      infinities and fractions. */
  datatype JsNumber = NaN | PosInfinity | NegInfinity | Finite(value: real)

  predicate IsInteger(n: JsNumber) {
    n.Finite? && n.value.Floor as real == n.value
  }

  /** `z.number().int().min(lo)` and, when given, `.max(hi)`. */
  predicate IntInRange(n: JsNumber, lo: int, hi: Option<int>) {
    IsInteger(n) && n.value.Floor >= lo && (hi.None? || n.value.Floor <= hi.value)
  }

  /** The integer an integral number denotes. */
  function IntOf(n: JsNumber): (i: int)
    requires IsInteger(n)
    ensures i as real == n.value
  {
    n.value.Floor
  }
}
