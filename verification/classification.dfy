/** The classifier of backend/src/modules/ai/ai.service.ts: the closed set of twelve
    labels, the prompt sent to the language model, the tolerant reading of its reply
    and the batch over several documents. The chat-completion call and `JSON.parse`
    are parameters: `complete` gives the model's answer to a prompt and `parse` the
    object a JSON text denotes, or None when the text is not JSON. */
module Classification {
  import opened Wrappers
  import opened Strings
  import JsObject

  /** `categories`: the twelve labels, in the order the prompt numbers them. */
  const Categories: seq<string> := [
    "DADOS PESSOAIS GERAIS",
    "DADOS FINANCEIROS",
    "DADOS LOCALIZACAO",
    "COOKIES TRACKING",
    "MARKETING PUBLICIDADE",
    "COMPARTILHAMENTO TERCEIROS",
    "SEGURANCA PROTECAO",
    "DIREITOS USUARIO",
    "RETENCAO DADOS",
    "MENORES IDADE",
    "TRANSFERENCIA INTERNACIONAL",
    "OUTROS"
  ]

  /** The catch-all label every coercion falls back to. */
  const Other := "OUTROS"

  datatype ClassificationResult = ClassificationResult(category: string, confidence: real)

  /** The reply used whenever no usable answer exists. */
  const Fallback := ClassificationResult(Other, 0.0)

  /** A field of the parsed reply, as `JSON.parse` can produce it; Missing is `undefined`. */
  datatype Json = JNull | JBool(b: bool) | JNumber(n: real) | JString(s: string) | JArray | JObject | Missing

  /** The two fields of the object `JSON.parse` returns for the reply. */
  datatype ParsedReply = ParsedReply(category: Json, confidence: Json)

  /** What the chat-completion call gives back: the first choice's content, which
      may be absent, or a failure (network, key, quota). */
  datatype Completion = Replied(content: Option<string>) | CallFailed(message: string)

  lemma CategoriesShape()
    ensures |Categories| == 12
    ensures Other in Categories && Categories[11] == Other
    ensures forall i, j :: 0 <= i < j < |Categories| ==> Categories[i] != Categories[j]
  {
  }

  // ---------------------------------------------------------------------------
  // Label descriptions

  const Descriptions: map<string, string> := map[
    "DADOS PESSOAIS GERAIS" := "Coleta e uso de dados pessoais básicos (nome, email, telefone, etc.)",
    "DADOS FINANCEIROS" := "Tratamento de informações financeiras, cartão de crédito, dados bancários",
    "DADOS LOCALIZACAO" := "Coleta e uso de dados de geolocalização e localização do usuário",
    "COOKIES TRACKING" := "Uso de cookies, pixels de rastreamento e tecnologias similares",
    "MARKETING PUBLICIDADE" := "Uso de dados para marketing, publicidade direcionada e comunicação promocional",
    "COMPARTILHAMENTO TERCEIROS" := "Compartilhamento de dados com parceiros, fornecedores ou terceiros",
    "SEGURANCA PROTECAO" := "Medidas de segurança, proteção de dados e prevenção de fraudes",
    "DIREITOS USUARIO" := "Direitos do titular dos dados conforme LGPD, GDPR (acesso, correção, exclusão)",
    "RETENCAO DADOS" := "Período de armazenamento e retenção de dados pessoais",
    "MENORES IDADE" := "Políticas específicas para crianças e adolescentes menores de idade",
    "TRANSFERENCIA INTERNACIONAL" := "Transferência de dados para outros países ou jurisdições",
    "OUTROS" := "Outras políticas que não se enquadram nas categorias específicas"
  ]

  const NoDescription := "Descrição não disponível"

  /** `getCategoryDescriptionInternal` as written: `descriptions[category] || ...`
      on an object literal, which also finds the members of Object.prototype. */
  function DescriptionAsWritten(category: string): (v: JsObject.Value)
    ensures category in Categories ==> v == JsObject.Own(Descriptions[category])
  {
    JsObject.GetOr(Descriptions, category, NoDescription)
  }

  /** The name "constructor" is not a label, yet the as-written lookup returns the
      inherited `Object` function rather than the "no description" text. */
  lemma DescriptionAsWrittenFindsConstructor()
    ensures "constructor" !in Categories
    ensures DescriptionAsWritten("constructor") == JsObject.Inherited("constructor")
    ensures DescriptionAsWritten("constructor") != JsObject.Own(NoDescription)
  {
  }

  /** `getCategoryDescription`, with the own-property lookup the code intends: a
      label's description, and the "no description" text for anything else. */
  function Description(category: string): (d: string)
    ensures category in Categories ==> d == Descriptions[category] && d != NoDescription
    ensures category !in Categories ==> d == NoDescription
  {
    JsObject.OwnOr(Descriptions, category, NoDescription)
  }

  /** `getAvailableCategories`: a fresh copy, so a caller that writes to it cannot
      change the label set. */
  method GetAvailableCategories() returns (copy: array<string>)
    ensures fresh(copy)
    ensures copy[..] == Categories
  {
    copy := new string[|Categories|](i requires 0 <= i < |Categories| => Categories[i]);
  }

  // ---------------------------------------------------------------------------
  // The prompt

  const MaxPromptContent := 4000

  /** `${content.substring(0, 4000)} ${content.length > 4000 ? '...' : ''}` */
  function ContentSection(content: string): (r: string)
    ensures |content| <= MaxPromptContent ==> r == content + " "
    ensures |content| > MaxPromptContent ==> r == content[..MaxPromptContent] + " ..."
  {
    var n := if |content| < MaxPromptContent then |content| else MaxPromptContent;
    content[..n] + " " + (if |content| > MaxPromptContent then "..." else "")
  }

  /** `${title ? `TÍTULO: ${title}\n` : ''}`: empty exactly when the title is absent
      or empty. */
  function TitleSection(title: Option<string>): (r: string)
    ensures r == "" <==> title.None? || title.value == ""
  {
    if title.Some? && title.value != "" then "TÍTULO: " + title.value + "\n" else ""
  }

  /** Line `n` of the label listing: `${index + 1}. ${cat}: ${description}`. */
  function CategoryLine(n: nat, name: string): string {
    NatToString(n) + ". " + name + ": " + Description(name)
  }

  /** The numbered description lines of the labels, numbered from 1. */
  function CategoryLines(labels: seq<string>): (lines: seq<string>)
    ensures |lines| == |labels|
    ensures forall i :: 0 <= i < |labels| ==> lines[i] == CategoryLine(i + 1, labels[i])
  {
    seq(|labels|, i requires 0 <= i < |labels| => CategoryLine(i + 1, labels[i]))
  }

  /** `categoriesDescription`: one line per label, joined by line breaks. */
  function CategoriesDescription(): string {
    Join(CategoryLines(Categories), "\n")
  }

  const PromptHead := "\n      Analise o seguinte conteúdo de política de privacidade e classifique-o na categoria mais apropriada.\n\n      "
  const PromptContentHeader := "\n\n      CONTEÚDO:\n      "
  const PromptCategoriesHeader := "\n\n      CATEGORIAS DISPONÍVEIS:\n      "
  const PromptTail :=
    "\n\n      Por favor, responda EXATAMENTE no seguinte formato JSON:\n      {\n        \"category\": \"CATEGORIA_ESCOLHIDA\",\n        \"confidence\": 85,\n      }\n\n      Onde:\n      - category: deve ser exatamente uma das categorias listadas acima\n      - confidence: número de 0 a 100 indicando sua confiança na classificação\n    "

  /** `buildClassificationPrompt` */
  function BuildClassificationPrompt(content: string, title: Option<string>): string {
    PromptHead + TitleSection(title) + PromptContentHeader + ContentSection(content)
    + PromptCategoriesHeader + CategoriesDescription() + PromptTail
  }

  lemma {:induction false} ContainsInfix(a: string, b: string, c: string)
    ensures Contains(a + b + c, b)
  {
    assert (a + b + c)[|a|..|a| + |b|] == b;
    ContainsAt(a + b + c, b, |a|);
  }

  lemma {:induction false} JoinContainsEach(parts: seq<string>, sep: string, i: nat)
    requires i < |parts|
    ensures Contains(Join(parts, sep), parts[i])
  {
    if |parts| == 1 {
      ContainsInfix("", parts[0], "");
      assert "" + parts[0] + "" == parts[0];
    } else if i == 0 {
      ContainsInfix("", parts[0], sep + Join(parts[1..], sep));
      assert "" + parts[0] + (sep + Join(parts[1..], sep)) == Join(parts, sep);
    } else {
      JoinContainsEach(parts[1..], sep, i - 1);
      var rest := Join(parts[1..], sep);
      var k := ContainsWitness(rest, parts[i]);
      var whole := parts[0] + sep + rest;
      assert whole[|parts[0] + sep| + k..|parts[0] + sep| + k + |parts[i]|] == rest[k..k + |parts[i]|];
      ContainsAt(whole, parts[i], |parts[0] + sep| + k);
    }
  }

  /** Whatever a middle part contains, the whole contains. */
  lemma {:induction false} ContainsWithin(a: string, m: string, c: string, x: string)
    requires Contains(m, x)
    ensures Contains(a + m + c, x)
  {
    var k := ContainsWitness(m, x);
    assert (a + m + c)[|a| + k..|a| + k + |x|] == m[k..k + |x|];
    ContainsAt(a + m + c, x, |a| + k);
  }

  /** The shape of the prompt, with its fixed texts abstracted away. */
  lemma {:induction false} SevenPartsContain(h: string, t: string, ch: string, cs: string,
                                             lh: string, listing: string, tail: string, x: string)
    requires Contains(listing, x)
    ensures Contains(h + t + ch + cs + lh + listing + tail, t)
    ensures Contains(h + t + ch + cs + lh + listing + tail, cs)
    ensures Contains(h + t + ch + cs + lh + listing + tail, x)
  {
    ContainsInfix(h, t, ch + cs + lh + listing + tail);
    assert h + t + (ch + cs + lh + listing + tail) == h + t + ch + cs + lh + listing + tail;
    ContainsInfix(h + t + ch, cs, lh + listing + tail);
    assert h + t + ch + cs + (lh + listing + tail) == h + t + ch + cs + lh + listing + tail;
    ContainsWithin(h + t + ch + cs + lh, listing, tail, x);
  }

  /** The prompt embeds the first 4000 characters of the content, followed by
      " ..." exactly when the content is longer, the title line when there is a
      title, and every label, numbered 1 to 12 with its description. */
  lemma PromptEmbedsContentAndLabels(content: string, title: Option<string>, i: nat)
    requires i < |Categories|
    ensures Contains(BuildClassificationPrompt(content, title), ContentSection(content))
    ensures Contains(BuildClassificationPrompt(content, title), TitleSection(title))
    ensures Contains(BuildClassificationPrompt(content, title), CategoryLine(i + 1, Categories[i]))
  {
    var lines := CategoryLines(Categories);
    JoinContainsEach(lines, "\n", i);
    SevenPartsContain(PromptHead, TitleSection(title), PromptContentHeader, ContentSection(content),
                      PromptCategoriesHeader, CategoriesDescription(), PromptTail, lines[i]);
  }

  // ---------------------------------------------------------------------------
  // Reading the reply

  /** Index of the last `c` in `s`, or -1. */
  function LastIndexOf(s: string, c: char): (j: int)
    ensures -1 <= j < |s|
    ensures j >= 0 ==> s[j] == c
    ensures forall k :: j < k < |s| ==> s[k] != c
  {
    if s == [] then -1
    else if s[|s| - 1] == c then |s| - 1
    else LastIndexOf(s[..|s| - 1], c)
  }

  /** `response.match(/\{[\s\S]*\}/)`: from the first '{' to the last '}', when some
      '}' follows the first '{'. */
  function BraceSpan(response: string): (span: Option<string>)
    ensures span.None? <==>
      forall i, j :: 0 <= i < j < |response| && response[i] == '{' ==> response[j] != '}'
    ensures span.Some? ==> exists i, j ::
      0 <= i < j < |response| && span.value == response[i..j + 1]
      && response[i] == '{' && '{' !in response[..i]
      && response[j] == '}' && '}' !in response[j + 1..]
  {
    var i := IndexOf(response, '{');
    var j := LastIndexOf(response, '}');
    if i < j then
      assert '{' !in response[..i];
      assert '}' !in response[j + 1..];
      Some(response[i..j + 1])
    else None
  }

  /** A category that is one of the labels is kept, anything else becomes OUTROS. */
  function CoerceCategory(v: Json): (coerced: string)
    ensures coerced in Categories
    ensures coerced == Other || v == JString(coerced)
    ensures v.JString? && v.s in Categories ==> coerced == v.s
  {
    if v.JString? && v.s in Categories then v.s else Other
  }

  /** A number in [0, 100] is kept, anything else becomes 50. */
  function CoerceConfidence(v: Json): (c: real)
    ensures 0.0 <= c <= 100.0
    ensures v.JNumber? && 0.0 <= v.n <= 100.0 ==> c == v.n
    ensures !(v.JNumber? && 0.0 <= v.n <= 100.0) ==> c == 50.0
  {
    if v.JNumber? && 0.0 <= v.n <= 100.0 then v.n else 50.0
  }

  /** What `parseAIResponse` returns for a reply, given the JSON reader. */
  function Interpret(response: string, parse: string -> Option<ParsedReply>): (r: ClassificationResult)
    ensures r.category in Categories && 0.0 <= r.confidence <= 100.0
    ensures BraceSpan(response).None? ==> r == Fallback
  {
    match BraceSpan(response)
    case None => Fallback
    case Some(span) =>
      match parse(span)
      case None => Fallback
      case Some(p) => ClassificationResult(CoerceCategory(p.category), CoerceConfidence(p.confidence))
  }

  /** `parseAIResponse`, correcting the parsed object's fields in place as the code
      does. */
  method ParseAIResponse(response: string, parse: string -> Option<ParsedReply>)
    returns (r: ClassificationResult)
    ensures r == Interpret(response, parse)
    ensures r.category in Categories && 0.0 <= r.confidence <= 100.0
    ensures BraceSpan(response).None? ==> r == Fallback
    ensures BraceSpan(response).Some? && parse(BraceSpan(response).value).None? ==> r == Fallback
    ensures BraceSpan(response).Some? && parse(BraceSpan(response).value).Some? ==>
      var p := parse(BraceSpan(response).value).value;
      (p.category.JString? && p.category.s in Categories ==> r.category == p.category.s)
      && (!(p.category.JString? && p.category.s in Categories) ==> r.category == Other)
      && (p.confidence.JNumber? && 0.0 <= p.confidence.n <= 100.0 ==> r.confidence == p.confidence.n)
      && (!(p.confidence.JNumber? && 0.0 <= p.confidence.n <= 100.0) ==> r.confidence == 50.0)
  {
    var span := BraceSpan(response);
    if span.None? {
      return Fallback;
    }
    var parsed := parse(span.value);
    if parsed.None? {
      return Fallback;
    }
    var p := parsed.value;
    if !(p.category.JString? && p.category.s in Categories) {
      p := p.(category := JString(Other));
    }
    if !(p.confidence.JNumber? && 0.0 <= p.confidence.n <= 100.0) {
      p := p.(confidence := JNumber(50.0));
    }
    r := ClassificationResult(p.category.s, p.confidence.n);
  }

  /** `classifyPolicyContent`: never fails. A failed call or an empty answer gives
      OUTROS with confidence 0; any answer gives a label of the set and a
      confidence in [0, 100]. */
  function Classify(content: string, title: Option<string>, complete: string -> Completion,
                    parse: string -> Option<ParsedReply>): (r: ClassificationResult)
    ensures r.category in Categories && 0.0 <= r.confidence <= 100.0
    ensures complete(BuildClassificationPrompt(content, title)).CallFailed? ==> r == Fallback
    ensures complete(BuildClassificationPrompt(content, title)) == Replied(None) ==> r == Fallback
    ensures complete(BuildClassificationPrompt(content, title)) == Replied(Some("")) ==> r == Fallback
  {
    match complete(BuildClassificationPrompt(content, title))
    case CallFailed(_) => Fallback
    case Replied(None) => Fallback
    case Replied(Some(text)) => if text == "" then Fallback else Interpret(text, parse)
  }

  // ---------------------------------------------------------------------------
  // The batch

  datatype BatchItem = BatchItem(content: string, title: Option<string>, id: Option<string>)
  datatype BatchResult = BatchResult(category: string, confidence: real, id: Option<string>)

  /** One item of the batch: its classification, tagged with its id. */
  function ClassifyItem(item: BatchItem, complete: string -> Completion,
                        parse: string -> Option<ParsedReply>): (r: BatchResult)
    ensures r.id == item.id
    ensures r.category in Categories && 0.0 <= r.confidence <= 100.0
  {
    var c := Classify(item.content, item.title, complete, parse);
    BatchResult(c.category, c.confidence, item.id)
  }

  /** `classifyMultipleContents`: one result per item, in order, each carrying the
      item's id and that item's classification. */
  method ClassifyMultipleContents(items: seq<BatchItem>, complete: string -> Completion,
                                  parse: string -> Option<ParsedReply>)
    returns (results: seq<BatchResult>)
    ensures |results| == |items|
    ensures forall i :: 0 <= i < |items| ==> results[i] == ClassifyItem(items[i], complete, parse)
  {
    results := [];
    for k := 0 to |items|
      invariant |results| == k
      invariant forall i :: 0 <= i < k ==> results[i] == ClassifyItem(items[i], complete, parse)
    {
      results := results + [ClassifyItem(items[k], complete, parse)];
    }
  }
}
