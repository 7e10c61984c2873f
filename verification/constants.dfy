/** frontend/src/lib/constants.ts: the client's copy of the twelve labels, the
    badge colour of each, and the colour lookup with its fallback. */
module Constants {
  import JsObject
  import Classification

  /** `POLICY_CATEGORIES` */
  const PolicyCategories: seq<string> := [
    "DADOS PESSOAIS GERAIS",
    "DADOS FINANCEIROS",
    "DADOS LOCALIZACAO",
    "COOKIES TRACKING",
    "MARKETING PUBLICIDADE",
    "COMPARTILHAMENTO TERCEIROS",
    "SEGURANCA PROTECAO",
    "DIREITOS USUARIO",
    "RETENCAO DADOS",
    "MENORES IDADE",
    "TRANSFERENCIA INTERNACIONAL",
    "OUTROS"
  ]

  /** `POLICY_CATEGORIES_ARRAY`: the spread copy the enum schemas take. */
  function CategoriesArray(): (a: seq<string>)
    ensures |a| == |PolicyCategories|
    ensures forall i :: 0 <= i < |a| ==> a[i] == PolicyCategories[i]
  {
    seq(|PolicyCategories|, i requires 0 <= i < |PolicyCategories| => PolicyCategories[i])
  }

  /** `CATEGORY_COLORS` */
  const CategoryColors: map<string, string> := map[
    "DADOS PESSOAIS GERAIS" := "bg-blue-100 text-blue-800 dark:bg-blue-900 dark:text-blue-300",
    "DADOS FINANCEIROS" := "bg-green-100 text-green-800 dark:bg-green-900 dark:text-green-300",
    "DADOS LOCALIZACAO" := "bg-purple-100 text-purple-800 dark:bg-purple-900 dark:text-purple-300",
    "COOKIES TRACKING" := "bg-orange-100 text-orange-800 dark:bg-orange-900 dark:text-orange-300",
    "MARKETING PUBLICIDADE" := "bg-pink-100 text-pink-800 dark:bg-pink-900 dark:text-pink-300",
    "COMPARTILHAMENTO TERCEIROS" := "bg-red-100 text-red-800 dark:bg-red-900 dark:text-red-300",
    "SEGURANCA PROTECAO" := "bg-emerald-100 text-emerald-800 dark:bg-emerald-900 dark:text-emerald-300",
    "DIREITOS USUARIO" := "bg-indigo-100 text-indigo-800 dark:bg-indigo-900 dark:text-indigo-300",
    "RETENCAO DADOS" := "bg-yellow-100 text-yellow-800 dark:bg-yellow-900 dark:text-yellow-300",
    "MENORES IDADE" := "bg-rose-100 text-rose-800 dark:bg-rose-900 dark:text-rose-300",
    "TRANSFERENCIA INTERNACIONAL" := "bg-cyan-100 text-cyan-800 dark:bg-cyan-900 dark:text-cyan-300",
    "OUTROS" := "bg-gray-100 text-gray-800 dark:bg-gray-900 dark:text-gray-300"
  ]

  const OtherColor := "bg-gray-100 text-gray-800 dark:bg-gray-900 dark:text-gray-300"

  /** The client's labels are the classifier's labels, in the same order. */
  lemma LabelsMatchClassifier()
    ensures PolicyCategories == Classification.Categories
    ensures |PolicyCategories| == 12 && "OUTROS" in PolicyCategories
    ensures forall i, j :: 0 <= i < j < |PolicyCategories| ==> PolicyCategories[i] != PolicyCategories[j]
  {
  }

  /** Every label has a colour, and nothing else does. */
  lemma ColorsCoverLabels()
    ensures forall c :: c in CategoryColors <==> c in PolicyCategories
    ensures CategoryColors["OUTROS"] == OtherColor
  {
  }

  /** `getCategoryColor` as written: `CATEGORY_COLORS[category] || CATEGORY_COLORS['OUTROS']`,
      which also finds the members of Object.prototype. */
  function CategoryColorAsWritten(category: string): (v: JsObject.Value)
    ensures category in CategoryColors ==> v == JsObject.Own(CategoryColors[category])
    ensures category !in CategoryColors && category !in JsObject.PrototypeMembers ==> v == JsObject.Own(OtherColor)
  {
    JsObject.GetOr(CategoryColors, category, OtherColor)
  }

  /** "constructor" is no label, yet the as-written lookup yields the inherited
      `Object` function instead of the OUTROS colour. */
  lemma CategoryColorFindsConstructor()
    ensures "constructor" !in PolicyCategories
    ensures CategoryColorAsWritten("constructor") == JsObject.Inherited("constructor")
  {
  }

  /** `getCategoryColor` with the own-property lookup it intends: the label's own
      colour, the OUTROS colour for any other string. */
  function CategoryColor(category: string): (c: string)
    ensures category in PolicyCategories ==> c == CategoryColors[category]
    ensures category !in PolicyCategories ==> c == OtherColor
  {
    ColorsCoverLabels();
    JsObject.OwnOr(CategoryColors, category, OtherColor)
  }
}
