/** The badge colour lookup that frontend/src/components/policies/policy-card.tsx
    and policy-details.tsx each declare with the same table, and the download
    file name of policy-details.tsx. */
module PolicyBadge {
  import JsObject
  import Constants

  /** The six names the components' table lists. */
  const BadgeColors: map<string, string> := map[
    "Tech Giant" := "bg-primary-light text-primary",
    "E-commerce" := "bg-accent-light text-accent",
    "Entertainment" := "bg-warning-light text-warning",
    "Financial" := "bg-destructive-light text-destructive",
    "Healthcare" := "bg-secondary text-secondary-foreground",
    "Social Media" := "bg-muted text-muted-foreground"
  ]

  const MutedColor := "bg-muted text-muted-foreground"

  /** `colors[category] || 'bg-muted text-muted-foreground'` as written, which
      also finds the members of Object.prototype. */
  function BadgeColorAsWritten(category: string): (v: JsObject.Value)
    ensures category in BadgeColors ==> v == JsObject.Own(BadgeColors[category])
    ensures category !in BadgeColors && category !in JsObject.PrototypeMembers ==> v == JsObject.Own(MutedColor)
  {
    JsObject.GetOr(BadgeColors, category, MutedColor)
  }

  /** A policy whose category is "constructor" gets the inherited function as
      its class name instead of the muted colour. */
  lemma BadgeColorFindsConstructor()
    ensures BadgeColorAsWritten("constructor") == JsObject.Inherited("constructor")
  {
  }

  /** The lookup as intended: the listed name's class, the muted class otherwise. */
  function BadgeColor(category: string): (c: string)
    ensures category in BadgeColors ==> c == BadgeColors[category]
    ensures category !in BadgeColors ==> c == MutedColor
  {
    JsObject.OwnOr(BadgeColors, category, MutedColor)
  }

  /** "Social Media" looks exactly like an unlisted name. */
  lemma SocialMediaIsMuted()
    ensures BadgeColor("Social Media") == BadgeColor("Anything else") == MutedColor
  {
  }

  /** None of the twelve categories a policy can carry is in the table, so every
      real policy gets the muted badge. */
  lemma LabelsAreMuted(category: string)
    requires category in Constants.PolicyCategories
    ensures category !in BadgeColors && category !in JsObject.PrototypeMembers
    ensures BadgeColor(category) == MutedColor
    ensures BadgeColorAsWritten(category) == JsObject.Own(MutedColor)
  {
  }

  // ---------------------------------------------------------------------------
  // The download file name

  predicate IsAsciiAlnum(c: char) {
    'a' <= c <= 'z' || 'A' <= c <= 'Z' || '0' <= c <= '9'
  }

  /** A character outside the Basic Multilingual Plane takes two UTF-16 units. */
  predicate IsAstral(c: char) {
    c as int > 0xFFFF
  }

  function LowerAscii(c: char): char {
    if 'A' <= c <= 'Z' then (c as int + 32) as char else c
  }

  /** `replace(/[^a-z0-9]/gi, '_')` then `toLowerCase()`. The pattern has no `u`
      flag, so it runs over UTF-16 units: an astral character is two units and
      becomes two underscores. */
  function Sanitize(title: string): string
  {
    if title == [] then []
    else
      (if IsAsciiAlnum(title[0]) then [LowerAscii(title[0])]
       else if IsAstral(title[0]) then "__" else "_")
      + Sanitize(title[1..])
  }

  /** The name `JSON.stringify` output is saved under. */
  function FileName(title: string): (name: string)
    ensures |name| >= 5 && name[|name| - 5..] == ".json"
  {
    Sanitize(title) + ".json"
  }

  predicate SafeChar(c: char) {
    'a' <= c <= 'z' || '0' <= c <= '9' || c == '_'
  }

  predicate Safe(s: string) {
    forall i :: 0 <= i < |s| ==> SafeChar(s[i])
  }

  /** The length JavaScript reports: UTF-16 units. */
  function Utf16Length(s: string): nat {
    if s == [] then 0 else (if IsAstral(s[0]) then 2 else 1) + Utf16Length(s[1..])
  }

  /** The sanitised name holds only lower-case letters, digits and underscores. */
  lemma {:induction false} SanitizeIsSafe(title: string)
    ensures Safe(Sanitize(title))
  {
    if title != [] {
      SanitizeIsSafe(title[1..]);
      var head := if IsAsciiAlnum(title[0]) then [LowerAscii(title[0])] else if IsAstral(title[0]) then "__" else "_";
      assert Safe(head);
      assert Sanitize(title) == head + Sanitize(title[1..]);
    }
  }

  /** Each UTF-16 unit of the title becomes one character of the name. */
  lemma {:induction false} SanitizeKeepsLength(title: string)
    ensures |Sanitize(title)| == Utf16Length(title)
  {
    if title != [] {
      SanitizeKeepsLength(title[1..]);
    }
  }

  /** A safe character is its own sanitised form. */
  lemma SafeCharKept(c: char)
    requires SafeChar(c)
    ensures Sanitize([c]) == [c]
  {
    assert [c][1..] == [];
    if c != '_' {
      assert IsAsciiAlnum(c) && LowerAscii(c) == c;
    }
  }

  /** Sanitising a sanitised name changes nothing. */
  lemma {:induction false} SanitizeFixesSafe(s: string)
    requires Safe(s)
    ensures Sanitize(s) == s
  {
    if s != [] {
      assert Safe(s[1..]) by {
        forall i | 0 <= i < |s[1..]| ensures SafeChar(s[1..][i]) {
          assert s[1..][i] == s[i + 1];
        }
      }
      SanitizeFixesSafe(s[1..]);
      SafeCharKept(s[0]);
      assert Sanitize(s) == Sanitize([s[0]]) + Sanitize(s[1..]);
      assert s == [s[0]] + s[1..];
    }
  }

  lemma SanitizeIsIdempotent(title: string)
    ensures Sanitize(Sanitize(title)) == Sanitize(title)
  {
    SanitizeIsSafe(title);
    SanitizeFixesSafe(Sanitize(title));
  }
}
