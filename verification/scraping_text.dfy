/** The text side of backend/src/modules/scraping/scraping.service.ts: choosing the
    page's title and its main text, trimming site names off the title and reducing
    the text to its meaningful sentences. The DOM is not modelled: a page is given
    as the texts the CSS selectors would yield (see `Page`). */
module ScrapingText {
  import opened Wrappers
  import opened Strings

  /** What the selectors find on a loaded page, after boilerplate elements are
      removed. `headings` holds the text of the first match of each title selector
      (`h1`, `.page-title`, ...), `candidates` the text of each content selector
      (`div[class*="privacy"]`, ..., `article`), with "" where nothing matches. */
  datatype Page = Page(titleText: string, headings: seq<string>, candidates: seq<string>, body: string)

  // ---------------------------------------------------------------------------
  // Title

  /** Heading `i` is the first whose trimmed text is not empty. */
  predicate FirstNonBlank(headings: seq<string>, i: int) {
    0 <= i < |headings| && Trim(headings[i]) != ""
    && forall j :: 0 <= j < i ==> Trim(headings[j]) == ""
  }

  /** `extractTitle`: the first heading whose trimmed text is not empty, trimmed,
      or "" when there is none. */
  function ExtractTitle(headings: seq<string>): (t: string)
    ensures t == "" <==> forall i :: 0 <= i < |headings| ==> Trim(headings[i]) == ""
  {
    if headings == [] then ""
    else if Trim(headings[0]) != "" then Trim(headings[0])
    else ExtractTitle(headings[1..])
  }

  /** A non-empty extracted title is the trimmed text of the first non-blank heading. */
  lemma {:induction false} ExtractTitleIsFirst(headings: seq<string>)
    ensures ExtractTitle(headings) != "" ==>
      exists i :: FirstNonBlank(headings, i) && ExtractTitle(headings) == Trim(headings[i])
  {
    if headings != [] {
      if Trim(headings[0]) != "" {
        assert FirstNonBlank(headings, 0);
      } else {
        var rest := headings[1..];
        ExtractTitleIsFirst(rest);
        if ExtractTitle(rest) != "" {
          var i :| FirstNonBlank(rest, i) && ExtractTitle(rest) == Trim(rest[i]);
          assert FirstNonBlank(headings, i + 1);
        }
      }
    }
  }

  /** `$('title').text().trim() || this.extractTitle($) || ''` */
  function RawTitle(page: Page): (t: string)
    ensures Trim(page.titleText) != "" ==> t == Trim(page.titleText)
    ensures Trim(page.titleText) == "" ==> t == ExtractTitle(page.headings)
  {
    if Trim(page.titleText) != "" then Trim(page.titleText) else ExtractTitle(page.headings)
  }

  /** The separators site names are cut off at: '|', '-' and the en dash. */
  const TitleSeparators: set<char> := {'|', '-', '–'}

  /** Position `k` can start the match of `/\s*<sep>\s*.*$/` once the leading
      blanks are taken: `sep` is there and, after the blanks that follow it, the
      rest of the text has no line break (`.` does not match one, and without the
      `m` flag `$` is the end of the text). */
  predicate IsCutPoint(s: string, sep: char, k: int) {
    0 <= k < |s| && s[k] == sep && NoLineTerminator(TrimStart(s[k + 1..]))
  }

  function FirstCutPoint(s: string, sep: char, from: nat): (k: Option<nat>)
    requires from <= |s|
    ensures k.Some? ==> from <= k.value < |s| && IsCutPoint(s, sep, k.value)
                        && forall j :: from <= j < k.value ==> !IsCutPoint(s, sep, j)
    ensures k.None? ==> forall j :: from <= j < |s| ==> !IsCutPoint(s, sep, j)
    decreases |s| - from
  {
    if from == |s| then None
    else if IsCutPoint(s, sep, from) then Some(from)
    else FirstCutPoint(s, sep, from + 1)
  }

  /** `s.replace(/\s*<sep>\s*.*$/, '')`. The leftmost match starts at the blanks
      before the first cut point and runs to the end, so what is left is the text
      before that point without its trailing blanks. */
  function CutAt(s: string, sep: char): (r: string)
    ensures |r| <= |s| && r == s[..|r|]
  {
    match FirstCutPoint(s, sep, 0)
    case None => s
    case Some(k) => TrimEndShape(s[..k]); TrimEnd(s[..k])
  }

  /** `cleanAndOptimizeTitle`: "" stays "", and a non-empty title never becomes ""
      because an empty cleaned title falls back to the original. */
  function CleanTitle(title: string): (r: string)
    ensures title == "" <==> r == ""
    ensures r == title || r == Trim(CutAt(CutAt(CutAt(title, '|'), '-'), '–'))
  {
    if title == "" then ""
    else
      var cleaned := Trim(CutAt(CutAt(CutAt(title, '|'), '-'), '–'));
      if cleaned != "" then cleaned else title
  }

  /** Index of the first character of `cs` in `s`, or `|s|`. */
  function FirstOf(s: string, cs: set<char>): (i: nat)
    ensures i <= |s|
    ensures i < |s| ==> s[i] in cs
    ensures forall j :: 0 <= j < i ==> s[j] !in cs
  {
    if s == [] then 0
    else if s[0] in cs then 0
    else 1 + FirstOf(s[1..], cs)
  }

  /** The text before the first character of `cs`. */
  function Before(s: string, cs: set<char>): string {
    s[..FirstOf(s, cs)]
  }

  lemma FirstOfUnique(s: string, cs: set<char>, i: nat)
    requires i <= |s|
    requires i < |s| ==> s[i] in cs
    requires forall j :: 0 <= j < i ==> s[j] !in cs
    ensures FirstOf(s, cs) == i
  {
  }

  lemma BeforeOfBefore(s: string, a: set<char>, b: set<char>)
    ensures Before(Before(s, a), b) == Before(s, a + b)
  {
    var i := FirstOf(s, a);
    var j := FirstOf(s[..i], b);
    FirstOfUnique(s, a + b, j);
  }

  /** On a single line a cut point is just an occurrence of the separator. */
  lemma CutAtSingleLine(s: string, sep: char)
    requires NoLineTerminator(s)
    ensures TrimEnd(CutAt(s, sep)) == TrimEnd(Before(s, {sep}))
  {
    forall k | 0 <= k < |s| && s[k] == sep
      ensures IsCutPoint(s, sep, k)
    {
      var rest := s[k + 1..];
      TrimStartShape(rest);
      assert forall i :: 0 <= i < |TrimStart(rest)| ==> TrimStart(rest)[i] == s[k + 1 + |rest| - |TrimStart(rest)| + i];
    }
    match FirstCutPoint(s, sep, 0)
    case None =>
      FirstOfUnique(s, {sep}, |s|);
    case Some(k) =>
      FirstOfUnique(s, {sep}, k);
      TrimEndIdempotent(s[..k]);
  }

  /** Cutting before non-blank characters commutes with dropping trailing blanks. */
  lemma BeforeTrimEnd(s: string, cs: set<char>)
    requires forall c :: c in cs ==> !IsWhitespace(c)
    ensures TrimEnd(Before(TrimEnd(s), cs)) == TrimEnd(Before(s, cs))
  {
    var t := TrimEnd(s);
    var m := |t|;
    TrimEndShape(s);
    assert t == s[..m];
    var i := FirstOf(s, cs);
    if i < m {
      FirstOfUnique(t, cs, i);
      assert Before(t, cs) == t[..i] == s[..i] == Before(s, cs);
    } else {
      assert forall j :: m <= j < |s| ==> IsWhitespace(s[j]) && s[j] !in cs;
      assert i == |s|;
      assert Before(s, cs) == s;
      FirstOfUnique(t, cs, m);
      assert Before(t, cs) == t;
      TrimEndIdempotent(s);
    }
  }

  /** For a title on one line, the cleaned title is the text before the first
      '|', '-' or '–', trimmed, or the whole title when that text is blank. */
  lemma {:induction false} CleanTitleSingleLine(title: string)
    requires NoLineTerminator(title)
    ensures title != "" ==>
      CleanTitle(title) == if Trim(Before(title, TitleSeparators)) != ""
                           then Trim(Before(title, TitleSeparators))
                           else title
  {
    var s1 := CutAt(title, '|');
    var s2 := CutAt(s1, '-');
    var s3 := CutAt(s2, '–');
    CutAtSingleLine(title, '|');
    CutAtSingleLine(s1, '-');
    CutAtSingleLine(s2, '–');
    // TrimEnd(s3) == TrimEnd(Before(s2, {'–'})) == TrimEnd(Before(TrimEnd(s2), {'–'}))
    BeforeTrimEnd(s2, {'–'});
    BeforeTrimEnd(Before(s1, {'-'}), {'–'});
    BeforeOfBefore(s1, {'-'}, {'–'});
    BeforeTrimEnd(s1, {'-', '–'});
    BeforeTrimEnd(Before(title, {'|'}), {'-', '–'});
    BeforeOfBefore(title, {'|'}, {'-', '–'});
    assert {'|'} + {'-', '–'} == TitleSeparators;
    assert {'-'} + {'–'} == {'-', '–'};
    TrimOfTrimEnd(s3);
    TrimOfTrimEnd(Before(title, TitleSeparators));
  }

  // ---------------------------------------------------------------------------
  // Main text

  /** The content loop's choice: a candidate replaces the current text when its
      trimmed text is longer than it and longer than 500 characters. */
  function Chosen(candidates: seq<string>): (c: string)
    ensures c == "" || |c| > MinCandidate
  {
    if candidates == [] then ""
    else
      var before := Chosen(candidates[..|candidates| - 1]);
      var t := Trim(candidates[|candidates| - 1]);
      if |t| > |before| && |t| > MinCandidate then t else before
  }

  /** Candidate `i` is longer than 500 once trimmed, strictly longer than every
      earlier one and at least as long as every later one. */
  predicate IsLongest(candidates: seq<string>, i: int) {
    0 <= i < |candidates| && |Trim(candidates[i])| > MinCandidate
    && (forall j :: 0 <= j < i ==> |Trim(candidates[j])| < |Trim(candidates[i])|)
    && (forall j :: i < j < |candidates| ==> |Trim(candidates[j])| <= |Trim(candidates[i])|)
  }

  /** No trimmed candidate is longer than 500 characters. */
  predicate AllShort(candidates: seq<string>) {
    forall j :: 0 <= j < |candidates| ==> |Trim(candidates[j])| <= MinCandidate
  }

  /** Nothing is chosen exactly when every candidate is 500 characters or fewer. */
  lemma {:induction false} ChosenEmpty(candidates: seq<string>)
    ensures Chosen(candidates) == "" <==> AllShort(candidates)
  {
    if candidates != [] {
      var n := |candidates|;
      var init := candidates[..n - 1];
      ChosenEmpty(init);
      if AllShort(init) && |Trim(candidates[n - 1])| <= MinCandidate {
        forall j | 0 <= j < n
          ensures |Trim(candidates[j])| <= MinCandidate
        {
          if j < n - 1 {
            assert candidates[j] == init[j];
          }
        }
      }
      if AllShort(candidates) {
        forall j | 0 <= j < n - 1
          ensures |Trim(init[j])| <= MinCandidate
        {
          assert candidates[j] == init[j];
        }
      }
    }
  }

  /** A longest candidate stays the longest when a candidate no longer than it is
      added at the end. */
  lemma LongestKept(candidates: seq<string>, i: int)
    requires |candidates| >= 1 && IsLongest(candidates[..|candidates| - 1], i)
    requires |Trim(candidates[|candidates| - 1])| <= |Trim(candidates[i])|
    ensures IsLongest(candidates, i)
  {
    var init := candidates[..|candidates| - 1];
    forall j | 0 <= j < |init|
      ensures candidates[j] == init[j]
    {
    }
  }

  /** The last candidate is the longest when it is above 500 and longer than every
      earlier one. */
  lemma LongestLast(candidates: seq<string>, init: seq<string>, bound: nat)
    requires |candidates| >= 1 && init == candidates[..|candidates| - 1]
    requires |Trim(candidates[|candidates| - 1])| > MinCandidate
    requires |Trim(candidates[|candidates| - 1])| > bound
    requires forall j :: 0 <= j < |init| ==> |Trim(init[j])| <= bound
    ensures IsLongest(candidates, |candidates| - 1)
  {
    forall j | 0 <= j < |init|
      ensures candidates[j] == init[j]
    {
    }
  }

  /** The chosen text, when there is one, is the trimmed candidate of greatest
      length above 500, the earliest one among equals. */
  lemma {:induction false} ChosenIsLongest(candidates: seq<string>)
    requires Chosen(candidates) != ""
    ensures exists i :: IsLongest(candidates, i) && Chosen(candidates) == Trim(candidates[i])
  {
    var n := |candidates|;
    var init := candidates[..n - 1];
    var t := Trim(candidates[n - 1]);
    if Chosen(init) != "" {
      ChosenIsLongest(init);
      var i :| IsLongest(init, i) && Chosen(init) == Trim(init[i]);
      assert candidates[i] == init[i];
      if |t| > |Chosen(init)| && |t| > MinCandidate {
        LongestLast(candidates, init, |Chosen(init)|);
      } else {
        LongestKept(candidates, i);
      }
    } else {
      ChosenEmpty(init);
      LongestLast(candidates, init, MinCandidate);
    }
  }

  /** The loop of `extractPolicyData` over the content candidates. */
  method ChooseCandidate(candidates: seq<string>) returns (content: string)
    ensures content == Chosen(candidates)
  {
    content := "";
    for k := 0 to |candidates|
      invariant content == Chosen(candidates[..k])
    {
      assert candidates[..k + 1][..k] == candidates[..k];
      var elementText := Trim(candidates[k]);
      if |elementText| > |content| && |elementText| > 500 {
        content := elementText;
      }
    }
    assert candidates[..|candidates|] == candidates;
  }

  const MinCandidate := 500
  const MinContent := 1000

  /** The text kept for a page: the chosen candidate, or the trimmed body when
      there is none or it is shorter than 1000 characters. */
  function MainText(page: Page): (t: string)
    ensures Chosen(page.candidates) == "" || |Chosen(page.candidates)| < MinContent ==> t == Trim(page.body)
    ensures |Chosen(page.candidates)| >= MinContent ==> t == Chosen(page.candidates)
  {
    var content := Chosen(page.candidates);
    if content == "" || |content| < MinContent then Trim(page.body) else content
  }

  // ---------------------------------------------------------------------------
  // Content cleanup

  /** The character classes the cleanup collapses: `\s`, `\n` and `\t`. */
  datatype CharClass = Blank | Newline | Tab

  predicate InClass(cls: CharClass, c: char) {
    match cls
    case Blank => IsWhitespace(c)
    case Newline => c == '\n'
    case Tab => c == '\t'
  }

  /** The longest prefix of `s` made of characters of the class is dropped. */
  function DropRun(s: string, cls: CharClass): (r: string)
    ensures |r| <= |s|
    ensures r == [] || !InClass(cls, r[0])
  {
    if s != [] && InClass(cls, s[0]) then DropRun(s[1..], cls) else s
  }

  /** No character of `s` is in the class. */
  predicate NoneIn(s: string, cls: CharClass) {
    forall i :: 0 <= i < |s| ==> !InClass(cls, s[i])
  }

  /** `s.replace(/[class]+/g, rep)`: every maximal run of characters of the class
      becomes the single character `rep`; a text without such characters is kept. */
  function ReplaceRuns(s: string, cls: CharClass, rep: char): (r: string)
    ensures s != [] ==> r != [] && r[0] == (if InClass(cls, s[0]) then rep else s[0])
    ensures forall i :: 0 <= i < |r| ==> r[i] == rep || !InClass(cls, r[i])
    ensures NoneIn(s, cls) ==> r == s
    decreases |s|
  {
    if s == [] then []
    else if InClass(cls, s[0]) then [rep] + ReplaceRuns(DropRun(s[1..], cls), cls, rep)
    else [s[0]] + ReplaceRuns(s[1..], cls, rep)
  }

  /** After `ReplaceRuns`, no two class characters are adjacent when `rep` is one. */
  lemma {:induction false} ReplaceRunsNoAdjacent(s: string, cls: CharClass, rep: char)
    requires InClass(cls, rep)
    ensures forall i :: 0 <= i < |ReplaceRuns(s, cls, rep)| - 1 ==>
      !(InClass(cls, ReplaceRuns(s, cls, rep)[i]) && InClass(cls, ReplaceRuns(s, cls, rep)[i + 1]))
    decreases |s|
  {
    if s != [] {
      var r := ReplaceRuns(s, cls, rep);
      var rest := if InClass(cls, s[0]) then DropRun(s[1..], cls) else s[1..];
      var tail := ReplaceRuns(rest, cls, rep);
      ReplaceRunsNoAdjacent(rest, cls, rep);
      assert r == [r[0]] + tail;
      forall i | 0 <= i < |r| - 1
        ensures !(InClass(cls, r[i]) && InClass(cls, r[i + 1]))
      {
        assert r[i + 1] == tail[i];
        if i > 0 {
          assert r[i] == tail[i - 1];
        }
      }
    }
  }

  /** The three replacements and the trim at the start of `cleanAndOptimizeContent`:
      afterwards the only blank character left is the space. */
  function Normalise(content: string): (r: string)
    ensures forall i :: 0 <= i < |r| ==> r[i] == ' ' || !IsWhitespace(r[i])
  {
    var spaced := ReplaceRuns(content, Blank, ' ');
    TrimShape(spaced);
    assert NoneIn(spaced, Newline) && NoneIn(spaced, Tab);
    Trim(ReplaceRuns(ReplaceRuns(spaced, Newline, '\n'), Tab, ' '))
  }

  /** Line breaks and tabs are whitespace, so the second and third replacements
      find nothing left to do. */
  lemma NormaliseIsCollapse(content: string)
    ensures Normalise(content) == Trim(ReplaceRuns(content, Blank, ' '))
  {
    var spaced := ReplaceRuns(content, Blank, ' ');
    assert NoneIn(spaced, Newline) && NoneIn(spaced, Tab);
  }

  /** The boilerplate patterns applied in order, each as a string function. */
  function RemoveAll(s: string, removers: seq<string -> string>): string
    decreases |removers|
  {
    if removers == [] then s else RemoveAll(removers[0](s), removers[1..])
  }

  /** The characters `split(/[.!?]/)` cuts at. */
  const SentenceEnds: set<char> := {'.', '!', '?'}

  /** The sentence filter: more than 50 characters once trimmed and none of
      "javascript", "error" and "404" in its lower-cased text. */
  predicate Meaningful(sentence: string) {
    var t := Trim(sentence);
    |t| > 50
    && !Contains(Lower(t), "javascript")
    && !Contains(Lower(t), "error")
    && !Contains(Lower(t), "404")
  }

  function FilterMeaningful(sentences: seq<string>): (kept: seq<string>)
    ensures forall k :: 0 <= k < |kept| ==> Meaningful(kept[k]) && kept[k] in sentences
    ensures forall k :: 0 <= k < |sentences| && Meaningful(sentences[k]) ==> sentences[k] in kept
  {
    if sentences == [] then []
    else
      var rest := FilterMeaningful(sentences[1..]);
      if Meaningful(sentences[0]) then [sentences[0]] + rest else rest
  }

  /** `cleanAndOptimizeContent`, given the boilerplate removers. */
  function CleanedText(content: string, removers: seq<string -> string>): string {
    if content == "" then ""
    else
      var sentences := Split(RemoveAll(Normalise(content), removers), SentenceEnds);
      Trim(Join(FilterMeaningful(sentences), ". "))
  }

  /** `cleanAndOptimizeContent`, reassigning the text once per pattern. */
  method CleanContent(content: string, removers: seq<string -> string>) returns (r: string)
    ensures r == CleanedText(content, removers)
  {
    if content == "" {
      return "";
    }
    var cleaned := Normalise(content);
    ghost var start := cleaned;
    for k := 0 to |removers|
      invariant RemoveAll(cleaned, removers[k..]) == RemoveAll(start, removers)
    {
      assert removers[k..][1..] == removers[k + 1..];
      cleaned := removers[k](cleaned);
    }
    var sentences := Split(cleaned, SentenceEnds);
    var meaningful := FilterMeaningful(sentences);
    r := Trim(Join(meaningful, ". "));
  }

  /** Only characters of the parts and separators survive in a trimmed join. */
  lemma TrimJoinAvoids(parts: seq<string>, sep: string, c: char)
    requires c !in sep
    requires forall k :: 0 <= k < |parts| ==> c !in parts[k]
    ensures c !in Trim(Join(parts, sep))
  {
    JoinAvoids(parts, sep, c);
    var j := Join(parts, sep);
    var t := Trim(j);
    TrimShape(j);
    assert forall i :: 0 <= i < |t| ==> t[i] in j;
  }

  /** The cleaned text holds no '!' and no '?': the split removed them all. */
  lemma CleanedHasNoBangOrQuestion(content: string, removers: seq<string -> string>)
    ensures '!' !in CleanedText(content, removers)
    ensures '?' !in CleanedText(content, removers)
  {
    if content != "" {
      var sentences := Split(RemoveAll(Normalise(content), removers), SentenceEnds);
      var kept := FilterMeaningful(sentences);
      forall k | 0 <= k < |kept|
        ensures '!' !in kept[k] && '?' !in kept[k]
      {
        var m :| 0 <= m < |sentences| && sentences[m] == kept[k];
      }
      TrimJoinAvoids(kept, ". ", '!');
      TrimJoinAvoids(kept, ". ", '?');
    }
  }

  /** The parts of a sentence join: free of dots and not blank. */
  predicate Units(parts: seq<string>) {
    forall k :: 0 <= k < |parts| ==> Avoids(parts[k], {'.'}) && Trim(parts[k]) != ""
  }

  lemma NoDotTrims(s: string)
    requires Avoids(s, {'.'})
    ensures Avoids(TrimStart(s), {'.'}) && Avoids(TrimEnd(s), {'.'}) && Avoids(Trim(s), {'.'})
  {
    TrimStartShape(s);
    TrimEndShape(s);
    TrimEndShape(TrimStart(s));
  }

  /** Splitting a join whose separator is a dot and then dot-free text `w` gives
      the parts back, each after the first with `w` in front of it. */
  lemma {:induction false} SplitJoinAtDot(pre: string, parts: seq<string>, w: string)
    requires |parts| >= 1 && Avoids(pre, {'.'}) && Avoids(w, {'.'})
    requires forall k :: 0 <= k < |parts| ==> Avoids(parts[k], {'.'})
    ensures |Split(pre + Join(parts, ['.'] + w), {'.'})| == |parts|
    ensures Split(pre + Join(parts, ['.'] + w), {'.'})[0] == pre + parts[0]
    ensures forall k :: 1 <= k < |parts| ==> Split(pre + Join(parts, ['.'] + w), {'.'})[k] == w + parts[k]
    decreases |parts|
  {
    if |parts| == 1 {
      SplitNoSeparator(pre + parts[0], {'.'});
    } else {
      var sep := ['.'] + w;
      var rest := Join(parts[1..], sep);
      var x := pre + Join(parts, sep);
      assert x == (pre + parts[0]) + ['.'] + (w + rest);
      SplitAtSeparator(pre + parts[0], '.', w + rest, {'.'});
      SplitJoinAtDot(w, parts[1..], w);
      var later := Split(w + rest, {'.'});
      assert Split(x, {'.'}) == [pre + parts[0]] + later;
      forall k | 1 <= k < |parts|
        ensures Split(x, {'.'})[k] == w + parts[k]
      {
        assert Split(x, {'.'})[k] == later[k - 1];
        assert parts[1..][k - 1] == parts[k];
      }
    }
  }

  /** Dropping the trailing blanks of a join drops those of its last part, when
      that part is not all blank. */
  lemma {:induction false} TrimEndJoin(parts: seq<string>, sep: string)
    requires |parts| >= 1 && TrimEnd(parts[|parts| - 1]) != []
    ensures TrimEnd(Join(parts, sep)) == Join(parts[..|parts| - 1] + [TrimEnd(parts[|parts| - 1])], sep)
    ensures TrimEnd(Join(parts, sep)) != []
    decreases |parts|
  {
    var n := |parts|;
    if n == 1 {
      assert parts[..0] + [TrimEnd(parts[0])] == [TrimEnd(parts[0])];
    } else {
      var tl := parts[1..];
      assert tl[|tl| - 1] == parts[n - 1];
      TrimEndJoin(tl, sep);
      var rest := Join(tl, sep);
      assert Join(parts, sep) == (parts[0] + sep) + rest;
      TrimEndAppend(parts[0] + sep, rest);
      var tail := tl[..n - 2] + [TrimEnd(tl[n - 2])];
      JoinCons(parts[0], tail, sep);
      assert parts[..n - 1] + [TrimEnd(parts[n - 1])] == [parts[0]] + tail;
    }
  }

  /** Trimming text around a separator, when neither side is all blank, trims the
      start of the left side and the end of the right side only. */
  lemma TrimAround(a: string, sep: string, rest: string)
    requires TrimStart(a) != [] && TrimEnd(rest) != []
    ensures Trim(a + sep + rest) == TrimStart(a) + sep + TrimEnd(rest)
  {
    assert a + sep + rest == a + (sep + rest);
    TrimStartAppend(a, sep + rest);
    assert TrimStart(a) + (sep + rest) == (TrimStart(a) + sep) + rest;
    TrimEndAppend(TrimStart(a) + sep, rest);
  }

  /** Trimming a join of several parts, the first not all blank at its start and
      the last not all blank at its end, trims only those two ends. */
  lemma TrimJoin(parts: seq<string>, sep: string)
    requires |parts| > 1 && TrimStart(parts[0]) != [] && TrimEnd(parts[|parts| - 1]) != []
    ensures Trim(Join(parts, sep)) ==
      Join([TrimStart(parts[0])] + parts[1..|parts| - 1] + [TrimEnd(parts[|parts| - 1])], sep)
  {
    var n := |parts|;
    var tl := parts[1..];
    assert tl[|tl| - 1] == parts[n - 1];
    TrimEndJoin(tl, sep);
    var rest := Join(tl, sep);
    TrimAround(parts[0], sep, rest);
    var tail := tl[..n - 2] + [TrimEnd(tl[n - 2])];
    JoinCons(TrimStart(parts[0]), tail, sep);
    assert [TrimStart(parts[0])] + tail == [TrimStart(parts[0])] + parts[1..n - 1] + [TrimEnd(parts[n - 1])];
  }

  /** The end trims of a join's first and last parts keep them dot-free with the
      same trimmed text. */
  lemma TrimmedEnds(parts: seq<string>)
    requires |parts| > 1 && Units(parts)
    ensures var q := [TrimStart(parts[0])] + parts[1..|parts| - 1] + [TrimEnd(parts[|parts| - 1])];
      |q| == |parts| && forall k :: 0 <= k < |q| ==> Avoids(q[k], {'.'}) && Trim(q[k]) == Trim(parts[k])
  {
    var n := |parts|;
    var q := [TrimStart(parts[0])] + parts[1..n - 1] + [TrimEnd(parts[n - 1])];
    forall k | 0 <= k < n
      ensures Avoids(q[k], {'.'}) && Trim(q[k]) == Trim(parts[k])
    {
      if k == 0 {
        NoDotTrims(parts[0]);
        TrimOfTrimStart(parts[0]);
      } else if k == n - 1 {
        NoDotTrims(parts[n - 1]);
        TrimOfTrimEnd(parts[n - 1]);
      } else {
        assert q[k] == parts[k];
      }
    }
  }

  /** A blank prefix on every piece but the first leaves the trimmed pieces alone. */
  lemma TrimPrefixed(units: seq<string>, q: seq<string>, w: string)
    requires AllWhitespace(w) && |units| == |q| >= 1 && units[0] == q[0]
    requires forall k :: 1 <= k < |q| ==> units[k] == w + q[k]
    ensures forall k :: 0 <= k < |q| ==> Trim(units[k]) == Trim(q[k])
  {
    forall k | 1 <= k < |q|
      ensures Trim(units[k]) == Trim(q[k])
    {
      TrimBlankPrefix(w, q[k]);
    }
  }

  /** Cutting the trimmed join of sentence parts at its dots gives one piece per
      part, with that part's trimmed text. */
  lemma SplitTrimmedJoin(parts: seq<string>, w: string)
    requires |parts| >= 1 && Units(parts) && Avoids(w, {'.'}) && AllWhitespace(w)
    ensures |Split(Trim(Join(parts, ['.'] + w)), {'.'})| == |parts|
    ensures forall k :: 0 <= k < |parts| ==>
      Trim(Split(Trim(Join(parts, ['.'] + w)), {'.'})[k]) == Trim(parts[k])
  {
    var sep := ['.'] + w;
    var n := |parts|;
    if n == 1 {
      SplitTrimmedSingle(parts[0]);
    } else {
      TrimNonEmpty(parts[0]);
      TrimNonEmpty(parts[n - 1]);
      TrimJoin(parts, sep);
      TrimmedEnds(parts);
      var q := [TrimStart(parts[0])] + parts[1..n - 1] + [TrimEnd(parts[n - 1])];
      SplitOfJoin(q, w);
      var units := Split(Join(q, sep), {'.'});
      forall k | 0 <= k < n
        ensures Trim(units[k]) == Trim(parts[k])
      {
        assert Trim(units[k]) == Trim(q[k]);
      }
    }
  }

  /** Cutting a join of dot-free parts at its dots gives one piece per part, with
      that part's trimmed text. */
  lemma SplitOfJoin(q: seq<string>, w: string)
    requires |q| >= 1 && Avoids(w, {'.'}) && AllWhitespace(w)
    requires forall k :: 0 <= k < |q| ==> Avoids(q[k], {'.'})
    ensures |Split(Join(q, ['.'] + w), {'.'})| == |q|
    ensures forall k :: 0 <= k < |q| ==> Trim(Split(Join(q, ['.'] + w), {'.'})[k]) == Trim(q[k])
  {
    assert "" + Join(q, ['.'] + w) == Join(q, ['.'] + w);
    SplitJoinAtDot("", q, w);
    TrimPrefixed(Split(Join(q, ['.'] + w), {'.'}), q, w);
  }

  /** A single dot-free part, trimmed, is one piece. */
  lemma SplitTrimmedSingle(p: string)
    requires Avoids(p, {'.'})
    ensures Split(Trim(p), {'.'}) == [Trim(p)] && Trim(Trim(p)) == Trim(p)
  {
    NoDotTrims(p);
    SplitNoSeparator(Trim(p), {'.'});
    TrimIdempotent(p);
  }

  /** Every unit of the cleaned text between dots, trimmed, is a meaningful
      sentence: longer than 50 characters and free of the three banned words. */
  lemma CleanedUnitsAreMeaningful(content: string, removers: seq<string -> string>)
    ensures CleanedText(content, removers) != "" ==>
      forall k :: 0 <= k < |Split(CleanedText(content, removers), {'.'})| ==>
        Meaningful(Split(CleanedText(content, removers), {'.'})[k])
  {
    var r := CleanedText(content, removers);
    if r != "" {
      var sentences := Split(RemoveAll(Normalise(content), removers), SentenceEnds);
      var kept := FilterMeaningful(sentences);
      assert r == Trim(Join(kept, ". "));
      forall k | 0 <= k < |kept|
        ensures Avoids(kept[k], {'.'}) && Trim(kept[k]) != ""
      {
        var m :| 0 <= m < |sentences| && sentences[m] == kept[k];
      }
      assert ". " == ['.'] + " ";
      SplitTrimmedJoin(kept, " ");
      var units := Split(r, {'.'});
      forall k | 0 <= k < |units|
        ensures Meaningful(units[k])
      {
        assert Trim(units[k]) == Trim(kept[k]);
      }
    }
  }
}
