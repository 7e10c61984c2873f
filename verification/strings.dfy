/** The pieces of JavaScript's string library that the modelled code relies on:
    the `\s` whitespace class and `trim`, ASCII case folding, substring search,
    `split` on a character class, `join`, number printing and the code-unit
    order used by `Array.prototype.sort`. Strings are sequences of `char`. */
module Strings {

  /** JavaScript's `\s` class, which is also the set `String.prototype.trim` removes. */
  predicate IsWhitespace(c: char) {
    var n := c as int;
    n == 0x09 || n == 0x0A || n == 0x0B || n == 0x0C || n == 0x0D || n == 0x20
    || n == 0xA0 || n == 0x1680 || (0x2000 <= n <= 0x200A) || n == 0x2028
    || n == 0x2029 || n == 0x202F || n == 0x205F || n == 0x3000 || n == 0xFEFF
  }

  /** The characters that `.` in a regular expression does not match. */
  predicate IsLineTerminator(c: char) {
    var n := c as int;
    n == 0x0A || n == 0x0D || n == 0x2028 || n == 0x2029
  }

  predicate NoLineTerminator(s: string) {
    forall i :: 0 <= i < |s| ==> !IsLineTerminator(s[i])
  }

  predicate AllWhitespace(s: string) {
    forall i :: 0 <= i < |s| ==> IsWhitespace(s[i])
  }

  /** `s.trimStart()` */
  function TrimStart(s: string): (r: string)
    ensures |r| <= |s|
  {
    if s != [] && IsWhitespace(s[0]) then TrimStart(s[1..]) else s
  }

  /** `s.trimEnd()` */
  function TrimEnd(s: string): (r: string)
    ensures |r| <= |s|
  {
    if s != [] && IsWhitespace(s[|s| - 1]) then TrimEnd(s[..|s| - 1]) else s
  }

  /** `s.trim()` */
  function Trim(s: string): (r: string)
    ensures |r| <= |s|
  {
    TrimEnd(TrimStart(s))
  }

  /** `trimStart` drops a blank prefix and keeps the rest, which starts with a
      non-blank character when it is not empty. */
  lemma {:induction false} TrimStartShape(s: string)
    ensures TrimStart(s) == s[|s| - |TrimStart(s)|..]
    ensures TrimStart(s) == [] || !IsWhitespace(TrimStart(s)[0])
    ensures AllWhitespace(s[..|s| - |TrimStart(s)|])
  {
    if s != [] && IsWhitespace(s[0]) {
      TrimStartShape(s[1..]);
      var k := |s| - |TrimStart(s)|;
      assert s[1..][..k - 1] == s[1..k];
      assert s[1..][k - 1..] == s[k..];
    }
  }

  /** `trimEnd` drops a blank suffix and keeps the rest, which ends with a
      non-blank character when it is not empty. */
  lemma {:induction false} TrimEndShape(s: string)
    ensures TrimEnd(s) == s[..|TrimEnd(s)|]
    ensures TrimEnd(s) == [] || !IsWhitespace(TrimEnd(s)[|TrimEnd(s)| - 1])
    ensures AllWhitespace(s[|TrimEnd(s)|..])
  {
    if s != [] && IsWhitespace(s[|s| - 1]) {
      TrimEndShape(s[..|s| - 1]);
      var k := |TrimEnd(s)|;
      assert s[..|s| - 1][k..] + [s[|s| - 1]] == s[k..];
    }
  }

  /** `trim` keeps an infix of the text that neither starts nor ends blank. */
  lemma TrimShape(s: string)
    ensures Trim(s) == [] || (!IsWhitespace(Trim(s)[0]) && !IsWhitespace(Trim(s)[|Trim(s)| - 1]))
    ensures forall i :: 0 <= i < |Trim(s)| ==> Trim(s)[i] == s[|s| - |TrimStart(s)| + i]
  {
    TrimStartShape(s);
    TrimEndShape(TrimStart(s));
  }

  lemma {:induction false} TrimAllWhitespace(w: string)
    requires AllWhitespace(w)
    ensures TrimStart(w) == [] && TrimEnd(w) == []
  {
    if w != [] {
      TrimAllWhitespace(w[1..]);
      TrimAllWhitespace(w[..|w| - 1]);
    }
  }

  lemma TrimStartIdempotent(s: string)
    ensures TrimStart(TrimStart(s)) == TrimStart(s)
  {
    TrimStartShape(s);
  }

  lemma TrimEndIdempotent(s: string)
    ensures TrimEnd(TrimEnd(s)) == TrimEnd(s)
  {
    TrimEndShape(s);
  }

  /** Leading whitespace of a concatenation: past `y` only when `y` is all blank. */
  lemma {:induction false} TrimStartAppend(y: string, z: string)
    ensures TrimStart(y + z) == if TrimStart(y) == [] then TrimStart(z) else TrimStart(y) + z
    decreases |y|
  {
    if y == [] {
      assert y + z == z;
    } else if IsWhitespace(y[0]) {
      assert (y + z)[0] == y[0];
      assert (y + z)[1..] == y[1..] + z;
      assert TrimStart(y + z) == TrimStart(y[1..] + z);
      TrimStartAppend(y[1..], z);
    } else {
      assert (y + z)[0] == y[0];
    }
  }

  /** Trailing whitespace of a concatenation: into `y` only when `z` is all blank. */
  lemma {:induction false} TrimEndAppend(y: string, z: string)
    ensures TrimEnd(y + z) == if TrimEnd(z) == [] then TrimEnd(y) else y + TrimEnd(z)
    decreases |z|
  {
    if z == [] {
      assert y + z == y;
    } else if IsWhitespace(z[|z| - 1]) {
      assert (y + z)[|y + z| - 1] == z[|z| - 1];
      assert (y + z)[..|y + z| - 1] == y + z[..|z| - 1];
      assert TrimEnd(y + z) == TrimEnd(y + z[..|z| - 1]);
      TrimEndAppend(y, z[..|z| - 1]);
    } else {
      assert (y + z)[|y + z| - 1] == z[|z| - 1];
    }
  }

  /** Trimming after dropping trailing whitespace changes nothing. */
  lemma TrimOfTrimEnd(s: string)
    ensures Trim(TrimEnd(s)) == Trim(s)
  {
    TrimEndShape(s);
    var y := TrimEnd(s);
    var w := s[|y|..];
    assert s == y + w;
    TrimAllWhitespace(w);
    TrimStartAppend(y, w);
    if TrimStart(y) != [] {
      TrimEndAppend(TrimStart(y), w);
    }
  }

  lemma TrimOfTrimStart(s: string)
    ensures Trim(TrimStart(s)) == Trim(s)
  {
    TrimStartIdempotent(s);
  }

  lemma TrimIdempotent(s: string)
    ensures Trim(Trim(s)) == Trim(s)
  {
    TrimOfTrimEnd(TrimStart(s));
    TrimOfTrimStart(s);
  }

  /** A blank prefix does not change the trimmed text. */
  lemma TrimBlankPrefix(w: string, s: string)
    requires AllWhitespace(w)
    ensures Trim(w + s) == Trim(s)
  {
    TrimAllWhitespace(w);
    TrimStartAppend(w, s);
  }

  /** A non-blank trimmed text has non-blank start and end trims. */
  lemma TrimNonEmpty(s: string)
    requires Trim(s) != []
    ensures TrimStart(s) != [] && TrimEnd(s) != []
  {
    TrimOfTrimEnd(s);
  }

  /** The ASCII part of `toLowerCase`. */
  function LowerChar(c: char): char {
    if 'A' <= c <= 'Z' then (c as int + 32) as char else c
  }

  function Lower(s: string): (r: string)
    ensures |r| == |s|
    ensures forall i :: 0 <= i < |s| ==> r[i] == LowerChar(s[i])
  {
    seq(|s|, i requires 0 <= i < |s| => LowerChar(s[i]))
  }

  /** `s.includes(t)` */
  predicate Contains(s: string, t: string)
    decreases |s|
  {
    t <= s || (s != [] && Contains(s[1..], t))
  }

  /** Case-insensitive `includes`, as `s.toLowerCase().includes(t.toLowerCase())`. */
  predicate ContainsInsensitive(s: string, t: string) {
    Contains(Lower(s), Lower(t))
  }

  lemma {:induction false} ContainsAt(s: string, t: string, k: nat)
    requires k + |t| <= |s| && s[k..k + |t|] == t
    ensures Contains(s, t)
    decreases k
  {
    if k > 0 {
      assert s[1..][k - 1..k - 1 + |t|] == s[k..k + |t|];
      ContainsAt(s[1..], t, k - 1);
    }
  }

  lemma {:induction false} ContainsWitness(s: string, t: string) returns (k: nat)
    requires Contains(s, t)
    ensures k + |t| <= |s| && s[k..k + |t|] == t
    decreases |s|
  {
    if t <= s {
      k := 0;
    } else {
      var k' := ContainsWitness(s[1..], t);
      k := k' + 1;
      assert s[k..k + |t|] == s[1..][k'..k' + |t|];
    }
  }

  /** A string contains a one-character string exactly when it holds that character. */
  lemma ContainsChar(s: string, c: char)
    ensures Contains(s, [c]) <==> c in s
  {
    if Contains(s, [c]) {
      var k := ContainsWitness(s, [c]);
      assert s[k] == c;
    }
    if c in s {
      var k :| 0 <= k < |s| && s[k] == c;
      assert s[k..k + 1] == [c];
      ContainsAt(s, [c], k);
    }
  }

  /** Index of the first `c` in `s`, or `|s|` when there is none. */
  function IndexOf(s: string, c: char): (i: nat)
    ensures i <= |s|
    ensures i < |s| ==> s[i] == c
    ensures forall j :: 0 <= j < i ==> s[j] != c
  {
    if s == [] then 0
    else if s[0] == c then 0
    else 1 + IndexOf(s[1..], c)
  }

  /** `parts.join(sep)` */
  function Join(parts: seq<string>, sep: string): string
  {
    if |parts| == 0 then ""
    else if |parts| == 1 then parts[0]
    else parts[0] + sep + Join(parts[1..], sep)
  }

  /** A part joined in front of a non-empty list is followed by one separator. */
  lemma JoinCons(a: string, t: seq<string>, sep: string)
    requires t != []
    ensures Join([a] + t, sep) == a + sep + Join(t, sep)
  {
    assert ([a] + t)[1..] == t;
  }

  /** No character of `s` is in `cs`. */
  predicate Avoids(s: string, cs: set<char>) {
    forall i :: 0 <= i < |s| ==> s[i] !in cs
  }

  /** `s.split(/[...]/)` for a character class: the maximal runs between separators,
      always at least one piece. */
  function Split(s: string, seps: set<char>): (r: seq<string>)
    ensures |r| >= 1
    ensures forall k :: 0 <= k < |r| ==> Avoids(r[k], seps)
  {
    if s == [] then [""]
    else
      var rest := Split(s[1..], seps);
      if s[0] in seps then [""] + rest
      else [[s[0]] + rest[0]] + rest[1..]
  }

  /** A string with no separator is one piece. */
  lemma {:induction false} SplitNoSeparator(s: string, seps: set<char>)
    requires Avoids(s, seps)
    ensures Split(s, seps) == [s]
  {
    if s != [] {
      SplitNoSeparator(s[1..], seps);
      assert s[0] !in seps;
      assert [s[0]] + s[1..] == s;
    }
  }

  /** A separator ends the first piece. */
  lemma {:induction false} SplitAtSeparator(a: string, c: char, b: string, seps: set<char>)
    requires c in seps
    requires Avoids(a, seps)
    ensures Split(a + [c] + b, seps) == [a] + Split(b, seps)
  {
    if a == [] {
      assert (a + [c] + b)[1..] == b;
    } else {
      assert (a + [c] + b)[1..] == a[1..] + [c] + b;
      SplitAtSeparator(a[1..], c, b, seps);
      assert [a[0]] + a[1..] == a;
    }
  }

  /** The last part ends the joined string. */
  lemma {:induction false} JoinEndsWithLast(parts: seq<string>, sep: string)
    requires |parts| >= 1
    ensures |Join(parts, sep)| >= |parts[|parts| - 1]|
    ensures Join(parts, sep)[|Join(parts, sep)| - |parts[|parts| - 1]|..] == parts[|parts| - 1]
  {
    if |parts| > 1 {
      JoinEndsWithLast(parts[1..], sep);
    }
  }

  /** A character in neither the parts nor the separator is not in the join. */
  lemma {:induction false} JoinAvoids(parts: seq<string>, sep: string, c: char)
    requires c !in sep
    requires forall k :: 0 <= k < |parts| ==> c !in parts[k]
    ensures c !in Join(parts, sep)
  {
    if |parts| > 1 {
      JoinAvoids(parts[1..], sep, c);
    }
  }

  /** Splitting on one separator and joining with it again gives back the string. */
  lemma {:induction false} SplitJoin(s: string, c: char)
    ensures Join(Split(s, {c}), [c]) == s
  {
    if s != [] {
      SplitJoin(s[1..], c);
      var rest := Split(s[1..], {c});
      if s[0] == c {
        assert [""] + rest == [""] + rest;
        assert Join([""] + rest, [c]) == "" + [c] + Join(rest, [c]);
      } else {
        var first := [s[0]] + rest[0];
        if |rest| == 1 {
          assert Join([first] + rest[1..], [c]) == first;
        } else {
          assert Join(rest, [c]) == rest[0] + [c] + Join(rest[1..], [c]);
          assert ([first] + rest[1..])[1..] == rest[1..];
        }
      }
    }
  }

  function DigitChar(d: nat): char
    requires d < 10
  {
    ('0' as int + d) as char
  }

  /** `n.toString()` for a natural number. */
  function NatToString(n: nat): (r: string)
    ensures |r| >= 1
    ensures forall i :: 0 <= i < |r| ==> '0' <= r[i] <= '9'
    ensures r[0] == '0' ==> n == 0
  {
    if n < 10 then [DigitChar(n)] else NatToString(n / 10) + [DigitChar(n % 10)]
  }

  /** `n.toString()` for an integer. */
  function IntToString(n: int): (r: string)
    ensures |r| >= 1
    ensures n < 0 <==> r[0] == '-'
  {
    if n < 0 then "-" + NatToString(-n) else NatToString(n)
  }

  /** Reading the decimal digits back gives the number: `toString` is injective. */
  function DigitsValue(s: string): int
    decreases |s|
  {
    if s == [] then 0 else DigitsValue(s[..|s| - 1]) * 10 + (s[|s| - 1] as int - '0' as int)
  }

  lemma {:induction false} NatToStringValue(n: nat)
    ensures DigitsValue(NatToString(n)) == n
  {
    if n >= 10 {
      NatToStringValue(n / 10);
      var r := NatToString(n);
      assert r[..|r| - 1] == NatToString(n / 10);
    }
  }

  /** Strict order of `Array.prototype.sort` without a comparator on strings:
      lexicographic on character codes, a proper prefix first. */
  predicate LexLess(a: string, b: string)
    decreases |a|
  {
    if a == [] then b != []
    else if b == [] then false
    else if a[0] != b[0] then a[0] < b[0]
    else LexLess(a[1..], b[1..])
  }

  lemma {:induction false} LexLessIrreflexive(a: string)
    ensures !LexLess(a, a)
    decreases |a|
  {
    if a != [] {
      LexLessIrreflexive(a[1..]);
    }
  }

  lemma {:induction false} LexLessTransitive(a: string, b: string, c: string)
    requires LexLess(a, b) && LexLess(b, c)
    ensures LexLess(a, c)
    decreases |a|
  {
    if a != [] && b != [] && c != [] && a[0] == b[0] && b[0] == c[0] {
      LexLessTransitive(a[1..], b[1..], c[1..]);
    }
  }

  lemma {:induction false} LexLessTotal(a: string, b: string)
    requires a != b
    ensures LexLess(a, b) || LexLess(b, a)
    decreases |a|
  {
    if a != [] && b != [] && a[0] == b[0] {
      assert a == [a[0]] + a[1..] && b == [b[0]] + b[1..];
      LexLessTotal(a[1..], b[1..]);
    }
  }
}
