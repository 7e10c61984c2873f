/** URL and identifier formats the code checks, as approximations of what the
    checks accept: `IsUrl` follows the outline of the URL parser behind zod's
    `.url()` (`new URL(s)`), `IsHttpUrl` stands for the scraper's `isValidUrl`
    (an absolute http or https URL), and `IsUuid` is zod's `.uuid()` shape.
    README's "Left out" lists where each differs from the real check. */
module Urls {
  import opened Strings

  predicate IsAsciiLetter(c: char) {
    'a' <= c <= 'z' || 'A' <= c <= 'Z'
  }

  predicate IsSchemeChar(c: char) {
    IsAsciiLetter(c) || '0' <= c <= '9' || c == '+' || c == '-' || c == '.'
  }

  /** A C0 control or a space, which the URL parser strips from both ends. */
  predicate IsC0OrSpace(c: char) {
    c <= ' '
  }

  function StripLeading(s: string): string {
    if s != [] && IsC0OrSpace(s[0]) then StripLeading(s[1..]) else s
  }

  function StripTrailing(s: string): string {
    if s != [] && IsC0OrSpace(s[|s| - 1]) then StripTrailing(s[..|s| - 1]) else s
  }

  /** The input as the URL parser reads it. */
  function Stripped(s: string): string {
    StripTrailing(StripLeading(s))
  }

  /** The part before the first ':'. */
  function Scheme(s: string): string {
    s[..IndexOf(s, ':')]
  }

  /** Schemes whose URLs need a host, in lower case (`file` may have an empty one). */
  predicate NeedsHost(scheme: string) {
    scheme in {"http", "https", "ws", "wss", "ftp"}
  }

  function SkipSlashes(s: string): string {
    if s != [] && (s[0] == '/' || s[0] == '\\') then SkipSlashes(s[1..]) else s
  }

  /** An absolute URL: once the ends are stripped, a scheme (a letter, then
      letters, digits, '+', '-' or '.') and a ':'; after a scheme that needs a
      host, the slashes are followed by a host that is not empty. */
  predicate IsUrl(s: string) {
    var u := Stripped(s);
    var i := IndexOf(u, ':');
    0 < i < |u|
    && IsAsciiLetter(u[0])
    && (forall k :: 0 <= k < i ==> IsSchemeChar(u[k]))
    && (NeedsHost(Lower(u[..i])) ==>
          var rest := SkipSlashes(u[i + 1..]);
          rest != [] && rest[0] != '?' && rest[0] != '#')
  }

  /** `isValidUrl`: an absolute URL whose scheme is http or https, in any case. */
  predicate IsHttpUrl(s: string) {
    IsUrl(s) && (Lower(Scheme(Stripped(s))) == "http" || Lower(Scheme(Stripped(s))) == "https")
  }

  predicate IsHexDigit(c: char) {
    '0' <= c <= '9' || 'a' <= c <= 'f' || 'A' <= c <= 'F'
  }

  /** zod's `.uuid()`: five groups of 8, 4, 4, 4 and 12 hex digits joined by '-'. */
  predicate IsUuid(s: string) {
    |s| == 36
    && (forall k :: 0 <= k < 36 && k !in {8, 13, 18, 23} ==> IsHexDigit(s[k]))
    && s[8] == '-' && s[13] == '-' && s[18] == '-' && s[23] == '-'
  }

  /** A scheme with nothing after it is a URL, as `new URL("a:")` accepts it. */
  lemma SchemeAloneIsUrl()
    ensures IsUrl("a:")
  {
    assert Stripped("a:") == "a:";
    assert IndexOf("a:", ':') == 1;
    assert Lower("a") == "a";
  }

  /** Blanks around a URL are ignored, as the URL parser strips them. */
  lemma BlankAroundUrlIsIgnored()
    ensures IsUrl(" http://x")
  {
    var u := "http://x";
    assert " http://x"[1..] == u;
    assert !IsC0OrSpace(u[0]) && !IsC0OrSpace(u[|u| - 1]);
    assert StripLeading(u) == u;
    assert StripLeading(" http://x") == u;
    assert StripTrailing(u) == u;
    assert IndexOf("http://x", ':') == 4;
    assert "http://x"[..4] == "http";
    assert Lower("http") == "http";
    assert "http://x"[5..] == "//x";
    assert SkipSlashes("//x") == "x";
  }

  /** An http URL without a host is refused, as `new URL("http://")` throws. */
  lemma HostlessHttpIsNotUrl()
    ensures !IsUrl("http://")
  {
    assert Stripped("http://") == "http://";
    assert IndexOf("http://", ':') == 4;
    assert "http://"[..4] == "http";
    assert Lower("http") == "http";
    assert "http://"[5..] == "//";
    assert SkipSlashes("//") == "";
  }
}
