/** frontend/src/lib/query-client.ts: the retry rule of the query defaults and
    the hierarchy of query keys. */
module QueryClient {
  import opened Strings
  import opened PolicyTypes
  import opened ClientSchemas
  import opened ApiClient

  // ---------------------------------------------------------------------------
  // retry

  const MaxFailures := 3

  /** The retry rule as written: an `Error` whose message contains the character
      '4' anywhere is never retried; otherwise up to three failures are. */
  function RetryAsWritten(failureCount: nat, error: Thrown): (again: bool)
    ensures error.Error? && Contains(error.message, "4") ==> !again
    ensures !(error.Error? && Contains(error.message, "4")) ==> (again <==> failureCount < MaxFailures)
  {
    if error.Error? && Contains(error.message, "4") then false else failureCount < MaxFailures
  }

  predicate IsDigit(c: char) {
    '0' <= c <= '9'
  }

  /** The message of an API error whose status is a three-digit number starting
      with 4, i.e. "API Error 4dd:". */
  predicate ClientErrorMessage(m: string) {
    |m| >= 14 && m[..10] == "API Error " && m[10] == '4' && IsDigit(m[11]) && IsDigit(m[12]) && m[13] == ':'
  }

  /** The rule as its comment intends it: no retry on a 4xx response; other
      failures are retried up to three times. */
  function Retry(failureCount: nat, error: Thrown): (again: bool)
    ensures error.Error? && ClientErrorMessage(error.message) ==> !again
    ensures !(error.Error? && ClientErrorMessage(error.message)) ==> (again <==> failureCount < MaxFailures)
  {
    if error.Error? && ClientErrorMessage(error.message) then false else failureCount < MaxFailures
  }

  lemma ThreeDigits(n: nat)
    requires 100 <= n < 1000
    ensures NatToString(n) == [DigitChar(n / 100), DigitChar(n / 10 % 10), DigitChar(n % 10)]
  {
    assert NatToString(n / 10) == [DigitChar(n / 100), DigitChar(n / 10 % 10)];
  }

  lemma {:induction false} ShortDigits(n: nat)
    requires n < 100
    ensures |NatToString(n)| <= 2
  {
    if n >= 10 {
      assert NatToString(n / 10) == [DigitChar(n / 10)];
    }
  }

  lemma {:induction false} LongDigits(n: nat)
    requires n >= 1000
    ensures |NatToString(n)| >= 4
    decreases n
  {
    if n / 10 >= 1000 {
      LongDigits(n / 10);
    } else {
      ThreeDigits(n / 10);
    }
  }

  /** An API error message is a client-error message exactly when its status is
      in 400..499. */
  lemma {:induction false} ClientErrorExactly(status: int, body: string)
    ensures ClientErrorMessage(ApiErrorMessage(status, body)) <==> 400 <= status <= 499
  {
    var m := ApiErrorMessage(status, body);
    var d := IntToString(status);
    assert m == "API Error " + d + ": " + body;
    assert forall i :: 0 <= i < |d| ==> m[10 + i] == d[i];
    assert m[10 + |d|] == ':';
    if status < 0 {
      assert m[10] == '-';
    } else if status < 100 {
      ShortDigits(status);
    } else if status < 1000 {
      ThreeDigits(status);
    } else {
      LongDigits(status);
      assert IsDigit(d[3]);
    }
  }

  /** The corrected rule never retries a 4xx response and retries every other
      API error while fewer than three failures have occurred. */
  lemma RetryOnStatus(failureCount: nat, status: int, body: string)
    ensures Retry(failureCount, Error(ApiErrorMessage(status, body)))
        <==> !(400 <= status <= 499) && failureCount < MaxFailures
  {
    ClientErrorExactly(status, body);
  }

  /** The written rule agrees on 4xx responses: none is retried. */
  lemma AsWrittenStopsClientErrors(failureCount: nat, status: int, body: string)
    requires 400 <= status <= 499
    ensures !RetryAsWritten(failureCount, Error(ApiErrorMessage(status, body)))
  {
    ThreeDigits(status);
    var m := ApiErrorMessage(status, body);
    assert m[10..11] == "4";
    ContainsAt(m, "4", 10);
  }

  /** A 504 from the gateway is a server error, yet the written rule never
      retries it, because "504" contains a '4'. */
  lemma AsWrittenStopsGatewayTimeout()
    ensures !RetryAsWritten(0, Error(ApiErrorMessage(504, "")))
    ensures Retry(0, Error(ApiErrorMessage(504, "")))
  {
    RetryOnStatus(0, 504, "");
    ThreeDigits(504);
    var m := ApiErrorMessage(504, "");
    assert m[12..13] == "4";
    ContainsAt(m, "4", 12);
  }

  // ---------------------------------------------------------------------------
  // queryKeys

  /** One element of a query key: a word, an id, or the filters object. */
  datatype KeyPart = Word(w: string) | Filters(f: PolicyFilters)

  type Key = seq<KeyPart>

  function All(): Key { [Word("policies")] }

  function Lists(): Key { All() + [Word("list")] }

  function List(f: PolicyFilters): Key { Lists() + [Filters(f)] }

  function Details(): Key { All() + [Word("detail")] }

  function Detail(id: string): Key { Details() + [Word(id)] }

  function CategoriesKey(): Key { [Word("policies"), Word("categories")] }

  /** A query is matched by a key filter when the filter is a prefix of its key. */
  predicate MatchedBy(prefix: Key, key: Key) {
    prefix <= key
  }

  /** Every list key extends `lists()` and `all`; every detail key extends
      `details()` and `all`; so does the categories key. */
  lemma KeysExtendTheirParents(f: PolicyFilters, id: string)
    ensures MatchedBy(All(), Lists()) && MatchedBy(Lists(), List(f)) && MatchedBy(All(), List(f))
    ensures MatchedBy(All(), Details()) && MatchedBy(Details(), Detail(id)) && MatchedBy(All(), Detail(id))
    ensures MatchedBy(All(), CategoriesKey())
    ensures |List(f)| == 3 && |Detail(id)| == 3
  {
  }

  /** Invalidating the lists never touches a detail or the categories, and the
      other way round. */
  lemma BranchesAreDisjoint(f: PolicyFilters, id: string)
    ensures !MatchedBy(Lists(), Detail(id)) && !MatchedBy(Details(), List(f))
    ensures !MatchedBy(Lists(), CategoriesKey()) && !MatchedBy(Details(), CategoriesKey())
    ensures List(f)[1] != Detail(id)[1]
  {
    assert Detail(id)[1] == Word("detail");
    assert List(f)[1] == Word("list");
    assert CategoriesKey()[1] == Word("categories");
  }

  /** Distinct filters give distinct list keys, and distinct ids distinct detail keys. */
  lemma KeysAreInjective(f: PolicyFilters, g: PolicyFilters, a: string, b: string)
    ensures List(f) == List(g) ==> f == g
    ensures Detail(a) == Detail(b) ==> a == b
  {
    if List(f) == List(g) {
      assert List(f)[2] == Filters(f);
    }
    if Detail(a) == Detail(b) {
      assert Detail(a)[2] == Word(a);
    }
  }
}
