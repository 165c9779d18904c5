/**
 * Shared vocabulary of the crawler model: optional values, the Python
 * exception kinds the crawler can raise, results, and the decimal and
 * substring helpers that the record layer and the crawl session build on.
 */
module Common {

  /** Python's `None` or a value. */
  datatype Option<T> = None | Some(value: T)

  /** The exceptions the modelled code raises or lets escape. */
  datatype Exc =
    | ConnectionError          // any `requests` failure other than ConnectTimeout
    | ConnectTimeout           // the proxy did not accept the connection in time
    | AttributeError           // an attribute of `None`, e.g. `response.text` on a missing response
    | TypeError                // wrong arity of a record constructor, subscript of `None`
    | IndexError               // `row[2]` on a short row, `result[1]` after a split without separator
    | ValueError               // `list.index` of a missing element
    | KeyError(key: string)    // a missing key in `from_dict`
    | JsonDecodeError          // `json.loads` refuses the telemetry parameters
    | ParseError               // an HTML lookup of the crawler finds nothing usable
    | FileNotFoundError        // a write into a directory that does not exist
    | DirectoryNotEmpty        // `os.rmdir` of a directory that still holds files
    | UnpicklingError          // a checkpoint file that does not hold what is expected
    | AssertionError(message: string)
    | StopIteration            // `next(reader)` on an empty table

  /** The outcome of an operation that either yields a value or raises. */
  datatype Result<T> = Ok(value: T) | Err(error: Exc)

  /** An ASCII decimal digit: the model's reading of `\d` and of the digits
      `int` accepts. */
  predicate IsDigit(c: char) {
    '0' <= c <= '9'
  }

  predicate AllDigits(s: string) {
    forall k :: 0 <= k < |s| ==> IsDigit(s[k])
  }

  function DigitChar(d: nat): (c: char)
    requires d < 10
    ensures IsDigit(c) && c as int - '0' as int == d
  {
    ('0' as int + d) as char
  }

  /** The value of a run of ASCII decimal digits. */
  function DecimalValue(s: string): nat
    requires AllDigits(s)
  {
    if s == [] then 0 else DecimalValue(s[..|s| - 1]) * 10 + (s[|s| - 1] as int - '0' as int)
  }

  /** Python's `str` of a non-negative integer. */
  function NatToString(n: nat): (r: string)
    ensures r != [] && AllDigits(r)
    ensures r[0] == '0' ==> n == 0
  {
    if n < 10 then [DigitChar(n)] else NatToString(n / 10) + [DigitChar(n % 10)]
  }

  /** Reading back the decimal text of a number gives the number. */
  lemma {:induction false} NatToStringRoundTrip(n: nat)
    ensures DecimalValue(NatToString(n)) == n
  {
    if n >= 10 {
      var r := NatToString(n);
      assert r[..|r| - 1] == NatToString(n / 10);
      NatToStringRoundTrip(n / 10);
    }
  }

  /** Distinct numbers are written differently. */
  lemma NatToStringInjective(m: nat, n: nat)
    requires NatToString(m) == NatToString(n)
    ensures m == n
  {
    NatToStringRoundTrip(m);
    NatToStringRoundTrip(n);
  }

  /** `f` applied to every element of `s`, in order. */
  function Project<A, B>(s: seq<A>, f: A -> B): (r: seq<B>)
    ensures |r| == |s| && forall i :: 0 <= i < |s| ==> r[i] == f(s[i])
  {
    seq(|s|, i requires 0 <= i < |s| => f(s[i]))
  }

  /** No element of `s` occurs twice. */
  predicate Distinct<T(==)>(s: seq<T>) {
    forall i, j :: 0 <= i < j < |s| ==> s[i] != s[j]
  }

  /** `pat` occurs in `s` starting at index `i`. */
  predicate OccursAt(s: string, pat: string, i: int) {
    0 <= i && i + |pat| <= |s| && s[i..i + |pat|] == pat
  }

  /** The leftmost occurrence of `pat` in `s` at or after index `from`. */
  function FindFrom(s: string, pat: string, from: nat): (r: Option<nat>)
    decreases |s| - from
    ensures r.Some? ==> from <= r.value && OccursAt(s, pat, r.value)
    ensures r.Some? ==> forall j :: from <= j < r.value ==> !OccursAt(s, pat, j)
    ensures r.None? ==> forall j :: from <= j ==> !OccursAt(s, pat, j)
  {
    if from + |pat| > |s| then None
    else if s[from..from + |pat|] == pat then Some(from)
    else FindFrom(s, pat, from + 1)
  }

  /** Python's `pat in s` (equivalently, `re.search` of a literal pattern succeeds). */
  function Contains(s: string, pat: string): (r: bool)
    ensures r <==> exists i :: OccursAt(s, pat, i)
  {
    var f := FindFrom(s, pat, 0);
    assert f.Some? ==> OccursAt(s, pat, f.value);
    f.Some?
  }
}
