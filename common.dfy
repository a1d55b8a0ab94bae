/** Small shared vocabulary: optional values, handler replies, caller-supplied
    outcomes of database saves, and the first-failure index of a run of checks. */
module Common {

  datatype Option<+T> = None | Some(value: T)

  /** What a Flask-RESTful handler answers: a body holding only a message, a
      body holding a stored record, or an exception the handler does not catch
      (Flask turns it into a 500 response). */
  datatype Reply<+T> =
    | Message(text: string, code: int)
    | Record(value: T, code: int)
    | Crashed(exception: string)

  /** The status code Flask-RESTful uses when a handler returns a body without one. */
  const DefaultCode: int := 200

  /** Whether the `i`-th `save_to_db` of a loop commits. The outcomes are supplied
      by the caller; saves past the end of the list commit. */
  predicate Succeeds(oks: seq<bool>, i: nat) {
    i >= |oks| || oks[i]
  }

  /** The index of the first `false` in `bs`, or `|bs|` when every entry holds. */
  function FirstFalse(bs: seq<bool>): (k: nat)
    ensures k <= |bs|
    ensures forall i :: 0 <= i < k ==> bs[i]
    ensures k < |bs| ==> !bs[k]
  {
    if |bs| == 0 then 0
    else if !bs[0] then 0
    else 1 + FirstFalse(bs[1..])
  }

  function DigitChar(d: nat): (c: char)
    requires d < 10
    ensures '0' <= c <= '9'
  {
    "0123456789"[d]
  }

  /** Decimal rendering of a natural number, as Python's `str` and `format` give it. */
  function NatToString(n: nat): (s: string)
    ensures |s| > 0
    ensures forall i :: 0 <= i < |s| ==> '0' <= s[i] <= '9'
  {
    if n < 10 then [DigitChar(n)] else NatToString(n / 10) + [DigitChar(n % 10)]
  }
}
