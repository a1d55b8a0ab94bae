/** JSON values as the request parser hands them to the handlers: Python dicts
    keep their insertion order, so an object is an ordered list of entries. */
module Json {
  import opened Common

  datatype Json =
    | Null
    | Bool(b: bool)
    | Num(n: int)
    | Str(s: string)
    | Arr(items: seq<Json>)
    | Obj(fields: seq<(string, Json)>)

  /** A Python dict with string keys, in insertion order. */
  type Dict = seq<(string, Json)>

  /** A dict built by Python never repeats a key. */
  ghost predicate UniqueKeys(d: Dict) {
    forall i, j :: 0 <= i < j < |d| ==> d[i].0 != d[j].0
  }

  /** `k in d` for a dict. */
  predicate HasKey(d: Dict, k: string) {
    exists i :: 0 <= i < |d| && d[i].0 == k
  }

  /** `d.get(k)`: the value of the first entry with key `k`. */
  function Get(d: Dict, k: string): (v: Option<Json>)
    ensures v.Some? <==> HasKey(d, k)
    ensures v.Some? ==> exists i :: 0 <= i < |d| && d[i] == (k, v.value)
  {
    if |d| == 0 then None
    else if d[0].0 == k then Some(d[0].1)
    else
      var rest := Get(d[1..], k);
      assert rest.Some? ==> exists i :: 0 < i < |d| && d[i] == (k, rest.value) by {
        if rest.Some? {
          var i :| 0 <= i < |d[1..]| && d[1..][i] == (k, rest.value);
          assert d[i + 1] == (k, rest.value);
        }
      }
      assert HasKey(d, k) ==> HasKey(d[1..], k) by {
        if HasKey(d, k) {
          var i :| 0 <= i < |d| && d[i].0 == k;
          assert d[1..][i - 1].0 == k;
        }
      }
      rest
  }

  /** `d.pop(k)` / `del d[k]` on a copy: every entry with key `k` is dropped,
      the others keep their order. */
  function Remove(d: Dict, k: string): (r: Dict)
    ensures |r| <= |d|
    ensures !HasKey(r, k)
    ensures forall k' :: k' != k ==> (HasKey(r, k') <==> HasKey(d, k'))
    ensures forall k' :: k' != k ==> Get(r, k') == Get(d, k')
    ensures UniqueKeys(d) ==> UniqueKeys(r)
  {
    if |d| == 0 then []
    else
      var rest := Remove(d[1..], k);
      assert forall k' :: HasKey(d, k') <==> d[0].0 == k' || HasKey(d[1..], k') by {
        forall k' ensures HasKey(d, k') <==> d[0].0 == k' || HasKey(d[1..], k') {
          if HasKey(d, k') && d[0].0 != k' {
            var i :| 0 <= i < |d| && d[i].0 == k';
            assert d[1..][i - 1].0 == k';
          }
          if HasKey(d[1..], k') {
            var i :| 0 <= i < |d[1..]| && d[1..][i].0 == k';
            assert d[i + 1].0 == k';
          }
        }
      }
      if d[0].0 == k then rest
      else
        var r := [d[0]] + rest;
        assert forall k' :: HasKey(r, k') <==> d[0].0 == k' || HasKey(rest, k') by {
          forall k' ensures HasKey(r, k') <==> d[0].0 == k' || HasKey(rest, k') {
            if d[0].0 == k' {
              assert r[0].0 == k';
            }
            if HasKey(r, k') && d[0].0 != k' {
              var i :| 0 <= i < |r| && r[i].0 == k';
              assert rest[i - 1].0 == k';
            }
            if HasKey(rest, k') {
              var i :| 0 <= i < |rest| && rest[i].0 == k';
              assert r[i + 1].0 == k';
            }
          }
        }
        assert r[1..] == rest;
        assert UniqueKeys(d) ==> UniqueKeys(r) by {
          if UniqueKeys(d) {
            assert !HasKey(d[1..], d[0].0) by {
              forall i | 0 <= i < |d[1..]| ensures d[1..][i].0 != d[0].0 {
                assert d[1..][i] == d[i + 1];
              }
            }
            assert UniqueKeys(d[1..]) by {
              forall i, j | 0 <= i < j < |d[1..]| ensures d[1..][i].0 != d[1..][j].0 {
                assert d[1..][i] == d[i + 1] && d[1..][j] == d[j + 1];
              }
            }
            forall i, j | 0 <= i < j < |r| ensures r[i].0 != r[j].0 {
              if i == 0 {
                assert HasKey(rest, r[j].0) by { assert rest[j - 1] == r[j]; }
              } else {
                assert r[i] == rest[i - 1] && r[j] == rest[j - 1];
              }
            }
          }
        }
        r
  }

  /** `s` occurs inside `t`, as Python's `s in t` tests it for two strings. */
  predicate IsSubstring(s: string, t: string) {
    s <= t || (|t| > 0 && IsSubstring(s, t[1..]))
  }

  /** Python's `x in c` for JSON values: `None` stands for the TypeError Python
      raises when `c` is not a container, when `x` is an unhashable key for a
      dict, or when `x` is not a string but `c` is. */
  function PyIn(x: Json, c: Json): (r: Option<bool>)
    ensures c.Arr? ==> r == Some(x in c.items)
    ensures c.Obj? && x.Str? ==> r == Some(HasKey(c.fields, x.s))
    ensures (c.Null? || c.Bool? || c.Num?) ==> r.None?
  {
    match c
    case Arr(items) => Some(x in items)
    case Obj(fields) =>
      (match x
       case Str(s) => Some(HasKey(fields, s))
       case Arr(_) => None
       case Obj(_) => None
       case _ => Some(false))
    case Str(t) => if x.Str? then Some(IsSubstring(x.s, t)) else None
    case _ => None
  }
}
