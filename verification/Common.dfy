/** Small things several modules share. */
module Common {

  datatype Option<T> = None | Some(value: T)

  const SLICE_SIZE: nat := 65536

  function Min(a: nat, b: nat): nat {
    if a < b then a else b
  }

  function Max(a: nat, b: nat): nat {
    if a < b then b else a
  }

  /** The numbers `a..b`. */
  ghost function Range(a: int, b: int): (r: set<int>)
    ensures forall x :: x in r <==> a <= x < b
    decreases b - a
  {
    if a >= b then {} else {a} + Range(a + 1, b)
  }

  // ----------------------------------------------------- sequences of numbers, 0 for none

  /** The `k`-th element, or 0 past either end. */
  function Link(s: seq<nat>, k: int): nat {
    if 0 <= k < |s| then s[k] else 0
  }

  ghost predicate Distinct(s: seq<nat>) {
    forall j, k | 0 <= j < k < |s| :: s[j] != s[k]
  }

  function IndexOf(s: seq<nat>, x: nat): (k: nat)
    requires x in s
    ensures k < |s| && s[k] == x
  {
    if s[0] == x then 0 else 1 + IndexOf(s[1..], x)
  }

  function Without(s: seq<nat>, k: nat): seq<nat>
    requires k < |s|
  {
    s[..k] + s[k + 1..]
  }

  /** The sequence without its first `x`. */
  function Drop(s: seq<nat>, x: nat): seq<nat>
    requires x in s
  {
    Without(s, IndexOf(s, x))
  }

  lemma WithoutHas(s: seq<nat>, k: nat, x: nat)
    requires Distinct(s) && k < |s|
    ensures x in Without(s, k) <==> x in s && x != s[k]
  {
    var w := Without(s, k);
    if x in s && x != s[k] {
      var j :| 0 <= j < |s| && s[j] == x;
      assert w[if j < k then j else j - 1] == x;
    }
  }
}
