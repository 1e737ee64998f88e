/** Doubly linked page queues over `next` and `prev` words; page 0 is null. */
module QueueLists {
  import opened Common

  datatype Links = Links(next: seq<nat>, prev: seq<nat>)

  ghost predicate NodeAt(l: Links, s: seq<nat>, k: nat)
    requires k < |s| && s[k] < |l.next| && s[k] < |l.prev|
  {
    l.next[s[k]] == Link(s, k + 1) && l.prev[s[k]] == Link(s, k - 1)
  }

  /** `first`, `last` and the words of its pages spell the queue `s` both ways. */
  ghost predicate Linked(l: Links, first: nat, last: nat, s: seq<nat>) {
    && |l.next| == |l.prev| && Distinct(s)
    && first == Link(s, 0) && last == Link(s, |s| - 1)
    && (forall k | 0 <= k < |s| :: 0 < s[k] < |l.next|)
    && (forall k | 0 <= k < |s| :: NodeAt(l, s, k))
  }

  function PushFront(l: Links, first: nat, p: nat): Links
    requires p < |l.next| == |l.prev| && first < |l.prev|
  {
    var prev := l.prev[p := 0];
    Links(l.next[p := first], if first == 0 then prev else prev[first := p])
  }

  function PushBack(l: Links, last: nat, p: nat): Links
    requires p < |l.next| == |l.prev| && last < |l.next|
  {
    var next := l.next[p := 0];
    Links(if last == 0 then next else next[last := p], l.prev[p := last])
  }

  function Unlink(l: Links, p: nat): Links
    requires p < |l.next| == |l.prev| && l.next[p] < |l.prev| && l.prev[p] < |l.next|
  {
    var n, m := l.next[p], l.prev[p];
    var next := if m == 0 then l.next else l.next[m := n];
    var prev := if n == 0 then l.prev else l.prev[n := m];
    Links(next[p := 0], prev[p := 0])
  }

  lemma LinkedFrame(l: Links, r: Links, first: nat, last: nat, s: seq<nat>)
    requires Linked(l, first, last, s) && |r.next| == |r.prev| == |l.next|
    requires forall k | 0 <= k < |s| :: r.next[s[k]] == l.next[s[k]] && r.prev[s[k]] == l.prev[s[k]]
    ensures Linked(r, first, last, s)
  {
    forall k | 0 <= k < |s| ensures NodeAt(r, s, k) {
      assert NodeAt(l, s, k);
    }
  }

  /** Ends are null or pages of the queue. */
  lemma Ends(l: Links, first: nat, last: nat, s: seq<nat>)
    requires Linked(l, first, last, s)
    ensures (first == 0 <==> s == []) && (last == 0 <==> s == [])
    ensures s != [] ==> first in s && last in s && first < |l.next| && last < |l.next|
  {
  }

  lemma PushFrontNode(l: Links, first: nat, last: nat, s: seq<nat>, p: nat, k: nat)
    requires Linked(l, first, last, s) && 0 < p < |l.next| && p !in s && k <= |s| && first < |l.prev|
    ensures var t := [p] + s; 0 < t[k] < |l.next| && NodeAt(PushFront(l, first, p), t, k)
  {
    if k > 0 {
      assert s[k - 1] in s;
      assert NodeAt(l, s, k - 1);
      assert k > 1 ==> s[k - 1] != s[0];
    }
  }

  lemma ConsDistinct(p: nat, s: seq<nat>)
    requires Distinct(s) && p !in s
    ensures Distinct([p] + s)
  {
    var t := [p] + s;
    forall j, k | 0 <= j < k < |t| ensures t[j] != t[k] {
      assert t[k] == s[k - 1] && s[k - 1] in s;
    }
  }

  lemma PushFrontLinked(l: Links, first: nat, last: nat, s: seq<nat>, p: nat)
    requires Linked(l, first, last, s) && 0 < p < |l.next| && p !in s
    ensures first < |l.prev| && Linked(PushFront(l, first, p), p, if first == 0 then p else last, [p] + s)
  {
    Ends(l, first, last, s);
    ConsDistinct(p, s);
    var r, t := PushFront(l, first, p), [p] + s;
    forall k | 0 <= k < |t| ensures 0 < t[k] < |r.next| && NodeAt(r, t, k) {
      PushFrontNode(l, first, last, s, p, k);
    }
  }

  lemma PushBackLinked(l: Links, first: nat, last: nat, s: seq<nat>, p: nat)
    requires Linked(l, first, last, s) && 0 < p < |l.next| && p !in s
    ensures last < |l.next| && Linked(PushBack(l, last, p), if last == 0 then p else first, p, s + [p])
  {
    var t, r := s + [p], PushBack(l, last, p);
    forall k | 0 <= k < |t| ensures 0 < t[k] < |r.next| && NodeAt(r, t, k) {
      if k < |s| {
        assert t[k] == s[k] && s[k] in s;
        assert NodeAt(l, s, k);
        assert k < |s| - 1 ==> s[k] != last;
      }
    }
    forall j, k | 0 <= j < k < |t| ensures t[j] != t[k] {
      assert t[j] == s[j] && s[j] in s;
    }
  }

  lemma UnlinkBounds(l: Links, first: nat, last: nat, s: seq<nat>, k: nat)
    requires Linked(l, first, last, s) && k < |s|
    ensures l.next[s[k]] == Link(s, k + 1) < |l.prev| && l.prev[s[k]] == Link(s, k - 1) < |l.next|
  {
    assert NodeAt(l, s, k);
  }

  lemma UnlinkNode(l: Links, first: nat, last: nat, s: seq<nat>, k: nat, j: nat)
    requires Linked(l, first, last, s) && k < |s| && j < |s| - 1
    requires l.next[s[k]] < |l.prev| && l.prev[s[k]] < |l.next|
    ensures var w := Without(s, k); 0 < w[j] < |l.next| && NodeAt(Unlink(l, s[k]), w, j)
  {
    var w := Without(s, k);
    var i := if j < k then j else j + 1;
    assert w[j] == s[i] != s[k];
    assert NodeAt(l, s, i) && NodeAt(l, s, k);
    assert Link(w, j + 1) == if j + 1 == k then Link(s, k + 1) else Link(s, i + 1);
    assert Link(w, j - 1) == if j == k then Link(s, k - 1) else Link(s, i - 1);
  }

  lemma UnlinkLinked(l: Links, first: nat, last: nat, s: seq<nat>, k: nat)
    requires Linked(l, first, last, s) && k < |s|
    ensures l.next[s[k]] < |l.prev| && l.prev[s[k]] < |l.next|
    ensures Linked(Unlink(l, s[k]),
                   if l.prev[s[k]] == 0 then l.next[s[k]] else first,
                   if l.next[s[k]] == 0 then l.prev[s[k]] else last, Without(s, k))
  {
    UnlinkBounds(l, first, last, s, k);
    WithoutDistinct(s, k);
    UnlinkEnds(l, first, last, s, k);
    var r, w := Unlink(l, s[k]), Without(s, k);
    forall j | 0 <= j < |w| ensures 0 < w[j] < |r.next| && NodeAt(r, w, j) {
      UnlinkNode(l, first, last, s, k, j);
    }
  }

  lemma WithoutDistinct(s: seq<nat>, k: nat)
    requires Distinct(s) && k < |s|
    ensures Distinct(Without(s, k))
  {
    var w := Without(s, k);
    forall i, j | 0 <= i < j < |w| ensures w[i] != w[j] {
      assert w[i] == s[if i < k then i else i + 1] && w[j] == s[if j < k then j else j + 1];
    }
  }

  lemma UnlinkEnds(l: Links, first: nat, last: nat, s: seq<nat>, k: nat)
    requires Linked(l, first, last, s) && k < |s| && s[k] < |l.next|
    ensures var w := Without(s, k);
            && Link(w, 0) == (if l.prev[s[k]] == 0 then l.next[s[k]] else first)
            && Link(w, |w| - 1) == (if l.next[s[k]] == 0 then l.prev[s[k]] else last)
  {
    assert NodeAt(l, s, k);
    assert k > 0 ==> s[k - 1] != 0;
    assert k + 1 < |s| ==> s[k + 1] != 0;
  }

  /** A change to words of `p` and of one queue's pages leaves any other queue linked. */
  lemma OtherQueue(l: Links, r: Links, first: nat, last: nat, s: seq<nat>, p: nat, t: seq<nat>)
    requires Linked(l, first, last, s) && |r.next| == |r.prev| == |l.next|
    requires p !in s && forall x | x in s :: x !in t
    requires forall x: nat | 0 < x < |l.next| && x != p && x !in t :: r.next[x] == l.next[x] && r.prev[x] == l.prev[x]
    ensures Linked(r, first, last, s)
  {
    forall k | 0 <= k < |s| ensures r.next[s[k]] == l.next[s[k]] && r.prev[s[k]] == l.prev[s[k]] {
      assert s[k] in s;
    }
    LinkedFrame(l, r, first, last, s);
  }
}
