/** Stable filtering of sequences: the model of JavaScript's `Array.prototype.filter`,
    which every list operation of the tracker is built on. */
module Seqs {

  /** The elements of `s` satisfying `p`, in their original order. */
  function Keep<T>(s: seq<T>, p: T -> bool): (r: seq<T>)
    ensures |r| <= |s|
    ensures forall i :: 0 <= i < |r| ==> r[i] in s && p(r[i])
    ensures forall i :: 0 <= i < |s| && p(s[i]) ==> s[i] in r
  {
    if |s| == 0 then []
    else
      var init, last := s[..|s| - 1], s[|s| - 1];
      assert s == init + [last];
      Keep(init, p) + (if p(last) then [last] else [])
  }

  /** The positions of `s` whose element satisfies `p`, in increasing order. */
  function Positions<T>(s: seq<T>, p: T -> bool): (pos: seq<int>)
    ensures |pos| <= |s|
    ensures forall k :: 0 <= k < |pos| ==> 0 <= pos[k] < |s| && p(s[pos[k]])
    ensures Increasing(pos)
    ensures forall i :: 0 <= i < |s| && p(s[i]) ==> i in pos
  {
    if |s| == 0 then []
    else
      var init := s[..|s| - 1];
      var pre := Positions(init, p);
      assert forall k :: 0 <= k < |pre| ==> pre[k] < |s| - 1;
      pre + (if p(s[|s| - 1]) then [|s| - 1] else [])
  }

  ghost predicate Increasing(pos: seq<int>) {
    forall k, l :: 0 <= k < l < |pos| ==> pos[k] < pos[l]
  }

  /** `r` is `s` restricted to the increasing positions `pos`. */
  ghost predicate SubsequenceAt<T>(r: seq<T>, s: seq<T>, pos: seq<int>) {
    && |pos| == |r|
    && Increasing(pos)
    && forall k :: 0 <= k < |r| ==> 0 <= pos[k] < |s| && r[k] == s[pos[k]]
  }

  /** Keep is a stable filter: it is `s` read at exactly the positions whose element
      satisfies `p`, in increasing order. */
  lemma {:induction false} KeepIsStable<T>(s: seq<T>, p: T -> bool)
    ensures SubsequenceAt(Keep(s, p), s, Positions(s, p))
  {
    if |s| > 0 {
      var init, last := s[..|s| - 1], s[|s| - 1];
      KeepIsStable(init, p);
      var kept, pre := Keep(init, p), Positions(init, p);
      var r, pos := Keep(s, p), Positions(s, p);
      assert r == kept + (if p(last) then [last] else []);
      assert pos == pre + (if p(last) then [|s| - 1] else []);
      assert |r| == |pos|;
      forall k | 0 <= k < |r|
        ensures 0 <= pos[k] < |s| && r[k] == s[pos[k]]
      {
        if k < |kept| {
          assert r[k] == kept[k];
          assert pos[k] == pre[k];
          assert kept[k] == init[pre[k]];
        } else {
          assert r[k] == last;
          assert pos[k] == |s| - 1;
        }
      }
      assert Increasing(pos);
    }
  }

  /** Filtering with predicates that agree on every element gives the same result. */
  lemma {:induction false} KeepCongruent<T>(s: seq<T>, p: T -> bool, q: T -> bool)
    requires forall x :: x in s ==> p(x) == q(x)
    ensures Keep(s, p) == Keep(s, q)
  {
    if |s| > 0 {
      var init := s[..|s| - 1];
      assert forall x :: x in init ==> x in s;
      KeepCongruent(init, p, q);
    }
  }

  /** Filtering with a predicate nothing satisfies gives the empty sequence. */
  lemma KeepNone<T>(s: seq<T>, p: T -> bool)
    requires forall x :: x in s ==> !p(x)
    ensures Keep(s, p) == []
  {
  }

  /** Filtering with a predicate everything satisfies changes nothing. */
  lemma {:induction false} KeepAll<T>(s: seq<T>, p: T -> bool)
    requires forall x :: x in s ==> p(x)
    ensures Keep(s, p) == s
  {
    if |s| > 0 {
      var init, last := s[..|s| - 1], s[|s| - 1];
      assert forall x :: x in init ==> x in s;
      KeepAll(init, p);
      assert p(last);
      assert Keep(s, p) == Keep(init, p) + [last];
      assert s == init + [last];
    }
  }

  /** Two successive filters are one filter by the conjunction. */
  lemma {:induction false} KeepKeep<T>(s: seq<T>, p: T -> bool, q: T -> bool, both: T -> bool)
    requires forall x :: both(x) == (p(x) && q(x))
    ensures Keep(Keep(s, p), q) == Keep(s, both)
  {
    if |s| > 0 {
      var init, last := s[..|s| - 1], s[|s| - 1];
      KeepKeep(init, p, q, both);
      var kp := Keep(init, p);
      if p(last) {
        var t := kp + [last];
        assert Keep(s, p) == t;
        assert t[..|t| - 1] == kp;
        assert Keep(t, q) == Keep(kp, q) + (if q(last) then [last] else []);
      } else {
        assert Keep(s, p) == kp;
      }
    }
  }
}
