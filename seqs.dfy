/** Sequence helpers shared by the lookups and the lead filter: the
    comprehension `[x for x in s if p(x)]` and "its first element". */
module Seqs {
  import opened Wrappers

  /** The elements of `s` that satisfy `p`, in their original order. */
  function Filter<T>(s: seq<T>, p: T -> bool): (r: seq<T>)
    ensures |r| <= |s|
  {
    if s == [] then []
    else (if p(s[0]) then [s[0]] else []) + Filter(s[1..], p)
  }

  /** `idx` lists, in increasing order, positions of `s` whose elements make up `r`. */
  ghost predicate Embeds<T>(r: seq<T>, s: seq<T>, idx: seq<nat>)
  {
    && |idx| == |r|
    && (forall k :: 0 <= k < |idx| ==> idx[k] < |s| && r[k] == s[idx[k]])
    && (forall k, l :: 0 <= k < l < |idx| ==> idx[k] < idx[l])
  }

  lemma {:induction false} FilterConcat<T>(a: seq<T>, b: seq<T>, p: T -> bool)
    ensures Filter(a + b, p) == Filter(a, p) + Filter(b, p)
  {
    if a == [] {
      assert a + b == b;
    } else {
      var head := if p(a[0]) then [a[0]] else [];
      assert (a + b)[0] == a[0];
      assert (a + b)[1..] == a[1..] + b;
      assert Filter(a + b, p) == head + Filter(a[1..] + b, p);
      assert Filter(a, p) == head + Filter(a[1..], p);
      FilterConcat(a[1..], b, p);
      assert head + (Filter(a[1..], p) + Filter(b, p)) == (head + Filter(a[1..], p)) + Filter(b, p);
    }
  }

  /** Filtering keeps exactly the positions whose element satisfies `p`, in
      order: the result is an order-preserving selection of `s`. */
  lemma {:induction false} FilterSelects<T>(s: seq<T>, p: T -> bool) returns (idx: seq<nat>)
    ensures Embeds(Filter(s, p), s, idx)
    ensures forall i :: 0 <= i < |s| ==> (p(s[i]) <==> i in idx)
  {
    if s == [] {
      idx := [];
    } else {
      var tail := s[1..];
      var rest := FilterSelects(tail, p);
      var shifted := Shift(rest);
      ShiftEmbeds(Filter(tail, p), s, rest);
      if p(s[0]) {
        idx := [0] + shifted;
        assert Filter(s, p) == [s[0]] + Filter(tail, p);
      } else {
        idx := shifted;
        assert Filter(s, p) == Filter(tail, p);
      }
      forall i | 0 <= i < |s|
        ensures p(s[i]) <==> i in idx
      {
        if i > 0 {
          assert s[i] == tail[i - 1];
          ShiftIn(rest, i - 1);
        } else {
          ShiftNotZero(rest);
        }
      }
    }
  }

  function Shift(idx: seq<nat>): (r: seq<nat>)
  {
    seq(|idx|, k requires 0 <= k < |idx| => idx[k] + 1)
  }

  lemma ShiftEmbeds<T>(r: seq<T>, s: seq<T>, idx: seq<nat>)
    requires s != [] && Embeds(r, s[1..], idx)
    ensures Embeds(r, s, Shift(idx))
    ensures Embeds([s[0]] + r, s, [0] + Shift(idx))
  {
    var sh := Shift(idx);
    forall k | 0 <= k < |sh| ensures sh[k] < |s| && r[k] == s[sh[k]] {
      assert s[1..][idx[k]] == s[idx[k] + 1];
    }
    var r0, sh0 := [s[0]] + r, [0] + sh;
    forall k | 0 <= k < |sh0| ensures sh0[k] < |s| && r0[k] == s[sh0[k]] {
      if k > 0 { assert sh0[k] == sh[k - 1] && r0[k] == r[k - 1]; }
    }
    forall k, l | 0 <= k < l < |sh0| ensures sh0[k] < sh0[l] {
      if k > 0 { assert sh0[k] == sh[k - 1] && sh0[l] == sh[l - 1]; }
    }
  }

  lemma ShiftIn(idx: seq<nat>, i: nat)
    ensures i in idx <==> i + 1 in Shift(idx)
    ensures i + 1 in Shift(idx) <==> i + 1 in [0] + Shift(idx)
  {
    var sh := Shift(idx);
    if i in idx {
      var k :| 0 <= k < |idx| && idx[k] == i;
      assert sh[k] == i + 1;
    }
    if i + 1 in sh {
      var k :| 0 <= k < |sh| && sh[k] == i + 1;
      assert idx[k] == i;
    }
  }

  lemma ShiftNotZero(idx: seq<nat>)
    ensures 0 !in Shift(idx) && 0 in [0] + Shift(idx)
  {
  }

  /** What the comprehension keeps: elements of `s` that satisfy `p`, and
      every such element. */
  lemma FilterMembers<T>(s: seq<T>, p: T -> bool)
    ensures forall k :: 0 <= k < |Filter(s, p)| ==> Filter(s, p)[k] in s && p(Filter(s, p)[k])
    ensures forall i :: 0 <= i < |s| && p(s[i]) ==> s[i] in Filter(s, p)
  {
    var idx := FilterSelects(s, p);
    forall i | 0 <= i < |s| && p(s[i]) ensures s[i] in Filter(s, p) {
      var k :| 0 <= k < |idx| && idx[k] == i;
    }
  }

  /** The first element of `s` that satisfies `p`: the head of the
      comprehension, or None when it is empty. */
  function First<T>(s: seq<T>, p: T -> bool): (r: Option<T>)
    ensures r.None? <==> forall i :: 0 <= i < |s| ==> !p(s[i])
    ensures r.Some? ==>
      exists i :: 0 <= i < |s| && s[i] == r.value && p(s[i]) &&
        forall j :: 0 <= j < i ==> !p(s[j])
  {
    var hits := Filter(s, p);
    FilterHead(s, p);
    if hits == [] then None else Some(hits[0])
  }

  lemma FilterHead<T>(s: seq<T>, p: T -> bool)
    ensures Filter(s, p) == [] <==> forall i :: 0 <= i < |s| ==> !p(s[i])
    ensures Filter(s, p) != [] ==>
      exists i :: 0 <= i < |s| && s[i] == Filter(s, p)[0] && p(s[i]) &&
        forall j :: 0 <= j < i ==> !p(s[j])
  {
    var r := Filter(s, p);
    var idx := FilterSelects(s, p);
    if r == [] {
      forall i | 0 <= i < |s| ensures !p(s[i]) {
        assert i !in idx;
      }
    }
  }

  /** Appending one element that passes to elements that all fail. */
  lemma FilterOnlyLast<T>(a: seq<T>, x: T, p: T -> bool)
    requires forall k :: 0 <= k < |a| ==> !p(a[k])
    requires p(x)
    ensures Filter(a + [x], p) == [x]
  {
    FilterConcat(a, [x], p);
    FilterHead(a, p);
    assert [x][1..] == [];
  }
}
