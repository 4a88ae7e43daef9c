/** The in-place list edits the editors perform on their rule lists:
    `_.filter`/`_.reject`/`_.remove` (keep the elements a test accepts) and
    the splice-move `list.splice(end, 0, list.splice(start, 1)[0])`. */
module Lists {

  /** The elements of `s` that `keep` accepts, in their original order. */
  function Filter<T>(s: seq<T>, keep: T -> bool): (r: seq<T>)
    ensures |r| <= |s|
    ensures forall i :: 0 <= i < |r| ==> r[i] in s && keep(r[i])
    ensures forall i :: 0 <= i < |s| && keep(s[i]) ==> s[i] in r
  {
    if |s| == 0 then []
    else if keep(s[|s| - 1]) then Filter(s[..|s| - 1], keep) + [s[|s| - 1]]
    else Filter(s[..|s| - 1], keep)
  }

  /** Filtering distributes over concatenation: the kept elements of two
      pieces stay in the same relative order. */
  lemma {:induction false} FilterAppend<T>(a: seq<T>, b: seq<T>, keep: T -> bool)
    ensures Filter(a + b, keep) == Filter(a, keep) + Filter(b, keep)
  {
    if |b| == 0 {
      assert a + b == a;
    } else {
      assert (a + b)[..|a + b| - 1] == a + b[..|b| - 1];
      FilterAppend(a, b[..|b| - 1], keep);
    }
  }

  /** A list whose every element is kept is left as it is. */
  lemma {:induction false} FilterAllKept<T>(s: seq<T>, keep: T -> bool)
    requires forall i :: 0 <= i < |s| ==> keep(s[i])
    ensures Filter(s, keep) == s
  {
    if |s| > 0 {
      FilterAllKept(s[..|s| - 1], keep);
    }
  }

  /** Two tests that agree on every element keep the same elements. */
  lemma {:induction false} FilterSame<T>(s: seq<T>, p: T -> bool, q: T -> bool)
    requires forall i :: 0 <= i < |s| ==> p(s[i]) == q(s[i])
    ensures Filter(s, p) == Filter(s, q)
  {
    if |s| > 0 {
      FilterSame(s[..|s| - 1], p, q);
    }
  }

  /** A list with no kept element filters to nothing. */
  lemma {:induction false} FilterNoneKept<T>(s: seq<T>, keep: T -> bool)
    requires forall i :: 0 <= i < |s| ==> !keep(s[i])
    ensures Filter(s, keep) == []
  {
    if |s| > 0 {
      FilterNoneKept(s[..|s| - 1], keep);
    }
  }

  /** Where `Array.prototype.splice` starts for a start argument `k` on a
      list of length `n`: negative values count from the end, and both ends
      are clamped. */
  function SpliceIndex(k: int, n: nat): (r: nat)
    ensures r <= n
    ensures 0 <= k <= n ==> r == k
  {
    if k < 0 then (if n + k < 0 then 0 else n + k) else if k > n then n else k
  }

  /** `s.splice(end, 0, s.splice(start, 1)[0])`: take the element at `start`
      out and insert it at `end` of what remains. */
  function Move<T>(s: seq<T>, start: nat, end: int): (r: seq<T>)
    requires start < |s|
    ensures |r| == |s|
    ensures r[SpliceIndex(end, |s| - 1)] == s[start]
  {
    var rest := s[..start] + s[start + 1..];
    var k := SpliceIndex(end, |rest|);
    rest[..k] + [s[start]] + rest[k..]
  }

  /** Where the moved element lands. */
  function Landing(n: nat, end: int): nat
    requires n > 0
  {
    SpliceIndex(end, n - 1)
  }

  /** Moving keeps the same elements, puts the moved one at its landing
      place, and the others keep their relative order. */
  lemma MoveSpec<T>(s: seq<T>, start: nat, end: int)
    requires start < |s|
    ensures |Move(s, start, end)| == |s|
    ensures multiset(Move(s, start, end)) == multiset(s)
    ensures Move(s, start, end)[Landing(|s|, end)] == s[start]
    ensures var m, k := Move(s, start, end), Landing(|s|, end);
            m[..k] + m[k + 1..] == s[..start] + s[start + 1..]
  {
    MoveOthers(s, start, end);
    MoveMultiset(s, start, end);
  }

  /** Taking the moved element back out of the result leaves the others in
      their old order. */
  lemma MoveOthers<T>(s: seq<T>, start: nat, end: int)
    requires start < |s|
    ensures var m, k := Move(s, start, end), Landing(|s|, end);
            |m| == |s| && m[k] == s[start] && m[..k] + m[k + 1..] == s[..start] + s[start + 1..]
  {
    var rest := s[..start] + s[start + 1..];
    var k := SpliceIndex(end, |rest|);
    var m := Move(s, start, end);
    assert m[..k] == rest[..k];
    assert m[k + 1..] == rest[k..];
    assert rest[..k] + rest[k..] == rest;
  }

  lemma MoveMultiset<T>(s: seq<T>, start: nat, end: int)
    requires start < |s|
    ensures multiset(Move(s, start, end)) == multiset(s)
  {
    var rest := s[..start] + s[start + 1..];
    var k := SpliceIndex(end, |rest|);
    calc {
      multiset(Move(s, start, end));
      multiset(rest[..k]) + multiset([s[start]]) + multiset(rest[k..]);
      { assert rest[..k] + rest[k..] == rest; }
      multiset(rest) + multiset([s[start]]);
      multiset(s[..start]) + multiset(s[start + 1..]) + multiset([s[start]]);
      { assert s == s[..start] + [s[start]] + s[start + 1..]; }
      multiset(s);
    }
  }

  /** Moving takes no element from outside the list. */
  lemma MoveElements<T>(s: seq<T>, start: nat, end: int)
    requires start < |s|
    ensures forall i :: 0 <= i < |Move(s, start, end)| ==> Move(s, start, end)[i] in s
  {
    var rest := s[..start] + s[start + 1..];
    var k := SpliceIndex(end, |rest|);
    assert forall x :: x in rest ==> x in s;
    assert Move(s, start, end) == rest[..k] + [s[start]] + rest[k..];
  }

  /** Dragging the moved element back to where it came from restores the list. */
  lemma MoveBack<T>(s: seq<T>, start: nat, end: nat)
    requires start < |s| && end < |s|
    ensures Move(Move(s, start, end), end, start) == s
  {
    var m := Move(s, start, end);
    MoveSpec(s, start, end);
    assert Landing(|s|, end) == end;
    MoveSpec(m, end, start);
    assert Landing(|m|, start) == start;
    var r := Move(m, end, start);
    assert r[..start] + r[start + 1..] == s[..start] + s[start + 1..];
    assert r[start] == s[start];
    assert |r| == |s|;
    forall i | 0 <= i < |s| ensures r[i] == s[i] {
      if i < start {
        assert r[i] == (r[..start] + r[start + 1..])[i];
        assert s[i] == (s[..start] + s[start + 1..])[i];
      } else if i > start {
        assert r[i] == (r[..start] + r[start + 1..])[i - 1];
        assert s[i] == (s[..start] + s[start + 1..])[i - 1];
      }
    }
  }
}
