/** Sequence operations the stores and the catalog are built from: the
    behaviour of JavaScript's `Array.prototype.filter`, `findIndex`/`find`,
    `slice` and `join`, stated once over immutable sequences. */
module Seqs {

  datatype Option<T> = None | Some(value: T)

  /** `s.filter(p)`: the elements of `s` that satisfy `p`, in their original order. */
  function Filter<T>(s: seq<T>, p: T -> bool): (r: seq<T>)
    ensures |r| <= |s|
    ensures forall i :: 0 <= i < |r| ==> p(r[i])
  {
    if s == [] then [] else (if p(s[0]) then [s[0]] else []) + Filter(s[1..], p)
  }

  /** `Filter` keeps exactly the elements that pass: each kept element is one of
      `s`, and each element of `s` that passes is kept. */
  lemma {:induction false} FilterMembers<T>(s: seq<T>, p: T -> bool)
    ensures forall i :: 0 <= i < |Filter(s, p)| ==> Filter(s, p)[i] in s
    ensures forall i :: 0 <= i < |s| && p(s[i]) ==> s[i] in Filter(s, p)
  {
    if s != [] {
      FilterMembers(s[1..], p);
      var r := Filter(s, p);
      var h := if p(s[0]) then [s[0]] else [];
      assert r == h + Filter(s[1..], p);
      forall i | 0 <= i < |r| ensures r[i] in s {
        if i >= |h| {
          assert r[i] == Filter(s[1..], p)[i - |h|];
          assert r[i] in s[1..];
        }
      }
      forall i | 0 <= i < |s| && p(s[i]) ensures s[i] in r {
        if i > 0 {
          assert s[i] == s[1..][i - 1];
        }
      }
    }
  }

  /** Filtering a concatenation filters each part: the kept elements keep their order. */
  lemma {:induction false} FilterAppend<T>(a: seq<T>, b: seq<T>, p: T -> bool)
    ensures Filter(a + b, p) == Filter(a, p) + Filter(b, p)
  {
    if a == [] {
      assert a + b == b;
    } else {
      assert (a + b)[1..] == a[1..] + b;
      FilterAppend(a[1..], b, p);
    }
  }

  /** When every element passes, filtering changes nothing. */
  lemma {:induction false} FilterKeepsAll<T>(s: seq<T>, p: T -> bool)
    requires forall i :: 0 <= i < |s| ==> p(s[i])
    ensures Filter(s, p) == s
  {
    if s != [] {
      FilterKeepsAll(s[1..], p);
    }
  }

  /** When no element passes, filtering yields the empty sequence. */
  lemma {:induction false} FilterDropsAll<T>(s: seq<T>, p: T -> bool)
    requires forall i :: 0 <= i < |s| ==> !p(s[i])
    ensures Filter(s, p) == []
  {
    if s != [] {
      FilterDropsAll(s[1..], p);
    }
  }

  /** When exactly the elements at positions lo..hi-1 pass, the filter is that slice. */
  lemma {:induction false} FilterSlice<T>(s: seq<T>, p: T -> bool, lo: nat, hi: nat)
    requires lo <= hi <= |s|
    requires forall i :: 0 <= i < |s| ==> (p(s[i]) <==> lo <= i < hi)
    ensures Filter(s, p) == s[lo..hi]
    decreases |s|
  {
    if hi == 0 {
      FilterDropsAll(s, p);
    } else {
      var t := s[1..];
      FilterSliceStep(s, p, lo, hi);
      FilterSlice(t, p, if lo > 0 then lo - 1 else 0, hi - 1);
      SliceOfTail(s, if lo > 0 then lo - 1 else 0, hi - 1);
    }
  }

  /** A slice of `s[1..]` is the slice of `s` one position further on, and the
      first element followed by a prefix of `s[1..]` is a prefix of `s`. */
  lemma SliceOfTail<T>(s: seq<T>, lo: nat, hi: nat)
    requires lo <= hi < |s|
    ensures s[1..][lo..hi] == s[lo + 1..hi + 1]
    ensures [s[0]] + s[1..][..hi] == s[..hi + 1]
  {
  }

  /** One step of `FilterSlice`: the first element decides whether it is kept,
      and the rest of the sequence passes on the shifted positions. */
  lemma FilterSliceStep<T>(s: seq<T>, p: T -> bool, lo: nat, hi: nat)
    requires 0 < hi <= |s| && lo <= hi
    requires forall i :: 0 <= i < |s| ==> (p(s[i]) <==> lo <= i < hi)
    ensures Filter(s, p) == (if lo == 0 then [s[0]] else []) + Filter(s[1..], p)
    ensures var lo', t := if lo > 0 then lo - 1 else 0, s[1..];
      forall i :: 0 <= i < |t| ==> (p(t[i]) <==> lo' <= i < hi - 1)
  {
    var t := s[1..];
    assert p(s[0]) <==> lo == 0;
    forall i | 0 <= i < |t| ensures p(t[i]) <==> (if lo > 0 then lo - 1 else 0) <= i < hi - 1 {
      assert t[i] == s[i + 1];
    }
  }

  /** `s.findIndex(p)`: the first index whose element satisfies `p`, or -1. */
  function FindIndex<T>(s: seq<T>, p: T -> bool): (r: int)
    ensures -1 <= r < |s|
    ensures 0 <= r ==> p(s[r]) && forall j :: 0 <= j < r ==> !p(s[j])
    ensures r == -1 <==> forall j :: 0 <= j < |s| ==> !p(s[j])
  {
    if s == [] then -1
    else if p(s[0]) then 0
    else
      var k := FindIndex(s[1..], p);
      if k < 0 then -1 else k + 1
  }

  /** Searching a sequence with one more element at its end finds the earlier match if there is one. */
  lemma FindIndexAppend<T>(s: seq<T>, x: T, p: T -> bool)
    ensures FindIndex(s + [x], p) ==
      if FindIndex(s, p) >= 0 then FindIndex(s, p) else if p(x) then |s| else -1
  {
    var k := FindIndex(s + [x], p);
    if FindIndex(s, p) >= 0 {
      assert (s + [x])[FindIndex(s, p)] == s[FindIndex(s, p)];
    } else if p(x) {
      assert (s + [x])[|s|] == x;
    }
  }

  /** Replacing the matched element itself by another element that also
      satisfies `p` keeps the index. */
  lemma FindIndexUpdate<T>(s: seq<T>, k: nat, y: T, p: T -> bool)
    requires k < |s| && FindIndex(s, p) == k && p(y)
    ensures FindIndex(s[k := y], p) == k
  {
    var t := s[k := y];
    assert p(t[k]);
    forall j | 0 <= j < k ensures !p(t[j]) {
      assert t[j] == s[j];
    }
  }

  /** `s.find(p)`, with `|| null` rendered as None: the first element that
      satisfies `p`. */
  function Find<T>(s: seq<T>, p: T -> bool): (r: Option<T>)
    ensures r.Some? ==> r.value in s && p(r.value)
    ensures r.Some? ==> exists k :: 0 <= k < |s| && s[k] == r.value && forall j :: 0 <= j < k ==> !p(s[j])
    ensures r.None? <==> forall j :: 0 <= j < |s| ==> !p(s[j])
  {
    var k := FindIndex(s, p);
    if k < 0 then None else Some(s[k])
  }

  /** `s.slice(0, end)`: a negative end counts from the back, and both ends are clamped. */
  function SliceTo<T>(s: seq<T>, end: int): (r: seq<T>)
    ensures r <= s
    ensures 0 <= end <= |s| ==> r == s[..end]
    ensures end >= |s| ==> r == s
    ensures end < 0 ==> |r| == if |s| + end < 0 then 0 else |s| + end
  {
    var e := if end < 0 then (if |s| + end < 0 then 0 else |s| + end)
             else if end > |s| then |s| else end;
    s[..e]
  }

  /** `s.slice(start)`: a negative start counts from the back and is clamped at 0. */
  function SliceFrom<T>(s: seq<T>, start: int): (r: seq<T>)
    ensures |r| <= |s| && r == s[|s| - |r|..]
    ensures 0 <= start <= |s| ==> |r| == |s| - start
    ensures start < 0 ==> |r| == if -start < |s| then -start else |s|
  {
    var b := if start < 0 then (if |s| + start < 0 then 0 else |s| + start)
             else if start > |s| then |s| else start;
    s[b..]
  }

  /** Sum of the lengths of the parts. */
  function TotalLength(parts: seq<string>): nat
  {
    if parts == [] then 0 else |parts[0]| + TotalLength(parts[1..])
  }

  /** `parts.join(sep)`: the parts in order with `sep` between neighbours. */
  function Join(parts: seq<string>, sep: string): (r: string)
    ensures |r| == TotalLength(parts) + (if parts == [] then 0 else (|parts| - 1) * |sep|)
    ensures parts != [] ==> parts[0] <= r
  {
    if parts == [] then ""
    else if |parts| == 1 then parts[0]
    else parts[0] + sep + Join(parts[1..], sep)
  }
}
