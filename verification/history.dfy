/** The viewed-products history (lib/history.ts): a list of viewed items in
    browser storage. Every write keeps only the last 50 entries
    (`items.slice(-50)`); `push` appends one item, writes, and returns the list
    it appended to, before truncation. Missing or unreadable storage reads as
    the empty list. */
module History {
  import opened Seqs

  datatype ViewedItem = ViewedItem(slug: string, title: string, viewedAt: string)

  /** How many entries a write keeps. */
  const Kept: nat := 50

  /** What `write(items)` stores: `items.slice(-50)`, a suffix of at most 50
      entries that is the whole list when it is short enough. */
  function Stored(items: seq<ViewedItem>): (r: seq<ViewedItem>)
    ensures |r| <= Kept && |r| <= |items| && r == items[|items| - |r|..]
    ensures |items| <= Kept ==> r == items
  {
    SliceFrom(items, -(Kept as int))
  }

  /** The stored list is the last `min(50, |items|)` entries of what was written,
      in their original order. */
  lemma StoredIsLastFifty(items: seq<ViewedItem>)
    ensures var r := Stored(items);
      |r| == (if |items| < Kept then |items| else Kept)
      && r == items[|items| - |r|..]
  {
  }

  /** After pushing `x`, `x` is the last stored entry, and the entries kept
      before it are the most recent ones of the old list, in order. */
  lemma PushKeepsNewest(items: seq<ViewedItem>, x: ViewedItem)
    ensures var r := Stored(items + [x]);
      r != [] && r[|r| - 1] == x
      && r[..|r| - 1] == items[|items| - (|r| - 1)..]
  {
    var s := items + [x];
    var r := Stored(s);
    assert r == s[|s| - |r|..];
    assert r[|r| - 1] == s[|s| - 1];
    assert r[..|r| - 1] == s[|s| - |r|..|s| - 1];
    assert s[..|s| - 1] == items;
  }

  /** The stored list after pushing `pushes` one by one onto a store that
      holds `start`. */
  function Replay(start: seq<ViewedItem>, pushes: seq<ViewedItem>): seq<ViewedItem>
    decreases |pushes|
  {
    if pushes == [] then start
    else Replay(Stored(start + [pushes[0]]), pushes[1..])
  }

  /** Any run of pushes leaves the last 50 items pushed, oldest first, however
      many there were. */
  lemma {:induction false} ReplayKeepsLastFifty(start: seq<ViewedItem>, pushes: seq<ViewedItem>)
    requires |start| <= Kept
    ensures Replay(start, pushes) == Stored(start + pushes)
    decreases |pushes|
  {
    if pushes == [] {
      assert start + pushes == start;
      assert Stored(start) == start;
    } else {
      var x := pushes[0];
      ReplayKeepsLastFifty(Stored(start + [x]), pushes[1..]);
      StoredAppend(start + [x], pushes[1..]);
      assert start + [x] + pushes[1..] == start + pushes;
    }
  }

  /** Truncating before appending loses nothing that a single truncation at
      the end would keep: in particular the store after a push equals the last
      50 entries of the untruncated list. */
  lemma StoredAppend(items: seq<ViewedItem>, more: seq<ViewedItem>)
    ensures Stored(Stored(items) + more) == Stored(items + more)
  {
    var t := Stored(items);
    assert t == items[|items| - |t|..];
    var a, b := Stored(t + more), Stored(items + more);
    assert |a| == |b|;
    assert a == (t + more)[|t| + |more| - |a|..];
    assert b == (items + more)[|items| + |more| - |b|..];
    forall i | 0 <= i < |a| ensures a[i] == b[i] {
      var j := |t| + |more| - |a| + i;
      if j < |t| {
        assert a[i] == t[j];
      }
    }
  }

  /** The viewed history as stored in browser storage. */
  class HistoryStore {
    var items: seq<ViewedItem>

    /** The stored list never holds more than 50 entries. */
    ghost predicate Valid()
      reads this
    {
      |items| <= Kept
    }

    /** A store whose key is missing or holds unreadable data reads as empty. */
    constructor ()
      ensures Valid() && items == []
    {
      items := [];
    }

    /** `History.push(item)`: append, store the last 50 entries, and return
        the whole appended list, which can hold 51 entries. */
    method Push(item: ViewedItem) returns (r: seq<ViewedItem>)
      modifies this
      ensures Valid()
      ensures r == old(items) + [item]
      ensures items == Stored(r)
      ensures old(Valid()) ==> |r| <= Kept + 1
    {
      r := items + [item];
      items := SliceFrom(r, -(Kept as int));
    }

    /** `History.get()`. */
    method Get() returns (r: seq<ViewedItem>)
      ensures r == items
    {
      r := items;
    }

    /** `History.clear()`. */
    method Clear()
      modifies this
      ensures Valid() && items == []
    {
      items := SliceFrom([], -(Kept as int));
    }
  }
}
