/**
 * The history store of hooks/useSummaryHistory.tsx: the in-memory history, its persisted copy
 * in the storage slot 'yt-summarizer-history', and the add / delete operations that re-sort the
 * history newest-first and write it back.
 */
module SummaryHistory {
  import opened Types

  /** The storage key the history is kept under. */
  const HistoryStorageKey := "yt-summarizer-history"

  /**
   * The content of the storage slot. The JSON text is opaque: `Encoded(items)` is what
   * `JSON.stringify(items)` wrote, `Malformed` is any text `JSON.parse` rejects, `Blank` is the
   * empty string (falsy, so never parsed) and `Missing` is `getItem` returning null.
   */
  datatype HistorySlot = Missing | Blank | Malformed | Encoded(items: seq<SummaryResult>)

  /** What the mount effect leaves in `history` for a given slot content. */
  function LoadHistory(slot: HistorySlot): seq<SummaryResult> {
    match slot
    case Encoded(items) => items
    case _ => []
  }

  /** What a successful `setItem(key, JSON.stringify(h))` leaves in the slot. */
  function Persist(h: seq<SummaryResult>): HistorySlot {
    Encoded(h)
  }

  /** Persisting a history and loading it back gives the same history. */
  lemma PersistLoadRoundTrip(h: seq<SummaryResult>)
    ensures LoadHistory(Persist(h)) == h
  {
  }

  /** Newest first: the id timestamps never increase along the history. */
  predicate NewestFirst(h: seq<SummaryResult>) {
    forall i, j :: 0 <= i < j < |h| ==> h[i].id >= h[j].id
  }

  /**
   * Inserting `x` into a newest-first `t` the way a stable sort does when `x` came first:
   * `x` goes before the first entry that is not newer than it.
   */
  function Insert(x: SummaryResult, t: seq<SummaryResult>): seq<SummaryResult> {
    if t == [] || t[0].id <= x.id then [x] + t else [t[0]] + Insert(x, t[1..])
  }

  /**
   * `h.sort((a, b) => time(b.id) - time(a.id))`: the stable sort of ECMAScript 2019 with a
   * descending comparator, as an insertion sort from the back.
   */
  function SortNewestFirst(s: seq<SummaryResult>): seq<SummaryResult> {
    if s == [] then [] else Insert(s[0], SortNewestFirst(s[1..]))
  }

  lemma {:induction false} InsertPermutation(x: SummaryResult, t: seq<SummaryResult>)
    ensures multiset(Insert(x, t)) == multiset(t) + multiset{x}
    ensures |Insert(x, t)| == |t| + 1
    decreases |t|
  {
    if t != [] && t[0].id > x.id {
      InsertPermutation(x, t[1..]);
      assert t == [t[0]] + t[1..];
    }
  }

  /** What `Insert` yields is `x` or an entry of `t`. */
  lemma {:induction false} InsertKeeps(x: SummaryResult, t: seq<SummaryResult>, e: SummaryResult)
    requires e in Insert(x, t)
    ensures e == x || e in t
    decreases |t|
  {
    if t != [] && t[0].id > x.id && e != t[0] {
      InsertKeeps(x, t[1..], e);
    }
  }

  lemma {:induction false} InsertSorted(x: SummaryResult, t: seq<SummaryResult>)
    requires NewestFirst(t)
    ensures NewestFirst(Insert(x, t))
    decreases |t|
  {
    if t != [] && t[0].id > x.id {
      var rest := Insert(x, t[1..]);
      InsertSorted(x, t[1..]);
      forall e | e in rest
        ensures e.id <= t[0].id
      {
        InsertKeeps(x, t[1..], e);
      }
      assert Insert(x, t) == [t[0]] + rest;
    }
  }

  /** The sort yields a newest-first permutation of its input. */
  lemma SortNewestFirstCorrect(s: seq<SummaryResult>)
    ensures NewestFirst(SortNewestFirst(s))
    ensures multiset(SortNewestFirst(s)) == multiset(s)
    ensures |SortNewestFirst(s)| == |s|
  {
    SortIsSorted(s);
    SortIsPermutation(s);
  }

  lemma {:induction false} SortIsSorted(s: seq<SummaryResult>)
    ensures NewestFirst(SortNewestFirst(s))
  {
    if s != [] {
      SortIsSorted(s[1..]);
      InsertSorted(s[0], SortNewestFirst(s[1..]));
    }
  }

  lemma {:induction false} SortIsPermutation(s: seq<SummaryResult>)
    ensures multiset(SortNewestFirst(s)) == multiset(s)
    ensures |SortNewestFirst(s)| == |s|
  {
    if s != [] {
      SortIsPermutation(s[1..]);
      InsertPermutation(s[0], SortNewestFirst(s[1..]));
      assert s == [s[0]] + s[1..];
    }
  }

  /** Sorting a history that is already newest-first leaves it unchanged. */
  lemma {:induction false} SortOfSorted(s: seq<SummaryResult>)
    requires NewestFirst(s)
    ensures SortNewestFirst(s) == s
  {
    if s != [] {
      SortOfSorted(s[1..]);
      assert s == [s[0]] + s[1..];
    }
  }

  /** `x` sorts to the front when nothing in `t` is newer (the sort is stable and `x` is first). */
  lemma NewestGoesFirst(x: SummaryResult, t: seq<SummaryResult>)
    requires forall e :: e in t ==> e.id <= x.id
    ensures SortNewestFirst([x] + t) == [x] + SortNewestFirst(t)
  {
    assert ([x] + t)[1..] == t;
    SortNewestFirstCorrect(t);
    var st := SortNewestFirst(t);
    if st != [] {
      assert st[0] in multiset(t);
    }
  }

  /** `Insert` splits `t` at the first entry that is not newer than `x`. */
  lemma {:induction false} InsertAt(x: SummaryResult, t: seq<SummaryResult>, k: nat)
    requires k <= |t|
    requires forall m :: 0 <= m < k ==> t[m].id > x.id
    requires k == |t| || t[k].id <= x.id
    ensures Insert(x, t) == t[..k] + [x] + t[k..]
    decreases k
  {
    if k > 0 {
      InsertAt(x, t[1..], k - 1);
      assert t[1..][..k - 1] == t[1..k];
      assert t[..k] == [t[0]] + t[1..k];
    }
  }

  /** One insertion step: moves `a[i]` into the newest-first suffix after it. */
  method InsertStep(a: array<SummaryResult>, i: nat)
    requires i < a.Length
    modifies a
    ensures a[..i] == old(a[..i])
    ensures a[i..] == Insert(old(a[i]), old(a[i + 1..]))
  {
    var x := a[i];
    ghost var t := a[i + 1..];
    var j := i;
    while j + 1 < a.Length && a[j + 1].id > x.id
      invariant i <= j < a.Length
      invariant forall m :: 0 <= m < i ==> a[m] == old(a[m])
      invariant forall m :: i <= m < j ==> a[m] == t[m - i]
      invariant forall m :: j < m < a.Length ==> a[m] == t[m - i - 1]
      invariant forall m :: 0 <= m < j - i ==> t[m].id > x.id
    {
      a[j] := a[j + 1];
      j := j + 1;
    }
    a[j] := x;
    var k := j - i;
    InsertAt(x, t, k);
    SplicedSuffix(a[..], i, k, x, t);
    assert a[..i] == old(a[..i]);
  }

  /** The array's contents after the shifting loop: `t` with `x` placed at `k`, from `i` on. */
  lemma SplicedSuffix(b: seq<SummaryResult>, i: nat, k: nat, x: SummaryResult, t: seq<SummaryResult>)
    requires i + k < |b| && |t| == |b| - i - 1
    requires forall m :: i <= m < i + k ==> b[m] == t[m - i]
    requires b[i + k] == x
    requires forall m :: i + k < m < |b| ==> b[m] == t[m - i - 1]
    ensures b[i..] == t[..k] + [x] + t[k..]
  {
    var spliced := t[..k] + [x] + t[k..];
    forall m | 0 <= m < |spliced|
      ensures b[i..][m] == spliced[m]
    {
      if m < k {
        assert spliced[m] == t[m];
      } else if m > k {
        assert spliced[m] == t[m - 1];
      }
    }
  }

  /** `Array.prototype.sort` on the array itself: it reorders the array in place. */
  method SortInPlace(a: array<SummaryResult>)
    modifies a
    ensures a[..] == SortNewestFirst(old(a[..]))
  {
    ghost var input := a[..];
    var i := a.Length;
    while i > 0
      invariant 0 <= i <= a.Length
      invariant a[..i] == input[..i]
      invariant a[i..] == SortNewestFirst(input[i..])
    {
      i := i - 1;
      assert input[i..] == [input[i]] + input[i + 1..];
      assert a[i] == input[i];
      InsertStep(a, i);
    }
    assert a[..] == a[0..];
  }

  /** `prevHistory.filter(item => item.id !== id)`. */
  function RemoveId(h: seq<SummaryResult>, id: int): seq<SummaryResult> {
    if h == [] then []
    else if h[0].id != id then [h[0]] + RemoveId(h[1..], id)
    else RemoveId(h[1..], id)
  }

  /**
   * The filter drops every entry with that id and keeps every other entry with its
   * multiplicity.
   */
  lemma {:induction false} RemoveIdCounts(h: seq<SummaryResult>, id: int)
    ensures forall e: SummaryResult :: e.id == id ==> multiset(RemoveId(h, id))[e] == 0
    ensures forall e: SummaryResult :: e.id != id ==> multiset(RemoveId(h, id))[e] == multiset(h)[e]
  {
    if h != [] {
      RemoveIdCounts(h[1..], id);
      assert h == [h[0]] + h[1..];
    }
  }

  /** What the filter keeps comes from the history and does not have the id. */
  lemma {:induction false} RemoveIdKeeps(h: seq<SummaryResult>, id: int, e: SummaryResult)
    requires e in RemoveId(h, id)
    ensures e in h && e.id != id
  {
    if h[0] != e || h[0].id == id {
      RemoveIdKeeps(h[1..], id, e);
    }
  }

  /** Filtering keeps a newest-first history newest-first. */
  lemma {:induction false} RemoveIdSorted(h: seq<SummaryResult>, id: int)
    requires NewestFirst(h)
    ensures NewestFirst(RemoveId(h, id))
  {
    if h != [] {
      RemoveIdSorted(h[1..], id);
      var rest := RemoveId(h[1..], id);
      if h[0].id != id {
        forall e | e in rest
          ensures e.id <= h[0].id
        {
          RemoveIdKeeps(h[1..], id, e);
        }
        assert RemoveId(h, id) == [h[0]] + rest;
      }
    }
  }

  /** Filtering out an id that no entry has changes nothing. */
  lemma {:induction false} RemoveAbsentId(h: seq<SummaryResult>, id: int)
    requires forall e :: e in h ==> e.id != id
    ensures RemoveId(h, id) == h
  {
    if h != [] {
      RemoveAbsentId(h[1..], id);
      assert h == [h[0]] + h[1..];
    }
  }

  /** The history after `addSummary(summary)`. */
  function Added(h: seq<SummaryResult>, summary: SummaryResult): seq<SummaryResult> {
    SortNewestFirst([summary] + h)
  }

  /** The history after `deleteSummary(id)`. */
  function Deleted(h: seq<SummaryResult>, id: int): seq<SummaryResult> {
    SortNewestFirst(RemoveId(h, id))
  }

  /** Adding gives one more entry, the new one included, newest first, nothing else changed. */
  lemma AddedProperties(h: seq<SummaryResult>, summary: SummaryResult)
    ensures |Added(h, summary)| == |h| + 1
    ensures summary in Added(h, summary)
    ensures multiset(Added(h, summary)) == multiset(h) + multiset{summary}
    ensures NewestFirst(Added(h, summary))
  {
    SortNewestFirstCorrect([summary] + h);
    assert summary in multiset([summary] + h);
  }

  /** An entry not older than any other ends at index 0, followed by the sorted rest. */
  lemma AddedNewestAtFront(h: seq<SummaryResult>, summary: SummaryResult)
    requires forall e :: e in h ==> e.id <= summary.id
    ensures Added(h, summary)[0] == summary
    ensures NewestFirst(h) ==> Added(h, summary) == [summary] + h
  {
    NewestGoesFirst(summary, h);
    if NewestFirst(h) {
      SortOfSorted(h);
    }
  }

  /** Deleting removes every entry with the id, keeps every other entry's count, newest first. */
  lemma DeletedProperties(h: seq<SummaryResult>, id: int)
    ensures forall e :: e in Deleted(h, id) ==> e.id != id
    ensures forall e: SummaryResult :: e.id != id ==> multiset(Deleted(h, id))[e] == multiset(h)[e]
    ensures NewestFirst(Deleted(h, id))
  {
    SortNewestFirstCorrect(RemoveId(h, id));
    RemoveIdCounts(h, id);
    forall e | e in Deleted(h, id)
      ensures e.id != id
    {
      assert e in multiset(RemoveId(h, id));
    }
  }

  /** Deleting the same id twice gives the history that deleting it once gives. */
  lemma DeleteIdempotent(h: seq<SummaryResult>, id: int)
    ensures Deleted(Deleted(h, id), id) == Deleted(h, id)
  {
    DeletedProperties(h, id);
    RemoveAbsentId(Deleted(h, id), id);
    SortOfSorted(Deleted(h, id));
  }

  /** Deleting an id that is not present from a newest-first history leaves it unchanged. */
  lemma DeleteAbsentIsNoOp(h: seq<SummaryResult>, id: int)
    requires NewestFirst(h)
    requires forall e :: e in h ==> e.id != id
    ensures Deleted(h, id) == h
  {
    RemoveAbsentId(h, id);
    SortOfSorted(h);
  }

  /**
   * One `useSummaryHistory` instance: its `history` state and the storage slot it reads at
   * mount and writes on every change.
   */
  class HistoryStore {
    var history: seq<SummaryResult>
    var stored: HistorySlot

    /**
     * Mounting: `history` starts empty; the effect parses a truthy slot content, and a parse
     * failure resets it to empty.
     */
    constructor (slot: HistorySlot)
      ensures stored == slot
      ensures history == LoadHistory(slot)
    {
      history := [];
      stored := slot;
      if slot != Missing && slot != Blank {
        if slot.Malformed? {
          history := [];
        } else {
          history := slot.items;
        }
      }
    }

    /**
     * `saveHistory(newHistory)`: sorts the array in place, then writes it to storage. A write
     * that throws (`writeOk` false: quota exceeded) is caught and leaves the slot as it was;
     * the array stays sorted either way.
     */
    method SaveHistory(buf: array<SummaryResult>, writeOk: bool)
      modifies this`stored, buf
      ensures buf[..] == SortNewestFirst(old(buf[..]))
      ensures stored == if writeOk then Persist(buf[..]) else old(stored)
    {
      SortInPlace(buf);
      if writeOk {
        stored := Persist(buf[..]);
      }
    }

    /**
     * `addSummary(summary)`: prepends, saves, and makes the (now sorted) array the history,
     * whether or not the write succeeded.
     */
    method Add(summary: SummaryResult, writeOk: bool)
      modifies this
      ensures history == Added(old(history), summary)
      ensures stored == if writeOk then Persist(history) else old(stored)
    {
      var updated := [summary] + history;
      var buf := new SummaryResult[|updated|](k requires 0 <= k < |updated| => updated[k]);
      assert buf[..] == updated;
      SaveHistory(buf, writeOk);
      history := buf[..];
    }

    /** `deleteSummary(id)`: filters, saves, and makes the sorted array the history. */
    method Delete(id: int, writeOk: bool)
      modifies this
      ensures history == Deleted(old(history), id)
      ensures stored == if writeOk then Persist(history) else old(stored)
    {
      var updated := RemoveId(history, id);
      var buf := new SummaryResult[|updated|](k requires 0 <= k < |updated| => updated[k]);
      assert buf[..] == updated;
      SaveHistory(buf, writeOk);
      history := buf[..];
    }
  }
}
