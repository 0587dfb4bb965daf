/**
 * The history page of pages/HistoryPage.tsx: the case-insensitive search over titles and
 * summaries, and the delete confirmation (open the modal with a pending id, then confirm).
 */
module HistoryPage {
  import opened Types
  import opened Js
  import opened SummaryHistory

  /** An entry is kept when its lower-cased title or summary contains the lower-cased term. */
  predicate MatchesTerm(item: SummaryResult, term: string) {
    Contains(Lower(item.videoTitle), Lower(term)) || Contains(Lower(item.summary), Lower(term))
  }

  /** `filteredHistory`: `history.filter(...)`. */
  function FilteredHistory(h: seq<SummaryResult>, term: string): (r: seq<SummaryResult>)
    ensures |r| <= |h|
    ensures forall e :: e in r ==> MatchesTerm(e, term)
  {
    if h == [] then []
    else if MatchesTerm(h[0], term) then [h[0]] + FilteredHistory(h[1..], term)
    else FilteredHistory(h[1..], term)
  }

  /** `a` is `b` with some entries dropped, the rest in their order. */
  predicate IsSubsequence(a: seq<SummaryResult>, b: seq<SummaryResult>) {
    a == [] || (b != [] && ((a[0] == b[0] && IsSubsequence(a[1..], b[1..])) || IsSubsequence(a, b[1..])))
  }

  /** The list keeps exactly the entries that match, each as often as history holds it. */
  lemma {:induction false} FilteredExactly(h: seq<SummaryResult>, term: string)
    ensures forall e :: e in FilteredHistory(h, term) <==> e in h && MatchesTerm(e, term)
    ensures forall e ::
      multiset(FilteredHistory(h, term))[e] == (if MatchesTerm(e, term) then multiset(h)[e] else 0)
  {
    if h != [] {
      FilteredExactly(h[1..], term);
      assert h == [h[0]] + h[1..];
    }
  }

  /** The list is in history's order: a subsequence of it. */
  lemma {:induction false} FilteredInOrder(h: seq<SummaryResult>, term: string)
    ensures IsSubsequence(FilteredHistory(h, term), h)
  {
    if h != [] {
      FilteredInOrder(h[1..], term);
      var r := FilteredHistory(h, term);
      if MatchesTerm(h[0], term) {
        assert r[0] == h[0] && r[1..] == FilteredHistory(h[1..], term);
      }
    }
  }

  /** An empty search term keeps every entry. */
  lemma {:induction false} EmptyTermKeepsAll(h: seq<SummaryResult>)
    ensures FilteredHistory(h, "") == h
  {
    if h != [] {
      assert MatchesTerm(h[0], "");
      EmptyTermKeepsAll(h[1..]);
    }
  }

  /** Terms that agree once lower-cased select the same entries: the search ignores case. */
  lemma {:induction false} CaseInsensitive(h: seq<SummaryResult>, t1: string, t2: string)
    requires Lower(t1) == Lower(t2)
    ensures FilteredHistory(h, t1) == FilteredHistory(h, t2)
    ensures FilteredHistory(h, Lower(t1)) == FilteredHistory(h, t1)
  {
    LowerIdempotent(t1);
    if h != [] {
      CaseInsensitive(h[1..], t1, t2);
    }
  }

  /** The page component: its state hooks, and its own instance of the history hook. */
  class Page {
    var searchTerm: string
    var selectedSummary: Option<SummaryResult>
    var isModalOpen: bool
    var summaryToDelete: Option<int>
    const store: HistoryStore

    /** The first render: no search, nothing selected, the modal closed; history read from `slot`. */
    constructor (slot: HistorySlot)
      ensures searchTerm == "" && selectedSummary == None && !isModalOpen && summaryToDelete == None
      ensures fresh(store) && store.history == LoadHistory(slot) && store.stored == slot
    {
      searchTerm := "";
      selectedSummary := None;
      isModalOpen := false;
      summaryToDelete := None;
      store := new HistoryStore(slot);
    }

    /** The list the page renders. */
    function Listed(): seq<SummaryResult>
      reads this, store
    {
      FilteredHistory(store.history, searchTerm)
    }

    /** The search box's change handler. */
    method SetSearchTerm(t: string)
      modifies this
      ensures searchTerm == t
      ensures selectedSummary == old(selectedSummary) && isModalOpen == old(isModalOpen)
      ensures summaryToDelete == old(summaryToDelete)
    {
      searchTerm := t;
    }

    /** Clicking a listed entry selects it; the page then shows that entry alone. */
    method Select(item: SummaryResult)
      modifies this
      ensures selectedSummary == Some(item)
      ensures searchTerm == old(searchTerm) && isModalOpen == old(isModalOpen)
      ensures summaryToDelete == old(summaryToDelete)
    {
      selectedSummary := Some(item);
    }

    /** The "Back to History" button clears the selection. */
    method BackToHistory()
      modifies this
      ensures selectedSummary == None
      ensures searchTerm == old(searchTerm) && isModalOpen == old(isModalOpen)
      ensures summaryToDelete == old(summaryToDelete)
    {
      selectedSummary := None;
    }

    /** `openDeleteModal(id)`: remember the id and open the modal. */
    method OpenDeleteModal(id: int)
      modifies this
      ensures summaryToDelete == Some(id) && isModalOpen
      ensures searchTerm == old(searchTerm) && selectedSummary == old(selectedSummary)
    {
      summaryToDelete := Some(id);
      isModalOpen := true;
    }

    /** The modal's close handler: it closes the modal but keeps the pending id. */
    method CloseModal()
      modifies this
      ensures !isModalOpen
      ensures summaryToDelete == old(summaryToDelete)
      ensures searchTerm == old(searchTerm) && selectedSummary == old(selectedSummary)
    {
      isModalOpen := false;
    }

    /**
     * `confirmDelete`: with a pending id, delete it from history and drop the selection only if
     * the selected entry has that id; in every case close the modal and clear the pending id.
     */
    method ConfirmDelete(writeOk: bool)
      modifies this, store
      ensures !isModalOpen && summaryToDelete == None
      ensures searchTerm == old(searchTerm)
      ensures old(summaryToDelete).None? ==>
        unchanged(store) && selectedSummary == old(selectedSummary)
      ensures old(summaryToDelete).Some? ==>
        var id := old(summaryToDelete).value;
        store.history == Deleted(old(store.history), id) &&
        store.stored == (if writeOk then Persist(store.history) else old(store.stored)) &&
        selectedSummary ==
          (if old(selectedSummary).Some? && old(selectedSummary).value.id == id then None
           else old(selectedSummary))
    {
      if summaryToDelete.Some? {
        var id := summaryToDelete.value;
        store.Delete(id, writeOk);
        if selectedSummary.Some? && selectedSummary.value.id == id {
          selectedSummary := None;
        }
      }
      isModalOpen := false;
      summaryToDelete := None;
    }
  }
}
