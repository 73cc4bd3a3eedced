/**
 * The cases store: the state record, its five transitions (select a case,
 * set the filter, and the three outcomes of a load), and the pure queries
 * the views read.
 */
module CasesStore {
  import opened Wrappers
  import opened CaseBuilder

  /** The visible list is cut to this many cases. */
  const MAX_VISIBLE: nat := 30

  /** The value of the status filter control: all cases, or one status. */
  datatype StatusFilter = ALL | Only(status: Status)

  /** `items.filter(c => c.status === st)`, in order. */
  function FilterByStatus(items: seq<Case>, st: Status): (r: seq<Case>)
    ensures |r| <= |items|
    ensures forall i :: 0 <= i < |r| ==> r[i] in items && r[i].status == st
    ensures forall c :: c in items && c.status == st ==> c in r
  {
    if items == [] then []
    else (if items[0].status == st then [items[0]] else []) + FilterByStatus(items[1..], st)
  }

  /** Filtering distributes over concatenation, so it keeps the order of `items`. */
  lemma {:induction false} FilterByStatusAppend(a: seq<Case>, b: seq<Case>, st: Status)
    ensures FilterByStatus(a + b, st) == FilterByStatus(a, st) + FilterByStatus(b, st)
  {
    if a != [] {
      FilterByStatusAppend(a[1..], b, st);
      assert (a + b)[1..] == a[1..] + b;
    } else {
      assert a + b == b;
    }
  }

  /** When every item has status `st`, the filter keeps them all. */
  lemma {:induction false} FilterByStatusAllMatch(items: seq<Case>, st: Status)
    requires forall i :: 0 <= i < |items| ==> items[i].status == st
    ensures FilterByStatus(items, st) == items
  {
    if items != [] {
      FilterByStatusAllMatch(items[1..], st);
    }
  }

  /** `s.slice(0, n)`. */
  function Take(s: seq<Case>, n: nat): (r: seq<Case>)
    ensures |r| <= n && r <= s
    ensures |s| <= n ==> r == s
    ensures |s| > n ==> |r| == n
  {
    if |s| <= n then s else s[..n]
  }

  /** `selectVisibleCases`. */
  function VisibleCases(items: seq<Case>, filter: StatusFilter): (r: seq<Case>)
    ensures |r| <= MAX_VISIBLE
    ensures filter == ALL ==> r <= items && |r| == if |items| < MAX_VISIBLE then |items| else MAX_VISIBLE
    ensures filter.Only? ==> r <= FilterByStatus(items, filter.status)
    ensures filter.Only? ==> |r| == var m := |FilterByStatus(items, filter.status)|; if m < MAX_VISIBLE then m else MAX_VISIBLE
    ensures forall i :: 0 <= i < |r| ==> r[i] in items && (filter.Only? ==> r[i].status == filter.status)
  {
    Take(if filter == ALL then items else FilterByStatus(items, filter.status), MAX_VISIBLE)
  }

  /** The first `n` items, filtered, are a prefix of all items, filtered. */
  lemma FilterOfPrefix(items: seq<Case>, n: nat, st: Status)
    requires n <= |items|
    ensures FilterByStatus(items[..n], st) <= FilterByStatus(items, st)
  {
    assert items == items[..n] + items[n..];
    FilterByStatusAppend(items[..n], items[n..], st);
  }

  /**
   * Clicking a visible case sets the filter to its status; the case is then
   * still visible, because under its own status it sits no later in the
   * filtered list than it did before.
   */
  lemma VisibleUnderOwnStatus(items: seq<Case>, filter: StatusFilter, c: Case)
    requires c in VisibleCases(items, filter)
    ensures c in VisibleCases(items, Only(c.status))
  {
    if filter == ALL {
      var v := VisibleCases(items, filter);
      var i :| 0 <= i < |v| && v[i] == c;
      assert items[i] == c;
      FilteredUpTo(items, i);
      FilterOfPrefix(items, i + 1, c.status);
      InShortPrefix(FilterByStatus(items[..i + 1], c.status), FilterByStatus(items, c.status), c);
    }
  }

  /** The filter of `items[..i + 1]` under the status of `items[i]` ends with `items[i]` and has at most `i + 1` elements. */
  lemma FilteredUpTo(items: seq<Case>, i: nat)
    requires i < |items|
    ensures items[i] in FilterByStatus(items[..i + 1], items[i].status)
    ensures |FilterByStatus(items[..i + 1], items[i].status)| <= i + 1
  {
    var c := items[i];
    assert items[..i + 1] == items[..i] + [c];
    FilterByStatusAppend(items[..i], [c], c.status);
    assert FilterByStatus([c], c.status) == [c];
  }

  /** An element of a prefix at most `MAX_VISIBLE` long survives the cut to `MAX_VISIBLE`. */
  lemma InShortPrefix(front: seq<Case>, all: seq<Case>, c: Case)
    requires front <= all && c in front && |front| <= MAX_VISIBLE
    ensures c in Take(all, MAX_VISIBLE)
  {
    var j :| 0 <= j < |front| && front[j] == c;
    assert Take(all, MAX_VISIBLE)[j] == c;
  }

  /** `selectVisibleCount`. */
  function VisibleCount(items: seq<Case>, filter: StatusFilter): (n: nat)
    ensures n <= MAX_VISIBLE && n == |VisibleCases(items, filter)|
    ensures filter == ALL ==> n == if |items| < MAX_VISIBLE then |items| else MAX_VISIBLE
    ensures filter.Only? ==> n == var m := CountOf(items, filter.status); if m < MAX_VISIBLE then m else MAX_VISIBLE
  {
    if filter.Only? then
      CountOfIsFilterLength(items, filter.status);
      |VisibleCases(items, filter)|
    else
      |VisibleCases(items, filter)|
  }

  /** The count of `st` among `items` as a left fold: the value `selectStatusCounts`' reduce leaves under key `st`. */
  function CountOf(items: seq<Case>, st: Status): nat {
    if items == [] then 0
    else CountOf(items[..|items| - 1], st) + (if items[|items| - 1].status == st then 1 else 0)
  }

  lemma {:induction false} CountOfIsFilterLength(items: seq<Case>, st: Status)
    ensures CountOf(items, st) == |FilterByStatus(items, st)|
  {
    if items != [] {
      var n := |items| - 1;
      CountOfIsFilterLength(items[..n], st);
      assert items == items[..n] + [items[n]];
      FilterByStatusAppend(items[..n], [items[n]], st);
      assert FilterByStatus([items[n]], st) == if items[n].status == st then [items[n]] else [];
    }
  }

  /** Every item is counted under exactly one status. */
  lemma {:induction false} CountsSumToLength(items: seq<Case>)
    ensures CountOf(items, OPEN) + CountOf(items, REVIEW) + CountOf(items, CLOSED) == |items|
  {
    if items != [] {
      CountsSumToLength(items[..|items| - 1]);
    }
  }

  /**
   * `selectStatusCounts`: reduce over `items` into `{OPEN: 0, REVIEW: 0,
   * CLOSED: 0}`, adding one per case to its status. The filter plays no part.
   */
  method StatusCounts(items: seq<Case>) returns (counts: map<Status, nat>)
    ensures counts.Keys == {OPEN, REVIEW, CLOSED}
    ensures forall st :: st in counts ==> counts[st] == CountOf(items, st)
  {
    counts := map[OPEN := 0, REVIEW := 0, CLOSED := 0];
    var i := 0;
    while i < |items|
      invariant 0 <= i <= |items|
      invariant counts.Keys == {OPEN, REVIEW, CLOSED}
      invariant forall st :: st in counts ==> counts[st] == CountOf(items[..i], st)
    {
      var c := items[i];
      assert c.status in counts by {
        assert c.status == OPEN || c.status == REVIEW || c.status == CLOSED;
      }
      assert items[..i + 1][..i] == items[..i];
      counts := counts[c.status := counts[c.status] + 1];
      i := i + 1;
    }
    assert items[..i] == items;
  }

  /** `items.some(c => c.id === id)`: a scan that stops at the first match. */
  function HasId(items: seq<Case>, id: int): (r: bool)
    ensures r <==> exists i | 0 <= i < |items| :: items[i].id == id
  {
    if items == [] then false
    else if items[0].id == id then true
    else
      var r := HasId(items[1..], id);
      assert r ==> exists i | 0 <= i < |items| :: items[i].id == id by {
        if r {
          var j :| 0 <= j < |items[1..]| && items[1..][j].id == id;
          assert items[j + 1].id == id;
        }
      }
      assert (exists i | 0 <= i < |items| :: items[i].id == id) ==> r by {
        if exists i | 0 <= i < |items| :: items[i].id == id {
          var j :| 0 <= j < |items| && items[j].id == id;
          assert j > 0 && items[1..][j - 1].id == id;
        }
      }
      r
  }

  /** `selectSelectedCase`: the first item whose id is the selection, or none. */
  function SelectedCase(items: seq<Case>, selectedCaseId: Option<int>): (r: Option<Case>)
    ensures r.None? <==> selectedCaseId.None? || !HasId(items, selectedCaseId.value)
    ensures r.Some? ==> r.value in items && r.value.id == selectedCaseId.value
    ensures r.Some? ==> exists i | 0 <= i < |items| :: items[i] == r.value && !HasId(items[..i], r.value.id)
  {
    if selectedCaseId.None? || items == [] then None
    else if items[0].id == selectedCaseId.value then
      assert items[..0] == [];
      Some(items[0])
    else
      var r := SelectedCase(items[1..], selectedCaseId);
      if r.Some? then
        var i :| 0 <= i < |items[1..]| && items[1..][i] == r.value && !HasId(items[1..][..i], r.value.id);
        assert items[i + 1] == r.value;
        assert items[..i + 1] == [items[0]] + items[1..][..i];
        r
      else
        r
  }

  /**
   * The selection after a successful load: kept when it names one of the new
   * items, otherwise the first new item's id, or none when there are none.
   */
  function RevalidatedSelection(items: seq<Case>, selectedCaseId: Option<int>): (r: Option<int>)
    ensures selectedCaseId.Some? && HasId(items, selectedCaseId.value) ==> r == selectedCaseId
    ensures !(selectedCaseId.Some? && HasId(items, selectedCaseId.value)) && items != [] ==> r == Some(items[0].id)
    ensures r.None? <==> items == []
    ensures r.Some? ==> HasId(items, r.value)
  {
    if selectedCaseId.Some? && HasId(items, selectedCaseId.value) then selectedCaseId
    else if items != [] then Some(items[0].id)
    else None
  }

  /** After a load the selected-case query finds a case exactly when some case was loaded. */
  lemma SelectionResolvesAfterLoad(items: seq<Case>, selectedCaseId: Option<int>)
    ensures SelectedCase(items, RevalidatedSelection(items, selectedCaseId)).Some? <==> items != []
  {
  }

  /** `action.payload || action.error?.message || "Unknown error"`: the first non-empty of the two, else a fixed text. */
  function RejectionMessage(payload: Option<string>, errorMessage: Option<string>): (r: string)
    ensures r != ""
    ensures payload.Some? && payload.value != "" ==> r == payload.value
    ensures !(payload.Some? && payload.value != "") && errorMessage.Some? && errorMessage.value != "" ==> r == errorMessage.value
    ensures !(payload.Some? && payload.value != "") && !(errorMessage.Some? && errorMessage.value != "") ==> r == "Unknown error"
  {
    if payload.Some? && payload.value != "" then payload.value
    else if errorMessage.Some? && errorMessage.value != "" then errorMessage.value
    else "Unknown error"
  }

  /** What the fetch thunk settles with: the posts it read, or the rejected action's payload and error message. */
  datatype FetchOutcome =
    | Fetched(posts: seq<Post>)
    | FetchFailed(payload: Option<string>, errorMessage: Option<string>)

  /** The cases slice of the store. */
  class CaseStore {
    var items: seq<Case>
    var selectedCaseId: Option<int>
    var statusFilter: StatusFilter
    var isLoading: bool
    var error: Option<string>

    /** The selection is none exactly when there are no items, and otherwise names an item. */
    ghost predicate SelectionResolved()
      reads this
    {
      && (selectedCaseId.None? <==> items == [])
      && (selectedCaseId.Some? ==> HasId(items, selectedCaseId.value))
    }

    /** `initialState`. */
    constructor ()
      ensures items == [] && selectedCaseId == None && statusFilter == ALL
      ensures !isLoading && error == None
      ensures SelectionResolved()
    {
      items := [];
      selectedCaseId := None;
      statusFilter := ALL;
      isLoading := false;
      error := None;
    }

    /** `selectCase`: no check that the id exists. */
    method SelectCase(id: int)
      modifies this
      ensures selectedCaseId == Some(id)
      ensures items == old(items) && statusFilter == old(statusFilter)
      ensures isLoading == old(isLoading) && error == old(error)
      ensures old(SelectionResolved()) && HasId(items, id) ==> SelectionResolved()
    {
      selectedCaseId := Some(id);
    }

    /** `setStatusFilter`. */
    method SetStatusFilter(filter: StatusFilter)
      modifies this
      ensures statusFilter == filter
      ensures items == old(items) && selectedCaseId == old(selectedCaseId)
      ensures isLoading == old(isLoading) && error == old(error)
    {
      statusFilter := filter;
    }

    /** The pending case of the load: loading, previous error cleared. */
    method LoadPending()
      modifies this
      ensures isLoading && error == None
      ensures items == old(items) && selectedCaseId == old(selectedCaseId) && statusFilter == old(statusFilter)
    {
      isLoading := true;
      error := None;
    }

    /** The fulfilled case of the load: the items are replaced and the selection revalidated. */
    method LoadFulfilled(payload: seq<Case>)
      modifies this
      ensures !isLoading && items == payload
      ensures selectedCaseId == RevalidatedSelection(payload, old(selectedCaseId))
      ensures statusFilter == old(statusFilter) && error == old(error)
      ensures SelectionResolved()
    {
      isLoading := false;
      items := payload;
      if !(selectedCaseId.Some? && HasId(items, selectedCaseId.value)) {
        selectedCaseId := if items != [] then Some(items[0].id) else None;
      }
    }

    /** The rejected case of the load: the old items and selection stay. */
    method LoadRejected(payload: Option<string>, errorMessage: Option<string>)
      modifies this
      ensures !isLoading && error == Some(RejectionMessage(payload, errorMessage))
      ensures items == old(items) && selectedCaseId == old(selectedCaseId) && statusFilter == old(statusFilter)
    {
      isLoading := false;
      error := Some(RejectionMessage(payload, errorMessage));
    }

    /** One load: pending, then the settlement the fetch produced; fetched posts are built into cases. */
    method Load(outcome: FetchOutcome)
      modifies this
      ensures !isLoading && statusFilter == old(statusFilter)
      ensures outcome.Fetched? ==>
        && items == BuildCases(outcome.posts)
        && selectedCaseId == RevalidatedSelection(items, old(selectedCaseId))
        && error == None
        && SelectionResolved()
      ensures outcome.FetchFailed? ==>
        && items == old(items) && selectedCaseId == old(selectedCaseId)
        && error == Some(RejectionMessage(outcome.payload, outcome.errorMessage))
    {
      LoadPending();
      match outcome
      case Fetched(posts) =>
        LoadFulfilled(BuildCases(posts));
      case FetchFailed(payload, errorMessage) =>
        LoadRejected(payload, errorMessage);
    }
  }

  /** Reloading over `[{id: 1}, {id: 2}]` with case 2 selected, and getting `[{id: 3}, {id: 4}]`, selects case 3. */
  lemma ScenarioSelectionMovesToFirst(oldItems: seq<Case>, newItems: seq<Case>)
    requires |oldItems| == 2 && oldItems[0].id == 1 && oldItems[1].id == 2
    requires |newItems| == 2 && newItems[0].id == 3 && newItems[1].id == 4
    ensures HasId(oldItems, 2)
    ensures RevalidatedSelection(newItems, Some(2)) == Some(3)
  {
    assert oldItems[1].id == 2;
  }

  /** After a load with no cases the selection is none. */
  lemma ScenarioEmptyLoad(selectedCaseId: Option<int>)
    ensures RevalidatedSelection([], selectedCaseId) == None
  {
  }

  /** Forty OPEN cases under the OPEN filter: the first thirty show, in order. */
  lemma ScenarioFortyOpen(items: seq<Case>)
    requires |items| == 40 && forall i :: 0 <= i < |items| ==> items[i].status == OPEN
    ensures VisibleCases(items, Only(OPEN)) == items[..30]
    ensures VisibleCount(items, Only(OPEN)) == 30
  {
    FilterByStatusAllMatch(items, OPEN);
  }
}
