/** The case list view: summary truncation and the case-click handler. */
module CaseList {
  import opened Strings
  import opened Wrappers
  import opened CaseBuilder
  import opened CasesStore

  /** The default length `shorten` cuts summaries to. */
  const DEFAULT_LENGTH: nat := 120

  /** The ellipsis character U+2026 appended to a cut text. */
  const ELLIPSIS: char := '\U{2026}'

  /**
   * `shorten(t, n)`: empty text stays empty, text of at most `n` characters is
   * kept, longer text is cut to `n` characters, stripped of trailing white
   * space, and ends in an ellipsis.
   */
  function Shorten(t: string, n: nat): (r: string)
    ensures t == "" ==> r == ""
    ensures |t| <= n ==> r == t
    ensures |t| > n ==>
      && 1 <= |r| <= n + 1
      && r[|r| - 1] == ELLIPSIS
      && r[..|r| - 1] <= t[..n]
      && (|r| == 1 || !IsWhiteSpace(r[|r| - 2]))
      && forall i :: |r| - 1 <= i < n ==> IsWhiteSpace(t[i])
  {
    if t == "" then ""
    else if |t| <= n then t
    else TrimEnd(t[..n]) + [ELLIPSIS]
  }

  /** `shorten(t)` with the default length, as the list renders each summary. */
  function ShortenSummary(t: string): (r: string)
    ensures |r| <= DEFAULT_LENGTH + 1
    ensures |t| <= DEFAULT_LENGTH ==> r == t
  {
    Shorten(t, DEFAULT_LENGTH)
  }

  /**
   * The click handler of a listed case: select it, then set the filter to its
   * status. A case that was visible stays visible.
   */
  method OnCaseClick(store: CaseStore, c: Case)
    modifies store
    ensures store.selectedCaseId == Some(c.id) && store.statusFilter == Only(c.status)
    ensures store.items == old(store.items)
    ensures store.isLoading == old(store.isLoading) && store.error == old(store.error)
    ensures c in VisibleCases(old(store.items), old(store.statusFilter)) ==>
      c in VisibleCases(store.items, store.statusFilter)
    ensures old(store.SelectionResolved()) && c in old(store.items) ==> store.SelectionResolved()
  {
    ghost var before := VisibleCases(store.items, store.statusFilter);
    if c in before {
      VisibleUnderOwnStatus(store.items, store.statusFilter, c);
    }
    store.SelectCase(c.id);
    store.SetStatusFilter(Only(c.status));
  }
}
