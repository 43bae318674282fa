/**
 * The flag list of a project (src/features/flags/FlagList.tsx): a search
 * box, the flags loaded so far, and a `Load more` button. Pages arrive from
 * the fetch layer as an input the list does not control; the list keeps
 * the current search, the offset it asked for, the flags accumulated so far
 * and the (search, offset) key of the last page it applied.
 */
module FlagList {
  import opened Wrappers
  import opened Text
  import opened FlagTypes
  import opened FlagCard

  /** Flags requested per page. */
  const PageSize := 5

  /** The key of an applied page: the search and the offset it was fetched for. */
  datatype PageKey = PageKey(search: string, offset: int)

  datatype ListState = ListState(search: string, offset: int, accumulated: seq<FeatureFlag>, lastApplied: Option<PageKey>)

  const Initial := ListState("", 0, [], None)

  /** `handleSearch`: a new search starts over from the first page, with nothing shown and nothing applied. */
  function Search(s: ListState, value: string): (t: ListState)
    ensures t == ListState(value, 0, [], None)
  {
    ListState(value, 0, [], None)
  }

  /** `handleLoadMore`: asks for the next page. */
  function LoadMore(s: ListState): (t: ListState)
    ensures t.offset == s.offset + PageSize
    ensures t.search == s.search && t.accumulated == s.accumulated && t.lastApplied == s.lastApplied
  {
    s.(offset := s.offset + PageSize)
  }

  /**
   * The page-arrival effect: no page, or a page for the key already applied,
   * changes nothing; otherwise the key is recorded and the page replaces the
   * list at offset 0 and is appended to it at any other offset.
   */
  function Arrive(s: ListState, page: Option<seq<FeatureFlag>>): (t: ListState)
  {
    if page.None? || s.lastApplied == Some(PageKey(s.search, s.offset)) then s
    else s.(lastApplied := Some(PageKey(s.search, s.offset)),
            accumulated := if s.offset == 0 then page.value else s.accumulated + page.value)
  }

  /** A page whose key is new is applied: replacing at offset 0, appending elsewhere. */
  lemma ArriveApplies(s: ListState, page: seq<FeatureFlag>)
    requires s.lastApplied != Some(PageKey(s.search, s.offset))
    ensures Arrive(s, Some(page)).lastApplied == Some(PageKey(s.search, s.offset))
    ensures Arrive(s, Some(page)).accumulated == (if s.offset == 0 then page else s.accumulated + page)
    ensures Arrive(s, Some(page)).search == s.search && Arrive(s, Some(page)).offset == s.offset
  {
  }

  /** Once a page is applied, anything redelivered for the same key, whatever its contents, is ignored. */
  lemma RedeliveryIgnored(s: ListState, page: Option<seq<FeatureFlag>>, again: Option<seq<FeatureFlag>>)
    ensures Arrive(Arrive(s, page), again) == Arrive(s, page) || page.None?
    ensures Arrive(Arrive(s, page), page) == Arrive(s, page)
  {
  }

  /** The list's invariant: offsets are whole pages, and the applied key belongs to the current search and is not ahead of the offset. */
  predicate Inv(s: ListState) {
    s.offset >= 0 && s.offset % PageSize == 0
    && (s.lastApplied.Some? ==> s.lastApplied.value.search == s.search && s.lastApplied.value.offset <= s.offset)
  }

  lemma InvInitial()
    ensures Inv(Initial)
  {
  }

  lemma InvPreserved(s: ListState, value: string, page: Option<seq<FeatureFlag>>)
    requires Inv(s)
    ensures Inv(Search(s, value)) && Inv(LoadMore(s)) && Inv(Arrive(s, page))
  {
  }

  /** All the flags of a run of pages, page after page. */
  function Concat(pages: seq<seq<FeatureFlag>>): seq<FeatureFlag>
  {
    if pages == [] then [] else Concat(pages[..|pages| - 1]) + pages[|pages| - 1]
  }

  /** Receiving the first page, then asking for and receiving each further page in turn. */
  function Browse(s: ListState, pages: seq<seq<FeatureFlag>>): ListState
    requires |pages| >= 1
  {
    if |pages| == 1 then Arrive(s, Some(pages[0]))
    else Arrive(LoadMore(Browse(s, pages[..|pages| - 1])), Some(pages[|pages| - 1]))
  }

  /**
   * After a search (or at the start), receiving the first page and then
   * loading more page by page shows exactly the pages' flags in order, at
   * the offset of the last page.
   */
  lemma {:induction false} BrowseAccumulates(s: ListState, pages: seq<seq<FeatureFlag>>)
    requires s.offset == 0 && s.lastApplied.None?
    requires |pages| >= 1
    ensures Browse(s, pages).accumulated == Concat(pages)
    ensures Browse(s, pages).offset == PageSize * (|pages| - 1)
    ensures Browse(s, pages).search == s.search
    ensures Browse(s, pages).lastApplied == Some(PageKey(s.search, PageSize * (|pages| - 1)))
  {
    if |pages| == 1 {
      assert Concat(pages) == Concat([]) + pages[0];
    } else {
      BrowseAccumulates(s, pages[..|pages| - 1]);
      assert pages[..|pages| - 1][..|pages| - 2] == pages[..|pages| - 2];
    }
  }

  /** `hasMore`: a page is there and it is full. */
  function HasMore(page: Option<seq<FeatureFlag>>): (more: bool)
    ensures more <==> page.Some? && |page.value| >= PageSize
  {
    page.Some? && |page.value| >= PageSize
  }

  // ---------------------------------------------------------------------
  // What the list shows
  // ---------------------------------------------------------------------

  datatype EmptyNotice = EmptyNotice(title: string, description: string)

  datatype LoadMoreButton = LoadMoreButton(disabled: bool, caption: string)

  datatype ListScreen =
    | Spinner
    | Failed(message: string, detail: Option<string>)
    | Listing(searching: bool, empty: Option<EmptyNotice>, cards: seq<CardView>, loadMore: Option<LoadMoreButton>, footer: string)

  /** The notice for an empty list, which depends on whether a search is in force. */
  function EmptyNoticeFor(search: string): (n: EmptyNotice)
    ensures n.title == "No matching flags" <==> search != ""
    ensures n.title == "No feature flags" <==> search == ""
  {
    if search != "" then EmptyNotice("No matching flags", "Try a different search term.")
    else EmptyNotice("No feature flags", "This project has no feature flags.")
  }

  /**
   * A spinner while the first page or the environments load, the failure
   * message after an error, and otherwise one card per accumulated flag,
   * the empty notice when there are none, `Load more` while the last page
   * was full, and the count.
   */
  function Screen(s: ListState, page: Option<seq<FeatureFlag>>, flagsLoading: bool, envsLoading: bool,
                  isFetching: bool, isError: bool, errorMessage: Option<string>, envs: Option<seq<Environment>>): (screen: ListScreen)
    ensures screen.Spinner? <==> (flagsLoading && s.accumulated == []) || envsLoading
    ensures screen.Failed? <==> !screen.Spinner? && isError
    ensures screen.Failed? ==> screen == Failed("Failed to load feature flags", errorMessage)
    ensures screen.Listing? ==> screen.searching == (isFetching && s.search != "")
    ensures screen.Listing? ==> (screen.empty.Some? <==> s.accumulated == [])
    ensures screen.Listing? && s.accumulated == [] ==> screen.empty == Some(EmptyNoticeFor(s.search))
    ensures screen.Listing? ==> |screen.cards| == |s.accumulated|
    ensures screen.Listing? ==> forall i :: 0 <= i < |s.accumulated| ==> screen.cards[i] == Card(s.accumulated[i], envs.GetOr([]))
    ensures screen.Listing? ==> (screen.loadMore.Some? <==> HasMore(page))
    ensures screen.Listing? && screen.loadMore.Some? ==>
      screen.loadMore.value == LoadMoreButton(isFetching, if isFetching then "Loading..." else "Load more")
    ensures screen.Listing? ==> screen.footer == "Showing " + Counted(|s.accumulated|, "flag")
  {
    if (flagsLoading && s.accumulated == []) || envsLoading then Spinner
    else if isError then Failed("Failed to load feature flags", errorMessage)
    else Listing(
      isFetching && s.search != "",
      if s.accumulated == [] then Some(EmptyNoticeFor(s.search)) else None,
      seq(|s.accumulated|, i requires 0 <= i < |s.accumulated| => Card(s.accumulated[i], envs.GetOr([]))),
      if HasMore(page) then Some(LoadMoreButton(isFetching, if isFetching then "Loading..." else "Load more")) else None,
      "Showing " + Counted(|s.accumulated|, "flag"))
  }

  // ---------------------------------------------------------------------
  // The component's state
  // ---------------------------------------------------------------------

  class FlagListComponent {
    var search: string
    var offset: int
    var accumulated: seq<FeatureFlag>
    var lastApplied: Option<PageKey>

    function State(): ListState
      reads this
    {
      ListState(search, offset, accumulated, lastApplied)
    }

    predicate Valid()
      reads this
    {
      Inv(State())
    }

    constructor()
      ensures State() == Initial && Valid()
    {
      search := "";
      offset := 0;
      accumulated := [];
      lastApplied := None;
    }

    method HandleSearch(value: string)
      requires Valid()
      modifies this
      ensures State() == Search(old(State()), value) && Valid()
    {
      search := value;
      offset := 0;
      accumulated := [];
      lastApplied := None;
    }

    method HandleLoadMore()
      requires Valid()
      modifies this
      ensures State() == LoadMore(old(State())) && Valid()
    {
      offset := offset + PageSize;
    }

    /** The effect that runs when a page is delivered for the current search and offset. */
    method PageArrived(page: Option<seq<FeatureFlag>>)
      requires Valid()
      modifies this
      ensures State() == Arrive(old(State()), page) && Valid()
    {
      if page.None? {
        return;
      }
      var key := PageKey(search, offset);
      if lastApplied == Some(key) {
        return;
      }
      lastApplied := Some(key);
      if offset == 0 {
        accumulated := page.value;
      } else {
        accumulated := accumulated + page.value;
      }
    }
  }
}
