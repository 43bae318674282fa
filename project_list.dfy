/**
 * The project list (src/features/projects/ProjectList.tsx): the projects
 * loaded so far and a `Load more` button. Like the flag list, pages arrive
 * as an input; unlike it, a page is recognised by its offset alone and
 * there is no search to reset the list.
 */
module ProjectList {
  import opened Wrappers
  import opened Text
  import opened FlagTypes

  /** Projects requested per page. */
  const PageSize := 20

  datatype ListState = ListState(offset: int, accumulated: seq<Project>, lastAppliedOffset: Option<int>)

  const Initial := ListState(0, [], None)

  /** `handleLoadMore`: asks for the next page. */
  function LoadMore(s: ListState): (t: ListState)
    ensures t.offset == s.offset + PageSize
    ensures t.accumulated == s.accumulated && t.lastAppliedOffset == s.lastAppliedOffset
  {
    s.(offset := s.offset + PageSize)
  }

  /**
   * The page-arrival effect: no page, or a page at the offset last applied,
   * changes nothing; otherwise the offset is recorded and the page replaces
   * the list at offset 0 and is appended to it at any other offset.
   */
  function Arrive(s: ListState, page: Option<seq<Project>>): (t: ListState)
  {
    if page.None? || s.lastAppliedOffset == Some(s.offset) then s
    else s.(lastAppliedOffset := Some(s.offset),
            accumulated := if s.offset == 0 then page.value else s.accumulated + page.value)
  }

  lemma ArriveApplies(s: ListState, page: seq<Project>)
    requires s.lastAppliedOffset != Some(s.offset)
    ensures Arrive(s, Some(page)).lastAppliedOffset == Some(s.offset)
    ensures Arrive(s, Some(page)).accumulated == (if s.offset == 0 then page else s.accumulated + page)
    ensures Arrive(s, Some(page)).offset == s.offset
  {
  }

  /** Once a page is applied at an offset, anything redelivered at that offset is ignored. */
  lemma RedeliveryIgnored(s: ListState, page: seq<Project>, again: Option<seq<Project>>)
    ensures Arrive(Arrive(s, Some(page)), again) == Arrive(s, Some(page))
  {
  }

  /** Everything that can happen to the list. */
  datatype Event = LoadMoreClicked | PageDelivered(page: Option<seq<Project>>)

  function Apply(s: ListState, e: Event): ListState
  {
    match e
    case LoadMoreClicked => LoadMore(s)
    case PageDelivered(page) => Arrive(s, page)
  }

  function Run(s: ListState, events: seq<Event>): ListState
  {
    if events == [] then s else Apply(Run(s, events[..|events| - 1]), events[|events| - 1])
  }

  /** The list's invariant: offsets are whole pages, and the applied offset is not ahead of the current one. */
  predicate Inv(s: ListState) {
    s.offset >= 0 && s.offset % PageSize == 0
    && (s.lastAppliedOffset.Some? ==> s.lastAppliedOffset.value <= s.offset)
  }

  lemma InvPreserved(s: ListState, e: Event)
    requires Inv(s)
    ensures Inv(Apply(s, e))
  {
  }

  /**
   * Over any run of events the offset never decreases, and once it is past
   * the first page the accumulated list never gets shorter and keeps what
   * it had as a prefix.
   */
  lemma {:induction false} RunMonotone(s: ListState, events: seq<Event>)
    requires Inv(s)
    ensures Inv(Run(s, events))
    ensures Run(s, events).offset >= s.offset
    ensures s.offset > 0 ==> |Run(s, events).accumulated| >= |s.accumulated|
    ensures s.offset > 0 ==> Run(s, events).accumulated[..|s.accumulated|] == s.accumulated
  {
    if events != [] {
      var mid := Run(s, events[..|events| - 1]);
      RunMonotone(s, events[..|events| - 1]);
      InvPreserved(mid, events[|events| - 1]);
      if s.offset > 0 {
        var t := Apply(mid, events[|events| - 1]);
        assert t.accumulated == mid.accumulated || t.accumulated == mid.accumulated + events[|events| - 1].page.value;
        assert t.accumulated[..|mid.accumulated|] == mid.accumulated;
        assert t.accumulated[..|s.accumulated|] == mid.accumulated[..|s.accumulated|];
      }
    }
  }

  /** `hasMore`: a page is there and it is full. */
  function HasMore(page: Option<seq<Project>>): (more: bool)
    ensures more <==> page.Some? && |page.value| >= PageSize
  {
    page.Some? && |page.value| >= PageSize
  }

  // ---------------------------------------------------------------------
  // What the list shows
  // ---------------------------------------------------------------------

  /** A project's card: its name, key, tags, and its environment count when the project lists its environments. */
  datatype ProjectCard = ProjectCard(name: string, key: string, tags: seq<string>, environments: Option<string>)

  function CardOf(p: Project): (card: ProjectCard)
    ensures card.name == p.name && card.key == p.key && card.tags == p.tags
    ensures card.environments.Some? <==> p.environmentCount.Some?
    ensures card.environments.Some? ==> card.environments.value == Counted(p.environmentCount.value, "environment")
  {
    ProjectCard(p.name, p.key, p.tags,
      if p.environmentCount.Some? then Some(Counted(p.environmentCount.value, "environment")) else None)
  }

  datatype LoadMoreButton = LoadMoreButton(disabled: bool, caption: string)

  datatype ListScreen =
    | Spinner
    | Failed(message: string, detail: Option<string>)
    | NoProjects(title: string, description: string)
    | Listing(cards: seq<ProjectCard>, loadMore: Option<LoadMoreButton>, footer: string)

  /**
   * A spinner only while loading with nothing accumulated, the failure
   * message after an error, a notice when there are no projects, and
   * otherwise one card per project, `Load more` while the last page was
   * full, and the count.
   */
  function Screen(s: ListState, page: Option<seq<Project>>, isLoading: bool, isFetching: bool,
                  isError: bool, errorMessage: Option<string>): (screen: ListScreen)
    ensures screen.Spinner? <==> isLoading && s.accumulated == []
    ensures screen.Failed? <==> !screen.Spinner? && isError
    ensures screen.Failed? ==> screen == Failed("Failed to load projects", errorMessage)
    ensures screen.NoProjects? <==> !(isLoading && s.accumulated == []) && !isError && s.accumulated == []
    ensures screen.NoProjects? ==>
      screen == NoProjects("No projects found", "No LaunchDarkly projects are accessible with this API token.")
    ensures screen.Listing? ==> |screen.cards| == |s.accumulated|
    ensures screen.Listing? ==> forall i :: 0 <= i < |s.accumulated| ==> screen.cards[i] == CardOf(s.accumulated[i])
    ensures screen.Listing? ==> (screen.loadMore.Some? <==> HasMore(page))
    ensures screen.Listing? && screen.loadMore.Some? ==>
      screen.loadMore.value == LoadMoreButton(isFetching, if isFetching then "Loading..." else "Load more")
    ensures screen.Listing? ==> screen.footer == "Showing " + Counted(|s.accumulated|, "project")
  {
    if isLoading && s.accumulated == [] then Spinner
    else if isError then Failed("Failed to load projects", errorMessage)
    else if s.accumulated == [] then
      NoProjects("No projects found", "No LaunchDarkly projects are accessible with this API token.")
    else Listing(
      seq(|s.accumulated|, i requires 0 <= i < |s.accumulated| => CardOf(s.accumulated[i])),
      if HasMore(page) then Some(LoadMoreButton(isFetching, if isFetching then "Loading..." else "Load more")) else None,
      "Showing " + Counted(|s.accumulated|, "project"))
  }

  // ---------------------------------------------------------------------
  // The component's state
  // ---------------------------------------------------------------------

  class ProjectListComponent {
    var offset: int
    var accumulated: seq<Project>
    var lastAppliedOffset: Option<int>

    function State(): ListState
      reads this
    {
      ListState(offset, accumulated, lastAppliedOffset)
    }

    predicate Valid()
      reads this
    {
      Inv(State())
    }

    constructor()
      ensures State() == Initial && Valid()
    {
      offset := 0;
      accumulated := [];
      lastAppliedOffset := None;
    }

    method HandleLoadMore()
      requires Valid()
      modifies this
      ensures State() == LoadMore(old(State())) && Valid()
    {
      offset := offset + PageSize;
    }

    /** The effect that runs when a page is delivered for the current offset. */
    method PageArrived(page: Option<seq<Project>>)
      requires Valid()
      modifies this
      ensures State() == Arrive(old(State()), page) && Valid()
    {
      if page.None? || lastAppliedOffset == Some(offset) {
        return;
      }
      lastAppliedOffset := Some(offset);
      if offset == 0 {
        accumulated := page.value;
      } else {
        accumulated := accumulated + page.value;
      }
    }
  }
}
