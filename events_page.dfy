/** The events page: its category bar and the events shown for the selected
    category. The selection (`useState`, initially "All") is an argument. */
module EventsPage {
  import opened Sequences
  import opened Schema
  import opened Filters

  function CategoryOf(e: Event): string { e.category }

  /** `["All", ...Array.from(new Set(events.map((e) => e.category)))]` */
  function Categories(events: seq<Event>): (bar: seq<string>)
    ensures |bar| >= 1 && bar[0] == All
    ensures NoDuplicates(bar[1..])
    ensures forall i :: 0 <= i < |events| ==> events[i].category in bar[1..]
    ensures forall c :: c in bar[1..] ==> exists i :: 0 <= i < |events| && events[i].category == c
    ensures InFirstSeenOrder(bar[1..], Map(CategoryOf, events))
  {
    FilterBar(Map(CategoryOf, events))
  }

  /** The events listed for `selected`: all of them for "All", otherwise those
      of that category, in their order. */
  function FilteredEvents(events: seq<Event>, selected: string): (shown: seq<Event>)
    ensures selected == All ==> shown == events
    ensures selected != All ==> IsSubsequence(shown, events)
    ensures selected != All ==> forall i :: 0 <= i < |shown| ==> shown[i].category == selected
    ensures |shown| <= |events|
  {
    Selected(events, CategoryOf, selected)
  }

  /** Under a category, every event of that category is listed as often as it
      occurs, and no other event is. */
  lemma FilteredEventsComplete(events: seq<Event>, selected: string, e: Event)
    requires selected != All
    ensures multiset(FilteredEvents(events, selected))[e] == if e.category == selected then multiset(events)[e] else 0
  {
    MatchingCounts(events, CategoryOf, selected, e);
  }

  /** A category no event has lists nothing. */
  lemma UnknownCategoryShowsNothing(events: seq<Event>, selected: string)
    requires selected != All
    requires forall i :: 0 <= i < |events| ==> events[i].category != selected
    ensures FilteredEvents(events, selected) == []
  {
    NothingMatches(events, CategoryOf, selected);
  }
}
