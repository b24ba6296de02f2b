/** The airport picker (src/components/airport/AirportSearch.tsx): which
    queries it runs, the list it draws from, the text filter, the nearest
    airport pinned on top, and what a selection does. */
module AirportSearch {
  import opened Optional
  import opened Text
  import opened Seqs
  import opened Types
  import opened QueryPolicy
  import opened AirportQueries

  /** Origin pickers list all active airports; destination pickers list
      the destinations of the chosen origin. */
  datatype Mode = OriginMode | DestinationMode

  /** The picker's props that shape its data; `showNearby` defaults to
      true, `originAirport` to none, `mode` to origin. */
  datatype Props = Props(showNearby: bool, originAirport: Option<Airport>, mode: Mode)

  /** The nearest-airport lookup runs only in an origin picker that shows
      it. */
  function ClosestQuery(p: Props): (c: QueryConfig)
    ensures c.key == AirportKey(Closest)
    ensures c.enabled <==> p.showNearby && p.mode == OriginMode
    ensures c.retry == Some(GeoRetryRule())
  {
    AirportQuery(Closest, EnabledOnly(p.showNearby && p.mode == OriginMode))
  }

  /** The destinations lookup runs only in a destination picker with an
      origin; its code is the origin's, or empty. */
  function DestinationsQuery(p: Props): (c: QueryConfig)
    ensures c.key == AirportKey(Destinations(if p.originAirport.Some? then p.originAirport.value.code else ""))
    ensures c.enabled <==> p.mode == DestinationMode && p.originAirport.Some?
  {
    var code := if p.originAirport.Some? then p.originAirport.value.code else "";
    AirportQuery(Destinations(code), EnabledOnly(p.mode == DestinationMode && p.originAirport.Some?))
  }

  /** The override replaces the hook's own non-empty-code check: an origin
      with an empty code still starts the lookup. */
  lemma DestinationsOverrideSkipsCodeCheck(p: Props)
    requires p.mode == DestinationMode && p.originAirport.Some? && p.originAirport.value.code == ""
    ensures DestinationsQuery(p).enabled && !AirportEnabled(Destinations(""))
  {
  }

  /** A destination as the picker lists it: an airport with no time zone. */
  function AsAirport(d: Destination): (a: Airport)
    ensures a.code == d.code && a.name == d.name && a.country == d.country && a.timezone == ""
  {
    Airport(d.code, d.name, d.country, "")
  }

  /** `sourceData`: the active airports, or the destinations as airports
      (an absent answer is an empty list). */
  function SourceData(mode: Mode, airports: seq<Airport>, destinations: seq<Destination>): (r: seq<Airport>)
    ensures mode == OriginMode ==> r == airports
    ensures mode == DestinationMode ==>
      |r| == |destinations| && forall i :: 0 <= i < |r| ==> r[i] == AsAirport(destinations[i])
  {
    if mode == OriginMode then airports
    else seq(|destinations|, i requires 0 <= i < |destinations| => AsAirport(destinations[i]))
  }

  /** The text an item is searched by: code, name and country, lower-cased. */
  function SearchText(a: Airport): string {
    ToLower(a.code + " " + a.name + " " + a.country)
  }

  /** The filter for a query. */
  function Matches(query: string): Airport -> bool {
    a => Contains(SearchText(a), ToLower(query))
  }

  /** `filteredItems`: everything for an empty query, otherwise the items
      whose search text contains the lower-cased query, in source order. */
  function FilteredItems(source: seq<Airport>, query: string): (r: seq<Airport>)
    ensures |r| <= |source|
    ensures IsSubsequence(r, source)
    ensures query == "" ==> r == source
    ensures forall a :: multiset(r)[a]
                     == if query == "" || Contains(SearchText(a), ToLower(query)) then multiset(source)[a] else 0
  {
    if query == "" then
      SubsequenceRefl(source);
      source
    else
      FilterIsSubsequence(source, Matches(query));
      forall a ensures multiset(Filter(source, Matches(query)))[a]
                       == if Contains(SearchText(a), ToLower(query)) then multiset(source)[a] else 0 {
        FilterCount(source, Matches(query), a);
      }
      Filter(source, Matches(query))
  }

  /** The shortcut for the empty query agrees with filtering by it: every
      text contains the empty string. */
  lemma EmptyQueryKeepsAll(source: seq<Airport>)
    ensures FilteredItems(source, "") == Filter(source, Matches(""))
  {
    forall a | a in source ensures Matches("")(a) {
      ContainsEmpty(SearchText(a));
    }
    FilterAll(source, Matches(""));
  }

  /** An item is listed exactly when the query is empty or occurs in its
      search text. */
  lemma FilteredMembership(source: seq<Airport>, query: string, a: Airport)
    ensures a in FilteredItems(source, query)
        <==> a in source && (query == "" || Contains(SearchText(a), ToLower(query)))
  {
    if query != "" {
      FilterMembers(source, Matches(query), a);
    }
  }

  /** The filter ignores the case of the query. */
  lemma FilterIgnoresCase(source: seq<Airport>, query: string)
    ensures FilteredItems(source, ToUpper(query)) == FilteredItems(source, query)
  {
    LowerOfUpper(query);
    assert Matches(ToUpper(query)) == Matches(query);
  }

  /** `displayItems`: in an origin picker that shows it, the nearest
      airport first, followed by the filtered items with other codes. */
  function DisplayItems(p: Props, closest: Option<Airport>, filtered: seq<Airport>): (r: seq<Airport>)
    ensures !(closest.Some? && p.showNearby && p.mode == OriginMode) ==> r == filtered
    ensures closest.Some? && p.showNearby && p.mode == OriginMode ==>
      |r| >= 1 && r[0] == closest.value && |r| <= |filtered| + 1
      && IsSubsequence(r[1..], filtered)
      && (forall a :: a in r[1..] <==> a in filtered && a.code != closest.value.code)
      && forall a :: multiset(r[1..])[a] == if a.code != closest.value.code then multiset(filtered)[a] else 0
  {
    if closest.Some? && p.showNearby && p.mode == OriginMode then
      var keep := (a: Airport) => a.code != closest.value.code;
      var rest := Filter(filtered, keep);
      FilterIsSubsequence(filtered, keep);
      assert forall a :: a in rest <==> a in filtered && a.code != closest.value.code by {
        forall a ensures a in rest <==> a in filtered && a.code != closest.value.code {
          FilterMembers(filtered, keep, a);
        }
      }
      forall a ensures multiset(rest)[a] == if a.code != closest.value.code then multiset(filtered)[a] else 0 {
        FilterCount(filtered, keep, a);
      }
      var r := [closest.value] + rest;
      assert r[1..] == rest;
      r
    else filtered
  }

  /** The pinned airport's code appears once, at the top; every filtered
      item with another code is still listed. */
  lemma PinnedAirportOnce(p: Props, c: Airport, filtered: seq<Airport>, a: Airport)
    requires p.showNearby && p.mode == OriginMode
    ensures forall i :: 1 <= i < |DisplayItems(p, Some(c), filtered)| ==>
      DisplayItems(p, Some(c), filtered)[i].code != c.code
    ensures a in filtered && a.code != c.code ==> a in DisplayItems(p, Some(c), filtered)
  {
    var keep := (x: Airport) => x.code != c.code;
    var rest := Filter(filtered, keep);
    assert DisplayItems(p, Some(c), filtered) == [c] + rest;
    forall i | 1 <= i < |[c] + rest| ensures ([c] + rest)[i].code != c.code {
      assert ([c] + rest)[i] == rest[i - 1];
      FilterMembers(filtered, keep, rest[i - 1]);
    }
    FilterMembers(filtered, keep, a);
  }

  /** The pinned airport is shown whatever the query: a search for "xyz"
      still lists it first. */
  lemma PinnedAirportIgnoresQuery()
    ensures var c := Airport("DUB", "Dublin", "Ireland", "Europe/Dublin");
      DisplayItems(Props(true, None, OriginMode), Some(c), FilteredItems([c], "xyz"))[0] == c
  {
  }

  /** The picker's own state. */
  datatype PickerState = PickerState(query: string, isOpen: bool)

  /** `handleSelect`: the choice goes to the parent; the query is cleared
      and the list closed. */
  function Select(s: PickerState, a: Option<Airport>): (r: (Option<Airport>, PickerState))
    ensures r.0 == a
    ensures r.1.query == "" && !r.1.isOpen
  {
    (a, PickerState("", false))
  }

  /** After a selection the list offers every source item again. */
  lemma SelectResetsFilter(s: PickerState, a: Option<Airport>, source: seq<Airport>)
    ensures FilteredItems(source, Select(s, a).1.query) == source
  {
  }
}
