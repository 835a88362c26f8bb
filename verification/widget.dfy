/**
  The location search component as an object whose handlers update its
  state fields in place, one method per handler. Each method is specified
  by the event it performs in the SearchEvents state machine, and says
  field by field what it changes and what it leaves alone. The constructor
  establishes the invariant `Consistent` and every handler keeps it.
 */
module Widget {
  import opened Geocode
  import opened SearchEvents

  class LocationSearch {
    // component state
    var query: string
    var results: seq<Place>
    var isOpen: bool
    var isLoading: bool
    var selectedLocation: Option<Place>
    // runtime state of the search effect
    var timerArmed: bool
    var inFlight: nat

    /** The fields as a state of the event model. */
    function Snapshot(): State
      reads this
    {
      State(query, results, isOpen, isLoading, selectedLocation, timerArmed, inFlight)
    }

    /** Mounting: empty state, and the search effect's first timer armed. */
    constructor ()
      ensures Snapshot() == Initial()
      ensures Consistent(Snapshot())
    {
      query := "";
      results := [];
      isOpen := false;
      isLoading := false;
      selectedLocation := None;
      timerArmed := true;
      inFlight := 0;
    }

    /** The input's change handler: stores the typed text; a new value re-arms the search timer. */
    method SetQuery(text: string)
      modifies this
      ensures Snapshot() == Step(old(Snapshot()), Typed(text))
      ensures Consistent(old(Snapshot())) ==> Consistent(Snapshot())
      ensures query == text
      ensures timerArmed == (old(timerArmed) || text != old(query))
      ensures results == old(results) && isOpen == old(isOpen) && isLoading == old(isLoading)
      ensures selectedLocation == old(selectedLocation) && inFlight == old(inFlight)
    {
      if text != query {
        timerArmed := true;
      }
      query := text;
    }

    /**
      The debounced search body up to the lookup call. A query shorter than
      two UTF-16 code units empties and closes the dropdown and starts nothing;
      otherwise the loading flag goes up and a lookup for the current query
      starts, which `lookup` returns.
     */
    method RunSearch() returns (lookup: Option<string>)
      modifies this
      ensures Snapshot() == Step(old(Snapshot()), DebounceFired)
      ensures Consistent(old(Snapshot())) ==> Consistent(Snapshot())
      ensures lookup == (if IssuesLookup(old(Snapshot())) then Some(old(query)) else None)
      ensures !timerArmed
      ensures old(timerArmed) && Utf16Length(old(query)) < 2 ==>
                results == [] && !isOpen && isLoading == old(isLoading) && inFlight == old(inFlight)
      ensures old(timerArmed) && Utf16Length(old(query)) >= 2 ==>
                isLoading && inFlight == old(inFlight) + 1 && results == old(results) && isOpen == old(isOpen)
      ensures !old(timerArmed) ==> Snapshot() == old(Snapshot())
      ensures query == old(query) && selectedLocation == old(selectedLocation)
    {
      if !timerArmed {
        return None;
      }
      timerArmed := false;
      if Utf16Length(query) < 2 {
        results := [];
        isOpen := false;
        return None;
      }
      isLoading := true;
      inFlight := inFlight + 1;
      lookup := Some(query);
    }

    /**
      The rest of the search body, when a lookup settles: its results are
      stored and the dropdown opens exactly when they are non-empty; a
      thrown error empties and closes it; either way loading ends.
     */
    method ResolveSearch(outcome: LookupOutcome)
      modifies this
      ensures Snapshot() == Step(old(Snapshot()), LookupSettled(outcome))
      ensures Consistent(old(Snapshot())) ==> Consistent(Snapshot())
      ensures old(inFlight) > 0 && outcome.Resolved? ==>
                results == outcome.places && isOpen == (|outcome.places| > 0)
      ensures old(inFlight) > 0 && outcome.Rejected? ==> results == [] && !isOpen
      ensures old(inFlight) > 0 ==> !isLoading && inFlight == old(inFlight) - 1
      ensures old(inFlight) == 0 ==> Snapshot() == old(Snapshot())
      ensures query == old(query) && selectedLocation == old(selectedLocation) && timerArmed == old(timerArmed)
    {
      if inFlight == 0 {
        return;
      }
      match outcome {
        case Resolved(places) =>
          results := places;
          isOpen := |places| > 0;
        case Rejected =>
          results := [];
          isOpen := false;
      }
      isLoading := false;
      inFlight := inFlight - 1;
    }

    /**
      Selecting a result: it becomes the selected location, its name the
      query, the dropdown closes, and the same place goes to the callback.
     */
    method Select(loc: Place) returns (notified: Place)
      modifies this
      ensures Snapshot() == Step(old(Snapshot()), ResultSelected(loc))
      ensures Consistent(old(Snapshot())) ==> Consistent(Snapshot())
      ensures selectedLocation == Some(loc) && query == loc.name && !isOpen && notified == loc
      ensures results == old(results) && isLoading == old(isLoading) && inFlight == old(inFlight)
      ensures timerArmed == (old(timerArmed) || loc.name != old(query))
    {
      selectedLocation := Some(loc);
      SetQuery(loc.name);
      isOpen := false;
      notified := loc;
    }

    /**
      The clear button: no selection, empty query, no results, dropdown
      closed; then the input is focused again. That runs the input's focus
      handler, which reads the results of the last render (those before the
      clear) and so reopens the dropdown when there were any.
     */
    method Clear()
      modifies this
      ensures Snapshot() == Step(old(Snapshot()), SelectionCleared)
      ensures Consistent(old(Snapshot())) ==> Consistent(Snapshot())
      ensures selectedLocation == None && query == "" && results == []
      ensures isOpen == (|old(results)| > 0)
      ensures isLoading == old(isLoading) && inFlight == old(inFlight)
      ensures timerArmed == (old(timerArmed) || old(query) != "")
    {
      var rendered := results;
      selectedLocation := None;
      SetQuery("");
      results := [];
      isOpen := false;
      // the focus handler, run by focus(), with the results it was rendered with
      if |rendered| > 0 {
        isOpen := true;
      }
    }

    /**
      A mousedown anywhere on the page. While the dropdown is shown, a press
      outside both it and the input closes it; nothing else changes.
     */
    method ClickOutside(outside: bool)
      modifies this
      ensures Snapshot() == Step(old(Snapshot()), MouseDown(outside))
      ensures Consistent(old(Snapshot())) ==> Consistent(Snapshot())
      ensures isOpen == (old(isOpen) && !outside)
      ensures Snapshot() == old(Snapshot()).(isOpen := isOpen)
    {
      if isOpen && outside {
        isOpen := false;
      }
    }

    /** The input gains focus: the dropdown reopens when there are results to show. */
    method Focus()
      modifies this
      ensures Snapshot() == Step(old(Snapshot()), InputFocused)
      ensures Consistent(old(Snapshot())) ==> Consistent(Snapshot())
      ensures isOpen == (old(isOpen) || |results| > 0)
      ensures Snapshot() == old(Snapshot()).(isOpen := isOpen)
    {
      if |results| > 0 {
        isOpen := true;
      }
    }
  }

  /**
    A session on one widget: type "central", let the search run and its
    lookup return the geocoder's answer, pick the first result; the search
    that the new query triggers finds the place again and reopens the
    dropdown.
   */
  method SelectThenSearchAgain() returns (w: LocationSearch)
    ensures w.selectedLocation == Some(Catalog()[0]) && w.query == "Central Park"
    ensures w.isOpen && Catalog()[0] in w.results && !w.isLoading
  {
    w := new LocationSearch();
    w.SetQuery("central");
    var lookup := w.RunSearch();
    assert lookup == Some("central");
    CentralFindsCentralPark();
    w.ResolveSearch(Resolved(MockGeocode(lookup.value)));
    assert w.results == [Catalog()[0]] && w.isOpen;
    var picked := w.Select(w.results[0]);
    assert !w.isOpen && w.timerArmed;
    lookup := w.RunSearch();
    NameFindsItself(picked);
    w.ResolveSearch(Resolved(MockGeocode(lookup.value)));
  }
}
