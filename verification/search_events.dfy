/**
  The location search widget as a state machine over discrete events.

  The five pieces of component state (query, results, isOpen, isLoading,
  selectedLocation) are joined by two pieces of runtime state the handlers
  depend on: whether the debounce timer of the search effect is armed, and
  how many started lookups have not settled yet. Time is replaced by events:
  the debounce timer firing and a lookup settling are explicit steps, in any
  order the environment chooses.
 */
module SearchEvents {
  import opened Geocode

  datatype Option<T> = None | Some(value: T)

  /** How a lookup settles: with a result list, or by throwing. */
  datatype LookupOutcome = Resolved(places: seq<Place>) | Rejected

  datatype State = State(
    query: string,
    results: seq<Place>,
    isOpen: bool,
    isLoading: bool,
    selectedLocation: Option<Place>,
    timerArmed: bool,  // the search effect has scheduled a timer that has not fired
    inFlight: nat      // lookups started by the timer that have not settled
  )

  datatype Event =
    | Typed(text: string)                // input onChange
    | DebounceFired                      // the pending search timer fires
    | LookupSettled(outcome: LookupOutcome)  // an in-flight lookup resolves or throws
    | ResultSelected(loc: Place)         // a result button is clicked
    | SelectionCleared                   // the clear button is clicked
    | MouseDown(outside: bool)           // a mousedown anywhere; `outside` = not in dropdown or input
    | InputFocused                       // input onFocus

  /** The state on mount; the search effect runs once on mount and arms its timer. */
  function Initial(): (s: State)
    ensures s.query == [] && s.results == [] && !s.isOpen && !s.isLoading
    ensures s.selectedLocation == None && s.timerArmed && s.inFlight == 0
  {
    State("", [], false, false, None, true, 0)
  }

  /**
    Sets the query. The search effect depends on the query value only, so its
    timer is re-armed (the old one cleared, a new one set) exactly when the
    value changes.
   */
  function WithQuery(s: State, text: string): State
  {
    s.(query := text, timerArmed := s.timerArmed || text != s.query)
  }

  /**
    The length JavaScript reports for a string: the number of UTF-16 code
    units, so a character outside the Basic Multilingual Plane counts twice.
   */
  function Utf16Length(s: string): (n: nat)
    ensures |s| <= n <= 2 * |s|
  {
    if s == [] then 0
    else (if s[0] as int >= 0x1_0000 then 2 else 1) + Utf16Length(s[1..])
  }

  /** The debounced search body starts a lookup in this state. */
  predicate IssuesLookup(s: State)
  {
    s.timerArmed && Utf16Length(s.query) >= 2
  }

  /** One event applied to the widget state, as the handlers do it. */
  function Step(s: State, e: Event): State
  {
    match e
    case Typed(text) => WithQuery(s, text)
    case DebounceFired =>
      if !s.timerArmed then s
      else if Utf16Length(s.query) < 2 then s.(results := [], isOpen := false, timerArmed := false)
      else s.(isLoading := true, timerArmed := false, inFlight := s.inFlight + 1)
    case LookupSettled(outcome) =>
      if s.inFlight == 0 then s
      else (match outcome
        case Resolved(places) => s.(results := places, isOpen := |places| > 0)
        case Rejected => s.(results := [], isOpen := false)
        ).(isLoading := false, inFlight := s.inFlight - 1)
    case ResultSelected(loc) =>
      WithQuery(s, loc.name).(selectedLocation := Some(loc), isOpen := false)
    case SelectionCleared =>
      // the closing focus() runs the input's focus handler, which still sees
      // the results of the last render and reopens the dropdown if there were any
      WithQuery(s, "").(selectedLocation := None, results := [], isOpen := |s.results| > 0)
    case MouseDown(outside) =>
      if s.isOpen && outside then s.(isOpen := false) else s
    case InputFocused =>
      if |s.results| > 0 then s.(isOpen := true) else s
  }

  /** A sequence of events applied in order. */
  function Run(s: State, events: seq<Event>): State
    decreases |events|
  {
    if events == [] then s else Run(Step(s, events[0]), events[1..])
  }

  lemma {:induction false} RunAppend(s: State, xs: seq<Event>, ys: seq<Event>)
    ensures Run(s, xs + ys) == Run(Run(s, xs), ys)
    decreases |xs|
  {
    if xs == [] {
      assert xs + ys == ys;
    } else {
      assert (xs + ys)[0] == xs[0];
      assert (xs + ys)[1..] == xs[1..] + ys;
      RunAppend(Step(s, xs[0]), xs[1..], ys);
    }
  }

  /** Two events in a row. */
  lemma RunTwo(s: State, a: Event, b: Event)
    ensures Run(s, [a, b]) == Step(Step(s, a), b)
  {
    assert [a, b][1..] == [b];
    assert Run(Step(s, a), [b]) == Run(Step(Step(s, a), b), []);
  }

  /** Four events in a row. */
  lemma RunFour(s: State, a: Event, b: Event, c: Event, d: Event)
    ensures Run(s, [a, b, c, d]) == Step(Step(Step(Step(s, a), b), c), d)
  {
    RunAppend(s, [a, b], [c, d]);
    assert [a, b] + [c, d] == [a, b, c, d];
    RunTwo(s, a, b);
    RunTwo(Step(Step(s, a), b), c, d);
  }

  // ---------------------------------------------------------------------
  // What every reachable state satisfies
  // ---------------------------------------------------------------------

  /**
    The dropdown is open over an empty result list only while no location is
    selected (clearing the selection is the one handler that leaves it so),
    and the loading flag is up only while some lookup is in flight.
   */
  predicate Consistent(s: State)
  {
    (s.isOpen && s.results == [] ==> s.selectedLocation == None) && (s.isLoading ==> s.inFlight > 0)
  }

  lemma StepKeepsConsistent(s: State, e: Event)
    requires Consistent(s)
    ensures Consistent(Step(s, e))
  {
  }

  /** Every state reachable from mount is consistent. */
  lemma {:induction false} RunKeepsConsistent(s: State, events: seq<Event>)
    requires Consistent(s)
    ensures Consistent(Run(s, events))
    decreases |events|
  {
    if events != [] {
      StepKeepsConsistent(s, events[0]);
      RunKeepsConsistent(Step(s, events[0]), events[1..]);
    }
  }

  lemma ReachableIsConsistent(events: seq<Event>)
    ensures Consistent(Run(Initial(), events))
  {
    RunKeepsConsistent(Initial(), events);
  }

  // ---------------------------------------------------------------------
  // Selecting a result re-runs the search for its name
  // ---------------------------------------------------------------------

  /**
    Selecting a place whose name is a searchable query, when that changes
    the query or a search is pending, arms a search that looks the name up;
    once that lookup settles with results holding the place, the dropdown
    is open again over them.
   */
  lemma SelectSchedulesSearch(s: State, p: Place, found: seq<Place>)
    requires Utf16Length(p.name) >= 2 && p in found
    requires s.timerArmed || s.query != p.name
    ensures var picked := Step(s, ResultSelected(p));
      && picked.query == p.name && !picked.isOpen && IssuesLookup(picked)
      && var shown := Run(picked, [DebounceFired, LookupSettled(Resolved(found))]);
      && shown.isOpen && shown.results == found
      && shown.selectedLocation == Some(p) && shown.query == p.name
  {
    var picked := Step(s, ResultSelected(p));
    RunTwo(picked, DebounceFired, LookupSettled(Resolved(found)));
  }

  /**
    After a catalog entry is selected, its name becomes the query; when the
    query actually changed (or a search was already pending), the debounced
    search looks that name up, finds the entry and opens the dropdown again.
   */
  lemma SelectReopensDropdown(s: State, p: Place)
    requires p in Catalog()
    requires s.timerArmed || s.query != p.name
    ensures var picked := Step(s, ResultSelected(p));
      var shown := Run(picked, [DebounceFired, LookupSettled(Resolved(MockGeocode(p.name)))]);
      && shown.isOpen && p in shown.results
      && shown.selectedLocation == Some(p) && shown.query == p.name
  {
    NameFindsItself(p);
    SelectSchedulesSearch(s, p, MockGeocode(p.name));
  }

  /**
    If the name was already the query and no search is pending, selecting
    schedules no search: the timer firing afterwards changes nothing, and
    the dropdown stays closed.
   */
  lemma SelectSameQueryStaysClosed(s: State, p: Place)
    requires !s.timerArmed && s.query == p.name
    ensures var picked := Step(s, ResultSelected(p));
      && !IssuesLookup(picked)
      && Step(picked, DebounceFired) == picked && !picked.isOpen
  {
  }

  // ---------------------------------------------------------------------
  // Out-of-order lookups
  // ---------------------------------------------------------------------

  /** Two debounced searches for two different queries, both still in flight. */
  function TwoSearches(q1: string, q2: string): seq<Event>
  {
    [Typed(q1), DebounceFired, Typed(q2), DebounceFired]
  }

  lemma TwoSearchesStartTwoLookups(s: State, q1: string, q2: string)
    requires Utf16Length(q1) >= 2 && Utf16Length(q2) >= 2 && q1 != s.query && q2 != q1
    ensures var t := Run(s, TwoSearches(q1, q2));
      t.query == q2 && t.isLoading && t.inFlight == s.inFlight + 2 && !t.timerArmed
  {
    RunFour(s, Typed(q1), DebounceFired, Typed(q2), DebounceFired);
  }

  /**
    Only the pending timer is cancelled, not the lookup it started: when the
    lookup for the older query settles last, its results replace those of
    the newer query, which stays in the input.
   */
  lemma {:induction false} LateLookupOverwritesNewer(s: State, q1: string, q2: string,
                                                     older: seq<Place>, newer: seq<Place>)
    requires Utf16Length(q1) >= 2 && Utf16Length(q2) >= 2 && q1 != s.query && q2 != q1
    ensures var t := Run(s, TwoSearches(q1, q2) + [LookupSettled(Resolved(newer)),
                                                    LookupSettled(Resolved(older))]);
      && t.query == q2 && t.results == older && t.isOpen == (|older| > 0)
      && !t.isLoading && t.inFlight == s.inFlight
  {
    var mid := Run(s, TwoSearches(q1, q2));
    TwoSearchesStartTwoLookups(s, q1, q2);
    RunAppend(s, TwoSearches(q1, q2), [LookupSettled(Resolved(newer)), LookupSettled(Resolved(older))]);
    RunTwo(mid, LookupSettled(Resolved(newer)), LookupSettled(Resolved(older)));
  }

  /**
    A concrete case from mount: "central" is typed and searched, then "times";
    the "times" lookup settles first. The widget ends up showing Central Park
    while the input says "times", whose own lookup finds only Times Square.
   */
  lemma StaleResultsForTimes()
    ensures var t := Run(Initial(), TwoSearches("central", "times") +
                                    [LookupSettled(Resolved(MockGeocode("times"))),
                                     LookupSettled(Resolved(MockGeocode("central")))]);
      && t.query == "times" && t.results == [Catalog()[0]] && t.isOpen
      && t.results != MockGeocode(t.query)
  {
    CentralFindsCentralPark();
    TimesFindsTimesSquare();
    LateLookupOverwritesNewer(Initial(), "central", "times", MockGeocode("central"), MockGeocode("times"));
  }

  /**
    The loading flag drops when the first of two in-flight lookups settles,
    although the other is still running.
   */
  lemma LoadingClearedWhileLookupInFlight(s: State, q1: string, q2: string, outcome: LookupOutcome)
    requires Utf16Length(q1) >= 2 && Utf16Length(q2) >= 2 && q1 != s.query && q2 != q1
    ensures var t := Run(s, TwoSearches(q1, q2) + [LookupSettled(outcome)]);
      !t.isLoading && t.inFlight > 0
  {
    TwoSearchesStartTwoLookups(s, q1, q2);
    RunAppend(s, TwoSearches(q1, q2), [LookupSettled(outcome)]);
  }

  /**
    Shortening the query below two UTF-16 code units empties and closes the
    dropdown, but a lookup already in flight still settles afterwards and
    reopens it over its results, next to the short query.
   */
  lemma ShortQueryReopenedByLateLookup(s: State, q: string, short: string, places: seq<Place>)
    requires Utf16Length(q) >= 2 && q != s.query && Utf16Length(short) < 2 && |places| > 0
    ensures var cleared := Run(s, [Typed(q), DebounceFired, Typed(short), DebounceFired]);
      && cleared.results == [] && !cleared.isOpen && cleared.inFlight > 0
      && var t := Step(cleared, LookupSettled(Resolved(places)));
      t.query == short && t.isOpen && t.results == places
  {
    RunFour(s, Typed(q), DebounceFired, Typed(short), DebounceFired);
  }

  // ---------------------------------------------------------------------
  // Clearing the selection
  // ---------------------------------------------------------------------

  /**
    Clearing empties the result list, but its closing focus() call runs the
    input's focus handler with the results shown before the clear: the
    dropdown ends up open over an empty list (showing "No locations found")
    until the search scheduled by the emptied query closes it.
   */
  lemma ClearOpensOverEmptyList(s: State)
    requires |s.results| > 0 && s.query != ""
    ensures var cleared := Step(s, SelectionCleared);
      && cleared.isOpen && cleared.results == [] && cleared.query == ""
      && cleared.selectedLocation == None && !IssuesLookup(cleared) && cleared.timerArmed
      && var searched := Step(cleared, DebounceFired);
      !searched.isOpen && searched.results == []
  {
  }

  /**
    No handler but clearing opens the dropdown over an empty result list:
    the others close it, leave it as it was, or open it over the results
    they store or already show.
   */
  lemma OnlyClearOpensOverEmptyList(s: State, e: Event)
    requires !(s.isOpen && s.results == [])
    requires Step(s, e).isOpen && Step(s, e).results == []
    ensures e == SelectionCleared && |s.results| > 0
  {
  }

  // ---------------------------------------------------------------------
  // Query length in UTF-16 code units
  // ---------------------------------------------------------------------

  /**
    A single character outside the Basic Multilingual Plane already has
    length 2, so typing it alone is enough to start a lookup.
   */
  lemma OneAstralCharIsSearched(s: State)
    requires s.query != "\U{1F600}"
    ensures |"\U{1F600}"| == 1
    ensures var typed := Step(s, Typed("\U{1F600}"));
      IssuesLookup(typed) && Step(typed, DebounceFired).isLoading
  {
    assert Utf16Length("\U{1F600}") == 2 + Utf16Length("");
  }
}
