# Location search widget — a verified model

This project models the location-search autocomplete widget of a small
web UI (`src/components/ui/location-search.tsx`). The widget has two parts:

- **The mock geocoder** (`mockGeocode`). It holds a fixed catalog of four
  places: Central Park, Times Square, Brooklyn Bridge and Statue of Liberty.
  A lookup keeps the places whose lower-cased name or lower-cased address
  contains the lower-cased query. The kept places come back in catalog order.
- **The `LocationSearch` component.** It has five state variables: `query`,
  `results`, `isOpen`, `isLoading` and `selectedLocation`. They change in
  these handlers:
  - the input's change and focus handlers;
  - a debounced search effect, which calls the geocoder;
  - result selection, the clear button, and a page-wide mousedown handler
    that closes the dropdown.

Files:

- `geocode.dfy`, module `Geocode`: the catalog, ASCII case folding, the
  substring scan, the filter and `MockGeocode`. The scan is proved equal to
  the reference meaning of substring containment. The filter is proved
  sound, complete, order-preserving and free of repeated ids. Three example
  queries are worked out: "ny", "central" and "times".
- `search_events.dfy`, module `SearchEvents`: the widget as a pure state
  machine. A `State` record and an `Event` datatype with one event per
  handler, fed to `Step`; `Run` replays a list of events. The lemmas prove
  an invariant that every reachable state keeps. They also cover what
  happens when a selection triggers a new search, and what happens when
  lookups settle out of order.
- `widget.dfy`, module `Widget`: the class `LocationSearch`. Its fields are
  the component's state. It has one method per handler, and each method's
  postcondition equates the new state with `Step` applied to the old state.

Time is replaced by discrete events:

- `DebounceFired`: the search timer fires.
- `LookupSettled`: a lookup that was started resolves or throws.

The environment may order these events freely. Two pieces of runtime state
are modelled along with the component state, because the handlers' effect
depends on them:

- `timerArmed`: whether the search effect has a pending timer. The effect
  re-runs only when the value of `query` changes, and once on mount.
- `inFlight`: how many started lookups have not settled yet.

## Behaviour of the code as written

The lookups the search body starts are never cancelled. Line 99 clears only
the pending timer. With a geocoder slower than the 300 ms debounce, such as
the real service the comment at line 20 calls for, lookups can overlap, and
the model shows three consequences. With the mock geocoder of lines 21-57
they cannot: its 300 ms delay equals the debounce, so each lookup settles
before the next timer fires (see "## Left out").

- If an older lookup settles after a newer one, its results replace the
  newer results. The input still shows the newer query. See
  `LateLookupOverwritesNewer` and the concrete case `StaleResultsForTimes`:
  the query is "times" and the dropdown shows Central Park.
- Shortening the query below two UTF-16 code units closes the dropdown. A
  lookup that is already in flight still reopens it afterwards. See
  `ShortQueryReopenedByLateLookup`.
- The loading flag drops when the first of two overlapping lookups settles.
  See `LoadingClearedWhileLookupInFlight`.

Clearing the selection empties the result list and closes the dropdown
(lines 125-128). Then line 129 focuses the input. Activating the clear
button has taken focus away from the input, so this runs the input's focus
handler (lines 153-155). That handler still reads the results from before
the clear. If there were any, it reopens the dropdown over the now empty
list, which shows "No locations found". The search armed by the emptied
query closes it again. See `ClearOpensOverEmptyList`.

The length guard at line 78 reads `query.length`, which counts UTF-16 code
units. The model counts the same way (`Utf16Length`). A single character
outside the Basic Multilingual Plane is therefore long enough to start a
lookup. See `OneAstralCharIsSearched`.

What the code does guarantee in this model is proved in
`RunKeepsConsistent`:

- The dropdown is open over an empty result list only while no location is
  selected. Only the clear handler can lead to that state
  (`OnlyClearOpensOverEmptyList`).
- The loading flag is up only while a lookup is in flight. The converse
  does not hold.

## Model

| member | source | states |
|---|---|---|
| `Geocode.Catalog` | src/components/ui/location-search.tsx:25-53 | the catalog has exactly four places, and their ids are pairwise distinct |
| `Geocode.LowerChar` | src/components/ui/location-search.tsx:55-56 | folding to lower case maps each ASCII upper-case letter to its lower-case letter (code +32), keeps every other character, and never yields an upper-case letter |
| `Geocode.IncludesIffContains` | src/components/ui/location-search.tsx:55-56 | the left-to-right `includes` scan returns true exactly when the needle occurs at some position of the haystack (both directions) |
| `Geocode.MatchesIffMentions` | src/components/ui/location-search.tsx:54-57 | the filter predicate holds exactly when the folded name or the folded address contains the folded query |
| `Geocode.FilterSound` | src/components/ui/location-search.tsx:54-57 | every place the filter keeps passes the predicate and comes from the input list |
| `Geocode.FilterComplete` | src/components/ui/location-search.tsx:54-57 | every input place that passes the predicate is kept |
| `Geocode.FilterOrdered` | src/components/ui/location-search.tsx:54-57 | the kept places are the input places at strictly increasing positions, so input order is preserved |
| `Geocode.FilterKeepsIdsDistinct` | src/components/ui/location-search.tsx:54-57 | if the input ids are distinct, the output ids are distinct |
| `Geocode.FilterMeaning` | src/components/ui/location-search.tsx:25-57 | the filter's output is an ordered sub-list of the input with distinct ids, holding exactly the places whose folded name or address contains the folded query |
| `Geocode.MockGeocode` | src/components/ui/location-search.tsx:21-60 | a lookup returns at most four places with distinct ids, in catalog order; each returned place's folded name or address contains the folded query, and every catalog place for which that holds is returned |
| `Geocode.NameFindsItself` | src/components/ui/location-search.tsx:54-57 | looking up a catalog place's own name returns that place, and every catalog name has at least two characters, hence at least two UTF-16 code units, so the search body does look it up |
| `Geocode.NyFindsAll` | src/components/ui/location-search.tsx:25-57 | the query "ny" returns the whole catalog in order, because every address contains "NY" |
| `Geocode.CentralFindsCentralPark` | src/components/ui/location-search.tsx:25-57 | the query "central" returns only Central Park |
| `Geocode.TimesFindsTimesSquare` | src/components/ui/location-search.tsx:25-57 | the query "times" returns only Times Square |
| `SearchEvents.Initial` | src/components/ui/location-search.tsx:68-72 | on mount the query is empty, there are no results, the dropdown is closed, nothing is loading or selected, and the mount-time search timer is armed |
| `SearchEvents.StepKeepsConsistent` | src/components/ui/location-search.tsx:76-155 | no handler leaves the dropdown open over an empty result list while a location is selected, and none raises the loading flag without a lookup in flight |
| `SearchEvents.RunKeepsConsistent` | src/components/ui/location-search.tsx:76-155 | under any sequence of events, an open dropdown over an empty list implies no selected location, and loading implies a lookup in flight |
| `SearchEvents.ReachableIsConsistent` | src/components/ui/location-search.tsx:68-72 | every state reachable from mount satisfies that invariant |
| `SearchEvents.SelectSchedulesSearch` | src/components/ui/location-search.tsx:117-122 | selecting a place whose name is at least two UTF-16 code units long sets the query to that name and closes the dropdown; if this changed the query, a search is armed; once that search's lookup settles with results containing the place, the dropdown is open over them and the place stays selected |
| `SearchEvents.SelectReopensDropdown` | src/components/ui/location-search.tsx:117-122 | for a catalog place, when selecting it changes the query, the search that follows looks the name up, finds the same place and reopens the dropdown, with the place still selected |
| `SearchEvents.SelectSameQueryStaysClosed` | src/components/ui/location-search.tsx:98-100 | if the selected name already was the query and no search is pending, no search follows and the dropdown stays closed |
| `SearchEvents.TwoSearchesStartTwoLookups` | src/components/ui/location-search.tsx:77-99 | typing two long queries, each followed by its timer firing, leaves two lookups in flight, with loading on and the newer query in the input |
| `SearchEvents.LateLookupOverwritesNewer` | src/components/ui/location-search.tsx:76-100 | when the older of two lookups settles last, its results replace the newer ones, the dropdown opens exactly when they are non-empty, and the input keeps the newer query |
| `SearchEvents.StaleResultsForTimes` | src/components/ui/location-search.tsx:84-88 | after searching "central" and then "times", with the "times" lookup settling first, the widget shows Central Park under the query "times", which is not what a lookup of "times" returns |
| `SearchEvents.LoadingClearedWhileLookupInFlight` | src/components/ui/location-search.tsx:84-95 | with two lookups in flight, the first to settle clears the loading flag although the other is still running |
| `SearchEvents.ClearOpensOverEmptyList` | src/components/ui/location-search.tsx:124-130 | clearing while results are shown leaves no selection, an empty query and an empty list, but the dropdown is open, because the focus handler run by line 129 sees the old results; the search armed by the emptied query then closes it |
| `SearchEvents.OnlyClearOpensOverEmptyList` | src/components/ui/location-search.tsx:76-155 | from a state where the dropdown is not open over an empty list, only the clear event, and only when results were shown, can lead to one where it is |
| `SearchEvents.OneAstralCharIsSearched` | src/components/ui/location-search.tsx:78-84 | a query of one character outside the Basic Multilingual Plane has length 2 in UTF-16 code units, so the search starts a lookup and raises the loading flag |
| `SearchEvents.ShortQueryReopenedByLateLookup` | src/components/ui/location-search.tsx:78-95 | a query cut below two UTF-16 code units empties and closes the dropdown, but a lookup still in flight then reopens it over its results next to the short query |
| `Widget.LocationSearch.constructor` | src/components/ui/location-search.tsx:68-72 | the new widget's fields are the initial state, which satisfies the invariant `Consistent` |
| `Widget.LocationSearch.SetQuery` | src/components/ui/location-search.tsx:150 | the query becomes the typed text, the search timer is re-armed when the value changed, and nothing else changes |
| `Widget.LocationSearch.RunSearch` | src/components/ui/location-search.tsx:77-84 | a query shorter than two UTF-16 code units empties `results`, closes the dropdown and starts no lookup or loading; a longer one raises `isLoading` and starts a lookup for the current query; with no armed timer nothing happens |
| `Widget.LocationSearch.ResolveSearch` | src/components/ui/location-search.tsx:85-95 | on success `results` becomes the lookup output and the dropdown opens exactly when it is non-empty; on an error `results` is empty and the dropdown closed; either way `isLoading` is false; query and selection are untouched |
| `Widget.LocationSearch.Select` | src/components/ui/location-search.tsx:117-122 | sets the selected location to the place, the query to its name, closes the dropdown, leaves results and loading unchanged, and hands the same place to the callback |
| `Widget.LocationSearch.Clear` | src/components/ui/location-search.tsx:124-130 | no selected location, empty query, no results; loading untouched; the dropdown ends open exactly when there were results before the clear, because the focus handler run by line 129 reads the results of the last render |
| `Widget.LocationSearch.ClickOutside` | src/components/ui/location-search.tsx:103-110 | a press outside the open dropdown and the input closes the dropdown; only `isOpen` can change |
| `Widget.LocationSearch.Focus` | src/components/ui/location-search.tsx:153-155 | focusing opens the dropdown exactly when there are results; otherwise nothing changes |
| `Widget.SelectThenSearchAgain` | src/components/ui/location-search.tsx:117-122 | typing "central", searching, picking the first result and letting the follow-up search settle leaves Central Park selected, the query "Central Park" and the dropdown open again with Central Park in it |

## Left out

- Distances and coordinates. They are floating-point, and `Math.random()` regenerates the distance on every lookup. `Place` has only an id, a name and an address.
- Timing. The 300 ms `setTimeout`, the 300 ms artificial delay in the geocoder, and `clearTimeout` become the events `DebounceFired` and `LookupSettled`, which may occur in any order.
- `SearchEvents.TwoSearchesStartTwoLookups`, `SearchEvents.LateLookupOverwritesNewer`, `SearchEvents.StaleResultsForTimes`, `SearchEvents.LoadingClearedWhileLookupInFlight` and `SearchEvents.ShortQueryReopenedByLateLookup` describe event orders in which a lookup is still in flight when the next timer fires. They need a geocoder slower than the 300 ms debounce, such as the real service the comment at line 20 calls for. With the mock geocoder, whose delay (line 23) equals the debounce (line 98), at most one lookup is ever in flight and it settles before the next timer fires, so those orders never occur; in particular `StaleResultsForTimes` uses the mock's answers but describes an order the mock never produces. The model does not record the delays, so it does not exclude these orders.
- Which lookup a `LookupSettled` event belongs to is not recorded. The event carries the outcome the environment supplies. Lemmas that need the geocoder's answer pass `MockGeocode` of the query explicitly.
- The geocoder itself never throws. The `Rejected` outcome models the catch branch of the search body, which a real provider could reach.
- The `console.error` logging in the catch branch is left out.
- DOM concerns: refs, the `contains` tests and `document.addEventListener`. Whether a mousedown was outside the dropdown and input is a boolean parameter of `ClickOutside`. The dropdown element exists only while `isOpen` holds, and the model reads the ref test that way.
- The `focus()` call after clearing is modelled only through its effect: the input's focus handler runs with the results from before the clear. The model assumes the input has lost focus when the clear button is activated, so the handler always runs.
- Full Unicode `toLowerCase`. Only ASCII A–Z are folded.
- Strings are sequences of Unicode characters rather than UTF-16 code units. Only the length guard depends on the difference, and it uses `Utf16Length`. Substring tests give the same answer over characters as over code units.
- JSX rendering, styling and icons.
- The `placeholder`, `userLocation` and `className` props. None of them affects state.
- `src/components/Navbar.tsx` is static markup with a mobile-menu boolean, and `src/pages/Index.tsx` is page composition with a logging callback. Neither is part of this model.
