/**
  The mock geocoder behind the location search widget: a fixed catalog of
  four places, filtered by a case-insensitive substring match of the query
  against each place's name or address. The artificial delay and the
  randomized distances are not part of this model.
 */
module Geocode {

  /** A catalog entry. Coordinates and the random distance are left out. */
  datatype Place = Place(id: string, name: string, address: string)

  /** No two entries of `s` share an id. */
  predicate DistinctIds(s: seq<Place>)
  {
    forall i, j :: 0 <= i < j < |s| ==> s[i].id != s[j].id
  }

  /** The four hard-coded places, in the order the geocoder lists them. */
  function Catalog(): (c: seq<Place>)
    ensures |c| == 4 && DistinctIds(c)
  {
    [ Place("1", "Central Park", "New York, NY, USA"),
      Place("2", "Times Square", "Manhattan, NY, USA"),
      Place("3", "Brooklyn Bridge", "Brooklyn, NY, USA"),
      Place("4", "Statue of Liberty", "Liberty Island, NY, USA") ]
  }

  // ---------------------------------------------------------------------
  // Case folding (ASCII only)
  // ---------------------------------------------------------------------

  predicate IsUpper(c: char)
  {
    'A' <= c <= 'Z'
  }

  /** Folds one ASCII upper-case letter to lower case; every other character is kept. */
  function LowerChar(c: char): (d: char)
    ensures !IsUpper(d)
    ensures IsUpper(c) ==> d as int == c as int + 32
    ensures !IsUpper(c) ==> d == c
  {
    if IsUpper(c) then (c as int - 'A' as int + 'a' as int) as char else c
  }

  /** The string with every ASCII upper-case letter folded to lower case. */
  function Lower(s: string): (r: string)
    ensures |r| == |s|
    ensures forall i :: 0 <= i < |s| ==> r[i] == LowerChar(s[i])
  {
    seq(|s|, i requires 0 <= i < |s| => LowerChar(s[i]))
  }

  // ---------------------------------------------------------------------
  // Substring containment
  // ---------------------------------------------------------------------

  /** `needle` occurs in `hay` starting at position `i`. */
  predicate OccursAt(hay: string, needle: string, i: int)
  {
    0 <= i && i + |needle| <= |hay| && hay[i..i + |needle|] == needle
  }

  /** The reference meaning of "hay includes needle". */
  ghost predicate Contains(hay: string, needle: string)
  {
    exists i :: OccursAt(hay, needle, i)
  }

  /** The containment test, as a left-to-right scan for a starting position. */
  function Includes(hay: string, needle: string): bool
    decreases |hay|
  {
    if needle <= hay then true
    else if hay == [] then false
    else Includes(hay[1..], needle)
  }

  /** The scan agrees with the reference meaning of containment, in both directions. */
  lemma {:induction false} IncludesIffContains(hay: string, needle: string)
    ensures Includes(hay, needle) <==> Contains(hay, needle)
    decreases |hay|
  {
    if needle <= hay {
      assert OccursAt(hay, needle, 0);
    } else if hay == [] {
      assert forall i :: !OccursAt(hay, needle, i);
    } else {
      var tail := hay[1..];
      IncludesIffContains(tail, needle);
      if Contains(tail, needle) {
        var i :| OccursAt(tail, needle, i);
        assert hay[i + 1..i + 1 + |needle|] == tail[i..i + |needle|];
        assert OccursAt(hay, needle, i + 1);
      }
      if Contains(hay, needle) {
        var i :| OccursAt(hay, needle, i);
        assert i != 0;
        assert tail[i - 1..i - 1 + |needle|] == hay[i..i + |needle|];
        assert OccursAt(tail, needle, i - 1);
      }
    }
  }

  // ---------------------------------------------------------------------
  // The filter
  // ---------------------------------------------------------------------

  /** The filter predicate: the folded name or the folded address includes the folded query. */
  predicate Matches(p: Place, query: string)
  {
    Includes(Lower(p.name), Lower(query)) || Includes(Lower(p.address), Lower(query))
  }

  /** The same predicate stated with the reference meaning of containment. */
  ghost predicate Mentions(p: Place, query: string)
  {
    Contains(Lower(p.name), Lower(query)) || Contains(Lower(p.address), Lower(query))
  }

  lemma MatchesIffMentions(p: Place, query: string)
    ensures Matches(p, query) <==> Mentions(p, query)
  {
    IncludesIffContains(Lower(p.name), Lower(query));
    IncludesIffContains(Lower(p.address), Lower(query));
  }

  /** Keeps the entries that match, in their original order. */
  function Filter(entries: seq<Place>, query: string): (r: seq<Place>)
    ensures |r| <= |entries|
  {
    if entries == [] then []
    else (if Matches(entries[0], query) then [entries[0]] else []) + Filter(entries[1..], query)
  }

  /** Every kept entry matches and comes from the input. */
  lemma {:induction false} FilterSound(entries: seq<Place>, query: string)
    ensures forall k :: 0 <= k < |Filter(entries, query)| ==>
              Matches(Filter(entries, query)[k], query) && Filter(entries, query)[k] in entries
  {
    if entries != [] {
      FilterSound(entries[1..], query);
    }
  }

  /** Every matching entry is kept. */
  lemma {:induction false} FilterComplete(entries: seq<Place>, query: string)
    ensures forall j :: 0 <= j < |entries| && Matches(entries[j], query) ==>
              entries[j] in Filter(entries, query)
  {
    if entries != [] {
      FilterComplete(entries[1..], query);
      forall j | 1 <= j < |entries| && Matches(entries[j], query)
        ensures entries[j] in Filter(entries, query)
      {
        assert entries[j] == entries[1..][j - 1];
      }
    }
  }

  /** `idx` lists, in increasing order, the positions in `s` that `r` is made of. */
  ghost predicate Embedding(idx: seq<int>, r: seq<Place>, s: seq<Place>)
  {
    && |idx| == |r|
    && (forall k :: 0 <= k < |idx| ==> 0 <= idx[k] < |s| && r[k] == s[idx[k]])
    && (forall k, l :: 0 <= k < l < |idx| ==> idx[k] < idx[l])
  }

  /** `r` is obtained from `s` by deleting entries, without reordering. */
  ghost predicate OrderedSubsequence(r: seq<Place>, s: seq<Place>)
  {
    exists idx :: Embedding(idx, r, s)
  }

  /** Every position moved one to the right. */
  function Shift(idx: seq<int>): (r: seq<int>)
    ensures |r| == |idx| && forall k :: 0 <= k < |idx| ==> r[k] == idx[k] + 1
  {
    seq(|idx|, k requires 0 <= k < |idx| => idx[k] + 1)
  }

  /** An embedding into the tail of `s` is, shifted, an embedding into `s`. */
  lemma EmbedInTail(idx: seq<int>, r: seq<Place>, s: seq<Place>)
    requires |s| > 0 && Embedding(idx, r, s[1..])
    ensures Embedding(Shift(idx), r, s)
  {
  }

  /** ... and prefixing the head of `s` at position 0 keeps it an embedding. */
  lemma EmbedWithHead(idx: seq<int>, r: seq<Place>, s: seq<Place>)
    requires |s| > 0 && Embedding(idx, r, s[1..])
    ensures Embedding([0] + Shift(idx), [s[0]] + r, s)
  {
    EmbedInTail(idx, r, s);
  }

  /** The filter keeps the input order. */
  lemma {:induction false} FilterOrdered(entries: seq<Place>, query: string)
    ensures OrderedSubsequence(Filter(entries, query), entries)
  {
    if entries == [] {
      assert Embedding([], [], []);
    } else {
      var tail := entries[1..];
      FilterOrdered(tail, query);
      var idx :| Embedding(idx, Filter(tail, query), tail);
      if Matches(entries[0], query) {
        EmbedWithHead(idx, Filter(tail, query), entries);
      } else {
        EmbedInTail(idx, Filter(tail, query), entries);
      }
    }
  }

  /** Filtering cannot introduce a repeated id. */
  lemma {:induction false} FilterKeepsIdsDistinct(entries: seq<Place>, query: string)
    requires DistinctIds(entries)
    ensures DistinctIds(Filter(entries, query))
  {
    if entries != [] {
      var tail := entries[1..];
      FilterKeepsIdsDistinct(tail, query);
      FilterSound(tail, query);
      var rest := Filter(tail, query);
      forall k | 0 <= k < |rest|
        ensures rest[k].id != entries[0].id
      {
        var j :| 0 <= j < |tail| && tail[j] == rest[k];
        assert tail[j] == entries[j + 1];
      }
    }
  }

  /** If every entry matches, the filter keeps the whole input. */
  lemma {:induction false} FilterKeepsAllMatching(entries: seq<Place>, query: string)
    requires forall k :: 0 <= k < |entries| ==> Matches(entries[k], query)
    ensures Filter(entries, query) == entries
  {
    if entries != [] {
      FilterKeepsAllMatching(entries[1..], query);
    }
  }

  /** If no entry matches, the filter returns nothing. */
  lemma {:induction false} FilterDropsAllNonMatching(entries: seq<Place>, query: string)
    requires forall k :: 0 <= k < |entries| ==> !Matches(entries[k], query)
    ensures Filter(entries, query) == []
  {
    if entries != [] {
      FilterDropsAllNonMatching(entries[1..], query);
    }
  }

  /** The filter's result described with the reference meaning of containment. */
  lemma FilterMeaning(entries: seq<Place>, query: string)
    requires DistinctIds(entries)
    ensures var r := Filter(entries, query);
      && DistinctIds(r)
      && OrderedSubsequence(r, entries)
      && (forall k :: 0 <= k < |r| ==> r[k] in entries && Mentions(r[k], query))
      && (forall j :: 0 <= j < |entries| && Mentions(entries[j], query) ==> entries[j] in r)
  {
    FilterSound(entries, query);
    FilterComplete(entries, query);
    FilterOrdered(entries, query);
    FilterKeepsIdsDistinct(entries, query);
    forall p: Place ensures Matches(p, query) <==> Mentions(p, query) {
      MatchesIffMentions(p, query);
    }
  }

  /**
    The lookup the widget performs: the catalog entries whose folded name or
    folded address contains the folded query, in catalog order, each at most once.
   */
  function MockGeocode(query: string): (r: seq<Place>)
    ensures |r| <= 4 && DistinctIds(r)
    ensures OrderedSubsequence(r, Catalog())
    ensures forall k :: 0 <= k < |r| ==> r[k] in Catalog() && Mentions(r[k], query)
    ensures forall j :: 0 <= j < 4 && Mentions(Catalog()[j], query) ==> Catalog()[j] in r
  {
    FilterMeaning(Catalog(), query);
    Filter(Catalog(), query)
  }

  /** Searching for a catalog entry's own name finds that entry; every such name is long enough to be searched. */
  lemma NameFindsItself(p: Place)
    requires p in Catalog()
    ensures p in MockGeocode(p.name) && |p.name| >= 2
  {
    var folded := Lower(p.name);
    assert folded[0..|folded|] == folded;
    assert OccursAt(folded, folded, 0);
  }

  /** An occurrence of the folded query in the folded address makes the entry match. */
  lemma AddressOccurrenceMatches(p: Place, query: string, i: int)
    requires OccursAt(Lower(p.address), Lower(query), i)
    ensures Matches(p, query)
  {
    IncludesIffContains(Lower(p.address), Lower(query));
  }

  /** A string lacking one of the needle's characters does not contain the needle. */
  lemma MissingChar(hay: string, needle: string, j: int)
    requires 0 <= j < |needle| && needle[j] !in hay
    ensures !Contains(hay, needle)
  {
    forall i | 0 <= i && i + |needle| <= |hay|
      ensures !OccursAt(hay, needle, i)
    {
      assert hay[i..i + |needle|][j] == hay[i + j];
    }
  }

  /** Each catalog address contains "NY". */
  lemma NyInEveryAddress()
    ensures forall k :: 0 <= k < 4 ==> Matches(Catalog()[k], "ny")
  {
    var c := Catalog();
    forall k | 0 <= k < 4 ensures Matches(c[k], "ny") {
      // "NY" follows ", " after the city: position 10, 11, 10 and 16
      var at := if k == 1 then 11 else if k == 3 then 16 else 10;
      assert Lower("ny") == "ny";
      assert Lower(c[k].address)[at..at + 2] == "ny";
      AddressOccurrenceMatches(c[k], "ny", at);
    }
  }

  /** "ny" finds every entry, in catalog order. */
  lemma NyFindsAll()
    ensures MockGeocode("ny") == Catalog()
  {
    NyInEveryAddress();
    FilterKeepsAllMatching(Catalog(), "ny");
  }

  /** Central Park's name begins with "central". */
  lemma CentralInFirstName()
    ensures Matches(Catalog()[0], "central")
  {
    var name := Lower(Catalog()[0].name);
    assert OccursAt(name, Lower("central"), 0);
    IncludesIffContains(name, Lower("central"));
  }

  /** No other name or address has a 'c', so no other entry mentions "central". */
  lemma CentralNowhereElse()
    ensures forall k :: 1 <= k < 4 ==> !Matches(Catalog()[k], "central")
  {
    var c := Catalog();
    var q := Lower("central");
    assert q == "central";
    forall k | 1 <= k < 4 ensures !Matches(c[k], "central") {
      MissingChar(Lower(c[k].name), q, 0);
      MissingChar(Lower(c[k].address), q, 0);
      MatchesIffMentions(c[k], "central");
    }
  }

  /** "central" finds only Central Park. */
  lemma CentralFindsCentralPark()
    ensures MockGeocode("central") == [Catalog()[0]]
  {
    CentralInFirstName();
    CentralNowhereElse();
    FilterDropsAllNonMatching(Catalog()[1..], "central");
  }

  /** Times Square's name begins with "times". */
  lemma TimesInSecondName()
    ensures Matches(Catalog()[1], "times")
  {
    var name := Lower(Catalog()[1].name);
    assert OccursAt(name, Lower("times"), 0);
    IncludesIffContains(name, Lower("times"));
  }

  /** No other name or address has an 'm', so no other entry mentions "times". */
  lemma TimesNowhereElse()
    ensures forall k :: 0 <= k < 4 && k != 1 ==> !Matches(Catalog()[k], "times")
  {
    var c := Catalog();
    var q := Lower("times");
    assert q == "times";
    forall k | 0 <= k < 4 && k != 1 ensures !Matches(c[k], "times") {
      MissingChar(Lower(c[k].name), q, 2);
      MissingChar(Lower(c[k].address), q, 2);
      MatchesIffMentions(c[k], "times");
    }
  }

  /** "times" finds only Times Square. */
  lemma TimesFindsTimesSquare()
    ensures MockGeocode("times") == [Catalog()[1]]
  {
    TimesInSecondName();
    TimesNowhereElse();
    FilterDropsAllNonMatching(Catalog()[2..], "times");
  }
}
