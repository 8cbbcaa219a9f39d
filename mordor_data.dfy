/**
  The distributed solver's city table and the three views of it that the
  master keeps: coordinates by position, and the two maps between city
  names and positions.
*/
module MordorData {
  import opened Tours
  import opened Permutations

  /** The active entries of the table, in the order the dictionary lists them. */
  const MordorLocations: seq<(string, Coord)> := [
    ("Barad-d\U{00FB}r", (50.0, 50.0)),
    ("Mount Doom", (60.0, 40.0)),
    ("Cirith Ungol", (30.0, 70.0))
  ]

  datatype CitiesData = CitiesData(coords: seq<Coord>, nameToIndex: map<string, nat>, indexToName: map<nat, string>)

  function Names(locations: seq<(string, Coord)>): (r: seq<string>)
    ensures |r| == |locations| && forall i :: 0 <= i < |r| ==> r[i] == locations[i].0
  {
    seq(|locations|, i requires 0 <= i < |locations| => locations[i].0)
  }

  /**
    The coordinates in table order, each name mapped to its position and
    each position back to its name. A dictionary has no repeated key, hence
    the requirement on the names.
  */
  function CitiesDataOf(locations: seq<(string, Coord)>): (r: CitiesData)
    requires Distinct(Names(locations))
    ensures |r.coords| == |locations|
    ensures forall i :: 0 <= i < |locations| ==> r.coords[i] == locations[i].1
    ensures r.nameToIndex.Keys == set nm | nm in Names(locations)
    ensures forall i :: 0 <= i < |locations| ==> locations[i].0 in r.nameToIndex && r.nameToIndex[locations[i].0] == i
    ensures r.indexToName.Keys == IndexSet(|locations|)
    ensures forall i :: 0 <= i < |locations| ==> r.indexToName[i] == locations[i].0
  {
    var names := Names(locations);
    CitiesData(seq(|locations|, i requires 0 <= i < |locations| => locations[i].1), NameToIndex(names), IndexToName(names))
  }

  /** `{name: i for i, name in enumerate(names)}` */
  function NameToIndex(names: seq<string>): (m: map<string, nat>)
    requires Distinct(names)
    ensures m.Keys == set nm | nm in names
    ensures forall i :: 0 <= i < |names| ==> names[i] in m && m[names[i]] == i
  {
    var m := map i | 0 <= i < |names| :: names[i] := i;
    assert forall i :: 0 <= i < |names| ==> names[i] in m && m[names[i]] == i by {
      forall i | 0 <= i < |names| ensures names[i] in m && m[names[i]] == i {
        assert names[i] in m;
      }
    }
    assert m.Keys == set nm | nm in names by {
      forall nm | nm in names ensures nm in m {
        var i :| 0 <= i < |names| && names[i] == nm;
      }
    }
    m
  }

  /** `{i: name for i, name in enumerate(names)}` */
  function IndexToName(names: seq<string>): (m: map<nat, string>)
    ensures m.Keys == IndexSet(|names|)
    ensures forall i :: 0 <= i < |names| ==> m[i] == names[i]
  {
    map i | 0 <= i < |names| :: names[i]
  }

  /** `get_mordor_cities_data` on the active table: the three cities in dictionary order. */
  function GetMordorCitiesData(): (r: CitiesData)
    ensures r.coords == [(50.0, 50.0), (60.0, 40.0), (30.0, 70.0)]
    ensures r.nameToIndex == map["Barad-d\U{00FB}r" := 0, "Mount Doom" := 1, "Cirith Ungol" := 2]
    ensures r.indexToName == map[0 := "Barad-d\U{00FB}r", 1 := "Mount Doom", 2 := "Cirith Ungol"]
  {
    MordorNamesDistinct();
    var r := CitiesDataOf(MordorLocations);
    assert r.coords[0] == (50.0, 50.0) && r.coords[1] == (60.0, 40.0) && r.coords[2] == (30.0, 70.0);
    assert r.nameToIndex.Keys == {"Barad-d\U{00FB}r", "Mount Doom", "Cirith Ungol"};
    assert r.indexToName.Keys == {0, 1, 2};
    r
  }

  /** The two index maps are inverse enumerations of the same cities. */
  lemma IndexMapsAreInverse(locations: seq<(string, Coord)>)
    requires Distinct(Names(locations))
    ensures var r := CitiesDataOf(locations);
      && |r.indexToName| == |r.nameToIndex| == |r.coords|
      && (forall nm :: nm in r.nameToIndex ==> r.nameToIndex[nm] in r.indexToName && r.indexToName[r.nameToIndex[nm]] == nm)
      && (forall i :: i in r.indexToName ==> r.indexToName[i] in r.nameToIndex && r.nameToIndex[r.indexToName[i]] == i)
  {
    var r := CitiesDataOf(locations);
    forall nm | nm in r.nameToIndex
      ensures r.nameToIndex[nm] in r.indexToName && r.indexToName[r.nameToIndex[nm]] == nm
    {
      NameRoundTrip(locations, nm);
    }
    forall i | i in r.indexToName
      ensures r.indexToName[i] in r.nameToIndex && r.nameToIndex[r.indexToName[i]] == i
    {
      IndexRoundTrip(locations, i);
    }
    MapSizes(locations);
  }

  lemma NameRoundTrip(locations: seq<(string, Coord)>, nm: string)
    requires Distinct(Names(locations)) && nm in CitiesDataOf(locations).nameToIndex
    ensures var r := CitiesDataOf(locations);
      r.nameToIndex[nm] in r.indexToName && r.indexToName[r.nameToIndex[nm]] == nm
  {
    var r := CitiesDataOf(locations);
    var i :| 0 <= i < |locations| && Names(locations)[i] == nm;
    assert r.nameToIndex[nm] == i;
  }

  lemma IndexRoundTrip(locations: seq<(string, Coord)>, i: nat)
    requires Distinct(Names(locations)) && i in CitiesDataOf(locations).indexToName
    ensures var r := CitiesDataOf(locations);
      r.indexToName[i] in r.nameToIndex && r.nameToIndex[r.indexToName[i]] == i
  {
    var r := CitiesDataOf(locations);
    assert i < |locations|;
    assert r.indexToName[i] == locations[i].0;
  }

  lemma MapSizes(locations: seq<(string, Coord)>)
    requires Distinct(Names(locations))
    ensures var r := CitiesDataOf(locations);
      |r.indexToName| == |r.nameToIndex| == |r.coords|
  {
    var r := CitiesDataOf(locations);
    IndexSetSize(|locations|);
    DistinctSize(Names(locations));
    assert |r.indexToName.Keys| == |locations|;
  }

  /** The positions `0..n-1`. */
  function IndexSet(n: nat): (r: set<nat>)
    ensures forall i: nat :: i in r <==> i < n
  {
    if n == 0 then {} else IndexSet(n - 1) + {n - 1}
  }

  lemma {:induction false} IndexSetSize(n: nat)
    ensures |IndexSet(n)| == n
  {
    if n > 0 {
      IndexSetSize(n - 1);
    }
  }

  /** Distinct names give as many keys as entries. */
  lemma {:induction false} DistinctSize(names: seq<string>)
    requires Distinct(names)
    ensures |set nm | nm in names| == |names|
  {
    if |names| > 0 {
      var init, last := names[..|names| - 1], names[|names| - 1];
      DistinctSize(init);
      assert (set nm | nm in names) == (set nm | nm in init) + {last} by {
        assert names == init + [last];
      }
      assert last !in init by {
        forall i | 0 <= i < |init| ensures init[i] != last {
          assert init[i] == names[i];
        }
      }
    }
  }

  /** The active table has three distinct city names. */
  lemma MordorNamesDistinct()
    ensures Names(MordorLocations) == ["Barad-d\U{00FB}r", "Mount Doom", "Cirith Ungol"]
    ensures Distinct(Names(MordorLocations))
  {
    var names := Names(MordorLocations);
    assert names[0] == "Barad-d\U{00FB}r" && names[1] == "Mount Doom" && names[2] == "Cirith Ungol";
    assert names[0][0] != names[1][0] && names[0][0] != names[2][0] && names[1][0] != names[2][0];
  }

  /** With the active table the master searches 2! = 2 tours. */
  lemma MordorSearchSpace()
    ensures |GetMordorCitiesData().coords| == 3
    ensures |SearchSpace(|GetMordorCitiesData().coords|)| == 2
  {
    MordorNamesDistinct();
    SearchSpaceIsComplete(3);
    assert Factorial(2) == 2;
  }
}
