/** The prayer-times page's city handling: the saved-city fallback, the
    nearest-city scan over the table of known city coordinates, the city search
    box, and picking a city by hand. */
module Shalat {
  import opened Collections
  import opened JsText

  datatype City = City(id: string, lokasi: string)

  const POPULAR_CITIES: seq<City> := [
    City("1301", "KOTA JAKARTA"),
    City("1501", "KOTA BANDUNG"),
    City("1609", "KOTA SURABAYA"),
    City("2401", "KOTA SEMARANG"),
    City("1208", "KOTA MEDAN"),
    City("2101", "KOTA MAKASSAR"),
    City("1438", "KOTA YOGYAKARTA"),
    City("1819", "KOTA PALEMBANG")
  ]

  /** Latitude and longitude in degrees, of a table entry or of the user. */
  datatype Coords = Coords(lat: real, lon: real)

  /** One entry of the coordinate table: a city id and where the city is. */
  type RefEntry = (string, Coords)

  /** The distance function, given (userLat, userLon, lat, lon). */
  type DistanceFn = (real, real, real, real) -> real

  /** `minDistance`, which starts at Infinity. */
  datatype Distance = Infinity | Km(km: real)

  /** `d < minDistance`. */
  predicate Below(d: real, m: Distance)
  {
    m.Infinity? || d < m.km
  }

  /** `cities.find(c => c.id === id)`. */
  function FindCity(cities: seq<City>, id: string): (r: Option<City>)
    ensures r.None? <==> forall i :: 0 <= i < |cities| ==> cities[i].id != id
    ensures r.Some? ==> r.value in cities && r.value.id == id
    ensures r.Some? ==> exists k :: 0 <= k < |cities| && cities[k] == r.value &&
                                    forall j :: 0 <= j < k ==> cities[j].id != id
  {
    Find(cities, (c: City) => c.id == id)
  }

  function EntryDistance(user: Coords, distance: DistanceFn, e: RefEntry): real
  {
    distance(user.lat, user.lon, e.1.lat, e.1.lon)
  }

  /** The locals of the scan loop. */
  datatype ScanState = ScanState(nearestCity: Option<City>, minDistance: Distance)

  /** One iteration of the scan loop: on a strictly smaller distance, lower
      `minDistance` and then, only if the id is among `cities`, take that city. */
  function ScanStep(st: ScanState, e: RefEntry, cities: seq<City>, user: Coords, distance: DistanceFn): (r: ScanState)
    ensures var d := EntryDistance(user, distance, e);
            r.minDistance.Km? && r.minDistance.km <= d &&
            (st.minDistance.Km? ==> r.minDistance.km <= st.minDistance.km) &&
            (r.minDistance == st.minDistance || r.minDistance == Km(d))
    ensures r.nearestCity == st.nearestCity ||
            (r.nearestCity == FindCity(cities, e.0) && r.minDistance == Km(EntryDistance(user, distance, e)))
    ensures r.nearestCity != st.nearestCity ==> r.nearestCity.Some? && r.nearestCity.value.id == e.0
    ensures !Below(EntryDistance(user, distance, e), st.minDistance) ==> r == st
    ensures Below(EntryDistance(user, distance, e), st.minDistance) ==>
              r.minDistance == Km(EntryDistance(user, distance, e))
    ensures Below(EntryDistance(user, distance, e), st.minDistance) && FindCity(cities, e.0).Some? ==>
              r.nearestCity == FindCity(cities, e.0)
    ensures FindCity(cities, e.0).None? ==> r.nearestCity == st.nearestCity
  {
    var d := EntryDistance(user, distance, e);
    if Below(d, st.minDistance) then
      var city := FindCity(cities, e.0);
      ScanState(if city.Some? then city else st.nearestCity, Km(d))
    else st
  }

  /** The locals after scanning the whole of `reference`, in order. */
  function Scan(reference: seq<RefEntry>, cities: seq<City>, user: Coords, distance: DistanceFn): (r: ScanState)
    ensures r.minDistance.Infinity? <==> reference == []
    ensures r.nearestCity.Some? ==> r.nearestCity.value in cities && r.minDistance.Km?
    ensures r.nearestCity.Some? ==> exists j :: 0 <= j < |reference| && reference[j].0 == r.nearestCity.value.id
    decreases |reference|
  {
    if reference == [] then ScanState(None, Infinity)
    else ScanStep(Scan(reference[..|reference| - 1], cities, user, distance), reference[|reference| - 1], cities, user, distance)
  }

  /** `minDistance` ends as the least distance over the whole table, whether or
      not the entries' ids are among `cities`; it stays Infinity only for an
      empty table. */
  lemma {:induction false} ScanMinimum(reference: seq<RefEntry>, cities: seq<City>, user: Coords, distance: DistanceFn)
    ensures Scan(reference, cities, user, distance).minDistance.Infinity? <==> reference == []
    ensures var m := Scan(reference, cities, user, distance).minDistance;
            m.Km? ==>
              (forall j :: 0 <= j < |reference| ==> m.km <= EntryDistance(user, distance, reference[j])) &&
              (exists j :: 0 <= j < |reference| && EntryDistance(user, distance, reference[j]) == m.km)
    decreases |reference|
  {
    if reference != [] {
      var init := reference[..|reference| - 1];
      ScanMinimum(init, cities, user, distance);
      var m := Scan(reference, cities, user, distance).minDistance;
      var last := |reference| - 1;
      forall j | 0 <= j < |reference| ensures m.km <= EntryDistance(user, distance, reference[j]) {
        if j < last {
          assert reference[j] == init[j];
        }
      }
      var before := Scan(init, cities, user, distance).minDistance;
      if before.Km? && m == before {
        var j :| 0 <= j < |init| && EntryDistance(user, distance, init[j]) == before.km;
        assert reference[j] == init[j];
      } else {
        assert EntryDistance(user, distance, reference[last]) == m.km;
      }
    }
  }

  /** `st` holds the city and the distance of entry `j`, the first entry at
      that distance or less. */
  predicate SelectsEntry(reference: seq<RefEntry>, j: int, st: ScanState, cities: seq<City>, user: Coords, distance: DistanceFn)
  {
    0 <= j < |reference| &&
    st.nearestCity == FindCity(cities, reference[j].0) &&
    st.minDistance == Km(EntryDistance(user, distance, reference[j])) &&
    forall k :: 0 <= k < j ==> EntryDistance(user, distance, reference[j]) < EntryDistance(user, distance, reference[k])
  }

  /** When every id of the table is among `cities`, the scan selects the
      city of the first entry at the least distance, and reports that distance. */
  lemma {:induction false} ScanSelectsFirstNearest(reference: seq<RefEntry>, cities: seq<City>, user: Coords, distance: DistanceFn)
    requires forall j :: 0 <= j < |reference| ==> FindCity(cities, reference[j].0).Some?
    ensures reference != [] ==>
              exists j :: SelectsEntry(reference, j, Scan(reference, cities, user, distance), cities, user, distance)
    decreases |reference|
  {
    if reference != [] {
      var init := reference[..|reference| - 1];
      var before := Scan(init, cities, user, distance);
      if init == [] {
        SelectionStart(reference, cities, user, distance);
      } else {
        forall j | 0 <= j < |init| ensures FindCity(cities, init[j].0).Some? {
          assert init[j] == reference[j];
        }
        ScanSelectsFirstNearest(init, cities, user, distance);
        var j :| SelectsEntry(init, j, before, cities, user, distance);
        ScanMinimum(init, cities, user, distance);
        forall k | 0 <= k < |reference| - 1
          ensures before.minDistance.km <= EntryDistance(user, distance, reference[k])
        {
          assert reference[k] == init[k];
        }
        assert FindCity(cities, reference[|reference| - 1].0).Some?;
        var j' := SelectionStep(reference, j, before, cities, user, distance);
        assert Scan(reference, cities, user, distance) == ScanStep(before, reference[|reference| - 1], cities, user, distance);
        assert SelectsEntry(reference, j', Scan(reference, cities, user, distance), cities, user, distance);
      }
    }
  }

  /** A table of one listed entry selects that entry. */
  lemma SelectionStart(reference: seq<RefEntry>, cities: seq<City>, user: Coords, distance: DistanceFn)
    requires |reference| == 1 && FindCity(cities, reference[0].0).Some?
    ensures SelectsEntry(reference, 0, Scan(reference, cities, user, distance), cities, user, distance)
  {
    assert reference[..0] == [];
    assert Scan(reference, cities, user, distance) ==
           ScanStep(ScanState(None, Infinity), reference[0], cities, user, distance);
  }

  /** One more table entry keeps a selection of the first nearest entry. */
  lemma SelectionStep(reference: seq<RefEntry>, j: int, before: ScanState, cities: seq<City>, user: Coords, distance: DistanceFn)
    returns (j': int)
    requires |reference| >= 2
    requires FindCity(cities, reference[|reference| - 1].0).Some?
    requires SelectsEntry(reference[..|reference| - 1], j, before, cities, user, distance)
    requires forall k :: 0 <= k < |reference| - 1 ==> before.minDistance.km <= EntryDistance(user, distance, reference[k])
    ensures SelectsEntry(reference, j', ScanStep(before, reference[|reference| - 1], cities, user, distance), cities, user, distance)
  {
    var init := reference[..|reference| - 1];
    var last := |reference| - 1;
    var d := EntryDistance(user, distance, reference[last]);
    if Below(d, before.minDistance) {
      j' := last;
    } else {
      j' := j;
      assert reference[j] == init[j];
      forall k | 0 <= k < j
        ensures EntryDistance(user, distance, reference[j]) < EntryDistance(user, distance, reference[k])
      {
        assert reference[k] == init[k];
      }
    }
  }

  /** Of two listed cities, the nearer is selected whatever the table order. */
  lemma NearerListedCityChosen(cities: seq<City>, user: Coords, distance: DistanceFn, a: RefEntry, b: RefEntry)
    requires FindCity(cities, a.0).Some? && FindCity(cities, b.0).Some?
    requires EntryDistance(user, distance, a) != EntryDistance(user, distance, b)
    ensures var near := if EntryDistance(user, distance, a) < EntryDistance(user, distance, b) then a else b;
            Scan([a, b], cities, user, distance) == ScanState(FindCity(cities, near.0), Km(EntryDistance(user, distance, near)))
  {
    assert [a, b][..1] == [a];
    assert [a][..0] == [];
    var first := Scan([a], cities, user, distance);
    assert first == ScanStep(Scan([], cities, user, distance), a, cities, user, distance);
    assert Scan([a, b], cities, user, distance) == ScanStep(first, b, cities, user, distance);
  }

  /** When no id of the table is among `cities`, nothing is selected. */
  lemma {:induction false} ScanNoneListed(reference: seq<RefEntry>, cities: seq<City>, user: Coords, distance: DistanceFn)
    requires forall j :: 0 <= j < |reference| ==> FindCity(cities, reference[j].0).None?
    ensures Scan(reference, cities, user, distance).nearestCity.None?
    decreases |reference|
  {
    if reference != [] {
      var init := reference[..|reference| - 1];
      forall j | 0 <= j < |init| ensures FindCity(cities, init[j].0).None? {
        assert init[j] == reference[j];
      }
      ScanNoneListed(init, cities, user, distance);
    }
  }

  /** The reported distance can belong to an entry that was skipped: with the
      listed city A at distance dA and the unlisted city B nearer, at dB, the
      scan selects A but reports dB. */
  lemma ReportedDistanceOfSkippedEntry(cities: seq<City>, user: Coords, distance: DistanceFn, a: RefEntry, b: RefEntry)
    requires FindCity(cities, a.0).Some? && FindCity(cities, b.0).None?
    requires EntryDistance(user, distance, b) < EntryDistance(user, distance, a)
    ensures Scan([a, b], cities, user, distance) ==
            ScanState(FindCity(cities, a.0), Km(EntryDistance(user, distance, b)))
  {
    assert [a, b][..1] == [a];
    assert [a][..0] == [];
    var first := Scan([a], cities, user, distance);
    assert first == ScanStep(Scan([], cities, user, distance), a, cities, user, distance);
    assert first == ScanState(FindCity(cities, a.0), Km(EntryDistance(user, distance, a)));
    assert Scan([a, b], cities, user, distance) == ScanStep(first, b, cities, user, distance);
  }

  /** A listed city nearer than the selected one can be passed over: after an
      unlisted city B at distance dB, a listed city C with dB <= dC < dA is not
      taken, and the listed but farther A stays selected. */
  lemma NearerListedCityPassedOver(cities: seq<City>, user: Coords, distance: DistanceFn, a: RefEntry, b: RefEntry, c: RefEntry)
    requires FindCity(cities, a.0).Some? && FindCity(cities, b.0).None? && FindCity(cities, c.0).Some?
    requires EntryDistance(user, distance, b) <= EntryDistance(user, distance, c) < EntryDistance(user, distance, a)
    ensures Scan([a, b, c], cities, user, distance).nearestCity == FindCity(cities, a.0)
  {
    assert [a, b, c][..2] == [a, b];
    ReportedDistanceOfSkippedEntry(cities, user, distance, a, b);
  }

  /** The scan loop of the location effect. */
  method NearestCity(reference: seq<RefEntry>, cities: seq<City>, user: Coords, distance: DistanceFn)
    returns (nearestCity: Option<City>, minDistance: Distance)
    ensures ScanState(nearestCity, minDistance) == Scan(reference, cities, user, distance)
    ensures nearestCity.Some? ==> nearestCity.value in cities && minDistance.Km?
    ensures minDistance.Infinity? <==> reference == []
    ensures minDistance.Km? ==> forall j :: 0 <= j < |reference| ==> minDistance.km <= EntryDistance(user, distance, reference[j])
    ensures (forall j :: 0 <= j < |reference| ==> FindCity(cities, reference[j].0).Some?) && reference != [] ==>
              exists j :: 0 <= j < |reference| &&
                nearestCity == FindCity(cities, reference[j].0) &&
                minDistance == Km(EntryDistance(user, distance, reference[j])) &&
                forall k :: 0 <= k < j ==> EntryDistance(user, distance, reference[j]) < EntryDistance(user, distance, reference[k])
  {
    nearestCity := None;
    minDistance := Infinity;
    for i := 0 to |reference|
      invariant ScanState(nearestCity, minDistance) == Scan(reference[..i], cities, user, distance)
    {
      var (cityId, coords) := reference[i];
      var d := distance(user.lat, user.lon, coords.lat, coords.lon);
      if Below(d, minDistance) {
        minDistance := Km(d);
        var city := FindCity(cities, cityId);
        if city.Some? {
          nearestCity := city;
        }
      }
      assert reference[..i + 1][..i] == reference[..i];
    }
    assert reference[..|reference|] == reference;
    ScanMinimum(reference, cities, user, distance);
    if forall j :: 0 <= j < |reference| ==> FindCity(cities, reference[j].0).Some? {
      ScanSelectsFirstNearest(reference, cities, user, distance);
    }
  }

  /** The match condition of the city search, for an already lower-cased
      query: the query occurs somewhere in the lower-cased city name. */
  predicate CityMatchesQuery(c: City, query: string): (r: bool)
    ensures r <==> exists i :: OccursAt(Lower(c.lokasi), query, i)
  {
    IncludesLowered(c.lokasi, query);
    Includes(Lower(c.lokasi), query)
  }

  function CityMatches(query: string): City -> bool
  {
    (c: City) => CityMatchesQuery(c, query)
  }

  /** filteredCities: the popular cities before the list has loaded; the first
      50 cities for a blank query; otherwise the first 30 cities, in list order,
      whose lower-cased name contains the lower-cased, untrimmed query. */
  function FilteredCities(cities: Option<seq<City>>, searchQuery: string): (r: seq<City>)
    ensures cities.None? ==> r == POPULAR_CITIES
    ensures cities.Some? && IsBlank(searchQuery) ==>
              r <= cities.value && |r| == (if |cities.value| < 50 then |cities.value| else 50)
    ensures cities.Some? && !IsBlank(searchQuery) ==>
              var matching := Filter(cities.value, CityMatches(Lower(searchQuery)));
              (forall i :: 0 <= i < |r| ==> CityMatchesQuery(r[i], Lower(searchQuery))) &&
              IsSubsequence(r, cities.value) &&
              r <= matching &&
              |r| == (if |matching| < 30 then |matching| else 30) &&
              (|r| < 30 ==> forall c :: c in cities.value && CityMatchesQuery(c, Lower(searchQuery)) ==> c in r)
  {
    if cities.None? then POPULAR_CITIES
    else if Trim(searchQuery) == [] then Prefix(cities.value, 50)
    else
      var query := Lower(searchQuery);
      var keep := CityMatches(query);
      assert forall c :: keep(c) == CityMatchesQuery(c, query);
      var matching := Filter(cities.value, keep);
      FilterIsSubsequence(cities.value, keep);
      var r := Prefix(matching, 30);
      PrefixOfSubsequence(r, matching, cities.value);
      assert forall i :: 0 <= i < |r| ==> CityMatchesQuery(r[i], query) by {
        forall i | 0 <= i < |r| ensures CityMatchesQuery(r[i], query) {
          assert r[i] == matching[i] && keep(matching[i]);
        }
      }
      assert |r| < 30 ==> r == matching;
      r
  }

  /** The city the page starts with: the saved one when there is a non-empty
      saved value that parses, Jakarta otherwise. `parse` stands for JSON.parse,
      None meaning that it throws. */
  function LoadedCity(saved: Option<string>, parse: string -> Option<City>): (c: City)
    ensures saved.None? || saved == Some("") ==> c == City("1301", "KOTA JAKARTA")
    ensures saved.Some? && saved.value != "" && parse(saved.value).None? ==> c == City("1301", "KOTA JAKARTA")
    ensures saved.Some? && saved.value != "" && parse(saved.value).Some? ==> c == parse(saved.value).value
  {
    if saved.Some? && saved.value != "" then
      match parse(saved.value)
      case Some(city) => city
      case None => POPULAR_CITIES[0]
    else POPULAR_CITIES[0]
  }

  /** A city saved by the page (serialised to a non-empty string that parses
      back to it) is the city the page starts with next time. */
  lemma SavedCityReloads(c: City, stringify: City -> string, parse: string -> Option<City>)
    requires stringify(c) != "" && parse(stringify(c)) == Some(c)
    ensures LoadedCity(Some(stringify(c)), parse) == c
  {
  }

  /** The page's state slots for the selected city. */
  class ShalatPageState {
    var selectedCity: Option<City>
    var openCitySelector: bool
    var searchQuery: string
    var locationDetected: bool
    /** The stored value under the saved-city key. */
    var savedValue: Option<string>

    constructor (savedValue: Option<string>)
      ensures selectedCity.None? && !openCitySelector && searchQuery == "" && !locationDetected
      ensures this.savedValue == savedValue
    {
      this.savedValue := savedValue;
      selectedCity := None;
      openCitySelector := false;
      searchQuery := "";
      locationDetected := false;
    }

    /** The save effect: a selected city is written back, serialised by
        `stringify` (JSON.stringify); with no selection the stored value stays. */
    method SaveSelectedCity(stringify: City -> string)
      modifies this`savedValue
      ensures selectedCity.Some? ==> savedValue == Some(stringify(selectedCity.value))
      ensures selectedCity.None? ==> savedValue == old(savedValue)
    {
      if selectedCity.Some? {
        savedValue := Some(stringify(selectedCity.value));
      }
    }

    /** The load effect: the stored city, or the first popular city. */
    method LoadStoredCity(parse: string -> Option<City>)
      modifies this`selectedCity
      ensures selectedCity == Some(LoadedCity(savedValue, parse))
    {
      if savedValue.Some? && savedValue.value != "" {
        var parsed := parse(savedValue.value);
        if parsed.Some? {
          selectedCity := parsed;
        } else {
          selectedCity := Some(POPULAR_CITIES[0]);
        }
      } else {
        selectedCity := Some(POPULAR_CITIES[0]);
      }
    }

    /** The location effect: once both a position and the city list are
        there, select the scan's city, if any, and report it with the scan's
        distance. Without a selection nothing changes. */
    method DetectNearestCity(position: Option<Coords>, cities: Option<seq<City>>,
                             reference: seq<RefEntry>, distance: DistanceFn)
      returns (notice: Option<(City, real)>)
      modifies this`selectedCity, this`locationDetected
      ensures position.None? || cities.None? ==>
                notice.None? && selectedCity == old(selectedCity) && locationDetected == old(locationDetected)
      ensures position.Some? && cities.Some? ==>
                var st := Scan(reference, cities.value, position.value, distance);
                if st.nearestCity.Some? then
                  st.nearestCity.value in cities.value && st.minDistance.Km? &&
                  selectedCity == st.nearestCity && locationDetected &&
                  notice == Some((st.nearestCity.value, st.minDistance.km))
                else
                  notice.None? && selectedCity == old(selectedCity) && locationDetected == old(locationDetected)
    {
      notice := None;
      if position.Some? && cities.Some? {
        var nearestCity, minDistance := NearestCity(reference, cities.value, position.value, distance);
        if nearestCity.Some? {
          selectedCity := nearestCity;
          locationDetected := true;
          notice := Some((nearestCity.value, minDistance.km));
        }
      }
    }

    method HandleSelectCity(city: City)
      modifies this`selectedCity, this`openCitySelector, this`searchQuery, this`locationDetected
      ensures selectedCity == Some(city) && !openCitySelector && searchQuery == "" && !locationDetected
    {
      selectedCity := Some(city);
      openCitySelector := false;
      searchQuery := "";
      locationDetected := false;
    }
  }
}
