/** The main display: the UV readings fetched from the feed, the reading of
    the selected location, and the colour, label, text and sizes derived
    from it. */
module MainScreen {
  import opened Platform
  import opened App

  /** One station of the parsed feed. `index` is `None` when the parsed
      value is one that JavaScript's `>= 0` rejects: missing, NaN, or a
      string that is not a number. */
  datatype StationRecord = StationRecord(name: string, status: string, index: Option<real>)

  /** One entry of `uvData`: the station's name and its index, or `None`
      when the station has no valid reading. */
  datatype UvEntry = UvEntry(id: string, index: Option<real>)

  /** How a fetch ends: the feed was read and parsed into its list of
      stations, or something on the way threw. */
  datatype FetchOutcome = Parsed(stations: seq<StationRecord>) | Failed

  // ---------------------------------------------------------------------
  // Normalisation of the feed

  /** A station keeps its index only when its status is "ok" and the index
      is a number that is at least zero. */
  function NormaliseStation(station: StationRecord): (entry: UvEntry)
  {
    UvEntry(station.name,
            if station.status == "ok" && station.index.Some? && station.index.value >= 0.0
            then station.index else None)
  }

  /** `stations.map(NormaliseStation)`. */
  function Normalise(stations: seq<StationRecord>): (uvData: seq<UvEntry>)
  {
    if stations == [] then [] else [NormaliseStation(stations[0])] + Normalise(stations[1..])
  }

  /** Normalisation keeps the stations, in order, one entry per station with
      the station's name; an entry holds an index exactly when the station's
      status is "ok" and its index is at least zero, and then it is that
      index. */
  lemma {:induction false} NormalisePreservesStations(stations: seq<StationRecord>)
    ensures |Normalise(stations)| == |stations|
    ensures forall i :: 0 <= i < |stations| ==>
              Normalise(stations)[i].id == stations[i].name
    ensures forall i :: 0 <= i < |stations| ==>
              (Normalise(stations)[i].index.Some? <==>
                 stations[i].status == "ok" && stations[i].index.Some? && stations[i].index.value >= 0.0)
    ensures forall i :: 0 <= i < |stations| && Normalise(stations)[i].index.Some? ==>
              Normalise(stations)[i].index == stations[i].index
  {
    if stations != [] {
      NormalisePreservesStations(stations[1..]);
      var r := Normalise(stations);
      assert r == [NormaliseStation(stations[0])] + Normalise(stations[1..]);
      forall i | 1 <= i < |stations|
        ensures r[i] == Normalise(stations[1..])[i - 1]
        ensures stations[i] == stations[1..][i - 1]
      {
      }
    }
  }

  /** Every index held by the list is at least zero. */
  predicate NonNegativeReadings(uvData: seq<UvEntry>)
  {
    forall i :: 0 <= i < |uvData| && uvData[i].index.Some? ==> uvData[i].index.value >= 0.0
  }

  lemma NormaliseGivesNonNegativeReadings(stations: seq<StationRecord>)
    ensures NonNegativeReadings(Normalise(stations))
  {
    NormalisePreservesStations(stations);
  }

  // ---------------------------------------------------------------------
  // Resolving the selected location's index

  /** The index of the first entry whose id is `location`, or `None` when
      there is no such entry or that entry has no index. */
  function DoGetUVIndex(uvData: seq<UvEntry>, location: string): (r: Option<real>)
    ensures r.Some? ==> exists i :: 0 <= i < |uvData| && uvData[i].id == location && uvData[i].index == r
  {
    if uvData == [] then None
    else if uvData[0].id == location then uvData[0].index
    else
      var r := DoGetUVIndex(uvData[1..], location);
      assert r.Some? ==> exists i :: 1 <= i < |uvData| && uvData[i].id == location && uvData[i].index == r by {
        if r.Some? {
          var k :| 0 <= k < |uvData[1..]| && uvData[1..][k].id == location && uvData[1..][k].index == r;
          assert uvData[k + 1] == uvData[1..][k];
        }
      }
      r
  }

  /** When entry `i` is the first one for `location`, its index is the
      result, whether or not it holds one. */
  lemma {:induction false} ResolveFindsFirstMatch(uvData: seq<UvEntry>, location: string, i: nat)
    requires i < |uvData| && uvData[i].id == location
    requires forall j :: 0 <= j < i ==> uvData[j].id != location
    ensures DoGetUVIndex(uvData, location) == uvData[i].index
  {
    if i > 0 {
      assert uvData[0].id != location;
      var tail := uvData[1..];
      forall j | 0 <= j < i - 1 ensures tail[j].id != location {
        assert tail[j] == uvData[j + 1];
      }
      ResolveFindsFirstMatch(tail, location, i - 1);
    }
  }

  /** With no entry for `location` (in particular with an empty list) there
      is no index. */
  lemma {:induction false} ResolveWithoutMatch(uvData: seq<UvEntry>, location: string)
    requires forall j :: 0 <= j < |uvData| ==> uvData[j].id != location
    ensures DoGetUVIndex(uvData, location) == None
  {
    if uvData != [] {
      var tail := uvData[1..];
      forall j | 0 <= j < |tail| ensures tail[j].id != location {
        assert tail[j] == uvData[j + 1];
      }
      ResolveWithoutMatch(tail, location);
    }
  }

  /** Over normalised data every resolved index is at least zero. */
  lemma ResolvedIndexIsNonNegative(uvData: seq<UvEntry>, location: string)
    requires NonNegativeReadings(uvData)
    ensures DoGetUVIndex(uvData, location).Some? ==> DoGetUVIndex(uvData, location).value >= 0.0
  {
  }

  /** Resolving straight from the feed: a station named `location`, ahead of
      any other of that name, gives its index exactly when its status is "ok"
      and the index is at least zero. */
  lemma ResolveFromFeed(stations: seq<StationRecord>, location: string, i: nat)
    requires i < |stations| && stations[i].name == location
    requires forall j :: 0 <= j < i ==> stations[j].name != location
    ensures DoGetUVIndex(Normalise(stations), location) ==
              if stations[i].status == "ok" && stations[i].index.Some? && stations[i].index.value >= 0.0
              then stations[i].index else None
  {
    NormalisePreservesStations(stations);
    ResolveFindsFirstMatch(Normalise(stations), location, i);
  }

  // ---------------------------------------------------------------------
  // Classification of the resolved index

  /** The background colour: gray without a reading, black at exactly zero,
      then green, amber, orange, red and purple on closed-open bands. */
  function BackgroundColor(uvIndex: Option<real>): (colour: string)
  {
    if uvIndex.None? then "gray"
    else if uvIndex.value == 0.0 then "black"
    else if uvIndex.value < 2.5 then "green"
    else if uvIndex.value < 5.5 then "#FFCC00"
    else if uvIndex.value < 7.5 then "orange"
    else if uvIndex.value < 10.5 then "red"
    else "purple"
  }

  /** The band label of a resolved index, once data has arrived. */
  function IndexBandName(uvIndex: Option<real>): (bandName: string)
  {
    if uvIndex.None? then "No data"
    else if uvIndex.value == 0.0 then "Nil"
    else if uvIndex.value < 2.5 then "Low"
    else if uvIndex.value < 5.5 then "Moderate"
    else if uvIndex.value < 7.5 then "High"
    else if uvIndex.value < 10.5 then "Very high"
    else "Extreme"
  }

  /** The band label shown under the number: "Loading..." while no data has
      arrived, whatever the location. */
  function BandName(uvData: seq<UvEntry>, location: string): (bandName: string)
  {
    if |uvData| == 0 then "Loading..." else IndexBandName(DoGetUVIndex(uvData, location))
  }

  /** Each band is a closed-open interval of the index. */
  lemma BandIntervals(v: real)
    ensures IndexBandName(Some(v)) == "Nil" <==> v == 0.0
    ensures IndexBandName(Some(v)) == "Low" <==> v != 0.0 && v < 2.5
    ensures IndexBandName(Some(v)) == "Moderate" <==> 2.5 <= v < 5.5
    ensures IndexBandName(Some(v)) == "High" <==> 5.5 <= v < 7.5
    ensures IndexBandName(Some(v)) == "Very high" <==> 7.5 <= v < 10.5
    ensures IndexBandName(Some(v)) == "Extreme" <==> 10.5 <= v
    ensures IndexBandName(Some(v)) != "No data"
  {
  }

  lemma BandBoundaries()
    ensures IndexBandName(Some(0.0)) == "Nil" && BackgroundColor(Some(0.0)) == "black"
    ensures IndexBandName(Some(2.5)) == "Moderate" && BackgroundColor(Some(2.5)) == "#FFCC00"
    ensures IndexBandName(Some(5.5)) == "High" && BackgroundColor(Some(5.5)) == "orange"
    ensures IndexBandName(Some(7.5)) == "Very high" && BackgroundColor(Some(7.5)) == "red"
    ensures IndexBandName(Some(10.5)) == "Extreme" && BackgroundColor(Some(10.5)) == "purple"
  {
  }

  /** Label and colour name the same band, for every resolved index. */
  lemma ColourAgreesWithLabel(uvIndex: Option<real>)
    ensures IndexBandName(uvIndex) == "No data" <==> BackgroundColor(uvIndex) == "gray"
    ensures IndexBandName(uvIndex) == "Nil" <==> BackgroundColor(uvIndex) == "black"
    ensures IndexBandName(uvIndex) == "Low" <==> BackgroundColor(uvIndex) == "green"
    ensures IndexBandName(uvIndex) == "Moderate" <==> BackgroundColor(uvIndex) == "#FFCC00"
    ensures IndexBandName(uvIndex) == "High" <==> BackgroundColor(uvIndex) == "orange"
    ensures IndexBandName(uvIndex) == "Very high" <==> BackgroundColor(uvIndex) == "red"
    ensures IndexBandName(uvIndex) == "Extreme" <==> BackgroundColor(uvIndex) == "purple"
  {
  }

  /** Before any data the label says "Loading..." while the background is
      gray; once data has arrived the label is never "Loading...". */
  lemma LoadingOverride(uvData: seq<UvEntry>, location: string)
    ensures BandName(uvData, location) == "Loading..." <==> uvData == []
    ensures uvData == [] ==> BackgroundColor(DoGetUVIndex(uvData, location)) == "gray"
  {
  }

  /** The severity order of the band labels. */
  function LabelRank(bandName: string): (rank: int)
  {
    if bandName == "Nil" then 0
    else if bandName == "Low" then 1
    else if bandName == "Moderate" then 2
    else if bandName == "High" then 3
    else if bandName == "Very high" then 4
    else if bandName == "Extreme" then 5
    else -1
  }

  /** A larger index never lands in a lower band, over the non-negative
      indices that normalisation lets through. */
  lemma BandIsMonotonic(a: real, b: real)
    requires 0.0 <= a <= b
    ensures 0 <= LabelRank(IndexBandName(Some(a))) <= LabelRank(IndexBandName(Some(b)))
  {
  }

  /** The chains are not monotonic below zero: -1 reads "Low", 0 reads "Nil". */
  lemma NegativeIndexBreaksOrder()
    ensures LabelRank(IndexBandName(Some(-1.0))) > LabelRank(IndexBandName(Some(0.0)))
  {
  }

  // ---------------------------------------------------------------------
  // The number, its size and the header

  /** What is shown as the number: "--" without a reading, else the index. */
  datatype DisplayValue = Text(text: string) | Number(value: real)

  function UvIndexForDisplay(uvIndex: Option<real>): (r: DisplayValue)
    ensures r == Text("--") <==> uvIndex.None?
    ensures r.Number? <==> uvIndex.Some?
    ensures r.Number? ==> r.value == uvIndex.value
  {
    if uvIndex.None? then Text("--") else Number(uvIndex.value)
  }

  /** The number is drawn smaller once the index exceeds 10. */
  function UviFontSize(uvIndex: Option<real>): (size: int)
    ensures size == 132 <==> uvIndex.Some? && uvIndex.value > 10.0
    ensures size == 148 <==> !(uvIndex.Some? && uvIndex.value > 10.0)
  {
    if uvIndex.Some? && uvIndex.value > 10.0 then 132 else 148
  }

  lemma FontSizeBoundary()
    ensures UviFontSize(Some(10.0)) == 148
    ensures UviFontSize(Some(10.5)) == 132
    ensures UviFontSize(None) == 148
  {
  }

  /** The header title: the location's name, with " UVI" appended when the
      name has at most ten characters, or "No location set". */
  function HeaderTitle(location: string): (title: string)
    requires location == "" || location in Registry
    ensures location == "" ==> title == "No location set"
    ensures location != "" ==> Registry[location].name <= title
    ensures location != "" ==>
              (|title| > |Registry[location].name| <==> |Registry[location].name| <= 10)
    ensures location != "" && |title| > |Registry[location].name| ==>
              title[|Registry[location].name|..] == " UVI"
  {
    if location != "" then
      var name := Registry[location].name;
      if |name| <= 10 then name + " UVI" else name
    else
      "No location set"
  }

  lemma SampleHeaderTitles()
    ensures HeaderTitle("syd") == "Sydney UVI"
    ensures HeaderTitle("tow") == "Townsville UVI"
    ensures HeaderTitle("ali") == "Alice Springs"
    ensures HeaderTitle("mcq") == "Macquarie Is"
  {
  }

  // ---------------------------------------------------------------------
  // The screen's state

  /** Everything the screen shows for its current state. */
  datatype View = View(background: string, uvIndex: DisplayValue, fontSize: int,
                       bandName: string, headerTitle: string)

  class Screen {
    /** The normalised feed of the last successful fetch; empty before it. */
    var uvData: seq<UvEntry>
    /** The location code the screen was opened with. */
    const location: string

    ghost predicate Valid()
      reads this
    {
      NonNegativeReadings(uvData)
    }

    constructor (location: string)
      ensures Valid()
      ensures this.location == location && uvData == []
    {
      this.location := location;
      uvData := [];
    }

    /** A fetch that parsed replaces `uvData` wholesale with the normalised
        stations; one that threw leaves it as it was. */
    method FetchUVIndex(outcome: FetchOutcome)
      requires Valid()
      modifies this
      ensures Valid()
      ensures outcome.Parsed? ==> uvData == Normalise(outcome.stations)
      ensures outcome.Failed? ==> uvData == old(uvData)
    {
      if outcome.Parsed? {
        NormaliseGivesNonNegativeReadings(outcome.stations);
        uvData := Normalise(outcome.stations);
      }
    }

    /** What the screen and its header show for the current state. */
    method Render() returns (view: View)
      requires Valid()
      requires location == "" || location in Registry
      ensures view.uvIndex.Number? ==> view.uvIndex.value >= 0.0
      ensures view.uvIndex == Text("--") <==> view.background == "gray"
      ensures view.bandName == "Loading..." <==> uvData == []
      ensures uvData == [] ==> view.uvIndex == Text("--") && view.background == "gray"
      ensures uvData != [] ==> (view.bandName == "No data" <==> view.background == "gray")
      ensures view.fontSize == 132 <==> view.uvIndex.Number? && view.uvIndex.value > 10.0
      ensures view.headerTitle == HeaderTitle(location)
      ensures view.background == BackgroundColor(DoGetUVIndex(uvData, location))
      ensures view.uvIndex == UvIndexForDisplay(DoGetUVIndex(uvData, location))
      ensures view.fontSize == UviFontSize(DoGetUVIndex(uvData, location))
      ensures view.bandName == BandName(uvData, location)
    {
      var uvIndex := DoGetUVIndex(uvData, location);
      ResolvedIndexIsNonNegative(uvData, location);
      ColourAgreesWithLabel(uvIndex);
      view := View(BackgroundColor(uvIndex), UvIndexForDisplay(uvIndex), UviFontSize(uvIndex),
                   BandName(uvData, location), HeaderTitle(location));
    }
  }

  /** A feed in which Sydney reads 6.0 shows "High" on orange for "syd". */
  lemma ScenarioValidReading()
    ensures var data := Normalise([StationRecord("syd", "ok", Some(6.0))]);
            DoGetUVIndex(data, "syd") == Some(6.0) &&
            BandName(data, "syd") == "High" &&
            BackgroundColor(DoGetUVIndex(data, "syd")) == "orange"
  {
  }

  /** A station whose status is not "ok" shows "No data" on gray. */
  lemma ScenarioStatusNotOk()
    ensures var data := Normalise([StationRecord("per", "not_ok", Some(3.0))]);
            DoGetUVIndex(data, "per") == None &&
            BandName(data, "per") == "No data" &&
            BackgroundColor(DoGetUVIndex(data, "per")) == "gray"
  {
  }
}
