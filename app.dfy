/** The application root: the registry of known locations, the sentinel for
    "no location chosen yet", the resolution of the stored location at
    startup and the choice of the first screen. */
module App {
  import opened Platform

  /** A location's display name and its state or territory. */
  datatype Location = Location(name: string, state: string)

  /** The fixed registry of location codes. */
  const Registry: map<string, Location> := map[
    "adl" := Location("Adelaide", "SA"),
    "ali" := Location("Alice Springs", "NT"),
    "bri" := Location("Brisbane", "QLD"),
    "can" := Location("Canberra", "ACT"),
    "cas" := Location("Casey", "AAT"),
    "dar" := Location("Darwin", "NT"),
    "dav" := Location("Davis", "AAT"),
    "emd" := Location("Emerald", "QLD"),
    "gco" := Location("Gold Coast", "QLD"),
    "kin" := Location("Hobart", "TAS"),
    "mcq" := Location("Macquarie Is", "TAS"),
    "maw" := Location("Mawson", "AAT"),
    "mel" := Location("Melbourne", "VIC"),
    "new" := Location("Newcastle", "NSW"),
    "per" := Location("Perth", "WA"),
    "syd" := Location("Sydney", "NSW"),
    "tow" := Location("Townsville", "QLD")
  ]

  /** The registry's keys in the order the object literal declares them,
      which is the order `Object.keys` enumerates them in. */
  const RegistryCodes: seq<string> :=
    ["adl", "ali", "bri", "can", "cas", "dar", "dav", "emd", "gco",
     "kin", "mcq", "maw", "mel", "new", "per", "syd", "tow"]

  /** Stored in `location` when the store holds no usable location. */
  const NoLocationSet: string := "__NO_LOCATION_SET__"

  predicate Distinct(s: seq<string>)
  {
    forall i, j :: 0 <= i < j < |s| ==> s[i] != s[j]
  }

  lemma {:induction false} DistinctCardinality(s: seq<string>)
    requires Distinct(s)
    ensures |set x | x in s| == |s|
  {
    if s != [] {
      var tail := s[1..];
      assert Distinct(tail) by {
        forall i, j | 0 <= i < j < |tail| ensures tail[i] != tail[j] {
          assert tail[i] == s[i + 1] && tail[j] == s[j + 1];
        }
      }
      DistinctCardinality(tail);
      assert (set x | x in s) == {s[0]} + (set x | x in tail);
      assert s[0] !in (set x | x in tail) by {
        forall k | 0 <= k < |tail| ensures tail[k] != s[0] {
          assert tail[k] == s[k + 1];
        }
      }
    }
  }

  /** Every code is three characters long. */
  lemma CodesAreShort()
    ensures forall code :: code in Registry ==> |code| == 3
  {
  }

  /** `RegistryCodes` lists every registry key exactly once. */
  lemma RegistryCodesEnumerateKeys()
    ensures |RegistryCodes| == 17
    ensures Distinct(RegistryCodes)
    ensures forall i :: 0 <= i < |RegistryCodes| ==> RegistryCodes[i] in Registry
    ensures forall code :: code in Registry <==> code in RegistryCodes
  {
  }

  /** The registry holds exactly seventeen locations. */
  lemma RegistrySize()
    ensures |Registry| == 17
  {
    RegistryCodesEnumerateKeys();
    DistinctCardinality(RegistryCodes);
    assert Registry.Keys == set x | x in RegistryCodes;
  }

  lemma SampleRegistryEntries()
    ensures Registry["syd"] == Location("Sydney", "NSW")
    ensures Registry["kin"] == Location("Hobart", "TAS")
    ensures Registry["mel"] == Location("Melbourne", "VIC")
  {
  }

  /** The sentinel is neither empty nor a location code, so it can never be
      mistaken for a chosen location. */
  lemma SentinelIsNotACode()
    ensures NoLocationSet != ""
    ensures NoLocationSet !in Registry
  {
    CodesAreShort();
  }

  /** The value the storage callback puts into `location`: a non-empty stored
      value is used as it is, an absent or empty one becomes the sentinel. */
  function StartupLocation(stored: Option<string>): (location: string)
    ensures location != ""
    ensures stored.Some? && stored.value != "" ==> location == stored.value
    ensures stored.None? || stored.value == "" ==> location == NoLocationSet
  {
    if stored.Some? && stored.value != "" then stored.value else NoLocationSet
  }

  /** The first screen of the navigator: the location list when no location
      is set, otherwise the main display for `location`. */
  function InitialRoute(location: string): (r: Route)
    ensures r == Settings <==> location == NoLocationSet
    ensures r != Settings ==> r == Main(location)
  {
    if location == NoLocationSet then Settings else Main(location)
  }

  /** What the root component renders: nothing while `location` is still
      empty (the store has not answered yet), otherwise a navigator whose
      first route is `InitialRoute(location)`. */
  function RenderApp(location: string): (r: Option<Route>)
    ensures r.None? <==> location == ""
    ensures r.Some? ==> r.value == InitialRoute(location)
  {
    if location == "" then None else Some(InitialRoute(location))
  }

  /** Whatever the store holds, once it has answered the app renders a
      navigator, and it opens the main display exactly when a non-empty
      value other than the sentinel was stored. */
  lemma StartupAlwaysRenders(stored: Option<string>)
    ensures RenderApp(StartupLocation(stored)).Some?
    ensures RenderApp(StartupLocation(stored)).value.Main? <==>
              stored.Some? && stored.value != "" && stored.value != NoLocationSet
    ensures RenderApp(StartupLocation(stored)).value.Main? ==>
              RenderApp(StartupLocation(stored)).value.location == stored.value
  {
  }

  /** A first launch, with nothing stored, opens the location list. */
  lemma FirstLaunchOpensSettings(items: map<string, string>)
    requires "location" !in items
    ensures RenderApp(StartupLocation(Lookup(items, "location"))) == Some(Settings)
  {
  }

  /** Any stored value other than the empty string and the sentinel is read
      back unchanged and opens the main display for it. */
  lemma StoredLocationRoundTrip(items: map<string, string>, code: string)
    requires code != "" && code != NoLocationSet
    ensures StartupLocation(Lookup(items["location" := code], "location")) == code
    ensures RenderApp(StartupLocation(Lookup(items["location" := code], "location"))) == Some(Main(code))
  {
  }

  /** A stored registry code opens the main display for that code. */
  lemma StoredCodeOpensMain(items: map<string, string>, code: string)
    requires code in Registry
    ensures StartupLocation(Lookup(items["location" := code], "location")) == code
    ensures RenderApp(StartupLocation(Lookup(items["location" := code], "location"))) == Some(Main(code))
  {
    SentinelIsNotACode();
    CodesAreShort();
    StoredLocationRoundTrip(items, code);
  }

  /** The root component's state. */
  class AppRoot {
    var location: string

    constructor ()
      ensures location == ""
      ensures RenderApp(location).None?
    {
      location := "";
    }

    /** The storage callback: reads the stored location and sets `location`. */
    method LoadStoredLocation(store: Store)
      modifies this
      ensures location == StartupLocation(Lookup(store.items, "location"))
      ensures location != ""
      ensures store.items == old(store.items)
    {
      var value := store.GetItem("location");
      location := StartupLocation(value);
    }
  }
}
