/** The location list: one option per registry entry, and the choice of a
    location, which is stored and then made the only screen on the stack. */
module SettingsScreen {
  import opened Platform
  import opened App

  /** One row of the list: the text shown and the location code it selects. */
  datatype ListOption = ListOption(id: string, code: string)

  function OptionFor(code: string): (option: ListOption)
    requires code in Registry
  {
    ListOption(Registry[code].name + " " + Registry[code].state, code)
  }

  /** The list's rows, built by mapping over the registry's keys. */
  function LocationsListOptions(): (options: seq<ListOption>)
  {
    RegistryCodesEnumerateKeys();
    seq(|RegistryCodes|, i requires 0 <= i < |RegistryCodes| => OptionFor(RegistryCodes[i]))
  }

  /** The list has one row per registry key, in the registry's key order;
      each row selects its key and reads "name state". */
  lemma OptionsFollowRegistry()
    ensures |LocationsListOptions()| == |Registry| == 17
    ensures forall i :: 0 <= i < |LocationsListOptions()| ==>
              LocationsListOptions()[i].code == RegistryCodes[i] &&
              LocationsListOptions()[i].code in Registry &&
              LocationsListOptions()[i].id ==
                Registry[RegistryCodes[i]].name + " " + Registry[RegistryCodes[i]].state
  {
    RegistryCodesEnumerateKeys();
    RegistrySize();
  }

  /** Every registry key has a row, and every row's code is a registry key. */
  lemma OptionsCoverRegistry()
    ensures forall code :: code in Registry <==>
              exists i :: 0 <= i < |LocationsListOptions()| && LocationsListOptions()[i].code == code
  {
    OptionsFollowRegistry();
    RegistryCodesEnumerateKeys();
    var options := LocationsListOptions();
    forall code | code in Registry
      ensures exists i :: 0 <= i < |options| && options[i].code == code
    {
      var i :| 0 <= i < |RegistryCodes| && RegistryCodes[i] == code;
      assert options[i].code == code;
    }
  }

  /** Row codes are unique, so they can serve as the list's keys. */
  lemma OptionCodesAreUnique()
    ensures forall i, j :: 0 <= i < j < |LocationsListOptions()| ==>
              LocationsListOptions()[i].code != LocationsListOptions()[j].code
  {
    OptionsFollowRegistry();
    RegistryCodesEnumerateKeys();
  }

  /** The value the mount-time read leaves in `location`: a non-empty stored
      value replaces it, anything else keeps it. */
  function MountLocation(current: string, stored: Option<string>): (location: string)
    ensures stored.Some? && stored.value != "" ==> location == stored.value
    ensures stored.None? || stored.value == "" ==> location == current
  {
    if stored.Some? && stored.value != "" then stored.value else current
  }

  /** The location list screen's state, with the store and the navigation
      it works on. */
  class Screen {
    var location: string
    const store: Store
    const navigation: Navigation

    constructor (store: Store, navigation: Navigation)
      ensures location == ""
      ensures this.store == store && this.navigation == navigation
    {
      location := "";
      this.store := store;
      this.navigation := navigation;
    }

    /** The mount-time read of the stored location. */
    method LoadStoredLocation()
      modifies this
      ensures location == MountLocation(old(location), Lookup(store.items, "location"))
      ensures store.items == old(store.items)
    {
      var value := store.GetItem("location");
      location := MountLocation(location, value);
    }

    /** Choosing a location: remember it, store it under "location", and
        reset the navigation to the main display for it alone. */
    method SaveLocation(code: string)
      modifies this, store, navigation
      ensures location == code
      ensures store.items == old(store.items)["location" := code]
      ensures forall key :: key != "location" ==>
                (key in store.items <==> key in old(store.items)) &&
                (key in store.items ==> store.items[key] == old(store.items)[key])
      ensures navigation.Valid()
      ensures navigation.routes == [Main(code)] && navigation.index == 0
    {
      location := code;
      store.SetItem("location", code);
      navigation.Reset([Main(code)], 0);
    }
  }

  /** A first launch opens the location list; choosing `code` leaves the
      main display for `code` as the only screen, and the next launch opens
      straight on it. */
  method FirstLaunchThenChoose(code: string) returns (firstRoute: Option<Route>, stack: seq<Route>, nextRoute: Option<Route>)
    requires code in Registry
    ensures firstRoute == Some(Settings)
    ensures stack == [Main(code)]
    ensures nextRoute == Some(Main(code))
  {
    var store := new Store(map[]);
    var app := new AppRoot();
    app.LoadStoredLocation(store);
    firstRoute := RenderApp(app.location);

    var navigation := new Navigation(Settings);
    var settings := new Screen(store, navigation);
    settings.LoadStoredLocation();
    settings.SaveLocation(code);
    stack := navigation.routes;

    StoredCodeOpensMain(map[], code);
    var next := new AppRoot();
    next.LoadStoredLocation(store);
    nextRoute := RenderApp(next.location);
  }

  /** Changing location from the main display: after opening the list from
      the main display for `previous` and choosing `code`, no earlier screen
      is left on the stack. */
  method ChangeLocation(previous: string, code: string) returns (stack: seq<Route>, stored: Option<string>)
    requires previous in Registry && code in Registry
    ensures stack == [Main(code)]
    ensures stored == Some(code)
  {
    var store := new Store(map["location" := previous]);
    var navigation := new Navigation(Main(previous));
    navigation.Navigate(Settings);
    var settings := new Screen(store, navigation);
    settings.LoadStoredLocation();
    settings.SaveLocation(code);
    stack := navigation.routes;
    stored := store.GetItem("location");
  }
}
