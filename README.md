# LiveUVApp core, modelled in Dafny

LiveUVApp is a small React Native app that shows the live ultraviolet index
(UVI) for one Australian location, colour-coded by severity band. This
project models the part of it that holds logic:

- the **registry** of seventeen location codes with their names and states,
  the `__NO_LOCATION_SET__` sentinel, how the stored location is resolved
  at startup, and which screen opens first (`app.dfy`, module `App`);
- the **UV data path** of the main display (`main_screen.dfy`, module
  `MainScreen`): how each parsed station record is normalised into
  `{id, index | null}`, how a fetch replaces `uvData` wholesale or leaves it
  unchanged, how the selected location's index is resolved (first matching
  entry), and the pure decision chains for the background colour, the band
  label (with the "Loading..." override), the displayed number ("--" when
  there is none), its font size and the header title;
- the **location list** (`settings_screen.dfy`, module `SettingsScreen`):
  the list options built from the registry, the mount-time read of the
  stored location, and `saveLocation`, which sets the screen's location,
  writes the store and resets the navigation to a single `Main` route;
- the two platform services they use, abstracted (`platform.dfy`, module
  `Platform`): AsyncStorage as a class holding a `map<string, string>`, and
  the navigation state as a class holding a stack of routes and an index.

The UV index is a JavaScript number that the code only compares with
constants, so it is a `real`. A station's index is `Option<real>`: `None`
stands for a parsed value that JavaScript's `>= 0` rejects (a missing index,
NaN, or a string that does not read as a number), which normalisation drops
exactly like a negative one. Values that JavaScript coerces to a number
`>= 0` without being numbers are not represented (see "Left out").
Component state (`uvData`, `location`) lives in classes whose methods
change it; the decision chains are functions, and what they promise is
proved in lemmas beside them.

Where the code differs from the app's intended design, the model follows
the code:

- the resolver returns the index of the *first* entry with the location's
  id (`Array.prototype.find`), not of a "unique" one;
- colour and label are two separate if-chains over the index, not one band
  value mapped to both; that they always agree is proved
  (`MainScreen.ColourAgreesWithLabel`), not assumed;
- a failed store write is not handled by the code, so the model has no
  storage error (see "Left out").

## Model

| member | source | states |
|---|---|---|
| `App.CodesAreShort` | App.tsx:26-44 | every registry code is three characters long |
| `App.RegistryCodesEnumerateKeys` | App.tsx:26-44 | the registry's keys in declaration order are 17 distinct codes, each a key, and every key appears among them |
| `App.RegistrySize` | App.tsx:26-44 | the registry holds exactly 17 locations |
| `App.SampleRegistryEntries` | App.tsx:36-42 | `syd` is Sydney/NSW, `kin` is Hobart/TAS, `mel` is Melbourne/VIC |
| `App.SentinelIsNotACode` | App.tsx:26-54 | the sentinel `__NO_LOCATION_SET__` is non-empty and is not a registry key |
| `App.StartupLocation` | App.tsx:60-66 | a non-empty stored value becomes `location`; an absent or empty one becomes the sentinel; the result is never empty |
| `App.InitialRoute` | App.tsx:75-76 | the first route is `Settings` iff `location` is the sentinel, otherwise `Main` with `location` as its parameter |
| `App.RenderApp` | App.tsx:69-76 | nothing is rendered iff `location` is empty; otherwise the navigator opens on `InitialRoute(location)` |
| `App.StartupAlwaysRenders` | App.tsx:59-76 | after the store answers, the app always renders, and opens `Main(stored)` iff a non-empty non-sentinel value was stored |
| `App.FirstLaunchOpensSettings` | App.tsx:60-75 | with no stored `location` key the app opens the location list |
| `App.StoredLocationRoundTrip` | App.tsx:60-76 | any stored value other than `""` and the sentinel is read back unchanged and opens `Main` with it |
| `App.StoredCodeOpensMain` | App.tsx:60-76 | a stored registry code is read back unchanged and opens `Main` with that code (the registry case of the round trip) |
| `App.AppRoot.constructor` | App.tsx:57 | `location` starts empty, so nothing is rendered yet |
| `App.AppRoot.LoadStoredLocation` | App.tsx:59-67 | the storage callback reads the store through `Platform.Store.GetItem` (`AsyncStorage.getItem`) and sets `location` to `StartupLocation` of the stored value, which is never empty, and does not change the store |
| `MainScreen.NormalisePreservesStations` | screens/MainScreen.tsx:76 | about `Normalise` and `NormaliseStation` (the `.map` lambda): normalisation keeps length and order, each id is the station's name, an index is kept iff status is "ok" and the index is present and `>= 0`, and a kept index is the station's |
| `MainScreen.NormaliseGivesNonNegativeReadings` | screens/MainScreen.tsx:76 | every index in the output of `Normalise` is `>= 0` |
| `MainScreen.DoGetUVIndex` | screens/MainScreen.tsx:90-95 | a resolved index is the index of some entry whose id is the location |
| `MainScreen.ResolveFindsFirstMatch` | screens/MainScreen.tsx:90-95 | when entry `i` is the first with the location's id, the result is that entry's index (null when it has none) |
| `MainScreen.ResolveWithoutMatch` | screens/MainScreen.tsx:90-95 | with no entry for the location, including an empty list, the result is null |
| `MainScreen.ResolvedIndexIsNonNegative` | screens/MainScreen.tsx:76-95 | over normalised data a resolved index is `>= 0` |
| `MainScreen.ResolveFromFeed` | screens/MainScreen.tsx:76-95 | resolving normalised feed data gives the first matching station's index iff its status is "ok" and its index is `>= 0`, else null |
| `MainScreen.BandIntervals` | screens/MainScreen.tsx:118-130 | about `IndexBandName`, the chain of lines 123-129: each label is a closed-open interval of the index: Nil at 0, Low below 2.5, Moderate [2.5, 5.5), High [5.5, 7.5), Very high [7.5, 10.5), Extreme from 10.5 |
| `MainScreen.BandBoundaries` | screens/MainScreen.tsx:106-130 | at 0, 2.5, 5.5, 7.5 and 10.5 colour and label are those of the upper band |
| `MainScreen.ColourAgreesWithLabel` | screens/MainScreen.tsx:106-130 | about `BackgroundColor` (lines 106-116) and `IndexBandName` (lines 123-129): for every resolved index, No data iff gray, Nil iff black, Low iff green, Moderate iff #FFCC00, High iff orange, Very high iff red, Extreme iff purple |
| `MainScreen.LoadingOverride` | screens/MainScreen.tsx:106-130 | about `BandName` (`getBandName`): the label is "Loading..." iff `uvData` is empty, and then `BackgroundColor` gives gray |
| `MainScreen.BandIsMonotonic` | screens/MainScreen.tsx:118-130 | for `0 <= a <= b` the band of `b` is never lower than the band of `a` |
| `MainScreen.NegativeIndexBreaksOrder` | screens/MainScreen.tsx:118-130 | below zero the chain is not ordered (-1 reads Low, 0 reads Nil), which is why normalisation's `>= 0` filter matters |
| `MainScreen.UvIndexForDisplay` | screens/MainScreen.tsx:97-104 | the display is "--" iff there is no index, and otherwise the index itself |
| `MainScreen.UviFontSize` | screens/MainScreen.tsx:145-151 | the size is 132 iff there is an index above 10, and 148 otherwise |
| `MainScreen.FontSizeBoundary` | screens/MainScreen.tsx:145-151 | exactly 10 gives 148, 10.5 gives 132, null gives 148 |
| `MainScreen.HeaderTitle` | screens/MainScreen.tsx:37-46 | an empty location gives "No location set"; a registry code gives its name, followed by " UVI" iff the name has at most 10 characters |
| `MainScreen.SampleHeaderTitles` | screens/MainScreen.tsx:37-46 | "Sydney UVI", "Townsville UVI", and the long names "Alice Springs" and "Macquarie Is" without the suffix |
| `MainScreen.Screen.constructor` | screens/MainScreen.tsx:11-13 | `uvData` starts empty and the location is the route parameter |
| `MainScreen.Screen.FetchUVIndex` | screens/MainScreen.tsx:61-88 | a parsed feed replaces `uvData` wholesale with its normalisation; a failure leaves it unchanged; every kept index stays `>= 0` |
| `MainScreen.Screen.Render` | screens/MainScreen.tsx:132-135 | the view shows `BackgroundColor`, `UvIndexForDisplay` and `UviFontSize` of the resolved index and `BandName` of the current `uvData` and location; the shown index is `>= 0`; "--" iff gray; "Loading..." iff no data; "No data" iff gray once data arrived; font 132 iff index above 10 |
| `MainScreen.ScenarioValidReading` | screens/MainScreen.tsx:76-130 | a feed with Sydney "ok" at 6.0 resolves to 6.0 for `syd` and shows High on orange |
| `MainScreen.ScenarioStatusNotOk` | screens/MainScreen.tsx:76-130 | a feed with Perth "not_ok" at 3.0 resolves to null for `per` and shows No data on gray |
| `SettingsScreen.OptionsFollowRegistry` | screens/SettingsScreen.tsx:13-15 | about `LocationsListOptions` and `OptionFor`: the list has one option per registry key (17), in key order, each with that code and the text `name + " " + state` |
| `SettingsScreen.OptionsCoverRegistry` | screens/SettingsScreen.tsx:13-15 | a code is a registry key iff some option carries it |
| `SettingsScreen.OptionCodesAreUnique` | screens/SettingsScreen.tsx:13-15 | no two options share a code |
| `SettingsScreen.MountLocation` | screens/SettingsScreen.tsx:19-24 | a non-empty stored value replaces the screen's location; an absent or empty one keeps it |
| `SettingsScreen.Screen.constructor` | screens/SettingsScreen.tsx:17 | the screen's location starts empty |
| `SettingsScreen.Screen.LoadStoredLocation` | screens/SettingsScreen.tsx:19-24 | the mount-time read sets the location by `MountLocation` and does not change the store |
| `SettingsScreen.Screen.SaveLocation` | screens/SettingsScreen.tsx:27-36 | the location becomes the code, the store's `location` key becomes the code and no other key changes, the stack becomes exactly `[Main(code)]` at index 0 |
| `SettingsScreen.FirstLaunchThenChoose` | screens/SettingsScreen.tsx:27-36 | from an empty store the app opens the list; choosing a code leaves `[Main(code)]` as the stack; a fresh start then opens `Main(code)` |
| `SettingsScreen.ChangeLocation` | screens/SettingsScreen.tsx:27-36 | after opening the list from `Main(previous)` and choosing a code, the stack is `[Main(code)]` only and the store holds the code |
| `Platform.Store.SetItem` | screens/SettingsScreen.tsx:29 | writing a key updates that key and no other |
| `Platform.Navigation.Navigate` | App.tsx:83 | opening a screen pushes it above the active route |
| `Platform.Navigation.Reset` | screens/SettingsScreen.tsx:30-35 | a reset replaces the whole stack and index |

## Left out

- The HTTP request and reading the response body (screens/MainScreen.tsx:63-68): network I/O. A fetch is the parameter `FetchOutcome`, either `Parsed(stations)` or `Failed`.
- XML parsing with fast-xml-parser (screens/MainScreen.tsx:70-74): a foreign library. The model starts from the parsed list of station records. A feed whose `stations.location` is missing or is not an array makes `.map` throw; that is a `Failed` outcome.
- The refresh triggers: the fetch on mount, the 10-second interval, the foreground listener and the focus effect (screens/MainScreen.tsx:15-35, 55-59). This is timer and event scheduling. Overlapping fetches are also left out. The model applies fetch results in the order they complete, so the last one to complete wins.
- Rendering, styles, SVG icons and the About screen (App.tsx:46-52, 77-103; screens/MainScreen.tsx:132-143; screens/SettingsScreen.tsx:38-60): presentation only. `MainScreen.Screen.Render` covers only the values the screen passes to the view and the header.
- The internals of AsyncStorage and of the navigation library. A store write that fails is not handled by the code, so the model gives it no error path. `Platform.Navigation.Navigate` models only pushing a screen that is not already on the stack.
- The `if (!data)` branch and the `console.error` logging (screens/MainScreen.tsx:78-81, 86). `map` always returns an array, so the branch is dead. Likewise the `: null` arm of `uvData ? … : null` at line 91 never runs, because `uvData` is always an array.
- `MainScreen.HeaderTitle` requires the location to be empty or a registry code. For any other code the source dereferences `undefined` at screens/MainScreen.tsx:40 and throws. The model specifies no recovery for this.
- An undefined `route.params?.location` (screens/MainScreen.tsx:13) is modelled as the empty string, because both are falsy.
- JavaScript number details: NaN and `-0` are not modelled. A NaN index fails `>= 0`, so it behaves like a missing index (`None`).
- Non-numeric indices that JavaScript coerces to a number `>= 0` are not represented. The feed entry is untyped (screens/MainScreen.tsx:76), and `""`, `null` and `true` all pass `>= 0`. An empty `<index/>` element, for instance, reaches the filter as `""`. The code keeps such a value, and the chains then classify it by its coercion: `""` is not `=== 0` and is `< 2.5`, so it shows an empty number on green with "Low". `Option<real>` cannot hold such a value: in the model a station's index is either a real number or `None`, so the model does not reproduce how these stations are shown.
- The effect in App.tsx:59-67 has no dependency list, so the store is read again after every render. `App.AppRoot.LoadStoredLocation` may be called any number of times, and each call sets `location` from the current store.
- `App.InitialRoute` gives `Main` its parameter only when `Main` is the first route. When the first route is `Settings`, the navigator still gives `Main` the sentinel as its initial parameter. That case is not modelled, because `Main` is then only reached through the reset in `saveLocation`, which passes its own parameter.
- The Settings screen's `location` state is never read by its rendering; it is modelled only as state.
