/** The parts of the platform the app relies on: an optional value, the
    persistent key-value store (AsyncStorage) and the navigation stack.
    Their internals are not modelled; only what the app reads and writes. */
module Platform {

  datatype Option<+T> = None | Some(value: T)

  /** What `AsyncStorage.getItem(key)` resolves to: the stored string, or
      nothing when the key was never written. */
  function Lookup(items: map<string, string>, key: string): (r: Option<string>)
    ensures r.Some? <==> key in items
    ensures r.Some? ==> r.value == items[key]
  {
    if key in items then Some(items[key]) else None
  }

  /** The persistent key-value store: string keys to string values. */
  class Store {
    var items: map<string, string>

    constructor (items: map<string, string>)
      ensures this.items == items
    {
      this.items := items;
    }

    method GetItem(key: string) returns (value: Option<string>)
      ensures value == Lookup(items, key)
    {
      value := Lookup(items, key);
    }

    method SetItem(key: string, value: string)
      modifies this
      ensures items == old(items)[key := value]
    {
      items := items[key := value];
    }
  }

  /** The screens of the root stack navigator; only `Main` takes a
      parameter, the location code it displays. */
  datatype Route = Main(location: string) | Settings | About

  /** The navigation state: a stack of routes and the index of the active one. */
  class Navigation {
    var routes: seq<Route>
    var index: nat

    ghost predicate Valid()
      reads this
    {
      index < |routes|
    }

    constructor (initial: Route)
      ensures Valid()
      ensures routes == [initial] && index == 0
    {
      routes := [initial];
      index := 0;
    }

    /** Pushes a screen, as `navigation.navigate` does for a screen not
        already on the stack. */
    method Navigate(route: Route)
      requires Valid()
      requires route !in routes[..index + 1]
      modifies this
      ensures Valid()
      ensures routes == old(routes[..index + 1]) + [route]
      ensures index == old(index) + 1
    {
      routes := routes[..index + 1] + [route];
      index := index + 1;
    }

    /** Replaces the whole navigation state, as `CommonActions.reset` does. */
    method Reset(newRoutes: seq<Route>, newIndex: nat)
      requires newIndex < |newRoutes|
      modifies this
      ensures Valid()
      ensures routes == newRoutes && index == newIndex
    {
      routes := newRoutes;
      index := newIndex;
    }
  }
}
