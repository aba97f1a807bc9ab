/**
 The console's filters, the cached proxy of the selected objects, and the shell modes that
 must follow the filters.
 */
module Shell {
  import opened Common

  /** What is selected: hosts, a class with its package, and property values. */
  datatype Filters = Filters(
    hosts: Option<seq<string>>, klass: Option<string>, package: Option<string>, properties: map<string, string>)

  const NO_FILTERS := Filters(None, None, None, map[])

  /** The objects found under some filters; there are none to find without a class. */
  datatype Proxy = NoProxy | Proxy(built: Filters)

  datatype Mode = Root | Host | Class | HostClass

  predicate IsHostMode(m: Mode) {
    m == Host || m == HostClass
  }

  predicate IsClassMode(m: Mode) {
    m == Class || m == HostClass
  }

  // ----- The selectors of the mode classes, with their inheritance -----

  function GetHostMode(m: Mode): (r: Mode) {
    if IsClassMode(m) then HostClass else Host
  }

  function GetClassMode(m: Mode): (r: Mode) {
    if IsHostMode(m) then HostClass else Class
  }

  function GetNoHostMode(m: Mode): (r: Mode)
    requires IsHostMode(m)
  {
    if m == HostClass then Class else Root
  }

  function GetNoClassMode(m: Mode): (r: Mode)
    requires IsClassMode(m)
  {
    if m == HostClass then Host else Root
  }

  // ----- The steps -----

  datatype State = State(filters: Filters, cache: Option<Proxy>, mode: Mode)

  const INIT := State(NO_FILTERS, None, Root)

  /** What reading the selected objects gives, and leaves in the cache. */
  function Objects(s: State): (r: (State, Proxy)) {
    match s.cache
    case Some(p) => (s, p)
    case None =>
      var p := if s.filters.klass.None? then NoProxy else Proxy(s.filters);
      (s.(cache := Some(p)), p)
  }

  /** Entering a mode; class modes look at the objects to set up their commands. */
  function Enter(s: State, m: Mode): (r: State) {
    (if IsClassMode(m) then Objects(s).0 else s).(mode := m)
  }

  function WithFilters(s: State, f: Filters): (r: State) {
    s.(filters := f, cache := None)
  }

  datatype Command =
    | SelectHosts(hosts: seq<string>)
    | SelectClass(klass: string, package: string)
    | SelectProperty(name: string, value: string)
    | ClearAll
    | ClearHost
    | ClearClass
    | ClearProperties
    | UseObjects

  /** The commands a mode offers. A host selection names at least one host. */
  predicate Offered(m: Mode, c: Command) {
    match c
    case SelectHosts(hosts) => hosts != []
    case SelectProperty(_, _) => IsClassMode(m)
    case ClearHost => IsHostMode(m)
    case ClearClass => IsClassMode(m)
    case ClearProperties => IsClassMode(m)
    case _ => true
  }

  function Do(s: State, c: Command): (r: State)
    requires Offered(s.mode, c)
  {
    var f := s.filters;
    match c
    case SelectHosts(hosts) => Enter(WithFilters(s, f.(hosts := Some(hosts))), GetHostMode(s.mode))
    case SelectClass(klass, package) =>
      var g := f.(klass := Some(klass), package := Some(package), properties := map[]);
      Enter(WithFilters(s, g), GetClassMode(s.mode))
    case SelectProperty(name, value) => WithFilters(s, f.(properties := f.properties[name := value]))
    case ClearAll => Enter(WithFilters(s, NO_FILTERS), Root)
    case ClearHost => Enter(WithFilters(s, f.(hosts := None)), GetNoHostMode(s.mode))
    case ClearClass =>
      Enter(WithFilters(s, f.(klass := None, package := None, properties := map[])), GetNoClassMode(s.mode))
    case ClearProperties => WithFilters(s, f.(properties := map[]))
    case UseObjects => Objects(s).0
  }

  // ----- The console as it runs -----

  class Matahari {
    var filters: Filters
    var cache: Option<Proxy>

    constructor ()
      ensures filters == NO_FILTERS && cache == None
    {
      filters, cache := NO_FILTERS, None;
    }

    method SetHosts(hosts: Option<seq<string>>)
      modifies this
      ensures filters == old(filters).(hosts := hosts) && cache == None
    {
      filters := filters.(hosts := hosts);
      cache := None;
    }

    method SetClass(klass: Option<string>, package: Option<string>)
      modifies this
      ensures filters == old(filters).(klass := klass, package := package, properties := map[]) && cache == None
    {
      filters := filters.(klass := klass);
      filters := filters.(package := package);
      filters := filters.(properties := map[]);
      cache := None;
    }

    method SetPropertyFilter(name: string, value: string)
      modifies this
      ensures filters == old(filters).(properties := old(filters).properties[name := value]) && cache == None
    {
      filters := filters.(properties := filters.properties[name := value]);
      cache := None;
    }

    method ClearPropertyFilter()
      modifies this
      ensures filters == old(filters).(properties := map[]) && cache == None
    {
      filters := filters.(properties := map[]);
      cache := None;
    }

    method ClearState()
      modifies this
      ensures filters == NO_FILTERS && cache == None
    {
      ClearPropertyFilter();
      SetClass(None, None);
      SetHosts(None);
    }

    method GetObjects() returns (p: Proxy)
      modifies this
      ensures filters == old(filters) && cache == Some(p)
      ensures p == Objects(State(old(filters), old(cache), Root)).1
    {
      if cache == None {
        cache := Some(if filters.klass.None? then NoProxy else Proxy(filters));
      }
      p := cache.value;
    }
  }

  class Console {
    const state: Matahari
    var mode: Mode

    ghost function View(): (s: State)
      reads this, state
    {
      State(state.filters, state.cache, mode)
    }

    constructor ()
      ensures fresh(state) && View() == INIT
    {
      state := new Matahari();
      mode := Root;
    }

    method SetMode(m: Mode)
      modifies this, state
      ensures View() == Enter(old(View()), m)
    {
      if IsClassMode(m) {
        var _ := state.GetObjects();
      }
      mode := m;
    }

    method Run(c: Command)
      requires Offered(mode, c)
      modifies this, state
      ensures View() == Do(old(View()), c)
    {
      match c
      case SelectHosts(hosts) =>
        state.SetHosts(Some(hosts));
        SetMode(GetHostMode(mode));
      case SelectClass(klass, package) =>
        state.SetClass(Some(klass), Some(package));
        SetMode(GetClassMode(mode));
      case SelectProperty(name, value) =>
        state.SetPropertyFilter(name, value);
      case ClearAll =>
        state.ClearState();
        SetMode(Root);
      case ClearHost =>
        state.SetHosts(None);
        SetMode(GetNoHostMode(mode));
      case ClearClass =>
        state.SetClass(None, None);
        SetMode(GetNoClassMode(mode));
      case ClearProperties =>
        state.ClearPropertyFilter();
      case UseObjects =>
        var _ := state.GetObjects();
    }
  }

  // ----- Every session -----

  /** Mode, filters and cache agree. */
  ghost predicate Consistent(s: State) {
    && (IsHostMode(s.mode) <==> s.filters.hosts.Some?)
    && (IsClassMode(s.mode) <==> s.filters.klass.Some?)
    && (s.filters.klass.Some? <==> s.filters.package.Some?)
    && (s.filters.properties != map[] ==> s.filters.klass.Some?)
    && (s.cache.Some? ==> s.cache.value == if s.filters.klass.Some? then Proxy(s.filters) else NoProxy)
  }

  /** The states a session goes through, each command being one its mode offers. */
  ghost predicate Session(states: seq<State>, commands: seq<Command>) {
    && |states| == |commands| + 1
    && states[0] == INIT
    && forall i :: 0 <= i < |commands| ==>
         Offered(states[i].mode, commands[i]) && states[i + 1] == Do(states[i], commands[i])
  }

  /**
   In every session: the shell is in a host mode exactly when hosts are selected, in a class
   mode exactly when a class is; properties are filtered only with a class; and a cached proxy
   was built under exactly the filters now in force.
   */
  lemma {:induction false} SessionsAreConsistent(states: seq<State>, commands: seq<Command>, i: nat)
    requires Session(states, commands) && i < |states|
    ensures Consistent(states[i])
  {
    if i > 0 {
      SessionsAreConsistent(states, commands, i - 1);
      DoKeeps(states[i - 1], commands[i - 1]);
    }
  }

  lemma DoKeeps(s: State, c: Command)
    requires Consistent(s) && Offered(s.mode, c)
    ensures Consistent(Do(s, c))
  {
  }

  /** In every session: the objects used are those of the filters in force, never of earlier ones. */
  lemma ObjectsFollowFilters(states: seq<State>, commands: seq<Command>, i: nat)
    requires Session(states, commands) && i < |states|
    ensures var (s, p) := Objects(states[i]);
      && p == (if states[i].filters.klass.Some? then Proxy(states[i].filters) else NoProxy)
      && s.filters == states[i].filters && Objects(s) == (s, p)
  {
    SessionsAreConsistent(states, commands, i);
  }

  // ----- What is selected is what was selected last -----

  predicate TouchesHosts(c: Command) {
    c.SelectHosts? || c.ClearHost? || c.ClearAll?
  }

  predicate TouchesClass(c: Command) {
    c.SelectClass? || c.ClearClass? || c.ClearAll?
  }

  predicate TouchesProperty(name: string, c: Command) {
    (c.SelectProperty? && c.name == name) || c.ClearProperties? || TouchesClass(c)
  }

  /** Command `i` is the last of the first `n` that touches something, or there is none and `i` is -1. */
  ghost predicate LastTouch(commands: seq<Command>, n: nat, touches: Command -> bool, i: int) {
    && -1 <= i < n <= |commands|
    && (i >= 0 ==> touches(commands[i]))
    && forall j :: i < j < n ==> !touches(commands[j])
  }

  /** In every session: the hosts are those last selected, unless they were cleared since. */
  lemma {:induction false} HostsAreLastSelected(states: seq<State>, commands: seq<Command>, n: nat, i: int)
    requires Session(states, commands) && n < |states| && (n == 0 || LastTouch(commands, n, TouchesHosts, i))
    ensures states[n].filters.hosts ==
      if n > 0 && i >= 0 && commands[i].SelectHosts? then Some(commands[i].hosts) else None
  {
    if n > 0 {
      var s, c := states[n - 1], commands[n - 1];
      assert Offered(s.mode, c) && states[n] == Do(s, c);
      if i < n - 1 {
        HostsAreLastSelected(states, commands, n - 1, i);
      }
    }
  }

  /** In every session: class and package are those last selected, unless they were cleared since. */
  lemma {:induction false} ClassIsLastSelected(states: seq<State>, commands: seq<Command>, n: nat, i: int)
    requires Session(states, commands) && n < |states| && (n == 0 || LastTouch(commands, n, TouchesClass, i))
    ensures var f := states[n].filters;
      if n > 0 && i >= 0 && commands[i].SelectClass? then
        f.klass == Some(commands[i].klass) && f.package == Some(commands[i].package)
      else f.klass == None && f.package == None
  {
    if n > 0 {
      var s, c := states[n - 1], commands[n - 1];
      assert Offered(s.mode, c) && states[n] == Do(s, c);
      if i < n - 1 {
        ClassIsLastSelected(states, commands, n - 1, i);
      }
    }
  }

  /** In every session: a property has the value last selected for it, unless it or the class was cleared since. */
  lemma {:induction false} PropertyIsLastSelected(
    states: seq<State>, commands: seq<Command>, n: nat, i: int, name: string)
    requires Session(states, commands) && n < |states|
    requires n == 0 || LastTouch(commands, n, c => TouchesProperty(name, c), i)
    ensures var p := states[n].filters.properties;
      if n > 0 && i >= 0 && commands[i].SelectProperty? then name in p && p[name] == commands[i].value
      else name !in p
  {
    if n > 0 {
      var s, c := states[n - 1], commands[n - 1];
      assert Offered(s.mode, c) && states[n] == Do(s, c);
      if i < n - 1 {
        PropertyIsLastSelected(states, commands, n - 1, i, name);
      }
    }
  }

  /** In every session: a command that enters a class mode has looked the objects up. */
  lemma ClassModesLookUp(states: seq<State>, commands: seq<Command>, i: nat)
    requires Session(states, commands) && i < |commands| && IsClassMode(states[i + 1].mode)
    requires commands[i].SelectHosts? || commands[i].SelectClass? || commands[i].ClearHost?
    ensures states[i + 1].cache == Some(Proxy(states[i + 1].filters))
  {
    SessionsAreConsistent(states, commands, i);
    SessionsAreConsistent(states, commands, i + 1);
  }

  /** However two sessions got to the same filters, they are in the same mode and use the same objects. */
  lemma SameFiltersSameShell(
    a: seq<State>, commandsA: seq<Command>, i: nat, b: seq<State>, commandsB: seq<Command>, j: nat)
    requires Session(a, commandsA) && i < |a| && Session(b, commandsB) && j < |b|
    requires a[i].filters == b[j].filters
    ensures a[i].mode == b[j].mode && Objects(a[i]) == Objects(b[j])
  {
    SessionsAreConsistent(a, commandsA, i);
    SessionsAreConsistent(b, commandsB, j);
  }

  /** From anywhere in a session, clearing what is selected, in either order, leads back to the start. */
  lemma ClearingUndoes(states: seq<State>, commands: seq<Command>, i: nat)
    requires Session(states, commands) && i < |states|
    ensures var s := states[i];
      && Do(s, ClearAll) == INIT
      && (s.mode == Host ==> Do(s, ClearHost) == INIT)
      && (s.mode == Class ==> Do(s, ClearClass) == INIT)
      && (s.mode == HostClass ==>
            && Offered(Do(s, ClearClass).mode, ClearHost) && Do(Do(s, ClearClass), ClearHost) == INIT
            && Offered(Do(s, ClearHost).mode, ClearClass) && Do(Do(s, ClearHost), ClearClass) == INIT)
  {
    SessionsAreConsistent(states, commands, i);
  }

  // ----- When the backend fails -----

  /** The mode a selection leads to. */
  function Target(m: Mode, c: Command): (r: Mode)
    requires Offered(m, c)
  {
    match c
    case SelectHosts(_) => GetHostMode(m)
    case SelectClass(_, _) => GetClassMode(m)
    case ClearAll => Root
    case ClearHost => GetNoHostMode(m)
    case ClearClass => GetNoClassMode(m)
    case _ => m
  }

  /** The filters are changed first; if looking up the objects then fails, the new mode is not entered. */
  function DoFailing(s: State, c: Command): (r: State)
    requires Offered(s.mode, c)
  {
    State(Do(s, c).filters, None, s.mode)
  }

  /** A command whose lookup fails keeps mode and filters together exactly if it leads to no other mode. */
  lemma FailedLookupKeepsMode(s: State, c: Command)
    requires Consistent(s) && Offered(s.mode, c) && IsClassMode(Target(s.mode, c))
    ensures Do(s, c).mode == Target(s.mode, c)
    ensures Consistent(DoFailing(s, c)) <==> Target(s.mode, c) == s.mode
  {
  }

  /** Selecting a class in the initial shell: if the lookup fails, the class stays selected in the root mode. */
  lemma FailedLookupInput(klass: string, package: string)
    ensures var s := DoFailing(INIT, SelectClass(klass, package));
      s.mode == Root && s.filters.klass == Some(klass) && !Consistent(s)
  {
  }
}
