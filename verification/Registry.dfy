/** The registry of Client::Impl (src/in_process_server.cpp) with the version specifiers
    (src/version_specifier.cpp): which globals the client knows of, and what
    bind_if_supported makes of them. */
module Registry {
  import opened Common

  // ------------------------------------------------------------------- versions

  datatype Specifier = Exactly(version: nat) | AtLeast(version: nat) | AtMost(version: nat)

  predicate Satisfies(spec: Specifier, v: nat) {
    match spec
    case Exactly(version) => v == version
    case AtLeast(version) => v >= version
    case AtMost(version) => v <= version
  }

  datatype Selection = Selected(version: nat) | Unavailable | LogicError

  /** select_version of the three specifiers: the logic_error it throws is a value here. */
  function Select(spec: Specifier, available: nat, supported: nat): Selection {
    match spec
    case Exactly(version) =>
      if version > supported then LogicError
      else if version > available then Unavailable
      else Selected(version)
    case AtLeast(version) =>
      if version > supported then LogicError
      else if version > available then Unavailable
      else Selected(Min(available, supported))
    case AtMost(version) => Selected(Min(version, Min(available, supported)))
  }

  /** A version that may be bound. */
  predicate Bindable(spec: Specifier, available: nat, supported: nat, v: nat) {
    Satisfies(spec, v) && v <= available && v <= supported
  }

  /** The reference: select the greatest version that satisfies the specifier and that both
      sides have; say that there is none, and throw if that lies with WLCS alone. */
  lemma SelectIsGreatestBindable(spec: Specifier, available: nat, supported: nat)
    ensures match Select(spec, available, supported)
            case Selected(v) =>
              && Bindable(spec, available, supported, v)
              && forall u: nat :: Bindable(spec, available, supported, u) ==> u <= v
            case Unavailable =>
              && (forall u: nat :: !Bindable(spec, available, supported, u))
              && exists u: nat :: Satisfies(spec, u) && u <= supported
            case LogicError => forall u: nat :: Satisfies(spec, u) ==> u > supported
  {
    if Select(spec, available, supported).Unavailable? {
      assert Satisfies(spec, spec.version) && spec.version <= supported;
    }
  }

  // -------------------------------------------------------------------- globals

  datatype Global = Global(id: nat, version: nat)

  datatype Event = Announce(id: nat, interface: string, version: nat) | Remove(id: nat)

  datatype State = State(globals: map<string, Global>, names: map<nat, string>)

  function Step(s: State, e: Event): State {
    match e
    case Announce(id, interface, version) =>
      State(s.globals[interface := Global(id, version)], s.names[id := interface])
    case Remove(id) =>
      if id in s.names then State(s.globals - {s.names[id]}, s.names - {id}) else s
  }

  function Run(es: seq<Event>): State {
    if es == [] then State(map[], map[]) else Step(Run(es[..|es| - 1]), es[|es| - 1])
  }

  /** The compositor's side: the globals that exist, by id. */
  datatype Advert = Advert(interface: string, version: nat)

  function Live(es: seq<Event>): map<nat, Advert> {
    if es == [] then map[]
    else
      var before := Live(es[..|es| - 1]);
      match es[|es| - 1]
      case Announce(id, interface, version) => before[id := Advert(interface, version)]
      case Remove(id) => before - {id}
  }

  /** The compositor reuses an id only after it has removed the global. */
  predicate Fresh(es: seq<Event>) {
    es != [] ==>
      var front, e := es[..|es| - 1], es[|es| - 1];
      Fresh(front) && (e.Announce? ==> e.id !in Live(front))
  }

  /** The reference for one interface: the last announcement, unless a global of that
      interface has been removed since. */
  function Latest(es: seq<Event>, interface: string): Option<Global> {
    if es == [] then None
    else
      var front, e := es[..|es| - 1], es[|es| - 1];
      match e
      case Announce(id, i, version) => if i == interface then Some(Global(id, version)) else Latest(front, interface)
      case Remove(id) =>
        var live := Live(front);
        if id in live && live[id].interface == interface then None else Latest(front, interface)
  }

  lemma {:induction false} NamesAreLive(es: seq<Event>)
    ensures Run(es).names.Keys == Live(es).Keys
    ensures forall id :: id in Live(es) ==> Run(es).names[id] == Live(es)[id].interface
  {
    if es != [] {
      NamesAreLive(es[..|es| - 1]);
    }
  }

  /** For every event sequence the client knows of an interface exactly the reference's
      global: none at all after any removal, even if others of that interface exist. */
  lemma {:induction false} GlobalsAreLatest(es: seq<Event>, interface: string)
    ensures var s := Run(es);
            Latest(es, interface) == if interface in s.globals then Some(s.globals[interface]) else None
  {
    if es != [] {
      GlobalsAreLatest(es[..|es| - 1], interface);
      NamesAreLive(es[..|es| - 1]);
    }
  }

  /** Since the last announcement of the interface its id was announced for another one. A
      removal of a live global of the interface ends that, with the entry itself. */
  predicate Hijacked(es: seq<Event>, interface: string) {
    es != [] &&
    var front, e := es[..|es| - 1], es[|es| - 1];
    match e
    case Announce(id, i, _) =>
      i != interface &&
      (Hijacked(front, interface) || (Latest(front, interface).Some? && Latest(front, interface).value.id == id))
    case Remove(id) =>
      Hijacked(front, interface) && !(id in Live(front) && Live(front)[id].interface == interface)
  }

  /** The global that the reference knows for the interface exists as it was announced. */
  predicate LatestIsLive(es: seq<Event>, interface: string) {
    var g := Latest(es, interface);
    g.Some? ==> g.value.id in Live(es) && Live(es)[g.value.id] == Advert(interface, g.value.version)
  }

  lemma {:induction false} StaleIffHijacked(es: seq<Event>, interface: string)
    ensures Latest(es, interface).None? ==> !Hijacked(es, interface)
    ensures LatestIsLive(es, interface) <==> !Hijacked(es, interface)
    ensures Hijacked(es, interface) ==>
              var id := Latest(es, interface).value.id; id in Live(es) ==> Live(es)[id].interface != interface
  {
    if es != [] {
      StaleIffHijacked(es[..|es| - 1], interface);
    }
  }

  /** For every event sequence, ids fresh or not: an entry of `globals` names a live global of
      that very interface and version exactly if its id was not announced for another one. */
  lemma {:induction false} GlobalsAreLiveIff(es: seq<Event>, interface: string)
    requires interface in Run(es).globals
    ensures var g := Run(es).globals[interface];
            g.id in Live(es) && Live(es)[g.id] == Advert(interface, g.version) <==> !Hijacked(es, interface)
  {
    GlobalsAreLatest(es, interface);
    StaleIffHijacked(es, interface);
  }

  lemma {:induction false} FreshIsNotHijacked(es: seq<Event>, interface: string)
    requires Fresh(es)
    ensures !Hijacked(es, interface)
  {
    if es != [] {
      FreshIsNotHijacked(es[..|es| - 1], interface);
      StaleIffHijacked(es[..|es| - 1], interface);
    }
  }

  /** So with ids fresh while live every entry names a live global. */
  lemma {:induction false} GlobalsAreLive(es: seq<Event>)
    requires Fresh(es)
    ensures forall i :: i in Run(es).globals ==>
              var g := Run(es).globals[i]; g.id in Live(es) && Live(es)[g.id] == Advert(i, g.version)
  {
    forall i | i in Run(es).globals
      ensures var g := Run(es).globals[i]; g.id in Live(es) && Live(es)[g.id] == Advert(i, g.version)
    {
      FreshIsNotHijacked(es, i);
      GlobalsAreLiveIff(es, i);
    }
  }

  /** Without that an entry may be stale: id 1 is announced again as another interface. */
  lemma ReusedIdMakesStaleEntry()
    ensures var es := [Announce(1, "a", 1), Announce(1, "b", 1)];
            !Fresh(es) && "a" in Run(es).globals && Live(es)[1].interface != "a"
  {
  }

  /** Announced again as the same interface it does not: the new announcement replaces the old. */
  lemma ReannouncedIdIsLive()
    ensures var es := [Announce(1, "a", 1), Announce(1, "a", 2)];
            !Fresh(es) && !Hijacked(es, "a") && "a" in Run(es).globals
  {
  }

  /** A live global of the interface was removed since its last announcement. */
  predicate RemovedSince(es: seq<Event>, interface: string) {
    es != [] &&
    var front, e := es[..|es| - 1], es[|es| - 1];
    match e
    case Announce(_, i, _) => i != interface && RemovedSince(front, interface)
    case Remove(id) =>
      RemovedSince(front, interface) || (id in Live(front) && Live(front)[id].interface == interface)
  }

  predicate HasLive(es: seq<Event>, interface: string) {
    exists id :: id in Live(es) && Live(es)[id].interface == interface
  }

  lemma {:induction false} LatestUnlessRemoved(es: seq<Event>, interface: string)
    ensures HasLive(es, interface) || Latest(es, interface).Some? ==>
              (Latest(es, interface).Some? <==> !RemovedSince(es, interface))
  {
    if es != [] {
      var front, e := es[..|es| - 1], es[|es| - 1];
      LatestUnlessRemoved(front, interface);
      if HasLive(es, interface) && !(e.Announce? && e.interface == interface) {
        var id :| id in Live(es) && Live(es)[id].interface == interface;
        assert id in Live(front) && Live(front)[id].interface == interface;
      }
    }
  }

  /** For every event sequence: an interface with a live global is known exactly if none of its
      globals was removed since the last announcement. */
  lemma {:induction false} KnownIff(es: seq<Event>, interface: string)
    requires HasLive(es, interface)
    ensures interface in Run(es).globals <==> !RemovedSince(es, interface)
  {
    GlobalsAreLatest(es, interface);
    LatestUnlessRemoved(es, interface);
  }

  /** So the removal of one of two outputs hides the other. */
  lemma RemovalHidesOtherGlobal()
    ensures var es := [Announce(1, "wl_output", 3), Announce(2, "wl_output", 3), Remove(1)];
            && Fresh(es) && RemovedSince(es, "wl_output")
            && 2 in Live(es) && Live(es)[2].interface == "wl_output"
            && "wl_output" !in Run(es).globals
  {
    var one := [Announce(1, "wl_output", 3)];
    var two := one + [Announce(2, "wl_output", 3)];
    var es := two + [Remove(1)];
    assert one[..0] == [] && two[..1] == one && es[..2] == two;
    assert Fresh(one) && Live(one).Keys == {1};
    assert Fresh(two) && Live(two).Keys == {1, 2};
    GlobalsAreLatest(es, "wl_output");
    assert es == [Announce(1, "wl_output", 3), Announce(2, "wl_output", 3), Remove(1)];
  }

  // -------------------------------------------------------------------- binding

  datatype Outcome =
    | Bound(id: nat, version: nat)
    | ExpectedlyNotSupported
    | FailedToBind
    | Misused              // logic_error from the specifier

  /** The integration lists what it supports, and the interface as specified is not in it. */
  ghost predicate Unlisted(listed: Option<map<string, nat>>, name: string, version: nat, spec: Specifier) {
    && listed.Some?
    && (name !in listed.value ||
        forall u: nat :: Satisfies(spec, u) ==> u > listed.value[name] || u > version)
  }

  class Client {
    var globals: map<string, Global>
    var globalTypeNames: map<nat, string>
    const supportedExtensions: Option<map<string, nat>>

    function View(): State
      reads this
    {
      State(globals, globalTypeNames)
    }

    constructor (supported: Option<map<string, nat>>)
      ensures View() == Run([]) && supportedExtensions == supported
    {
      globals, globalTypeNames, supportedExtensions := map[], map[], supported;
    }

    method OnGlobal(id: nat, interface: string, version: nat)
      modifies this
      ensures View() == Step(old(View()), Announce(id, interface, version))
    {
      globalTypeNames := globalTypeNames[id := interface];
      globals := globals[interface := Global(id, version)];
    }

    method OnGlobalRemoved(id: nat)
      modifies this
      ensures View() == Step(old(View()), Remove(id))
    {
      if id in globalTypeNames {
        globals := globals - {globalTypeNames[id]};
        globalTypeNames := globalTypeNames - {id};
      }
    }

    /** `name` and `version` are those of the interface as WLCS knows it. The bind request
        itself succeeds. */
    method BindIfSupported(name: string, version: nat, spec: Specifier) returns (r: Outcome)
      ensures r.Bound? <==>
                name in globals && exists u: nat :: Bindable(spec, globals[name].version, version, u)
      ensures r.Bound? ==>
                && r.id == globals[name].id
                && Select(spec, globals[name].version, version) == Selected(r.version)
                && Bindable(spec, globals[name].version, version, r.version)
                && forall u: nat :: Bindable(spec, globals[name].version, version, u) ==> u <= r.version
      ensures r.Misused? <==>
                && (forall u: nat :: Satisfies(spec, u) ==> u > version)
                && (name in globals || (supportedExtensions.Some? && name in supportedExtensions.value))
      ensures r.ExpectedlyNotSupported? <==>
                !r.Bound? && !r.Misused? && Unlisted(supportedExtensions, name, version, spec)
      ensures r.FailedToBind? <==>
                !r.Bound? && !r.Misused? && !Unlisted(supportedExtensions, name, version, spec)
    {
      var expected: Option<bool> := None;
      if supportedExtensions.Some? {
        if name in supportedExtensions.value {
          var selection := Select(spec, supportedExtensions.value[name], version);
          SelectIsGreatestBindable(spec, supportedExtensions.value[name], version);
          if selection.LogicError? {
            return Misused;
          }
          expected := Some(selection.Selected?);
        } else {
          expected := Some(false);
        }
      }
      if name in globals {
        var selection := Select(spec, globals[name].version, version);
        SelectIsGreatestBindable(spec, globals[name].version, version);
        if selection.LogicError? {
          return Misused;
        }
        if selection.Selected? {
          return Bound(globals[name].id, selection.version);
        } else if expected == Some(false) {
          return ExpectedlyNotSupported;
        }
        return FailedToBind;
      } else if expected == Some(false) {
        return ExpectedlyNotSupported;
      }
      return FailedToBind;
    }
  }

  /** Over every run a normal return binds a version that satisfies the specifier and exceeds
      neither the advertised nor the WLCS version, and no bindable version is greater; and what
      it binds is a live global of the interface asked for exactly if the entry is not hijacked,
      as it never is while the compositor keeps ids fresh. */
  lemma {:induction false} BindingIsSound(es: seq<Event>, name: string, supported: nat, spec: Specifier)
    requires name in Run(es).globals
    requires Select(spec, Run(es).globals[name].version, supported).Selected?
    ensures var g := Run(es).globals[name];
            var v := Select(spec, g.version, supported).version;
            && Latest(es, name) == Some(g)
            && Satisfies(spec, v) && v <= g.version && v <= supported
            && (forall u: nat :: Bindable(spec, g.version, supported, u) ==> u <= v)
            && (g.id in Live(es) && Live(es)[g.id] == Advert(name, g.version) <==> !Hijacked(es, name))
            && (Fresh(es) ==> !Hijacked(es, name))
  {
    GlobalsAreLiveIff(es, name);
    if Fresh(es) {
      FreshIsNotHijacked(es, name);
    }
    GlobalsAreLatest(es, name);
    SelectIsGreatestBindable(spec, Run(es).globals[name].version, supported);
  }
}
