/** The gateway's registry of kernels by name. Dialling a kernel takes a while, so a name may pass to
    another kernel before a dial fails. */
module Registry {
  import opened Wrappers

  type KernelId = nat

  const MAX_NAME_LENGTH := 64

  predicate NameChar(c: char) {
    'A' <= c <= 'Z' || 'a' <= c <= 'z' || '0' <= c <= '9' || c == '.' || c == '_' || c == '-'
  }

  predicate ValidName(name: string) {
    0 < |name| <= MAX_NAME_LENGTH && forall i :: 0 <= i < |name| ==> NameChar(name[i])
  }

  /** Kernels are numbered in order of creation; `created` holds their names. */
  datatype State = State(kernels: map<string, KernelId>, created: seq<string>, dialling: set<KernelId>,
                         shuttingDown: set<KernelId>, failed: set<KernelId>)

  function Start(): State { State(map[], [], {}, {}, {}) }

  datatype Event =
    | Connect(name: string)
    | DialSucceeds(id: KernelId)
    | DialFails(id: KernelId)
    | Disconnect(name: string)
    | Shutdown

  predicate Enabled(s: State, e: Event) {
    match e
    case DialSucceeds(id) => id in s.dialling && id < |s.created|
    case DialFails(id) => id in s.dialling && id < |s.created|
    case _ => true
  }

  function ReleaseName(kernels: map<string, KernelId>, name: string, id: KernelId): map<string, KernelId> {
    if name in kernels && kernels[name] == id then kernels - {name} else kernels
  }

  function Step(s: State, e: Event): State
    requires Enabled(s, e)
  {
    match e
    case Connect(name) =>
      if !ValidName(name) || name in s.kernels then s
      else s.(kernels := s.kernels[name := |s.created|], created := s.created + [name],
              dialling := s.dialling + {|s.created|})
    case DialSucceeds(id) => s.(dialling := s.dialling - {id})
    case DialFails(id) =>
      s.(dialling := s.dialling - {id}, failed := s.failed + {id},
         kernels := ReleaseName(s.kernels, s.created[id], id))
    case Disconnect(name) =>
      if name !in s.kernels then s
      else s.(kernels := s.kernels - {name}, shuttingDown := s.shuttingDown + {s.kernels[name]})
    case Shutdown => s.(kernels := map[], shuttingDown := s.shuttingDown + s.kernels.Values)
  }

  // ---- Invariant -----------------------------------------------------------------------------

  predicate Reachable(s: State, id: KernelId) {
    id < |s.created| && s.created[id] in s.kernels && s.kernels[s.created[id]] == id
  }

  predicate Dead(s: State, id: KernelId) { id in s.shuttingDown || id in s.failed }

  ghost predicate EntryInv(s: State, name: string)
    requires name in s.kernels
  {
    var id := s.kernels[name];
    id < |s.created| && s.created[id] == name && ValidName(name)
  }

  /** Each key is its kernel's name, and the kernels in the map are exactly those that are neither
      shutting down nor failed. */
  ghost predicate Inv(s: State) {
    && (forall name :: name in s.kernels ==> EntryInv(s, name))
    && (forall id: KernelId :: id < |s.created| ==> (Reachable(s, id) <==> !Dead(s, id)))
    && (forall id :: id in s.dialling || id in s.shuttingDown || id in s.failed ==> id < |s.created|)
  }

  lemma {:induction false} ConnectKeeps(s: State, name: string)
    requires Inv(s)
    ensures Inv(Step(s, Connect(name)))
  {
    var t := Step(s, Connect(name));
    forall id: KernelId | id < |t.created| ensures Reachable(t, id) <==> !Dead(t, id) {
      assert id < |s.created| ==> (Reachable(s, id) <==> !Dead(s, id));
    }
  }

  lemma {:induction false} DialKeeps(s: State, e: Event)
    requires Inv(s) && Enabled(s, e) && (e.DialSucceeds? || e.DialFails?)
    ensures Inv(Step(s, e))
  {
    var t := Step(s, e);
    forall id: KernelId | id < |t.created| ensures Reachable(t, id) <==> !Dead(t, id) {
      assert Reachable(s, id) <==> !Dead(s, id);
    }
  }

  lemma {:induction false} RemovalKeeps(s: State, e: Event)
    requires Inv(s) && (e.Disconnect? || e.Shutdown?)
    ensures Inv(Step(s, e))
  {
    var t := Step(s, e);
    forall id: KernelId | id < |t.created| ensures Reachable(t, id) <==> !Dead(t, id) {
      assert Reachable(s, id) <==> !Dead(s, id);
    }
  }

  lemma {:induction false} StepKeeps(s: State, e: Event)
    requires Inv(s) && Enabled(s, e)
    ensures Inv(Step(s, e))
  {
    match e
    case Connect(name) => ConnectKeeps(s, name);
    case DialSucceeds(_) => DialKeeps(s, e);
    case DialFails(_) => DialKeeps(s, e);
    case _ => RemovalKeeps(s, e);
  }

  // ---- Runs ----------------------------------------------------------------------------------

  ghost predicate IsRun(states: seq<State>, events: seq<Event>) {
    && |states| == |events| + 1 && states[0] == Start()
    && forall i :: 0 <= i < |events| ==> StepAt(states, events, i)
  }

  ghost predicate StepAt(states: seq<State>, events: seq<Event>, i: nat)
    requires |states| == |events| + 1 && i < |events|
  {
    Enabled(states[i], events[i]) && states[i + 1] == Step(states[i], events[i])
  }

  lemma {:induction false} RunKeepsInvariant(states: seq<State>, events: seq<Event>, i: nat)
    requires IsRun(states, events) && i < |states|
    ensures Inv(states[i])
  {
    if i > 0 {
      assert StepAt(states, events, i - 1);
      RunKeepsInvariant(states, events, i - 1);
      StepKeeps(states[i - 1], events[i - 1]);
    }
  }

  /** In every interleaving each entry is filed under its kernel's name, and a kernel ever created is
      found under its name exactly while it is neither shutting down nor failed: none is stranded
      outside the map with its socket open, and no dead one is handed out. */
  lemma {:induction false} NoKernelIsStranded(states: seq<State>, events: seq<Event>, i: nat, id: KernelId)
    requires IsRun(states, events) && i < |states| && id < |states[i].created|
    ensures var s := states[i];
            && (Reachable(s, id) <==> id !in s.shuttingDown && id !in s.failed)
            && (forall name :: name in s.kernels && s.kernels[name] == id ==> s.created[id] == name)
  {
    RunKeepsInvariant(states, events, i);
  }

  /** Only its own end takes a kernel out of the map. */
  predicate Ends(e: Event, name: string, id: KernelId) {
    e == Disconnect(name) || e == Shutdown || e == DialFails(id)
  }

  ghost predicate Holds(s: State, name: string, id: KernelId) { name in s.kernels && s.kernels[name] == id }

  lemma {:induction false} StepEndsIff(s: State, e: Event, name: string, id: KernelId)
    requires Inv(s) && Enabled(s, e) && id < |s.created|
    ensures Holds(Step(s, e), name, id) <==> Holds(s, name, id) && !Ends(e, name, id)
    ensures s.created <= Step(s, e).created
  {
  }

  /** A kernel keeps its name exactly until it is disconnected, everything is shut down, or its own dial
      fails; in particular the late failure of an earlier holder of the name does not evict it. */
  lemma {:induction false} NameIsKeptIff(states: seq<State>, events: seq<Event>, i: nat, j: nat, name: string)
    requires IsRun(states, events) && i <= j < |states| && name in states[i].kernels
    ensures Holds(states[j], name, states[i].kernels[name])
            <==> forall m :: i <= m < j ==> !Ends(events[m], name, states[i].kernels[name])
  {
    if i < j {
      NameIsKeptIff(states, events, i, j - 1, name);
      assert StepAt(states, events, j - 1);
      RunKeepsInvariant(states, events, i);
      RunKeepsInvariant(states, events, j - 1);
      RunCreatesMore(states, events, i, j - 1);
      StepEndsIff(states[j - 1], events[j - 1], name, states[i].kernels[name]);
    }
  }

  lemma {:induction false} RunCreatesMore(states: seq<State>, events: seq<Event>, i: nat, j: nat)
    requires IsRun(states, events) && i <= j < |states|
    ensures |states[i].created| <= |states[j].created|
  {
    if i < j {
      RunCreatesMore(states, events, i, j - 1);
      assert StepAt(states, events, j - 1);
    }
  }

  lemma {:induction false} StepDials(s: State, e: Event, id: KernelId)
    requires Enabled(s, e) && id < |Step(s, e).created|
    ensures id in Step(s, e).dialling
            <==> id >= |s.created| || (id in s.dialling && e != DialSucceeds(id) && e != DialFails(id))
    ensures id in Step(s, e).failed <==> id in s.failed || e == DialFails(id)
  {
  }

  /** In every run a kernel is being dialled exactly until its dial has succeeded or failed, and has
      failed exactly when its dial has. */
  lemma {:induction false} DialledIff(states: seq<State>, events: seq<Event>, i: nat, id: KernelId)
    requires IsRun(states, events) && i < |states| && id < |states[i].created|
    ensures id in states[i].dialling
            <==> forall m :: 0 <= m < i ==> events[m] != DialSucceeds(id) && events[m] != DialFails(id)
    ensures id in states[i].failed <==> exists m :: 0 <= m < i && events[m] == DialFails(id)
  {
    assert i > 0 && StepAt(states, events, i - 1);
    StepDials(states[i - 1], events[i - 1], id);
    if id < |states[i - 1].created| {
      DialledIff(states, events, i - 1, id);
    } else {
      RunKeepsInvariant(states, events, i - 1);
      forall m | 0 <= m < i ensures events[m] != DialSucceeds(id) && events[m] != DialFails(id) {
        assert StepAt(states, events, m);
        RunCreatesMore(states, events, m, i - 1);
      }
    }
  }

  /** The end of the kernel holding a name frees the name. */
  lemma {:induction false} EndFreesName(s: State, e: Event, name: string)
    requires Inv(s) && name in s.kernels && Enabled(s, e) && Ends(e, name, s.kernels[name])
    ensures name !in Step(s, e).kernels && Dead(Step(s, e), s.kernels[name])
  {
  }

  // ---- The registry object -------------------------------------------------------------------

  datatype RegistryError = InvalidName | NameInUse | NotFound | NoneConnected | Ambiguous

  class KernelRegistry {
    var kernels: map<string, KernelId>
    var created: seq<string>
    var dialling: set<KernelId>
    var shuttingDown: set<KernelId>
    var failed: set<KernelId>

    ghost function View(): State
      reads this
    {
      State(kernels, created, dialling, shuttingDown, failed)
    }

    constructor ()
      ensures View() == Start()
    {
      kernels, created, dialling, shuttingDown, failed := map[], [], {}, {}, {};
    }

    /** The call up to its await: the name is taken before the dial starts. */
    method ConnectTo(name: string) returns (r: Result<KernelId, RegistryError>)
      modifies this
      ensures View() == Step(old(View()), Connect(name))
      ensures r == if !ValidName(name) then Err(InvalidName) else if name in old(kernels) then Err(NameInUse)
                   else Ok(|old(created)|)
      ensures r == Err(InvalidName)
              <==> !(1 <= |name| <= 64 &&
                     forall i :: 0 <= i < |name| ==>
                       || 'A' <= name[i] <= 'Z' || 'a' <= name[i] <= 'z' || '0' <= name[i] <= '9'
                       || name[i] == '.' || name[i] == '_' || name[i] == '-')
      ensures r.Ok? ==> Reachable(View(), r.value)
    {
      if !ValidName(name) {
        return Err(InvalidName);
      }
      if name in kernels {
        return Err(NameInUse);
      }
      var id := |created|;
      created := created + [name];
      dialling := dialling + {id};
      kernels := kernels[name := id];
      return Ok(id);
    }

    /** The call after its await. */
    method DialEnded(id: KernelId, ok: bool)
      requires id in dialling && id < |created|
      modifies this
      ensures View() == Step(old(View()), if ok then DialSucceeds(id) else DialFails(id))
    {
      dialling := dialling - {id};
      if !ok {
        failed := failed + {id};
        Release(created[id], id);
      }
    }

    method Release(name: string, id: KernelId)
      modifies `kernels
      ensures kernels == ReleaseName(old(kernels), name, id)
    {
      if name in kernels && kernels[name] == id {
        kernels := kernels - {name};
      }
    }

    method DisconnectFrom(name: string) returns (r: Result<KernelId, RegistryError>)
      modifies this
      ensures View() == Step(old(View()), Disconnect(name))
      ensures r == if name in old(kernels) then Ok(old(kernels)[name]) else Err(NotFound)
    {
      if name !in kernels {
        return Err(NotFound);
      }
      var id := kernels[name];
      Release(name, id);
      shuttingDown := shuttingDown + {id};
      return Ok(id);
    }

    method ShutdownAll()
      modifies this
      ensures View() == Step(old(View()), Shutdown)
    {
      var all := kernels.Values;
      kernels := map[];
      shuttingDown := shuttingDown + all;
    }

    /** By name, or without one the only kernel there is; never one that is shutting down or failed. */
    method Resolve(name: Option<string>) returns (r: Result<KernelId, RegistryError>)
      requires Inv(View())
      ensures r.Ok? ==> Reachable(View(), r.value) && !Dead(View(), r.value)
      ensures name.Some? ==> r == if name.value in kernels then Ok(kernels[name.value]) else Err(NotFound)
      ensures name.None? ==>
                && (r.Ok? <==> |kernels| == 1) && (r == Err(NoneConnected) <==> kernels == map[])
                && (r == Err(Ambiguous) <==> |kernels| > 1)
      ensures name.None? && r.Ok? ==> forall id: KernelId :: id < |created| && !Dead(View(), id) ==> id == r.value
    {
      if name.Some? {
        if name.value !in kernels {
          return Err(NotFound);
        }
        return Ok(kernels[name.value]);
      }
      if |kernels| == 0 {
        return Err(NoneConnected);
      }
      if |kernels| > 1 {
        return Err(Ambiguous);
      }
      var only :| only in kernels.Keys;
      OnlyOne(kernels.Keys, only);
      return Ok(kernels[only]);
    }
  }

  lemma {:induction false} OnlyOne(names: set<string>, only: string)
    requires |names| == 1 && only in names
    ensures names == {only}
  {
    assert |names - {only}| == 0;
  }
}
