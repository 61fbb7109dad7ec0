/** The registry of tunnels and the manager's task table, under creates and destroys that come one at a time. */
module TunnelManager {
  import opened Bytes
  import opened TunnelHandles
  import opened TunnelLifecycle

  /** How the exchange with the helper ends: no answer (serialize, send or receive fails), an error, an unexpected
      message, an answer without a descriptor, a descriptor that makes no TAP device, or a usable one. */
  datatype Exchange = NoAnswer | HelperError | Unexpected | NoFd | NoDevice | Tap

  /** After these the entry made before the exchange is still in the registry, but no task serves it. */
  predicate Strands(x: Exchange) {
    x == NoAnswer || x == NoDevice
  }

  datatype Op = Create(key: DemuxKey, exchange: Exchange) | Destroy(id: u16)

  /** The registered keys and the tunnel ids that have tasks. */
  datatype View = View(keys: set<DemuxKey>, tasks: set<u16>)

  function KeysOf(keys: set<DemuxKey>, id: u16): set<DemuxKey> {
    set k | k in keys && k.tunnelId == id
  }

  predicate Has(v: View, id: u16) {
    KeysOf(v.keys, id) != {}
  }

  function Apply(v: View, op: Op): View {
    match op
    case Create(key, exchange) =>
      if Has(v, key.tunnelId) then v
      else if exchange == Tap then View(v.keys + {key}, v.tasks + {key.tunnelId})
      else if Strands(exchange) then v.(keys := v.keys + {key})
      else v
    case Destroy(id) => View(v.keys - KeysOf(v.keys, id), v.tasks - {id})
  }

  predicate OneKeyPerId(keys: set<DemuxKey>) {
    forall j, k :: j in keys && k in keys && j.tunnelId == k.tunnelId ==> j == k
  }

  /** An id is registered exactly if it has tasks or is one of the stranded ones. */
  ghost predicate Matches(v: View, stranded: set<u16>) {
    && OneKeyPerId(v.keys) && v.tasks !! stranded
    && forall id: u16 :: Has(v, id) <==> id in v.tasks || id in stranded
  }

  /** Which ids are stranded, recounted from the operations. */
  function StrandedAfter(stranded: set<u16>, isNew: bool, op: Op): set<u16> {
    match op
    case Create(key, exchange) => if isNew && Strands(exchange) then stranded + {key.tunnelId} else stranded
    case Destroy(id) => stranded - {id}
  }

  lemma KeysOfAdded(keys: set<DemuxKey>, key: DemuxKey, id: u16)
    ensures KeysOf(keys + {key}, id) == if key.tunnelId == id then KeysOf(keys, id) + {key} else KeysOf(keys, id)
  {
  }

  lemma KeysOfRemoved(keys: set<DemuxKey>, gone: u16, id: u16)
    ensures KeysOf(keys - KeysOf(keys, gone), id) == if gone == id then {} else KeysOf(keys, id)
  {
  }

  lemma CreateMatches(v: View, stranded: set<u16>, key: DemuxKey, exchange: Exchange)
    requires Matches(v, stranded) && !Has(v, key.tunnelId) && (exchange == Tap || Strands(exchange))
    ensures Matches(Apply(v, Create(key, exchange)), StrandedAfter(stranded, true, Create(key, exchange)))
  {
    var v' := Apply(v, Create(key, exchange));
    assert forall k :: k in v.keys && k.tunnelId == key.tunnelId ==> k in KeysOf(v.keys, key.tunnelId);
    forall id: u16
      ensures Has(v', id) <==> Has(v, id) || id == key.tunnelId
    {
      KeysOfAdded(v.keys, key, id);
    }
  }

  lemma DestroyMatches(v: View, stranded: set<u16>, gone: u16)
    requires Matches(v, stranded)
    ensures Matches(Apply(v, Destroy(gone)), stranded - {gone})
  {
    var v' := Apply(v, Destroy(gone));
    forall id: u16
      ensures Has(v', id) <==> Has(v, id) && id != gone
    {
      KeysOfRemoved(v.keys, gone, id);
    }
  }

  lemma ApplyMatches(v: View, stranded: set<u16>, op: Op)
    requires Matches(v, stranded)
    ensures Matches(Apply(v, op), StrandedAfter(stranded, op.Create? && !Has(v, op.key.tunnelId), op))
  {
    match op
    case Create(key, exchange) =>
      if !Has(v, key.tunnelId) && (exchange == Tap || Strands(exchange)) {
        CreateMatches(v, stranded, key, exchange);
      }
    case Destroy(id) =>
      DestroyMatches(v, stranded, id);
  }

  function Run(v: View, ops: seq<Op>): View
    decreases |ops|
  {
    if ops == [] then v else Run(Apply(v, ops[0]), ops[1..])
  }

  function Stranded(v: View, stranded: set<u16>, ops: seq<Op>): set<u16>
    decreases |ops|
  {
    if ops == [] then stranded
    else
      var isNew := ops[0].Create? && !Has(v, ops[0].key.tunnelId);
      Stranded(Apply(v, ops[0]), StrandedAfter(stranded, isNew, ops[0]), ops[1..])
  }

  lemma {:induction false} RunMatches(v: View, stranded: set<u16>, ops: seq<Op>)
    requires Matches(v, stranded)
    ensures Matches(Run(v, ops), Stranded(v, stranded, ops))
    decreases |ops|
  {
    if ops != [] {
      ApplyMatches(v, stranded, ops[0]);
      var isNew := ops[0].Create? && !Has(v, ops[0].key.tunnelId);
      RunMatches(Apply(v, ops[0]), StrandedAfter(stranded, isNew, ops[0]), ops[1..]);
    }
  }

  /** The registered ids are the ids that have tasks. */
  ghost predicate IdsMatchTasks(v: View) {
    forall id: u16 :: Has(v, id) <==> id in v.tasks
  }

  /** From a state in which registry and tasks agree, over any operations: there is one key per id, every task's id is
      registered, and registry and tasks agree again if and only if no id is stranded. */
  lemma ManagerRuns(v: View, ops: seq<Op>)
    requires OneKeyPerId(v.keys) && IdsMatchTasks(v)
    ensures var v' := Run(v, ops); var stranded := Stranded(v, {}, ops);
      && OneKeyPerId(v'.keys) && (forall id: u16 :: id in v'.tasks ==> Has(v', id))
      && (IdsMatchTasks(v') <==> stranded == {})
  {
    RunMatches(v, {}, ops);
    var v', stranded := Run(v, ops), Stranded(v, {}, ops);
    if stranded != {} {
      var id: u16 :| id in stranded;
      assert Has(v', id) && id !in v'.tasks;
    }
  }

  /** No create of the run is left without an answer or without a TAP device. */
  predicate NoneStrands(ops: seq<Op>) {
    forall i :: 0 <= i < |ops| && ops[i].Create? ==> ops[i].exchange != NoAnswer && ops[i].exchange != NoDevice
  }

  lemma {:induction false} NothingStranded(v: View, ops: seq<Op>)
    requires NoneStrands(ops)
    ensures Stranded(v, {}, ops) == {}
    decreases |ops|
  {
    if ops != [] {
      assert forall i :: 0 <= i < |ops| - 1 ==> ops[1..][i] == ops[i + 1];
      var isNew := ops[0].Create? && !Has(v, ops[0].key.tunnelId);
      assert StrandedAfter({}, isNew, ops[0]) == {};
      NothingStranded(Apply(v, ops[0]), ops[1..]);
    }
  }

  /** So over any operations of which none ends that way, whatever else goes wrong, registry and tasks agree. */
  lemma TablesStayTogether(v: View, ops: seq<Op>)
    requires OneKeyPerId(v.keys) && IdsMatchTasks(v) && NoneStrands(ops)
    ensures OneKeyPerId(Run(v, ops).keys) && IdsMatchTasks(Run(v, ops))
  {
    NothingStranded(v, ops);
    ManagerRuns(v, ops);
  }

  /** A stranded id cannot be created again, and destroying it repairs the tables. */
  lemma StrandedUntilDestroyed(v: View, stranded: set<u16>, key: DemuxKey, exchange: Exchange)
    requires Matches(v, stranded) && key.tunnelId in stranded
    ensures Apply(v, Create(key, exchange)) == v
    ensures stranded == {key.tunnelId} ==> IdsMatchTasks(Apply(v, Destroy(key.tunnelId)))
  {
    DestroyMatches(v, stranded, key.tunnelId);
  }

  /** The tables after startup from the enabled tunnels of the configuration, which is not checked for repeated ids. */
  function Booted(configs: seq<DemuxKey>): View {
    View(set k | k in configs, set k | k in configs :: k.tunnelId)
  }

  /** Startup leaves one key per id exactly if no id is configured for two peers. */
  lemma BootedTables(configs: seq<DemuxKey>)
    ensures IdsMatchTasks(Booted(configs))
    ensures OneKeyPerId(Booted(configs).keys) <==>
            forall i, j :: 0 <= i < |configs| && 0 <= j < |configs| && configs[i].tunnelId == configs[j].tunnelId
                           ==> configs[i] == configs[j]
  {
    var v := Booted(configs);
    forall id: u16
      ensures Has(v, id) <==> id in v.tasks
    {
      if k :| k in KeysOf(v.keys, id) {
        assert k in configs && k.tunnelId == id;
      }
      if id in v.tasks {
        var k :| k in configs && k.tunnelId == id;
        assert k in KeysOf(v.keys, id);
      }
    }
    if OneKeyPerId(v.keys) {
      forall i, j | 0 <= i < |configs| && 0 <= j < |configs| && configs[i].tunnelId == configs[j].tunnelId
        ensures configs[i] == configs[j]
      {
        assert configs[i] in v.keys && configs[j] in v.keys;
      }
    }
  }

  class Handle {
    const id: u16
    const remote: IpAddr
    const state: AtomicTunnelState

    constructor (key: DemuxKey)
      ensures id == key.tunnelId && remote == key.peer && fresh(state) && state.cell == ToU8(Initializing)
    {
      id, remote := key.tunnelId, key.peer;
      state := new AtomicTunnelState(Initializing);
    }
  }

  class CancelToken {
    var cancelled: bool

    constructor ()
      ensures !cancelled
    {
      cancelled := false;
    }

    method Cancel()
      modifies this
      ensures cancelled
    {
      cancelled := true;
    }
  }

  /** Being torn down, or destroyed. */
  predicate Ended(cell: byte) {
    cell >= 4
  }

  datatype Outcome = Done | AlreadyExists | NotFound | Failed

  class Manager {
    var registry: map<DemuxKey, Handle>
    var tasks: map<u16, CancelToken>

    constructor ()
      ensures registry == map[] && tasks == map[]
    {
      registry, tasks := map[], map[];
    }

    function Tables(): View
      reads this
    {
      View(registry.Keys, tasks.Keys)
    }

    /** Every key is made of its handle's id and remote address. */
    predicate KeysFit()
      reads this
    {
      forall k :: k in registry ==> registry[k].id == k.tunnelId && registry[k].remote == k.peer
    }

    /** One create, given how the exchange with the helper will end. */
    method CreateTunnel(key: DemuxKey, exchange: Exchange) returns (r: Outcome)
      requires KeysFit()
      modifies this
      ensures KeysFit() && Tables() == Apply(old(Tables()), Create(key, exchange))
      ensures r == if Has(old(Tables()), key.tunnelId) then AlreadyExists else if exchange == Tap then Done else Failed
      ensures r != Done && !(r == Failed && Strands(exchange)) ==> registry == old(registry) && tasks == old(tasks)
      ensures forall k :: k in old(registry) ==> k in registry && registry[k] == old(registry)[k]
      ensures forall id :: id in old(tasks) && id != key.tunnelId ==> id in tasks && tasks[id] == old(tasks)[id]
      ensures r == Done ==> registry[key].state.cell == ToU8(Active) && !tasks[key.tunnelId].cancelled
      ensures r == Failed && Strands(exchange) ==> registry[key].state.cell == ToU8(Initializing)
      ensures r == AlreadyExists <==> exists k :: k in old(registry) && k.tunnelId == key.tunnelId
      ensures r == AlreadyExists || exchange in {HelperError, Unexpected, NoFd} ==>
                registry == old(registry) && tasks == old(tasks)
      ensures r != AlreadyExists && exchange in {NoAnswer, NoDevice} ==>
                r == Failed && registry.Keys == old(registry).Keys + {key} && tasks == old(tasks)
      ensures r != AlreadyExists && exchange == Tap ==>
                && r == Done && registry.Keys == old(registry).Keys + {key}
                && tasks.Keys == old(tasks).Keys + {key.tunnelId}
    {
      assert forall k :: k in registry && k.tunnelId == key.tunnelId ==> k in KeysOf(registry.Keys, key.tunnelId);
      assert forall k :: k in KeysOf(registry.Keys, key.tunnelId) ==> k in registry && k.tunnelId == key.tunnelId;
      assert key in registry ==> key in KeysOf(registry.Keys, key.tunnelId);
      if KeysOf(registry.Keys, key.tunnelId) != {} {
        return AlreadyExists;
      }
      var handle := new Handle(key);
      registry := registry[key := handle];
      match exchange
      case NoAnswer | NoDevice =>
        return Failed;
      case HelperError | Unexpected | NoFd =>
        registry := registry - {key};
        assert registry == old(registry);
        return Failed;
      case Tap =>
        ActivateNew(handle);
        var cancel := new CancelToken();
        tasks := tasks[key.tunnelId := cancel];
        return Done;
    }

    /** The entries of one id are removed, each after an attempt to mark it as being torn down. */
    method RemoveAll(keys: set<DemuxKey>)
      requires keys <= registry.Keys
      modifies this`registry, set k | k in keys :: registry[k].state
      ensures registry == old(registry) - keys
      ensures forall k :: k in keys ==> Ended(old(registry)[k].state.cell)
    {
      ghost var cells := set k | k in keys :: registry[k].state;
      var rest := keys;
      while rest != {}
        invariant rest <= keys && registry == old(registry) - (keys - rest)
        invariant forall k :: k in keys - rest ==> Ended(old(registry)[k].state.cell)
        decreases rest
      {
        var key :| key in rest;
        var st := registry[key].state;
        assert st in cells;
        var seen := st.Load();
        var _ := st.Transition(seen, TearingDown);
        registry := registry - {key};
        rest := rest - {key};
      }
      assert keys - rest == keys;
    }

    /** A destroy removes all entries of its id and no others, cancels its tasks, and reports whether the id was
        known. */
    method DestroyTunnel(id: u16) returns (r: Outcome)
      requires KeysFit()
      modifies this, set k | k in KeysOf(registry.Keys, id) :: registry[k].state
      modifies if id in tasks then {tasks[id]} else {}
      ensures KeysFit() && Tables() == Apply(old(Tables()), Destroy(id))
      ensures registry == old(registry) - KeysOf(old(registry).Keys, id) && tasks == old(tasks) - {id}
      ensures r == if Has(old(Tables()), id) then Done else NotFound
      ensures id in old(tasks) ==> old(tasks)[id].cancelled
      ensures forall k :: k in old(registry) && k.tunnelId == id ==> Ended(old(registry)[k].state.cell)
      ensures forall k :: k in registry <==> k in old(registry) && k.tunnelId != id
      ensures r == NotFound <==> forall k :: k in old(registry) ==> k.tunnelId != id
    {
      assert forall k :: k in registry && k.tunnelId == id ==> k in KeysOf(registry.Keys, id);
      var entries := KeysOf(registry.Keys, id);
      if id in tasks {
        tasks[id].Cancel();
        tasks := tasks - {id};
      }
      if entries == {} {
        assert Tables().keys == old(Tables()).keys - entries;
        return NotFound;
      }
      RemoveAll(entries);
      return Done;
    }

    /** A tunnel created during startup, whose key is already in the registry. */
    method RegisterStartupTunnel(id: u16, cancel: CancelToken)
      modifies this`tasks
      ensures tasks == old(tasks)[id := cancel]
    {
      tasks := tasks[id := cancel];
    }

    /** Startup: each handle is registered and then activated, and the tasks follow once all are. */
    method Boot(configs: seq<DemuxKey>)
      requires registry == map[] && tasks == map[]
      modifies this
      ensures KeysFit() && Tables() == Booted(configs)
      ensures forall k :: k in registry <==> k in configs
      ensures forall id :: id in tasks <==> exists i :: 0 <= i < |configs| && configs[i].tunnelId == id
      ensures forall k :: k in registry ==> registry[k].state.cell == ToU8(Active)
      ensures forall id :: id in tasks ==> !tasks[id].cancelled
    {
      RegisterAll(configs);
      for i := 0 to |configs|
        invariant KeysFit() && registry.Keys == set k | k in configs
        invariant forall k :: k in registry ==> registry[k].state.cell == ToU8(Active)
        invariant tasks.Keys == set k | k in configs[..i] :: k.tunnelId
        invariant forall id :: id in tasks ==> !tasks[id].cancelled
      {
        var cancel := new CancelToken();
        RegisterStartupTunnel(configs[i].tunnelId, cancel);
        assert configs[..i + 1] == configs[..i] + [configs[i]];
      }
      assert configs[..|configs|] == configs;
    }

    /** The startup loop, when every tunnel gets its TAP interface. */
    method RegisterAll(configs: seq<DemuxKey>)
      requires registry == map[] && tasks == map[]
      modifies this`registry
      ensures KeysFit() && registry.Keys == set k | k in configs
      ensures forall k :: k in registry ==> registry[k].state.cell == ToU8(Active)
    {
      for i := 0 to |configs|
        invariant KeysFit() && registry.Keys == set k | k in configs[..i]
        invariant forall k :: k in registry ==> registry[k].state.cell == ToU8(Active)
      {
        var handle := new Handle(configs[i]);
        registry := registry[configs[i] := handle];
        ActivateNew(handle);
        assert configs[..i + 1] == configs[..i] + [configs[i]];
      }
      assert configs[..|configs|] == configs;
    }

    /** The two moves of a tunnel that has its TAP interface. */
    static method ActivateNew(handle: Handle)
      requires handle.state.cell == ToU8(Initializing)
      modifies handle.state
      ensures handle.state.cell == ToU8(Active)
    {
      var _ := handle.state.Transition(Initializing, Configured);
      var _ := handle.state.Transition(Configured, Active);
    }
  }
}
