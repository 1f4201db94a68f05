// Starting, stopping and terminating instances: their records in the store and their containers.
module InstanceStates {
  import opened Wrappers
  import opened StoreKeys
  import opened MemoryStore
  import EC2 = RunInstances

  /** The name and the code of a state. */
  type InstanceState = (string, nat)

  datatype Action = Stop | Start | Terminate

  function TargetState(action: Action): InstanceState
  {
    match action
    case Stop => ("stopped", 80)
    case Start => ("running", 16)
    case Terminate => ("terminated", 48)
  }

  function StateCode(name: string): nat
  {
    match name
    case "pending" => 0
    case "running" => 16
    case "shutting-down" => 32
    case "terminated" => 48
    case "stopping" => 64
    case "stopped" => 80
    case _ => 0
  }

  /** Docker's containers, and those of them that are paused. */
  datatype Host = Host(containers: set<string>, paused: set<string>)

  datatype World = World(data: Data, host: Host)

  datatype StateChange = StateChange(id: string, current: InstanceState, previous: InstanceState)

  datatype Response = Changed(changes: seq<StateChange>) | Refused(status: int, code: string) | Panicked

  /** One instance of a request: its ID, whether Docker pauses, unpauses or removes its container, and the time. */
  datatype Target = Target(id: string, docker: bool, now: int)

  function InstanceKey(id: string): string
  {
    StoreKey(EC2.KIND_INSTANCE, id)
  }

  /** Terminate goes by the state name of the Spec when there is one, the others by the status. */
  function CurrentState(action: Action, r: Resource): string
  {
    if action.Terminate? && r.spec.Some? && "StateName" in r.spec.value && r.spec.value["StateName"].Text?
       && r.spec.value["StateName"].text != ""
    then r.spec.value["StateName"].text
    else r.status
  }

  function WithState(r: Resource, state: InstanceState, now: int): Resource
    requires r.spec.Some?
  {
    r.(status := state.0, updatedAt := now,
       spec := Some(r.spec.value["StateCode" := Number(state.1)]["StateName" := Text(state.0)]))
  }

  function ChangeOf(action: Action, r: Resource, id: string): StateChange
  {
    var current := CurrentState(action, r);
    StateChange(id, TargetState(action), (current, StateCode(current)))
  }

  /** The state of the instance neither forbids the change nor makes it unnecessary. */
  predicate Proceeds(action: Action, r: Resource)
  {
    var current := CurrentState(action, r);
    && !(action.Stop? && current == TargetState(Terminate).0)
    && current != TargetState(action).0
    && !(action.Start? && current != TargetState(Stop).0)
  }

  /**
   * What happens to the record. Docker failures stop Stop and Start, but not Terminate. Writing to a nil Spec
   * panics.
   */
  function RecordAfter(data: Data, action: Action, t: Target): (Data, Response)
  {
    if InstanceKey(t.id) !in data then (data, Refused(400, "InvalidInstanceID.NotFound"))
    else
      var r := data[InstanceKey(t.id)];
      if CurrentState(action, r) == TargetState(action).0 then (data, Changed([ChangeOf(action, r, t.id)]))
      else if !Proceeds(action, r) then (data, Refused(400, "IncorrectInstanceState"))
      else if !action.Terminate? && r.containerID != "" && !t.docker then (data, Refused(500, "InternalError"))
      else if r.spec.None? then (data, Panicked)
      else
        (data[InstanceKey(t.id) := WithState(r, TargetState(action), t.now)], Changed([ChangeOf(action, r, t.id)]))
  }

  /** What Docker does for one container. */
  function ContainerAfter(host: Host, action: Action, id: string, ok: bool): Host
  {
    if id == "" || !ok then host
    else
      match action
      case Stop => host.(paused := host.paused + {id})
      case Start => host.(paused := host.paused - {id})
      case Terminate => Host(host.containers - {id}, host.paused - {id})
  }

  /** The container is touched before the record, also when writing the record panics. */
  function HostAfter(w: World, action: Action, t: Target): Host
  {
    if InstanceKey(t.id) in w.data && Proceeds(action, w.data[InstanceKey(t.id)])
    then ContainerAfter(w.host, action, w.data[InstanceKey(t.id)].containerID, t.docker)
    else w.host
  }

  function OnChangeInstance(w: World, action: Action, t: Target): (World, Response)
  {
    var (data, response) := RecordAfter(w.data, action, t);
    (World(data, HostAfter(w, action, t)), response)
  }

  /** The instances are handled in order up to the first refusal; what was changed before it stays. */
  function ChangeEach(w: World, action: Action, targets: seq<Target>): (World, Response)
    decreases |targets|
  {
    if targets == [] then (w, Changed([]))
    else
      var (next, first) := OnChangeInstance(w, action, targets[0]);
      if !first.Changed? then (next, first)
      else
        var (after, rest) := ChangeEach(next, action, targets[1..]);
        (after, if rest.Changed? then Changed(first.changes + rest.changes) else rest)
  }

  function OnChangeInstances(w: World, action: Action, targets: seq<Target>): (World, Response)
  {
    if targets == [] then (w, Refused(400, "MissingParameter")) else ChangeEach(w, action, targets)
  }

  class DockerHost {
    var containers: set<string>
    var paused: set<string>

    constructor (host: Host)
      ensures containers == host.containers && paused == host.paused
    {
      containers, paused := host.containers, host.paused;
    }

    method PauseContainer(id: string, ok: bool)
      modifies this`paused
      ensures paused == if ok then old(paused) + {id} else old(paused)
    {
      if ok {
        paused := paused + {id};
      }
    }

    method UnpauseContainer(id: string, ok: bool)
      modifies this`paused
      ensures paused == if ok then old(paused) - {id} else old(paused)
    {
      if ok {
        paused := paused - {id};
      }
    }

    method RemoveContainer(id: string, ok: bool)
      modifies this
      ensures containers == if ok then old(containers) - {id} else old(containers)
      ensures paused == if ok then old(paused) - {id} else old(paused)
    {
      if ok {
        containers, paused := containers - {id}, paused - {id};
      }
    }
  }

  class InstanceHandlers {
    const store: Store
    const docker: DockerHost

    ghost function Contents(): World
      reads this, store, docker
    {
      World(store.data, Host(docker.containers, docker.paused))
    }

    constructor (store: Store, docker: DockerHost)
      ensures this.store == store && this.docker == docker
    {
      this.store, this.docker := store, docker;
    }

    method ChangeContainer(action: Action, id: string, ok: bool)
      requires id != ""
      modifies docker
      ensures Contents().host == ContainerAfter(old(Contents()).host, action, id, ok)
    {
      match action
      case Stop => docker.PauseContainer(id, ok);
      case Start => docker.UnpauseContainer(id, ok);
      case Terminate => docker.RemoveContainer(id, ok);
    }

    method ChangeInstance(action: Action, t: Target) returns (response: Response)
      requires store.Valid()
      modifies store, docker
      ensures store.Valid() && (Contents(), response) == OnChangeInstance(old(Contents()), action, t)
    {
      hide TargetState, StateCode, WithState;
      DistinctStates();
      var found := store.Get(EC2.KIND_INSTANCE, t.id);
      if found.None? {
        return Refused(400, "InvalidInstanceID.NotFound");
      }
      var r := found.value;
      var current := CurrentState(action, r);
      var change := StateChange(t.id, TargetState(action), (current, StateCode(current)));
      if action.Stop? && current == TargetState(Terminate).0 {
        return Refused(400, "IncorrectInstanceState");
      }
      if current == TargetState(action).0 {
        return Changed([change]);
      }
      if action.Start? && current != TargetState(Stop).0 {
        return Refused(400, "IncorrectInstanceState");
      }
      if r.containerID != "" {
        ChangeContainer(action, r.containerID, t.docker);
        if !action.Terminate? && !t.docker {
          return Refused(500, "InternalError");
        }
      }
      if r.spec.None? {
        return Panicked;
      }
      KeepsKey(r, TargetState(action), t.now);
      store.Put(WithState(r, TargetState(action), t.now));
      return Changed([change]);
    }

    method ChangeInstances(action: Action, targets: seq<Target>) returns (response: Response)
      requires store.Valid()
      modifies store, docker
      ensures store.Valid() && (Contents(), response) == OnChangeInstances(old(Contents()), action, targets)
    {
      if targets == [] {
        return Refused(400, "MissingParameter");
      }
      hide OnChangeInstance, SoFar;
      ghost var before := Contents();
      var changes := [];
      NothingChanged(before, action, targets);
      for i := 0 to |targets|
        invariant store.Valid() && SoFar(before, Contents(), action, targets, i, changes)
      {
        OneMoreChange(before, Contents(), action, targets, i, changes);
        var one := ChangeInstance(action, targets[i]);
        if !one.Changed? {
          return one;
        }
        changes := changes + one.changes;
      }
      EverythingChanged(before, Contents(), action, targets, changes);
      return Changed(changes);
    }
  }

  lemma KeepsKey(r: Resource, state: InstanceState, now: int)
    requires r.spec.Some?
    ensures KeyOf(WithState(r, state, now)) == KeyOf(r)
  {
  }

  /** What remains to be done of a request gives, after `changes`, what the whole request gives. */
  ghost predicate SoFar(before: World, w: World, action: Action, targets: seq<Target>, i: nat,
                        changes: seq<StateChange>)
  {
    && i <= |targets|
    && var (after, rest) := ChangeEach(w, action, targets[i..]);
       ChangeEach(before, action, targets) == (after, if rest.Changed? then Changed(changes + rest.changes) else rest)
  }

  lemma NothingChanged(w: World, action: Action, targets: seq<Target>)
    ensures SoFar(w, w, action, targets, 0, [])
  {
    hide OnChangeInstance;
    assert targets[0..] == targets;
    var (after, rest) := ChangeEach(w, action, targets);
    if rest.Changed? {
      assert [] + rest.changes == rest.changes;
    }
  }

  lemma EverythingChanged(before: World, w: World, action: Action, targets: seq<Target>, changes: seq<StateChange>)
    requires SoFar(before, w, action, targets, |targets|, changes)
    ensures ChangeEach(before, action, targets) == (w, Changed(changes))
  {
    hide OnChangeInstance;
    assert targets[|targets|..] == [];
    assert changes + [] == changes;
  }

  lemma OneMoreChange(before: World, w: World, action: Action, targets: seq<Target>, i: nat, changes: seq<StateChange>)
    requires i < |targets| && SoFar(before, w, action, targets, i, changes)
    ensures var (next, one) := OnChangeInstance(w, action, targets[i]);
            if one.Changed? then SoFar(before, next, action, targets, i + 1, changes + one.changes)
            else ChangeEach(before, action, targets) == (next, one)
  {
    hide OnChangeInstance;
    assert targets[i..][0] == targets[i] && targets[i..][1..] == targets[i + 1..];
    var (next, one) := OnChangeInstance(w, action, targets[i]);
    if one.Changed? {
      var (_, rest) := ChangeEach(next, action, targets[i + 1..]);
      if rest.Changed? {
        assert changes + (one.changes + rest.changes) == changes + one.changes + rest.changes;
      }
    }
  }

  // ---------------------------------------------------------------- the states of an instance

  ghost predicate InState(r: Resource, state: InstanceState)
  {
    && r.status == state.0
    && r.spec.Some? && "StateCode" in r.spec.value && r.spec.value["StateCode"] == Number(state.1)
    && "StateName" in r.spec.value && r.spec.value["StateName"] == Text(state.0)
  }

  lemma StateAfter(r: Resource, state: InstanceState, now: int)
    requires r.spec.Some?
    ensures InState(WithState(r, state, now), state)
    ensures InState(r, state) ==> WithState(r, state, now) == r.(updatedAt := now)
    ensures forall other, later :: WithState(WithState(r, other, later), state, now) == WithState(r, state, now)
  {
    assert "StateCode"[5] != "StateName"[5];
    if InState(r, state) {
      assert r.spec.value["StateCode" := Number(state.1)]["StateName" := Text(state.0)] == r.spec.value;
    }
    forall other: InstanceState, later: int
      ensures WithState(WithState(r, other, later), state, now) == WithState(r, state, now)
    {
      assert WithState(WithState(r, other, later), state, now).spec.value == WithState(r, state, now).spec.value;
    }
  }

  lemma StatesDiffer(a: Action, b: Action)
    requires TargetState(a).0 == TargetState(b).0
    ensures a == b
  {
    assert |"stopped"| == |"running"| != |"terminated"| && "stopped"[0] != "running"[0];
  }

  lemma DistinctStates()
    ensures forall a: Action, b: Action | a != b :: TargetState(a).0 != TargetState(b).0
  {
    hide TargetState;
    forall a: Action, b: Action | a != b
      ensures TargetState(a).0 != TargetState(b).0
    {
      if TargetState(a).0 == TargetState(b).0 {
        StatesDiffer(a, b);
      }
    }
  }

  lemma KeepsContainer(r: Resource, state: InstanceState, now: int)
    requires r.spec.Some?
    ensures WithState(r, state, now).containerID == r.containerID && WithState(r, state, now).status == state.0
  {
  }

  /** Stopping a running instance and starting it again restores its container, and its record up to the update time. */
  lemma StartUndoesStop(w: World, stop: Target, start: Target)
    requires stop.id == start.id && stop.docker && start.docker
    requires var key := InstanceKey(stop.id);
             && key in w.data && InState(w.data[key], TargetState(Start)) && w.data[key].containerID !in w.host.paused
    ensures var key := InstanceKey(stop.id);
            var (stopped, _) := OnChangeInstance(w, Stop, stop);
            var (after, response) := OnChangeInstance(stopped, Start, start);
            && after == World(w.data[key := w.data[key].(updatedAt := start.now)], w.host)
            && response.Changed?
  {
    hide InstanceKey, TargetState, WithState, StateCode;
    var key := InstanceKey(stop.id);
    var r := w.data[key];
    var paused := WithState(r, TargetState(Stop), stop.now);
    DistinctStates();
    StateAfter(r, TargetState(Stop), stop.now);
    StateAfter(r, TargetState(Start), start.now);
    KeepsContainer(r, TargetState(Stop), stop.now);
    var stopped := OnChangeInstance(w, Stop, stop).0;
    assert stopped.data == w.data[key := paused];
    assert RecordAfter(stopped.data, Start, start).0
        == w.data[key := paused][key := WithState(paused, TargetState(Start), start.now)];
    assert WithState(paused, TargetState(Start), start.now) == r.(updatedAt := start.now);
    assert w.data[key := paused][key := r.(updatedAt := start.now)] == w.data[key := r.(updatedAt := start.now)];
    assert r.containerID != "" ==> w.host.paused + {r.containerID} - {r.containerID} == w.host.paused;
  }

  /** No start, stop or terminate request changes a terminated instance again. */
  lemma {:induction false} TerminatedIsFinal(w: World, action: Action, targets: seq<Target>, id: string)
    requires var key := InstanceKey(id); key in w.data && InState(w.data[key], TargetState(Terminate))
    ensures var key := InstanceKey(id);
            var after := ChangeEach(w, action, targets).0;
            key in after.data && after.data[key] == w.data[key]
    decreases |targets|
  {
    hide TargetState, InstanceKey, HostAfter, RecordAfter;
    if targets != [] {
      TerminatedStays(w.data, action, targets[0], id);
      TerminatedIsFinal(OnChangeInstance(w, action, targets[0]).0, action, targets[1..], id);
    }
  }

  lemma TerminatedStays(data: Data, action: Action, t: Target, id: string)
    requires var key := InstanceKey(id); key in data && InState(data[key], TargetState(Terminate))
    ensures var key := InstanceKey(id);
            var after := RecordAfter(data, action, t).0;
            key in after && after[key] == data[key]
  {
    hide TargetState, InstanceKey, WithState, StateCode;
    DistinctStates();
    var r := data[InstanceKey(id)];
    assert CurrentState(action, r) == TargetState(Terminate).0;
  }

  // ---------------------------------------------------------------- records and containers agree

  /** A running instance's container is not paused, a stopped one's is. */
  ghost predicate RecordAgrees(r: Resource, host: Host)
  {
    && (r.status == TargetState(Start).0 && r.containerID != "" ==> r.containerID !in host.paused && r.spec.Some?)
    && (r.status == TargetState(Stop).0 && r.containerID != "" ==> r.containerID in host.paused && r.spec.Some?)
  }

  /** This holds of every instance, and no two instances have the same container. */
  ghost predicate Agrees(w: World)
  {
    && (forall id | InstanceKey(id) in w.data :: RecordAgrees(w.data[InstanceKey(id)], w.host))
    && (forall a, b | InstanceKey(a) in w.data && InstanceKey(b) in w.data && InstanceKey(a) != InstanceKey(b) ::
          w.data[InstanceKey(a)].containerID == w.data[InstanceKey(b)].containerID ==>
            w.data[InstanceKey(a)].containerID == "")
  }

  /** Pausing or unpausing one container leaves the agreement of every other one alone. */
  lemma OthersAgree(r: Resource, host: Host, action: Action, id: string, ok: bool)
    requires RecordAgrees(r, host) && r.containerID != id
    ensures RecordAgrees(r, ContainerAfter(host, action, id, ok))
  {
    hide TargetState;
  }

  lemma OneAgrees(r: Resource, host: Host, action: Action, ok: bool, now: int)
    requires RecordAgrees(r, host) && Proceeds(action, r)
    ensures r.spec.Some? && (action.Terminate? || r.containerID == "" || ok) ==>
              RecordAgrees(WithState(r, TargetState(action), now), ContainerAfter(host, action, r.containerID, ok))
    ensures !action.Terminate? && r.containerID != "" && !ok ==>
              RecordAgrees(r, ContainerAfter(host, action, r.containerID, ok))
    ensures r.spec.None? ==> RecordAgrees(r, ContainerAfter(host, action, r.containerID, ok))
  {
    hide TargetState, WithState;
    DistinctStates();
    if r.spec.Some? {
      KeepsContainer(r, TargetState(action), now);
      StateAfter(r, TargetState(action), now);
    }
  }

  lemma EmptyIsNoContainer(r: Resource, host: Host)
    requires r.containerID == ""
    ensures RecordAgrees(r, host)
  {
  }

  lemma ChangeKeepsAgreement(w: World, action: Action, t: Target)
    requires Agrees(w)
    ensures Agrees(OnChangeInstance(w, action, t).0)
  {
    hide InstanceKey, RecordAgrees, TargetState, WithState, CurrentState, Proceeds, ContainerAfter, StateCode, ChangeOf;
    var after := OnChangeInstance(w, action, t).0;
    var key := InstanceKey(t.id);
    if key in w.data && Proceeds(action, w.data[key]) {
      var r := w.data[key];
      OneAgrees(r, w.host, action, t.docker, t.now);
      if r.spec.Some? {
        KeepsContainer(r, TargetState(action), t.now);
      }
      ProceedsIsNoNoop(action, r);
      forall id | InstanceKey(id) in after.data
        ensures RecordAgrees(after.data[InstanceKey(id)], after.host)
      {
        if InstanceKey(id) != key {
          var other := w.data[InstanceKey(id)];
          if other.containerID == "" {
            EmptyIsNoContainer(other, after.host);
          } else {
            OthersAgree(other, w.host, action, r.containerID, t.docker);
          }
        }
      }
    }
  }

  lemma ProceedsIsNoNoop(action: Action, r: Resource)
    requires Proceeds(action, r)
    ensures CurrentState(action, r) != TargetState(action).0
  {
  }

  /** Whatever is started, stopped and terminated, and whatever Docker refuses: records and containers keep agreeing. */
  lemma {:induction false} RequestsKeepAgreement(w: World, action: Action, targets: seq<Target>)
    requires Agrees(w)
    ensures Agrees(ChangeEach(w, action, targets).0) && Agrees(OnChangeInstances(w, action, targets).0)
    decreases |targets|
  {
    hide Agrees, OnChangeInstance;
    if targets != [] {
      ChangeKeepsAgreement(w, action, targets[0]);
      RequestsKeepAgreement(OnChangeInstance(w, action, targets[0]).0, action, targets[1..]);
    }
  }


  // ---------------------------------------------------------------- the changes, one by one

  /**
   * A request that Docker carries out for an instance with a Spec: the new record and the new place of its
   * container.
   */
  lemma ChangeDoes(w: World, action: Action, t: Target)
    requires InstanceKey(t.id) in w.data && w.data[InstanceKey(t.id)].spec.Some? && t.docker
    requires var r := w.data[InstanceKey(t.id)];
             match action
             case Stop => r.status != "stopped" && r.status != "terminated"
             case Start => r.status == "stopped"
             case Terminate => r.status != "terminated" && (InState(r, (r.status, StateCode(r.status))))
                               && r.status != ""
    ensures var key := InstanceKey(t.id);
            var (after, response) := OnChangeInstance(w, action, t);
            var r, r' := w.data[key], after.data[key];
            var id := r.containerID;
            var name := match action case Stop => "stopped" case Start => "running" case Terminate => "terminated";
            && response == Changed([StateChange(t.id, (name, StateCode(name)), (r.status, StateCode(r.status)))])
            && after.data == w.data[key := r'] && InState(r', (name, StateCode(name)))
            && r'.updatedAt == t.now && r'.containerID == r.containerID && r'.id == r.id && r'.kind == r.kind
            && (id != "" && action.Stop? ==> after.host == Host(w.host.containers, w.host.paused + {id}))
            && (id != "" && action.Start? ==> after.host == Host(w.host.containers, w.host.paused - {id}))
            && (id != "" && action.Terminate? ==> after.host == Host(w.host.containers - {id}, w.host.paused - {id}))
            && (id == "" ==> after.host == w.host)
  {
    hide InstanceKey;
    StateAfter(w.data[InstanceKey(t.id)], TargetState(action), t.now);
  }

  /** A refusal has one of three reasons for a stored instance, and changes neither the record nor the container. */
  lemma RefusalChangesNothing(w: World, action: Action, t: Target)
    requires OnChangeInstance(w, action, t).1.Refused?
    ensures OnChangeInstance(w, action, t).0 == w
    ensures InstanceKey(t.id) in w.data ==>
              var r := w.data[InstanceKey(t.id)];
              || (action.Stop? && r.status == "terminated")
              || (action.Start? && r.status != "running" && r.status != "stopped")
              || (!action.Terminate? && r.containerID != "" && !t.docker)
  {
    hide InstanceKey, StateCode;
  }

  lemma StatesHaveCodes()
    ensures StateCode("pending") == 0 && StateCode("running") == 16 && StateCode("shutting-down") == 32
    ensures StateCode("terminated") == 48 && StateCode("stopping") == 64 && StateCode("stopped") == 80
  {
  }

  /** A list of changes names the instances of the request, in order. */
  lemma {:induction false} ChangesNameTheTargets(w: World, action: Action, targets: seq<Target>)
    requires ChangeEach(w, action, targets).1.Changed?
    ensures var changes := ChangeEach(w, action, targets).1.changes;
            && |changes| == |targets|
            && forall i :: 0 <= i < |targets| ==>
                 changes[i].id == targets[i].id && changes[i].current == TargetState(action)
    decreases |targets|
  {
    hide HostAfter, StateCode, InstanceKey, TargetState, WithState;
    if targets != [] {
      ChangesNameTheTargets(OnChangeInstance(w, action, targets[0]).0, action, targets[1..]);
    }
  }

  /** Asking for the state that an instance is in succeeds without a change. */
  lemma RepeatingChangesNothing(w: World, action: Action, t: Target)
    requires InstanceKey(t.id) in w.data
    requires var name := match action case Stop => "stopped" case Start => "running" case Terminate => "terminated";
             InState(w.data[InstanceKey(t.id)], (name, StateCode(name)))
    ensures OnChangeInstance(w, action, t).0 == w && OnChangeInstance(w, action, t).1.Changed?
  {
    hide InstanceKey;
  }
}
