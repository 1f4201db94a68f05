// RunInstances: launch up to the maximum, and take everything back below the minimum.
module RunInstances {
  import opened Wrappers
  import opened StoreKeys
  import opened MemoryStore

  const KIND_INSTANCE := ServiceKind("aws", "ec2", "instance")
  const KIND_SECURITY_GROUP := ServiceKind("aws", "ec2", "security-group")
  const RUNNING := "running"
  const STATE_CODE_RUNNING: nat := 16
  const MAX_COUNT_LIMIT := 10

  /** How storing an instance ends. A file-backed store can fail after it has changed its memory. */
  datatype PutOutcome = Stored | FailsBefore | FailsAfter

  /** What happens outside the handler when it launches one instance; `removable` is for the clean-up. */
  datatype Attempt = Attempt(
    idGenerated: bool, hex: string, runs: bool, container: string, ip: string, put: PutOutcome, removable: bool,
    now: int)

  /** The request and the checks made before the launch loop; counts are None when missing or not a number. */
  datatype Request = Request(
    imageID: string, instanceType: string, minCount: Option<int>, maxCount: Option<int>, groups: seq<string>,
    withinLimits: bool, knownType: bool, reservationGenerated: bool, reservation: string, region: string)

  datatype Response =
    | Refused(status: int, code: string)
    | InsufficientInstanceCapacity
    | Launched(instances: seq<Resource>)

  /** The instances in the store, and the containers in Docker. */
  datatype World = World(data: Data, containers: set<string>)

  function RequestedMin(r: Request): int
  {
    var n := if r.minCount.Some? then r.minCount.value else 1;
    if n < 1 then 1 else n
  }

  /** The maximum is capped before it is raised to the minimum. */
  function RequestedMax(r: Request): int
  {
    if r.maxCount.Some? then r.maxCount.value else 1
  }

  function EffectiveMax(r: Request): int
  {
    if RequestedMax(r) < RequestedMin(r) then RequestedMin(r) else RequestedMax(r)
  }

  function Succeeds(a: Attempt): (ok: bool)
  {
    a.idGenerated && a.runs && a.put == Stored
  }

  function Instance(r: Request, a: Attempt): Resource
  {
    Resource(KIND_INSTANCE, "i-" + a.hex, "aws", "ec2", r.region, None,
             Some(map["ImageId" := Text(r.imageID), "InstanceType" := Text(r.instanceType),
                      "ReservationId" := Text("r-" + r.reservation), "PrivateIpAddress" := Text(a.ip),
                      "StateCode" := Number(STATE_CODE_RUNNING), "StateName" := Text(RUNNING),
                      "SecurityGroupIds" := TextList(r.groups)]),
             RUNNING, a.now, a.now, a.container)
  }

  function Instances(r: Request, attempts: seq<Attempt>): seq<Resource>
  {
    seq(|attempts|, i requires 0 <= i < |attempts| => Instance(r, attempts[i]))
  }

  function Add(w: World, instances: seq<Resource>): World
  {
    if instances == [] then w
    else
      var before := Add(w, instances[..|instances| - 1]);
      var last := instances[|instances| - 1];
      World(before.data[KeyOf(last) := last], before.containers + {last.containerID})
  }

  /** How many attempts succeed before the first failure. */
  function Successes(attempts: seq<Attempt>): (n: nat)
    ensures n <= |attempts|
    ensures forall a <- attempts[..n] :: Succeeds(a)
    ensures n < |attempts| ==> !Succeeds(attempts[n])
  {
    if attempts == [] || !Succeeds(attempts[0]) then 0
    else
      var n := Successes(attempts[1..]);
      assert attempts[..n + 1] == [attempts[0]] + attempts[1..][..n];
      n + 1
  }

  /** What a failed attempt leaves in the store: nothing, unless the store failed after the change. */
  function Leftover(r: Request, a: Attempt, data: Data): Data
  {
    if a.idGenerated && a.runs && a.put == FailsAfter then data[KeyOf(Instance(r, a)) := Instance(r, a)] else data
  }

  /** What a failed attempt leaves in Docker: its container, when it was started and cannot be removed. */
  function LeftoverContainer(a: Attempt): set<string>
  {
    if a.idGenerated && a.runs && !a.removable then {a.container} else {}
  }

  /** The containers that the clean-up cannot remove. */
  function Stuck(attempts: seq<Attempt>): set<string>
  {
    set a | a in attempts && !a.removable :: a.container
  }

  class DockerHost {
    var containers: set<string>

    constructor (initial: set<string>)
      ensures containers == initial
    {
      containers := initial;
    }

    method RunContainer(id: string, runs: bool) returns (ok: bool)
      modifies this
      ensures ok == runs
      ensures containers == if ok then old(containers) + {id} else old(containers)
    {
      if !runs {
        return false;
      }
      containers := containers + {id};
      return true;
    }

    /** Stop and remove; a failure is only logged. */
    method RemoveContainer(id: string, fails: bool)
      modifies this
      ensures containers == if fails then old(containers) else old(containers) - {id}
    {
      if !fails {
        containers := containers - {id};
      }
    }
  }

  class EC2Service {
    const store: Store
    const docker: DockerHost

    ghost predicate Valid()
      reads this, store
    {
      store.Valid()
    }

    ghost function Contents(): World
      reads this, store, docker
    {
      World(store.data, docker.containers)
    }

    constructor (store: Store, docker: DockerHost)
      ensures this.store == store && this.docker == docker
    {
      this.store, this.docker := store, docker;
    }

    /** One turn of the launch loop. A new container is a container that was not there. */
    method LaunchOne(r: Request, a: Attempt) returns (launched: Option<Resource>)
      requires Valid() && a.container !in docker.containers
      modifies store, docker
      ensures Valid()
      ensures Succeeds(a) ==> launched == Some(Instance(r, a)) && Contents() == Add(old(Contents()), [Instance(r, a)])
      ensures !Succeeds(a) ==> launched == None
      ensures !Succeeds(a) ==>
                Contents() == World(Leftover(r, a, old(store.data)), old(docker.containers) + LeftoverContainer(a))
    {
      if !a.idGenerated {
        return None;
      }
      var ran := docker.RunContainer(a.container, a.runs);
      if !ran {
        return None;
      }
      var resource := Instance(r, a);
      if a.put != FailsBefore {
        store.Put(resource);
      }
      if a.put != Stored {
        docker.RemoveContainer(a.container, !a.removable);
        return None;
      }
      assert [resource][..0] == [];
      return Some(resource);
    }

    /** The launch loop stops at the first failure. */
    method Launch(r: Request, attempts: seq<Attempt>) returns (launched: seq<Resource>)
      requires Valid() && FreshContainers(docker.containers, attempts)
      modifies store, docker
      ensures Valid()
      ensures launched == Instances(r, attempts[..Successes(attempts)])
      ensures Contents() == AfterLaunch(old(Contents()), r, attempts)
    {
      hide FreshContainers, KeyOf, Instance, Add;
      ghost var before := Contents();
      AddNothing(before);
      launched := [];
      var i := 0;
      while i < |attempts|
        invariant 0 <= i <= |attempts| && Valid()
        invariant forall a <- attempts[..i] :: Succeeds(a)
        invariant launched == Instances(r, attempts[..i]) && Contents() == Add(before, launched)
      {
        ContainersOfLaunched(before, r, attempts, i);
        var one := LaunchOne(r, attempts[i]);
        if one.None? {
          break;
        }
        assert attempts[..i + 1][..i] == attempts[..i];
        OneMore(before, launched, one.value);
        launched := launched + [one.value];
        i := i + 1;
      }
      FirstFailure(attempts, i);
      assert attempts[..|attempts|] == attempts;
    }

    /** Removes every launched container that can be removed, and every record. */
    method RollBack(launched: seq<Resource>, stuck: set<string>)
      requires Valid()
      modifies store, docker
      ensures Valid() && Contents() == Removed(old(Contents()), launched, stuck)
    {
      ghost var before := Contents();
      for i := 0 to |launched|
        invariant Valid() && Contents() == Removed(before, launched[..i], stuck)
      {
        assert launched[..i + 1][..i] == launched[..i];
        docker.RemoveContainer(launched[i].containerID, launched[i].containerID in stuck);
        store.Delete(launched[i].kind, launched[i].id);
      }
      assert launched[..|launched|] == launched;
    }

    method GroupsExist(groups: seq<string>) returns (exist: bool)
      requires Valid()
      ensures exist <==> AllGroupsExist(store.data, groups)
    {
      for i := 0 to |groups|
        invariant forall g <- groups[..i] :: StoreKey(KIND_SECURITY_GROUP, g) in store.data
      {
        var found := store.Get(KIND_SECURITY_GROUP, groups[i]);
        if found.None? {
          return false;
        }
      }
      return true;
    }

    /** `attempts` holds one entry for each instance that may have to be launched. */
    method Run(r: Request, attempts: seq<Attempt>) returns (response: Response)
      requires Valid() && |attempts| == EffectiveMax(r) && FreshContainers(docker.containers, attempts)
      modifies store, docker
      ensures Valid()
      ensures (Contents(), response) == RunInstances(old(Contents()), r, attempts)
    {
      if r.imageID == "" {
        return Refused(400, "MissingParameter");
      }
      if RequestedMax(r) > MAX_COUNT_LIMIT {
        return Refused(400, "InvalidParameterValue");
      }
      var exist := GroupsExist(r.groups);
      if !exist {
        return Refused(400, "InvalidGroup.NotFound");
      }
      if !r.withinLimits {
        return Refused(503, "InsufficientInstanceCapacity");
      }
      if !r.knownType {
        return Refused(400, "InvalidParameterValue");
      }
      if !r.reservationGenerated {
        return Refused(500, "");
      }
      var launched := Launch(r, attempts);
      if |launched| < RequestedMin(r) {
        RollBack(launched, Stuck(attempts));
        return InsufficientInstanceCapacity;
      }
      return Launched(launched);
    }
  }

  predicate AllGroupsExist(data: Data, groups: seq<string>)
  {
    forall g <- groups :: StoreKey(KIND_SECURITY_GROUP, g) in data
  }

  /** The world after the launch loop. */
  function AfterLaunch(w: World, r: Request, attempts: seq<Attempt>): World
  {
    var n := Successes(attempts);
    var launched := Add(w, Instances(r, attempts[..n]));
    if n < |attempts| then
      World(Leftover(r, attempts[n], launched.data), launched.containers + LeftoverContainer(attempts[n]))
    else launched
  }

  function Removed(w: World, instances: seq<Resource>, stuck: set<string>): World
  {
    if instances == [] then w
    else
      var before := Removed(w, instances[..|instances| - 1], stuck);
      var last := instances[|instances| - 1];
      World(before.data - {KeyOf(last)}, before.containers - ({last.containerID} - stuck))
  }

  function RunInstances(w: World, r: Request, attempts: seq<Attempt>): (World, Response)
  {
    if r.imageID == "" then (w, Refused(400, "MissingParameter"))
    else if RequestedMax(r) > MAX_COUNT_LIMIT then (w, Refused(400, "InvalidParameterValue"))
    else if !AllGroupsExist(w.data, r.groups) then (w, Refused(400, "InvalidGroup.NotFound"))
    else if !r.withinLimits then (w, Refused(503, "InsufficientInstanceCapacity"))
    else if !r.knownType then (w, Refused(400, "InvalidParameterValue"))
    else if !r.reservationGenerated then (w, Refused(500, ""))
    else
      var n := Successes(attempts);
      var launched := Instances(r, attempts[..n]);
      if n < RequestedMin(r) then
        (Removed(AfterLaunch(w, r, attempts), launched, Stuck(attempts)), InsufficientInstanceCapacity)
      else (AfterLaunch(w, r, attempts), Launched(launched))
  }

  function InstanceKey(a: Attempt): string
  {
    StoreKey(KIND_INSTANCE, "i-" + a.hex)
  }

  /** Docker gives every new container an ID of its own. */
  ghost predicate FreshContainers(containers: set<string>, attempts: seq<Attempt>)
  {
    && (forall a <- attempts :: a.container !in containers)
    && (forall i, j :: 0 <= i < j < |attempts| ==> attempts[i].container != attempts[j].container)
  }

  /** Container IDs and the generated instance IDs are new, and differ from each other. */
  ghost predicate Fresh(w: World, attempts: seq<Attempt>)
  {
    && FreshContainers(w.containers, attempts)
    && (forall a <- attempts :: InstanceKey(a) !in w.data)
    && (forall i, j :: 0 <= i < j < |attempts| ==> attempts[i].hex != attempts[j].hex)
  }

  // ---------------------------------------------------------------- the launched instances

  function KeysOf(instances: seq<Resource>): set<string>
  {
    set x | x in instances :: KeyOf(x)
  }

  function ContainersOf(instances: seq<Resource>): set<string>
  {
    set x | x in instances :: x.containerID
  }

  lemma {:induction false} AddedWorld(w: World, instances: seq<Resource>)
    ensures var after := Add(w, instances);
            && after.containers == w.containers + ContainersOf(instances)
            && after.data.Keys == w.data.Keys + KeysOf(instances)
            && forall k <- w.data :: (forall x <- instances :: KeyOf(x) != k) ==> after.data[k] == w.data[k]
  {
    hide KeyOf;
    if instances != [] {
      var front, last := instances[..|instances| - 1], instances[|instances| - 1];
      AddedWorld(w, front);
      assert instances == front + [last];
    }
  }

  lemma ContainersOfLaunched(w: World, r: Request, attempts: seq<Attempt>, i: nat)
    requires FreshContainers(w.containers, attempts) && i < |attempts|
    ensures attempts[i].container !in Add(w, Instances(r, attempts[..i])).containers
  {
    hide KeyOf, InstanceKey;
    var launched := Instances(r, attempts[..i]);
    AddedWorld(w, launched);
    forall x <- launched
      ensures x.containerID != attempts[i].container
    {
      var j :| 0 <= j < i && x == launched[j];
      assert x.containerID == attempts[j].container;
    }
    assert attempts[i] in attempts;
  }

  lemma AddNothing(w: World)
    ensures Add(w, []) == w
  {
  }

  lemma OneMore(w: World, launched: seq<Resource>, one: Resource)
    ensures Add(Add(w, launched), [one]) == Add(w, launched + [one])
  {
    assert (launched + [one])[..|launched|] == launched;
    assert [one][..0] == [];
  }

  lemma {:induction false} FirstFailure(attempts: seq<Attempt>, i: nat)
    requires i <= |attempts| && forall a <- attempts[..i] :: Succeeds(a)
    requires i < |attempts| ==> !Succeeds(attempts[i])
    ensures Successes(attempts) == i
  {
    if i > 0 {
      assert attempts[0] in attempts[..i];
      assert attempts[1..][..i - 1] == attempts[..i][1..];
      FirstFailure(attempts[1..], i - 1);
    }
  }

  // ---------------------------------------------------------------- all or nothing

  ghost predicate NewInstances(w: World, instances: seq<Resource>)
  {
    && (forall x <- instances :: KeyOf(x) !in w.data && x.containerID !in w.containers)
    && forall i, j :: 0 <= i < j < |instances| ==>
         KeyOf(instances[i]) != KeyOf(instances[j]) && instances[i].containerID != instances[j].containerID
  }

  lemma {:induction false} AddedRecords(w: World, instances: seq<Resource>, x: Resource)
    requires NewInstances(w, instances) && x in instances
    ensures KeyOf(x) in Add(w, instances).data && Add(w, instances).data[KeyOf(x)] == x
  {
    hide KeyOf;
    var front, last := instances[..|instances| - 1], instances[|instances| - 1];
    assert instances == front + [last];
    if x != last {
      assert NewInstances(w, front);
      AddedRecords(w, front, x);
      var i :| 0 <= i < |front| && front[i] == x;
      assert KeyOf(instances[i]) != KeyOf(last);
    }
  }

  /** Removing in launch order what was added, with or without a leftover under another key. */
  lemma {:induction false} RemovedWorld(w: World, instances: seq<Resource>, stuck: set<string>)
    ensures var after := Removed(w, instances, stuck);
            && after.containers == w.containers - (ContainersOf(instances) - stuck)
            && after.data == w.data - KeysOf(instances)
  {
    hide KeyOf;
    if instances != [] {
      var front, last := instances[..|instances| - 1], instances[|instances| - 1];
      RemovedWorld(w, front, stuck);
      assert instances == front + [last];
      assert KeysOf(instances) == KeysOf(front) + {KeyOf(last)};
      assert ContainersOf(instances) == ContainersOf(front) + {last.containerID};
    }
  }

  lemma KeptContainers(before: set<string>, added: set<string>, stuck: set<string>)
    requires added !! before
    ensures before + added - (added - stuck) == before + added * stuck
  {
  }

  lemma AddedRecordsGo(w: World, instances: seq<Resource>)
    requires NewInstances(w, instances)
    ensures Add(w, instances).data - KeysOf(instances) == w.data
  {
    hide KeyOf, Add;
    AddedWorld(w, instances);
  }

  /** Rolling back undoes a launch, except for containers that cannot be removed. */
  lemma RollBackUndoesLaunch(w: World, instances: seq<Resource>, stuck: set<string>)
    requires NewInstances(w, instances)
    ensures Removed(Add(w, instances), instances, stuck)
         == World(w.data, w.containers + ContainersOf(instances) * stuck)
  {
    hide KeyOf, Add, Removed, KeysOf, ContainersOf, NewInstances;
    AddedWorld(w, instances);
    AddedRecordsGo(w, instances);
    RemovedWorld(Add(w, instances), instances, stuck);
    ContainersAreNew(w, instances);
    KeptContainers(w.containers, ContainersOf(instances), stuck);
  }

  lemma InstanceHasKey(r: Request, a: Attempt)
    ensures KeyOf(Instance(r, a)) == InstanceKey(a)
  {
  }

  lemma InstanceKeysDiffer(a: Attempt, b: Attempt)
    requires InstanceKey(a) == InstanceKey(b)
    ensures a.hex == b.hex
  {
    SameSplit(KIND_INSTANCE, "i-" + a.hex, KIND_INSTANCE, "i-" + b.hex);
    assert a.hex == ("i-" + a.hex)[2..] && b.hex == ("i-" + b.hex)[2..];
  }

  lemma AttemptsAreNew(w: World, r: Request, attempts: seq<Attempt>)
    requires Fresh(w, attempts)
    ensures NewInstances(w, Instances(r, attempts))
  {
    hide KeyOf, InstanceKey, Instance;
    var all := Instances(r, attempts);
    forall i | 0 <= i < |attempts|
      ensures KeyOf(all[i]) == InstanceKey(attempts[i]) && all[i].containerID == attempts[i].container
      ensures attempts[i] in attempts
    {
      InstanceHasKey(r, attempts[i]);
      InstanceHasContainer(r, attempts[i]);
    }
    forall i, j | 0 <= i < j < |attempts|
      ensures InstanceKey(attempts[i]) != InstanceKey(attempts[j])
    {
      if InstanceKey(attempts[i]) == InstanceKey(attempts[j]) {
        InstanceKeysDiffer(attempts[i], attempts[j]);
      }
    }
  }

  lemma InstanceHasContainer(r: Request, a: Attempt)
    ensures Instance(r, a).containerID == a.container
  {
  }

  lemma LaunchedAreNew(w: World, r: Request, attempts: seq<Attempt>)
    requires Fresh(w, attempts)
    ensures NewInstances(w, Instances(r, attempts[..Successes(attempts)]))
    ensures var n := Successes(attempts);
            n < |attempts| ==>
              && KeyOf(Instance(r, attempts[n])) !in w.data
              && KeyOf(Instance(r, attempts[n])) !in KeysOf(Instances(r, attempts[..n]))
  {
    hide KeyOf, InstanceKey, Instance, Fresh;
    AttemptsAreNew(w, r, attempts);
    var n := Successes(attempts);
    var all, launched := Instances(r, attempts), Instances(r, attempts[..n]);
    assert launched == all[..n];
    assert n < |attempts| ==> all[n] == Instance(r, attempts[n]) && all[n] in all;
    assert forall x <- launched :: x in all;
  }

  /** The attempt that ended the loop had already changed the store when it failed. */
  predicate FailedAfterStoring(attempts: seq<Attempt>)
  {
    var n := Successes(attempts);
    n < |attempts| && attempts[n].idGenerated && attempts[n].runs && attempts[n].put == FailsAfter
  }

  /** The attempt that ended the loop left its container behind. */
  predicate FailedStuck(attempts: seq<Attempt>)
  {
    var n := Successes(attempts);
    n < |attempts| && LeftoverContainer(attempts[n]) != {}
  }

  /** Some container that was started cannot be removed. */
  predicate AnyStuck(attempts: seq<Attempt>)
  {
    FailedStuck(attempts) || exists a <- attempts[..Successes(attempts)] :: !a.removable
  }

  lemma InstancesHaveContainers(r: Request, attempts: seq<Attempt>)
    ensures ContainersOf(Instances(r, attempts)) == set a | a in attempts :: a.container
  {
    hide Instance;
    var all := Instances(r, attempts);
    forall i | 0 <= i < |attempts|
      ensures all[i] in all && all[i].containerID == attempts[i].container
    {
      InstanceHasContainer(r, attempts[i]);
    }
  }

  lemma StuckInstances(w: World, r: Request, attempts: seq<Attempt>)
    requires Fresh(w, attempts)
    ensures ContainersOf(Instances(r, attempts[..Successes(attempts)])) * Stuck(attempts) == {}
       <==> forall a <- attempts[..Successes(attempts)] :: a.removable
  {
    hide KeyOf, Instance, InstanceKey;
    var launched := attempts[..Successes(attempts)];
    InstancesHaveContainers(r, launched);
    var containers := ContainersOf(Instances(r, launched));
    forall a <- launched
      ensures a in attempts && (a.container in Stuck(attempts) <==> !a.removable)
    {
      var i :| 0 <= i < |launched| && launched[i] == a;
      assert attempts[i] == a;
    }
    if a :| a in launched && !a.removable {
      assert a.container in containers * Stuck(attempts);
    }
  }

  /** The launch and its rollback, put together. */
  lemma RolledBack(w: World, r: Request, attempts: seq<Attempt>)
    requires Fresh(w, attempts)
    ensures var n := Successes(attempts);
            var launched := Instances(r, attempts[..n]);
            var after := Removed(AfterLaunch(w, r, attempts), launched, Stuck(attempts));
            && after.containers == w.containers + ContainersOf(launched) * Stuck(attempts)
                                   + (if n < |attempts| then LeftoverContainer(attempts[n]) else {})
            && after.data == if n < |attempts| then Leftover(r, attempts[n], w.data) else w.data
  {
    hide KeyOf, Instance, InstanceKey, ContainersOf, KeysOf, Stuck, Instances, Removed, Add, Fresh, Leftover,
         NewInstances;
    var n := Successes(attempts);
    var launched := Instances(r, attempts[..n]);
    var stuck := Stuck(attempts);
    LaunchedAreNew(w, r, attempts);
    RollBackUndoesLaunch(w, launched, stuck);
    if n < |attempts| {
      var added := Add(w, launched);
      var more := LeftoverContainer(attempts[n]);
      OtherContainer(w, r, attempts, Successes(attempts));
      RemovedWorld(added, launched, stuck);
      RemovedWorld(AfterLaunch(w, r, attempts), launched, stuck);
      RemoveKeepsMore(added.containers, ContainersOf(launched) - stuck, more);
      LeftoverStays(r, attempts[n], added.data, KeysOf(launched));
    }
  }

  lemma RemoveKeepsMore(containers: set<string>, gone: set<string>, more: set<string>)
    requires more !! gone
    ensures containers + more - gone == containers - gone + more
  {
  }

  lemma LeftoverStays(r: Request, a: Attempt, data: Data, gone: set<string>)
    requires KeyOf(Instance(r, a)) !in gone
    ensures Leftover(r, a, data) - gone == Leftover(r, a, data - gone)
  {
    hide KeyOf, Instance;
  }

  /** The container of an attempt is none of those before it. */
  lemma OtherContainer(w: World, r: Request, attempts: seq<Attempt>, n: nat)
    requires Fresh(w, attempts) && n < |attempts|
    ensures attempts[n].container !in ContainersOf(Instances(r, attempts[..n]))
    ensures attempts[n].container !in w.containers
  {
    hide InstanceKey, Instance;
    InstancesHaveContainers(r, attempts[..n]);
    assert attempts[n] in attempts;
    forall a <- attempts[..n]
      ensures a.container != attempts[n].container
    {
      var i :| 0 <= i < n && attempts[..n][i] == a;
      assert attempts[i] == a;
    }
  }

  /**
   * Below the minimum: the containers are as before if and only if every one that was started can
   * be removed, and the store is as before if and only if the failing attempt did not fail in a
   * store that had already changed.
   */
  lemma BelowMinimumIsUndoneExactlyWhen(w: World, r: Request, attempts: seq<Attempt>)
    requires Fresh(w, attempts)
    requires RunInstances(w, r, attempts).1.InsufficientInstanceCapacity?
    ensures var after := RunInstances(w, r, attempts).0;
            && (after.containers == w.containers <==> !AnyStuck(attempts))
            && (after.data == w.data <==> !FailedAfterStoring(attempts))
  {
    hide KeyOf, Instance, InstanceKey, Fresh, Stuck, ContainersOf, Removed;
    var n := Successes(attempts);
    var launched := Instances(r, attempts[..n]);
    RolledBack(w, r, attempts);
    StuckInstances(w, r, attempts);
    LaunchedAreNew(w, r, attempts);
    ContainersAreNew(w, launched);
    if n < |attempts| {
      OtherContainer(w, r, attempts, Successes(attempts));
    }
  }

  lemma ContainersAreNew(w: World, instances: seq<Resource>)
    requires NewInstances(w, instances)
    ensures ContainersOf(instances) !! w.containers
  {
  }

  ghost predicate RunningInReservation(r: Request, x: Resource)
  {
    && x.status == RUNNING
    && x.spec.Some? && "ReservationId" in x.spec.value && x.spec.value["ReservationId"] == Text("r-" + r.reservation)
  }

  lemma InstanceIsRunning(r: Request, a: Attempt)
    ensures RunningInReservation(r, Instance(r, a))
  {
  }

  /** A 200 returns between the minimum and the maximum of new, running instances of one reservation. */
  lemma LaunchedInstances(w: World, r: Request, attempts: seq<Attempt>)
    requires Fresh(w, attempts) && |attempts| == EffectiveMax(r)
    requires RunInstances(w, r, attempts).1.Launched?
    ensures var instances := RunInstances(w, r, attempts).1.instances;
            && RequestedMin(r) <= |instances| <= EffectiveMax(r)
            && NewInstances(w, instances)
            && (forall x <- instances :: RunningInReservation(r, x))
  {
    hide KeyOf, Instance, RunningInReservation, NewInstances, AfterLaunch, Fresh;
    var launched := Instances(r, attempts[..Successes(attempts)]);
    LaunchedAreNew(w, r, attempts);
    forall x <- launched
      ensures RunningInReservation(r, x)
    {
      var i :| 0 <= i < |launched| && x == launched[i];
      InstanceIsRunning(r, attempts[i]);
    }
  }

  /**
   * It keeps every other resource and adds those instances, to the store and to Docker, and adds
   * nothing else if and only if the attempt that ended the loop left neither a record nor a container.
   */
  lemma LaunchedWorld(w: World, r: Request, attempts: seq<Attempt>)
    requires Fresh(w, attempts) && RunInstances(w, r, attempts).1.Launched?
    ensures var (after, response) := RunInstances(w, r, attempts);
            && (after.containers == w.containers + ContainersOf(response.instances) <==> !FailedStuck(attempts))
            && (after.data.Keys == w.data.Keys + KeysOf(response.instances) <==> !FailedAfterStoring(attempts))
            && w.containers + ContainersOf(response.instances) <= after.containers
            && (forall x <- response.instances :: KeyOf(x) in after.data && after.data[KeyOf(x)] == x)
            && forall k <- w.data :: k in after.data && after.data[k] == w.data[k]
  {
    hide KeyOf, Instance, InstanceKey, ContainersOf, KeysOf, Fresh, NewInstances, Add, Instances;
    var launched := Instances(r, attempts[..Successes(attempts)]);
    LaunchedAreNew(w, r, attempts);
    AddedAndKept(w, launched);
    if Successes(attempts) < |attempts| {
      OtherContainer(w, r, attempts, Successes(attempts));
      var left, after := KeyOf(Instance(r, attempts[Successes(attempts)])), RunInstances(w, r, attempts).0;
      assert after.data.Keys == Add(w, launched).data.Keys + if FailedAfterStoring(attempts) then {left} else {};
      assert left !in w.data.Keys + KeysOf(launched);
    }
  }

  lemma AddedAndKept(w: World, instances: seq<Resource>)
    requires NewInstances(w, instances)
    ensures var after := Add(w, instances);
            && after.containers == w.containers + ContainersOf(instances)
            && after.data.Keys == w.data.Keys + KeysOf(instances)
            && (forall x <- instances ::
                  KeyOf(x) in KeysOf(instances) && KeyOf(x) in after.data && after.data[KeyOf(x)] == x)
            && forall k <- w.data :: k in after.data && after.data[k] == w.data[k]
  {
    hide KeyOf, ContainersOf, Add;
    AddedWorld(w, instances);
    forall x <- instances {
      AddedRecords(w, instances, x);
    }
  }

  /** The limit of ten is only checked against the maximum: a 200 exceeds it if and only if the minimum does. */
  lemma TenIsExceededExactlyWhen(w: World, r: Request, attempts: seq<Attempt>)
    requires Fresh(w, attempts) && |attempts| == EffectiveMax(r)
    requires RunInstances(w, r, attempts).1.Launched?
    ensures |RunInstances(w, r, attempts).1.instances| > MAX_COUNT_LIMIT <==> RequestedMin(r) > MAX_COUNT_LIMIT
  {
    hide Fresh, AfterLaunch;
    LaunchedInstances(w, r, attempts);
  }

  // ---------------------------------------------------------------- the shortfalls happen

  const EMPTY := World(map[], {})

  /** A request that passes every check, and attempts with IDs of their own. */
  function Asking(min: int, max: Option<int>): Request
  {
    Request("ami", "t2.micro", Some(min), max, [], true, true, true, "r", "us-east-1")
  }

  function Try(i: nat, put: PutOutcome, removable: bool): Attempt
  {
    Attempt(true, seq(i, _ => 'i'), true, seq(i, _ => 'c'), "", put, removable, 0)
  }

  lemma TriesAreFresh(attempts: seq<Attempt>)
    requires forall i :: 0 <= i < |attempts| ==>
               attempts[i].hex == seq(i, _ => 'i') && attempts[i].container == seq(i, _ => 'c')
    ensures Fresh(EMPTY, attempts)
  {
    hide InstanceKey;
    forall i, j | 0 <= i < j < |attempts|
      ensures attempts[i].hex != attempts[j].hex && attempts[i].container != attempts[j].container
    {
      assert |attempts[i].hex| != |attempts[j].hex| && |attempts[i].container| != |attempts[j].container|;
    }
  }

  lemma PassesChecks(min: int, max: Option<int>, attempts: seq<Attempt>)
    requires RequestedMax(Asking(min, max)) <= MAX_COUNT_LIMIT
    ensures var response := RunInstances(EMPTY, Asking(min, max), attempts).1;
            if Successes(attempts) < RequestedMin(Asking(min, max)) then response.InsufficientInstanceCapacity?
            else response.Launched? && |response.instances| == Successes(attempts)
  {
    hide Instance;
  }

  /** Without a maximum, a minimum of eleven launches eleven instances. */
  lemma ElevenInstances()
    ensures var attempts := seq(11, i requires 0 <= i < 11 => Try(i, Stored, true));
            var response := RunInstances(EMPTY, Asking(11, None), attempts).1;
            && Fresh(EMPTY, attempts) && |attempts| == EffectiveMax(Asking(11, None))
            && response.Launched? && |response.instances| == 11
  {
    hide Try, Fresh, Instance, RunInstances;
    var attempts := seq(11, i requires 0 <= i < 11 => Try(i, Stored, true));
    forall i | 0 <= i < 11 {
      TryIs(i, Stored, true);
    }
    TriesAreFresh(attempts);
    FirstFailure(attempts, 11);
    PassesChecks(11, None, attempts);
  }

  lemma TryIs(i: nat, put: PutOutcome, removable: bool)
    ensures var a := Try(i, put, removable);
            && a.hex == seq(i, _ => 'i') && a.container == seq(i, _ => 'c') && (Succeeds(a) <==> put == Stored)
            && a.idGenerated && a.runs && a.put == put && a.removable == removable
            && (LeftoverContainer(a) == {} <==> removable)
  {
  }

  /** A store that fails after changing leaves the record of a removed container, below the minimum. */
  lemma BelowMinimumLeavesRecord()
    ensures var attempts := [Try(0, FailsAfter, true)];
            var (after, response) := RunInstances(EMPTY, Asking(1, None), attempts);
            && Fresh(EMPTY, attempts) && |attempts| == EffectiveMax(Asking(1, None))
            && response.InsufficientInstanceCapacity? && after.data != map[] && after.containers == {}
  {
    hide Try, Fresh, Instance, RunInstances;
    var attempts := [Try(0, FailsAfter, true)];
    TryIs(0, FailsAfter, true);
    TriesAreFresh(attempts);
    FirstFailure(attempts, 0);
    PassesChecks(1, None, attempts);
    BelowMinimumIsUndoneExactlyWhen(EMPTY, Asking(1, None), attempts);
  }

  /** And a container that cannot be removed stays there. */
  lemma BelowMinimumLeavesContainer()
    ensures var attempts := [Try(0, FailsBefore, false)];
            var (after, response) := RunInstances(EMPTY, Asking(1, None), attempts);
            && Fresh(EMPTY, attempts) && |attempts| == EffectiveMax(Asking(1, None))
            && response.InsufficientInstanceCapacity? && after.data == map[] && after.containers != {}
  {
    hide Try, Fresh, Instance, RunInstances;
    var attempts := [Try(0, FailsBefore, false)];
    TryIs(0, FailsBefore, false);
    TriesAreFresh(attempts);
    FirstFailure(attempts, 0);
    PassesChecks(1, None, attempts);
    BelowMinimumIsUndoneExactlyWhen(EMPTY, Asking(1, None), attempts);
  }

  /** A 200 for one of two instances leaves the record of the other, whose container is gone. */
  lemma LaunchLeavesRecord()
    ensures var attempts := [Try(0, Stored, true), Try(1, FailsAfter, true)];
            var (after, response) := RunInstances(EMPTY, Asking(1, Some(2)), attempts);
            && Fresh(EMPTY, attempts) && |attempts| == EffectiveMax(Asking(1, Some(2)))
            && response.Launched? && |response.instances| == 1
            && after.data.Keys != KeysOf(response.instances) && after.containers == ContainersOf(response.instances)
  {
    hide Try, Fresh, Instance, RunInstances, KeysOf, ContainersOf;
    var attempts := [Try(0, Stored, true), Try(1, FailsAfter, true)];
    TryIs(0, Stored, true);
    TryIs(1, FailsAfter, true);
    TriesAreFresh(attempts);
    FirstFailure(attempts, 1);
    PassesChecks(1, Some(2), attempts);
    LaunchedWorld(EMPTY, Asking(1, Some(2)), attempts);
    var response := RunInstances(EMPTY, Asking(1, Some(2)), attempts).1;
    assert EMPTY.data.Keys + KeysOf(response.instances) == KeysOf(response.instances);
    assert EMPTY.containers + ContainersOf(response.instances) == ContainersOf(response.instances);
  }


  // ---------------------------------------------------------------- what a launched instance is, and when there is one

  /** Every instance of a 200, field by field: it belongs to its attempt and to the request. */
  lemma LaunchedInstanceIs(w: World, r: Request, attempts: seq<Attempt>, i: nat)
    requires RunInstances(w, r, attempts).1.Launched? && i < |RunInstances(w, r, attempts).1.instances|
    ensures i < |attempts|
    ensures var x, a := RunInstances(w, r, attempts).1.instances[i], attempts[i];
            && a.idGenerated && a.runs && a.put == Stored
            && x.kind == "aws:ec2:instance" && x.id == "i-" + a.hex && x.provider == "aws" && x.service == "ec2"
            && x.region == r.region && x.containerID == a.container && x.createdAt == x.updatedAt == a.now
            && x.status == "running" && x.spec.Some?
            && HasField(x, "ImageId", Text(r.imageID)) && HasField(x, "InstanceType", Text(r.instanceType))
            && HasField(x, "PrivateIpAddress", Text(a.ip)) && HasField(x, "SecurityGroupIds", TextList(r.groups))
            && HasField(x, "StateCode", Number(16)) && HasField(x, "StateName", Text("running"))
  {
    hide Instance, AfterLaunch, AllGroupsExist;
    assert attempts[..Successes(attempts)][i] == attempts[i] && attempts[i] in attempts[..Successes(attempts)];
    InstanceIs(r, attempts[i]);
  }

  predicate HasField(x: Resource, field: string, value: SpecValue)
  {
    x.spec.Some? && field in x.spec.value && x.spec.value[field] == value
  }

  lemma InstanceIs(r: Request, a: Attempt)
    ensures var x := Instance(r, a);
            && x.kind == "aws:ec2:instance" && x.id == "i-" + a.hex && x.provider == "aws" && x.service == "ec2"
            && x.region == r.region && x.containerID == a.container && x.createdAt == x.updatedAt == a.now
            && x.status == "running" && x.spec.Some?
            && HasField(x, "ImageId", Text(r.imageID)) && HasField(x, "InstanceType", Text(r.instanceType))
            && HasField(x, "PrivateIpAddress", Text(a.ip)) && HasField(x, "SecurityGroupIds", TextList(r.groups))
            && HasField(x, "StateCode", Number(16)) && HasField(x, "StateName", Text("running"))
  {
  }

  /** Which requests are refused before any launch; a refusal changes nothing. */
  lemma RefusedExactlyWhen(w: World, r: Request, attempts: seq<Attempt>)
    ensures var (after, response) := RunInstances(w, r, attempts);
            && (response.Refused? ==> after == w)
            && (response.Refused? <==>
                  || r.imageID == "" || (r.maxCount.Some? && r.maxCount.value > 10)
                  || (exists g <- r.groups :: StoreKey("aws:ec2:security-group", g) !in w.data)
                  || !r.withinLimits || !r.knownType || !r.reservationGenerated)
  {
    hide Removed, AfterLaunch, Successes;
    assert KIND_SECURITY_GROUP == "aws:ec2:security-group";
  }

  /** A request that is not refused launches every instance asked for, at least one, when no attempt fails. */
  lemma WithoutFailureAllAreLaunched(w: World, r: Request, attempts: seq<Attempt>)
    requires |attempts| == EffectiveMax(r) && !RunInstances(w, r, attempts).1.Refused?
    requires forall a <- attempts :: a.idGenerated && a.runs && a.put == Stored
    ensures var min := if r.minCount.Some? && r.minCount.value > 1 then r.minCount.value else 1;
            var max := if r.maxCount.Some? then r.maxCount.value else 1;
            var response := RunInstances(w, r, attempts).1;
            response.Launched? && |response.instances| == if max < min then min else max
  {
    hide Instance, AfterLaunch, AllGroupsExist, Removed;
    assert attempts[..|attempts|] == attempts;
    FirstFailure(attempts, |attempts|);
  }
}
