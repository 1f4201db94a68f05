// The Lambda container pool and the ports it holds, over sequential runs.
module LambdaPool {
  import opened Wrappers
  import opened Ports

  /** A pooled container; entries are only ever stored when they are ready. */
  datatype Entry = Entry(containerID: string, hostPort: int)

  /** How an attempt to start a container goes, apart from the port allocation. */
  datatype StartOutcome =
    | UnknownRuntime
    | RunFails
    | Unhealthy
    | Healthy(containerID: string)

  datatype Service = Service(functions: set<string>, pool: map<string, Entry>, ports: Ports.State)

  function Owner(f: string): string
  {
    "lambda-" + f
  }

  /** Allocate a port, run the container, wait until it is healthy; give the port back on failure. */
  function Start(cfg: Config, s: Ports.State, f: string, outcome: StartOutcome): (Ports.State, Option<Entry>)
  {
    if outcome == UnknownRuntime then (s, None)
    else
      var (s1, port) := Allocate(cfg, s, 0, Owner(f));
      if port.Err? then (s1, None)
      else if outcome.Healthy? then (s1, Some(Entry(outcome.containerID, port.value)))
      else (Ports.Release(s1, port.value), None)
  }

  function Invoke(cfg: Config, s: Service, f: string, withinLimit: bool, outcome: StartOutcome): Service
  {
    if f !in s.functions || f in s.pool || !withinLimit then s
    else
      var (ports, entry) := Start(cfg, s.ports, f, outcome);
      s.(ports := ports, pool := if entry.Some? then s.pool[f := entry.value] else s.pool)
  }

  /** Port 0 counts as no port. */
  function ReleaseEntry(s: Ports.State, e: Entry): Ports.State
  {
    if e.hostPort != 0 then Ports.Release(s, e.hostPort) else s
  }

  function StopContainer(s: Service, f: string): Service
  {
    if f !in s.pool then s else s.(ports := ReleaseEntry(s.ports, s.pool[f]), pool := s.pool - {f})
  }

  function DeleteFunction(s: Service, f: string): Service
  {
    if f !in s.functions then s
    else var stopped := StopContainer(s, f); stopped.(functions := stopped.functions - {f})
  }

  /** An update with a bad body fails before it touches the container. */
  function UpdateFunctionCode(s: Service, f: string, deployed: bool): Service
  {
    if f !in s.functions || !deployed then s else StopContainer(s, f)
  }

  /** Shutdown visits the pool in some order and skips entries without a container ID. */
  function ReleaseInOrder(s: Ports.State, pool: map<string, Entry>, order: seq<string>): Ports.State
    requires forall f <- order :: f in pool
  {
    if order == [] then s
    else
      assert forall f <- order[..|order| - 1] :: f in order;
      var before := ReleaseInOrder(s, pool, order[..|order| - 1]);
      var e := pool[order[|order| - 1]];
      if e.containerID == "" then before else ReleaseEntry(before, e)
  }

  ghost predicate IsOrderOf(order: seq<string>, keys: set<string>)
  {
    && (forall f :: f in order <==> f in keys)
    && forall i, j :: 0 <= i < j < |order| ==> order[i] != order[j]
  }

  class LambdaService {
    const ports: PortManager
    var functions: set<string>
    var pool: map<string, Entry>

    ghost function Contents(): Service
      reads this, ports
    {
      Service(functions, pool, ports.Contents())
    }

    constructor (ports: PortManager)
      ensures this.ports == ports
      ensures functions == {} && pool == map[]
    {
      this.ports, functions, pool := ports, {}, map[];
    }

    method StartContainer(f: string, outcome: StartOutcome) returns (entry: Option<Entry>)
      modifies ports
      ensures (ports.Contents(), entry) == Start(ports.cfg, old(ports.Contents()), f, outcome)
    {
      if outcome == UnknownRuntime {
        return None;
      }
      var port := ports.AllocatePort(0, Owner(f));
      if port.Err? {
        return None;
      }
      if outcome == RunFails {
        ports.ReleasePort(port.value);
        return None;
      }
      if outcome == Unhealthy {
        ports.ReleasePort(port.value);
        return None;
      }
      return Some(Entry(outcome.containerID, port.value));
    }

    /** The pool is looked at twice, before and after the startup mutex is taken. */
    method EnsureContainer(f: string, outcome: StartOutcome) returns (running: bool)
      modifies this`pool, ports
      ensures running <==> f in pool
      ensures f in old(pool) ==> Contents() == old(Contents())
      ensures f !in old(pool) ==>
                var (after, entry) := Start(ports.cfg, old(ports.Contents()), f, outcome);
                && ports.Contents() == after
                && pool == if entry.Some? then old(pool)[f := entry.value] else old(pool)
    {
      if f in pool {
        return true;
      }
      if f in pool {
        return true;
      }
      var entry := StartContainer(f, outcome);
      if entry.None? {
        return false;
      }
      pool := pool[f := entry.value];
      return true;
    }

    method HandleInvoke(f: string, withinLimit: bool, outcome: StartOutcome) returns (invoked: bool)
      modifies this`pool, ports
      ensures Contents() == Invoke(ports.cfg, old(Contents()), f, withinLimit, outcome)
      ensures invoked <==> f in functions && f in pool
    {
      if f !in functions {
        return false;
      }
      if f !in pool {
        if !withinLimit {
          return false;
        }
      }
      invoked := EnsureContainer(f, outcome);
    }

    method ReleasePooled(f: string)
      modifies this`pool, ports
      ensures Contents() == StopContainer(old(Contents()), f)
    {
      if f in pool {
        if pool[f].hostPort != 0 {
          ports.ReleasePort(pool[f].hostPort);
        }
        pool := pool - {f};
      }
    }

    method HandleDeleteFunction(f: string) returns (found: bool)
      modifies this, ports
      ensures found <==> f in old(functions)
      ensures Contents() == DeleteFunction(old(Contents()), f)
    {
      if f !in functions {
        return false;
      }
      ReleasePooled(f);
      functions := functions - {f};
      return true;
    }

    method HandleUpdateFunctionCode(f: string, deployed: bool) returns (updated: bool)
      modifies this`pool, ports
      ensures updated <==> f in functions && deployed
      ensures Contents() == UpdateFunctionCode(old(Contents()), f, deployed)
    {
      if f !in functions {
        return false;
      }
      if !deployed {
        return false;
      }
      ReleasePooled(f);
      return true;
    }

    method Shutdown() returns (ghost order: seq<string>)
      modifies this`pool, ports
      ensures IsOrderOf(order, old(pool).Keys)
      ensures pool == map[] && ports.Contents() == ReleaseInOrder(old(ports.Contents()), old(pool), order)
    {
      order := [];
      var todo := pool.Keys;
      while todo != {}
        invariant todo <= pool.Keys && pool == old(pool)
        invariant IsOrderOf(order, pool.Keys - todo)
        invariant ports.Contents() == ReleaseInOrder(old(ports.Contents()), pool, order)
        decreases |todo|
      {
        var f :| f in todo;
        todo := todo - {f};
        var entry := pool[f];
        assert (order + [f])[..|order|] == order;
        order := order + [f];
        if entry.containerID == "" {
          continue;
        }
        if entry.hostPort != 0 {
          ports.ReleasePort(entry.hostPort);
        }
      }
      pool := map[];
    }
  }

  // ---------------------------------------------------------------- conservation

  /** The ports of each function are exactly the port of its pooled container. */
  ghost predicate Conserved(s: Service)
  {
    && Consistent(s.ports)
    && forall f :: Owned(s.ports, Owner(f)) == if f in s.pool then {s.pool[f].hostPort} else {}
  }

  /** Entries that every way of stopping them gives back. */
  ghost predicate Releasable(pool: map<string, Entry>)
  {
    forall f <- pool :: pool[f].hostPort != 0 && pool[f].containerID != ""
  }

  lemma OwnersDiffer(f: string, g: string)
    requires Owner(f) == Owner(g)
    ensures f == g
  {
    assert f == Owner(f)[|"lambda-"|..] && g == Owner(g)[|"lambda-"|..];
  }

  lemma PortsOfFunction(s: Service, g: string)
    requires Conserved(s)
    ensures Owned(s.ports, Owner(g)) == if g in s.pool then {s.pool[g].hostPort} else {}
  {
  }

  /** No port is given back that the function does not hold, and no two functions hold the same one. */
  lemma PooledPortsAreHeld(s: Service, f: string, g: string)
    requires Conserved(s) && f in s.pool && g in s.pool
    ensures s.pool[f].hostPort in s.ports.ports && s.ports.ports[s.pool[f].hostPort] == Owner(f)
    ensures s.pool[f].hostPort == s.pool[g].hostPort ==> f == g
  {
    assert s.pool[f].hostPort in Owned(s.ports, Owner(f));
    assert s.pool[g].hostPort in Owned(s.ports, Owner(g));
    if s.pool[f].hostPort == s.pool[g].hostPort {
      OwnersDiffer(f, g);
    }
  }

  /** Giving back a port that was just taken restores the allocator. */
  lemma ReleaseUndoesAssign(s: Ports.State, port: int, r: string)
    requires Consistent(s) && port !in s.ports
    ensures Ports.Release(Assign(s, port, r), port) == s
  {
    var s' := Ports.Release(Assign(s, port, r), port);
    assert s'.ports == s.ports;
    assert Count(s, r) == |Owned(s, r)| && (r in s.counts <==> Owned(s, r) != {});
    assert s'.counts == s.counts;
  }

  /** A failed start leaves no trace in the allocator, and a successful one takes exactly one port. */
  lemma StartTakesOnePortOrNone(cfg: Config, s: Ports.State, f: string, outcome: StartOutcome)
    requires Consistent(s)
    ensures var (after, entry) := Start(cfg, s, f, outcome);
            && (entry.None? ==> after == s)
            && (entry.Some? ==>
                  && outcome == Healthy(entry.value.containerID)
                  && entry.value.hostPort !in s.ports
                  && after == Assign(s, entry.value.hostPort, Owner(f))
                  && (entry.value.hostPort == 0 <==> InRange(cfg, 0) && 0 !in s.ports))
  {
    ChoiceFailsOrEscapesExactlyWhen(cfg, s.ports, 0);
    var choice := Choose(cfg, s.ports, 0);
    if choice.Some? {
      FirstFreeIsLowest(s.ports, if 1 < cfg.rangeStart then cfg.rangeStart else 1, cfg.rangeEnd);
      FirstFreeIsLowest(s.ports, cfg.rangeStart, -1);
      ReleaseUndoesAssign(s, choice.value, Owner(f));
    }
  }

  lemma InvokeConserves(cfg: Config, s: Service, f: string, withinLimit: bool, outcome: StartOutcome)
    requires Conserved(s)
    ensures Conserved(Invoke(cfg, s, f, withinLimit, outcome))
  {
    hide Start, Owner, Consistent, Owned, Assign, InRange;
    var s' := Invoke(cfg, s, f, withinLimit, outcome);
    StartTakesOnePortOrNone(cfg, s.ports, f, outcome);
    if f in s'.pool && f !in s.pool {
      var port := s'.pool[f].hostPort;
      AssignOwned(s.ports, port, Owner(f));
      assert {} + {port} == {port};
      forall g
        ensures Owned(s'.ports, Owner(g)) == if g in s'.pool then {s'.pool[g].hostPort} else {}
      {
        PortsOfFunction(s, g);
        if g != f && Owner(g) == Owner(f) {
          OwnersDiffer(g, f);
        }
      }
    } else if f in s.functions && f !in s.pool && withinLimit {
      assert Start(cfg, s.ports, f, outcome).1.None?;
      assert s'.ports == s.ports && s'.pool == s.pool;
    }
  }

  lemma StopConserves(s: Service, f: string)
    requires Conserved(s) && f in s.pool && s.pool[f].hostPort != 0
    ensures Conserved(StopContainer(s, f))
  {
    var port, s' := s.pool[f].hostPort, StopContainer(s, f);
    assert s'.ports == Ports.Release(s.ports, port) && s'.pool == s.pool - {f};
    hide Owner, Consistent, Owned, StopContainer, Ports.Release;
    ReleaseOwned(s.ports, port);
    forall g
      ensures Owned(s'.ports, Owner(g)) == if g in s'.pool then {s'.pool[g].hostPort} else {}
    {
      PortsAfterStop(s, f, g);
    }
  }

  lemma PortsAfterStop(s: Service, f: string, g: string)
    requires Conserved(s) && f in s.pool
    ensures Owned(s.ports, Owner(g)) - {s.pool[f].hostPort} == if g in s.pool - {f} then {s.pool[g].hostPort} else {}
  {
    hide Owner, Consistent, Owned;
    PortsOfFunction(s, g);
    if g in s.pool {
      PooledPortsAreHeld(s, f, g);
    }
  }

  /** Stopping a container conserves the ports if and only if its port is not port 0. */
  lemma StopConservesExactlyWhen(s: Service, f: string)
    requires Conserved(s)
    ensures Conserved(StopContainer(s, f)) <==> f in s.pool ==> s.pool[f].hostPort != 0
  {
    hide Owner, Consistent, Owned;
    if f in s.pool {
      if s.pool[f].hostPort != 0 {
        StopConserves(s, f);
      } else {
        PortsOfFunction(s, f);
        assert StopContainer(s, f).ports == s.ports;
        assert 0 in Owned(s.ports, Owner(f));
      }
    }
  }

  lemma {:induction false} ShutdownReleases(s: Service, order: seq<string>, g: string)
    requires Conserved(s) && Releasable(s.pool) && forall f <- order :: f in s.pool
    ensures var after := ReleaseInOrder(s.ports, s.pool, order);
            && Consistent(after)
            && Owned(after, Owner(g)) == if g in s.pool && g !in order then {s.pool[g].hostPort} else {}
  {
    hide Owner, Consistent;
    if order == [] {
      PortsOfFunction(s, g);
    } else {
      var front, last := order[..|order| - 1], order[|order| - 1];
      assert order == front + [last];
      ShutdownReleases(s, front, g);
      ReleaseOwned(ReleaseInOrder(s.ports, s.pool, front), s.pool[last].hostPort);
      if g in s.pool {
        PooledPortsAreHeld(s, last, g);
      }
    }
  }

  lemma ShutdownConserves(s: Service, order: seq<string>)
    requires Conserved(s) && Releasable(s.pool) && IsOrderOf(order, s.pool.Keys)
    ensures Conserved(s.(ports := ReleaseInOrder(s.ports, s.pool, order), pool := map[]))
  {
    hide Owner, Owned;
    forall g {
      ShutdownReleases(s, order, g);
    }
  }

  // ---------------------------------------------------------------- runs

  datatype Event =
    | CreateFunction(f: string)
    | InvokeFunction(f: string, withinLimit: bool, outcome: StartOutcome)
    | Delete(f: string)
    | UpdateCode(f: string, deployed: bool)
    | ShutDown(order: seq<string>)
    | OtherAllocates(preferred: int, owner: string)  // another service uses the same allocator
    | OtherReleases(port: int)

  predicate IsLambdaOwner(owner: string)
  {
    "lambda-" <= owner
  }

  /**
   * Docker hands out non-empty container IDs, shutdown visits every entry of the pool once, and
   * other services use resource names of their own.
   */
  ghost predicate Possible(s: Service, e: Event)
  {
    match e
    case InvokeFunction(_, _, outcome) => outcome.Healthy? ==> outcome.containerID != ""
    case ShutDown(order) => IsOrderOf(order, s.pool.Keys)
    case OtherAllocates(_, owner) => !IsLambdaOwner(owner)
    case OtherReleases(port) => port in s.ports.ports ==> !IsLambdaOwner(s.ports.ports[port])
    case _ => true
  }

  function Step(cfg: Config, s: Service, e: Event): Service
    requires e.ShutDown? ==> forall f <- e.order :: f in s.pool
  {
    match e
    case CreateFunction(f) => s.(functions := s.functions + {f})
    case InvokeFunction(f, withinLimit, outcome) => Invoke(cfg, s, f, withinLimit, outcome)
    case Delete(f) => DeleteFunction(s, f)
    case UpdateCode(f, deployed) => UpdateFunctionCode(s, f, deployed)
    case ShutDown(order) => s.(ports := ReleaseInOrder(s.ports, s.pool, order), pool := map[])
    case OtherAllocates(preferred, owner) => s.(ports := Allocate(cfg, s.ports, preferred, owner).0)
    case OtherReleases(port) => s.(ports := Ports.Release(s.ports, port))
  }

  ghost predicate PossibleRun(cfg: Config, s: Service, events: seq<Event>)
    decreases |events|
  {
    events == [] || (Possible(s, events[0]) && PossibleRun(cfg, Step(cfg, s, events[0]), events[1..]))
  }

  ghost function Run(cfg: Config, s: Service, events: seq<Event>): Service
    requires PossibleRun(cfg, s, events)
    decreases |events|
  {
    if events == [] then s else Run(cfg, Step(cfg, s, events[0]), events[1..])
  }

  lemma OtherAllocationConserves(cfg: Config, s: Service, preferred: int, owner: string)
    requires Conserved(s) && !IsLambdaOwner(owner)
    ensures Conserved(s.(ports := Allocate(cfg, s.ports, preferred, owner).0))
  {
    hide Consistent, Owned, Choose;
    ChoiceFailsOrEscapesExactlyWhen(cfg, s.ports.ports, preferred);
    var choice := Choose(cfg, s.ports.ports, preferred);
    if choice.Some? {
      AssignOwned(s.ports, choice.value, owner);
    }
  }

  lemma OtherReleaseConserves(s: Service, port: int)
    requires Conserved(s) && (port in s.ports.ports ==> !IsLambdaOwner(s.ports.ports[port]))
    ensures Conserved(s.(ports := Ports.Release(s.ports, port)))
  {
    hide Consistent;
    ReleaseOwned(s.ports, port);
    forall g
      ensures Owned(Ports.Release(s.ports, port), Owner(g)) == Owned(s.ports, Owner(g))
    {
      assert port !in Owned(s.ports, Owner(g));
    }
  }

  lemma StepConserves(cfg: Config, s: Service, e: Event)
    requires !InRange(cfg, 0)
    requires Conserved(s) && Releasable(s.pool) && Possible(s, e)
    ensures Conserved(Step(cfg, s, e)) && Releasable(Step(cfg, s, e).pool)
  {
    hide Consistent, Owned, Owner, Start, ReleaseInOrder;
    match e
    case CreateFunction(f) =>
    case InvokeFunction(f, withinLimit, outcome) =>
      InvokeConserves(cfg, s, f, withinLimit, outcome);
      StartTakesOnePortOrNone(cfg, s.ports, f, outcome);
    case Delete(f) => StopConservesExactlyWhen(s, f);
    case UpdateCode(f, deployed) => StopConservesExactlyWhen(s, f);
    case ShutDown(order) => ShutdownConserves(s, order);
    case OtherAllocates(preferred, owner) => OtherAllocationConserves(cfg, s, preferred, owner);
    case OtherReleases(port) => OtherReleaseConserves(s, port);
  }

  lemma {:induction false} RunConserves(cfg: Config, s: Service, events: seq<Event>)
    requires !InRange(cfg, 0)
    requires Conserved(s) && Releasable(s.pool) && PossibleRun(cfg, s, events)
    ensures Conserved(Run(cfg, s, events))
    decreases |events|
  {
    hide Conserved, Releasable, Step;
    if events != [] {
      StepConserves(cfg, s, events[0]);
      RunConserves(cfg, Step(cfg, s, events[0]), events[1..]);
    }
  }

  const FRESH := Service({}, map[], State(map[], map[]))

  ghost predicate AllRunsConserve(cfg: Config)
  {
    forall events | PossibleRun(cfg, FRESH, events) :: Conserved(Run(cfg, FRESH, events))
  }

  /** Lambda never leaks a port, over any run, if and only if port 0 is outside the configured range. */
  lemma PortsConservedExactlyWhen(cfg: Config)
    ensures AllRunsConserve(cfg) <==> !InRange(cfg, 0)
  {
    if InRange(cfg, 0) {
      PortZeroLeaks(cfg, "f", "c");
    } else {
      forall events | PossibleRun(cfg, FRESH, events)
        ensures Conserved(Run(cfg, FRESH, events))
      {
        assert forall f :: Owned(FRESH.ports, Owner(f)) == {};
        RunConserves(cfg, FRESH, events);
      }
    }
  }

  /** Create, invoke, delete: port 0 stays with a function that no longer exists. */
  lemma PortZeroLeaks(cfg: Config, f: string, id: string)
    requires InRange(cfg, 0) && id != ""
    ensures var events := [CreateFunction(f), InvokeFunction(f, true, Healthy(id)), Delete(f)];
            && PossibleRun(cfg, FRESH, events)
            && var s := Run(cfg, FRESH, events);
               f !in s.functions && f !in s.pool && Owned(s.ports, Owner(f)) == {0} && !Conserved(s)
  {
    var invoke, delete := InvokeFunction(f, true, Healthy(id)), Delete(f);
    var s1 := Step(cfg, FRESH, CreateFunction(f));
    var s2 := Step(cfg, s1, invoke);
    var s3 := Step(cfg, s2, delete);
    assert [CreateFunction(f), invoke, delete][1..] == [invoke, delete] && [invoke, delete][1..] == [delete];
    assert PossibleRun(cfg, s3, []) && Run(cfg, s3, []) == s3;
    assert PossibleRun(cfg, s2, [delete]) && Run(cfg, s2, [delete]) == s3;
    assert PossibleRun(cfg, s1, [invoke, delete]) && Run(cfg, s1, [invoke, delete]) == s3;
    assert s2.pool == map[f := Entry(id, 0)] && s3.ports.ports == map[0 := Owner(f)];
    assert Owned(s3.ports, Owner(f)) == {0};
  }


  // ---------------------------------------------------------------- which container serves

  /**
   * The function is known or not as said, its container is out of the pool and its port free, and all else is as
   * before.
   */
  ghost predicate StoppedOnly(s: Service, after: Service, f: string)
  {
    && after.pool == s.pool - {f}
    && (f in s.pool && s.pool[f].hostPort != 0 ==> s.pool[f].hostPort !in after.ports.ports)
    && forall port <- s.ports.ports ::
         (f in s.pool ==> port != s.pool[f].hostPort) ==>
           port in after.ports.ports && after.ports.ports[port] == s.ports.ports[port]
  }

  /** A deployed update stops the old container; one that is refused changes nothing. */
  lemma UpdateStopsTheContainerExactlyWhenDeployed(cfg: Config, s: Service, f: string, deployed: bool)
    ensures var after := Step(cfg, s, UpdateCode(f, deployed));
            && after.functions == s.functions
            && (f in s.functions && deployed ==> f !in after.pool && StoppedOnly(s, after, f))
            && (!(f in s.functions && deployed) ==> after == s)
  {
  }

  /** A deletion stops the container and forgets the function; deleting an unknown one changes nothing. */
  lemma DeleteForgetsTheFunction(cfg: Config, s: Service, f: string)
    ensures var after := Step(cfg, s, Delete(f));
            && f !in after.functions && after.functions == s.functions - {f}
            && (f in s.functions ==> f !in after.pool && StoppedOnly(s, after, f))
            && (f !in s.functions ==> after.pool == s.pool && after.ports == s.ports)
  {
  }

  /**
   * An invocation of a known function within the limit is served by the pooled container, or else by one just
   * started.
   */
  lemma InvocationIsServedBy(cfg: Config, s: Service, f: string, withinLimit: bool, outcome: StartOutcome)
    ensures var after := Step(cfg, s, InvokeFunction(f, withinLimit, outcome));
            && after.functions == s.functions
            && after.pool - {f} == s.pool - {f}
            && (f in s.pool ==> after == s)
            && (f !in s.pool && f in after.pool ==>
                  && f in s.functions && withinLimit && outcome == Healthy(after.pool[f].containerID)
                  && after.pool[f].hostPort !in s.ports.ports
                  && after.ports.ports == s.ports.ports[after.pool[f].hostPort := "lambda-" + f])
            && (f in s.functions && withinLimit && outcome.Healthy? ==>
                  (f in after.pool <==> f in s.pool || Allocate(cfg, s.ports, 0, "lambda-" + f).1.Ok?))
  {
    hide Choose;
    ChoiceFailsOrEscapesExactlyWhen(cfg, s.ports.ports, 0);
  }

  /** Whatever is pooled after a run was pooled before it, or was started by an invocation of the run. */
  lemma {:induction false} PooledWasStarted(cfg: Config, s: Service, events: seq<Event>, f: string)
    requires PossibleRun(cfg, s, events) && f in Run(cfg, s, events).pool
    ensures var entry := Run(cfg, s, events).pool[f];
            || (f in s.pool && s.pool[f] == entry)
            || exists i :: 0 <= i < |events| && events[i] == InvokeFunction(f, true, Healthy(entry.containerID))
    decreases |events|
  {
    hide Step;
    if events != [] {
      var entry := Run(cfg, s, events).pool[f];
      var next := Step(cfg, s, events[0]);
      PooledWasStarted(cfg, next, events[1..], f);
      if f in next.pool && next.pool[f] == entry {
        PooledByStep(cfg, s, events[0], f);
      } else {
        var i :| 0 <= i < |events[1..]| && events[1..][i] == InvokeFunction(f, true, Healthy(entry.containerID));
        assert events[i + 1] == events[1..][i];
      }
    }
  }

  lemma PooledByStep(cfg: Config, s: Service, e: Event, f: string)
    requires Possible(s, e) && f in Step(cfg, s, e).pool
    ensures var entry := Step(cfg, s, e).pool[f];
            (f in s.pool && s.pool[f] == entry) || e == InvokeFunction(f, true, Healthy(entry.containerID))
  {
    hide Allocate, Owner, ReleaseInOrder, IsOrderOf;
  }

  /** Over any run: the container that serves a function was started after the last deployed update of its code. */
  lemma ServedByNewCode(cfg: Config, s: Service, f: string, since: seq<Event>)
    requires f in s.functions && PossibleRun(cfg, Step(cfg, s, UpdateCode(f, true)), since)
    requires f in Run(cfg, Step(cfg, s, UpdateCode(f, true)), since).pool
    ensures var entry := Run(cfg, Step(cfg, s, UpdateCode(f, true)), since).pool[f];
            exists i :: 0 <= i < |since| && since[i] == InvokeFunction(f, true, Healthy(entry.containerID))
  {
    UpdateStopsTheContainerExactlyWhenDeployed(cfg, s, f, true);
    PooledWasStarted(cfg, Step(cfg, s, UpdateCode(f, true)), since, f);
  }
}
