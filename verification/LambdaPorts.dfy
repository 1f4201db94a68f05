// Concurrent invocations with their ports: the start protocol over the port allocator.
//
// A start takes a port, and gives it back when it fails; the pool entry takes the port over when
// the start succeeds, and gives it back when the function leaves the pool. The steps refine those
// of the start protocol; other services use the same allocator in between.
module LambdaPorts {
  import opened Wrappers
  import opened Ports
  import Pool = LambdaPool
  import Startup = LambdaStartup

  /** `held` has the port of every start in flight, by thread. */
  datatype Service = Service(protocol: Startup.State, entries: map<string, Pool.Entry>, ports: Ports.State,
                             held: map<nat, int>)

  datatype Step =
    | Plain(step: Startup.Step)              // a step of the protocol without a port
    | TakePort(t: nat)
    | Healthy(t: nat)                        // the container answers
    | Fails(t: nat)                          // unknown runtime, no container, or no answer
    | Enter(t: nat, containerID: string)     // the pool entry is stored
    | Remove(fn: string)                     // delete, update or shutdown
    | OtherAllocates(preferred: int, owner: string)
    | OtherReleases(port: int)

  predicate IsPlain(step: Startup.Step)
  {
    !(step.Started? || step.StartFails? || step.Register? || step.RemovePooled?)
  }

  /** The step of the start protocol that this step makes, if any. */
  function ProtocolStep(cfg: Config, c: Service, e: Step): Option<Startup.Step>
  {
    match e
    case Plain(step) => Some(step)
    case TakePort(t) =>
      if t < |c.protocol.threads| && c.protocol.threads[t].Starting? && TakenBy(cfg, c, t).1.Err?
      then Some(Startup.StartFails(t))
      else None
    case Healthy(t) => Some(Startup.Started(t))
    case Fails(t) => Some(Startup.StartFails(t))
    case Enter(t, _) => Some(Startup.Register(t))
    case Remove(f) => Some(Startup.RemovePooled(f))
    case _ => None
  }

  function TakenBy(cfg: Config, c: Service, t: nat): (Ports.State, Result<int, Refusal>)
    requires t < |c.protocol.threads| && c.protocol.threads[t].Starting?
  {
    Allocate(cfg, c.ports, 0, Pool.Owner(c.protocol.threads[t].f))
  }

  predicate Enabled(cfg: Config, c: Service, e: Step)
  {
    && (ProtocolStep(cfg, c, e).Some? ==> Startup.Enabled(c.protocol, ProtocolStep(cfg, c, e).value))
    && match e
       case Plain(step) => IsPlain(step)
       case TakePort(t) => t < |c.protocol.threads| && c.protocol.threads[t].Starting? && t !in c.held
       case Healthy(t) => t in c.held
       case Enter(t, _) => t in c.held
       case OtherAllocates(_, owner) => !Pool.IsLambdaOwner(owner)
       case OtherReleases(port) => port in c.ports.ports ==> !Pool.IsLambdaOwner(c.ports.ports[port])
       case _ => true
  }

  /** What the step does to the pool entries, the allocator and the held ports. */
  function ApplyPorts(cfg: Config, c: Service, e: Step): Service
    requires Enabled(cfg, c, e)
  {
    match e
    case Plain(_) => c
    case TakePort(t) =>
      var (ports, port) := TakenBy(cfg, c, t);
      c.(ports := ports, held := if port.Ok? then c.held[t := port.value] else c.held)
    case Healthy(_) => c
    case Fails(t) =>
      if t in c.held then c.(ports := Ports.Release(c.ports, c.held[t]), held := c.held - {t}) else c
    case Enter(t, id) =>
      c.(entries := c.entries[c.protocol.threads[t].f := Pool.Entry(id, c.held[t])], held := c.held - {t})
    case Remove(f) =>
      if f in c.entries then c.(ports := Pool.ReleaseEntry(c.ports, c.entries[f]), entries := c.entries - {f}) else c
    case OtherAllocates(preferred, owner) => c.(ports := Allocate(cfg, c.ports, preferred, owner).0)
    case OtherReleases(port) => c.(ports := Ports.Release(c.ports, port))
  }

  function Apply(cfg: Config, c: Service, e: Step): Service
    requires Enabled(cfg, c, e)
  {
    var step := ProtocolStep(cfg, c, e);
    ApplyPorts(cfg, c, e).(protocol := if step.Some? then Startup.Apply(c.protocol, step.value) else c.protocol)
  }

  function Initial(threads: nat): Service
  {
    Service(Startup.Initial(threads), map[], Ports.State(map[], map[]), map[])
  }

  function Run(cfg: Config, c: Service, schedule: seq<Step>): Option<Service>
    decreases |schedule|
  {
    if schedule == [] then Some(c)
    else if !Enabled(cfg, c, schedule[0]) then None
    else Run(cfg, Apply(cfg, c, schedule[0]), schedule[1..])
  }

  // ---------------------------------------------------------------- who has which port

  predicate IsHolder(pc: Startup.Pc)
  {
    pc.Starting? || pc.Registering?
  }

  /** The start in flight of thread t has its port under its function's name. */
  predicate HolderInv(c: Service, t: nat)
    requires t in c.held
  {
    && t < |c.protocol.threads| && IsHolder(c.protocol.threads[t])
    && c.held[t] in c.ports.ports && c.ports.ports[c.held[t]] == Pool.Owner(c.protocol.threads[t].f)
    && c.held[t] != 0
  }

  predicate EntryInv(c: Service, f: string)
    requires f in c.entries
  {
    var port := c.entries[f].hostPort;
    port in c.ports.ports && c.ports.ports[port] == Pool.Owner(f) && port != 0
  }

  /** Every port is in use once: no two starts, and no start and entry, have the same. */
  ghost predicate UsedOnce(c: Service)
  {
    && (forall t <- c.held, u <- c.held :: c.held[t] == c.held[u] ==> t == u)
    && (forall f <- c.entries, t <- c.held :: c.entries[f].hostPort != c.held[t])
  }

  ghost predicate Inv(c: Service)
  {
    && c.protocol.pool == c.entries.Keys
    && (forall t <- c.held :: HolderInv(c, t))
    && (forall f <- c.entries :: EntryInv(c, f))
    && UsedOnce(c)
  }

  ghost predicate InUse(c: Service, port: int)
  {
    (exists f <- c.entries :: c.entries[f].hostPort == port) || (exists t <- c.held :: c.held[t] == port)
  }

  /** A port that belongs to a function but to no start and no pool entry: nothing will ever give it back. */
  ghost predicate Leaked(c: Service, port: int)
  {
    port in c.ports.ports && Pool.IsLambdaOwner(c.ports.ports[port]) && !InUse(c, port)
  }

  /** The step replaces a live pool entry. */
  predicate Overwrites(cfg: Config, c: Service, e: Step)
    requires Enabled(cfg, c, e)
  {
    e.Enter? && c.protocol.threads[e.t].f in c.entries
  }

  function OverwrittenPort(cfg: Config, c: Service, e: Step): int
    requires Enabled(cfg, c, e) && Overwrites(cfg, c, e)
  {
    c.entries[c.protocol.threads[e.t].f].hostPort
  }

  // ---------------------------------------------------------------- each step

  /** A start takes a port that nobody has, and never port 0 unless it is in the range. */
  lemma TakenPortIsNew(cfg: Config, s: Ports.State, r: string)
    requires !InRange(cfg, 0)
    ensures var (after, port) := Allocate(cfg, s, 0, r);
            && (port.Err? ==> after == s)
            && (port.Ok? ==> port.value !in s.ports && port.value != 0 && after.ports == s.ports[port.value := r])
  {
    ChoiceFailsOrEscapesExactlyWhen(cfg, s.ports, 0);
    FirstFreeIsLowest(s.ports, if 1 < cfg.rangeStart then cfg.rangeStart else 1, cfg.rangeEnd);
    FirstFreeIsLowest(s.ports, cfg.rangeStart, -1);
  }

  /** What every step must keep: the invariant, and the set of leaked ports up to one that it leaks itself. */
  ghost predicate LeaksOnly(c: Service, c': Service, leaks: set<int>)
  {
    Inv(c') && forall port :: Leaked(c', port) <==> Leaked(c, port) || port in leaks
  }

  lemma PlainStep(cfg: Config, c: Service, e: Step)
    requires Inv(c) && Enabled(cfg, c, e) && e.Plain?
    ensures LeaksOnly(c, Apply(cfg, c, e), {})
    ensures Apply(cfg, c, e).protocol.overwritten == c.protocol.overwritten
  {
    var c' := Apply(cfg, c, e);
    forall t <- c'.held
      ensures HolderInv(c', t)
    {
      assert HolderInv(c, t);
    }
    forall f <- c'.entries
      ensures EntryInv(c', f)
    {
      assert EntryInv(c, f);
    }
    assert forall port :: InUse(c', port) <==> InUse(c, port);
  }

  lemma TakePortStep(cfg: Config, c: Service, t: nat)
    requires !InRange(cfg, 0) && Inv(c) && Enabled(cfg, c, TakePort(t))
    ensures LeaksOnly(c, Apply(cfg, c, TakePort(t)), {})
    ensures Apply(cfg, c, TakePort(t)).protocol.overwritten == c.protocol.overwritten
  {
    hide Allocate;
    var f := c.protocol.threads[t].f;
    TakenPortIsNew(cfg, c.ports, Pool.Owner(f));
    if TakenBy(cfg, c, t).1.Err? {
      PlainLike(c, Apply(cfg, c, TakePort(t)), t);
    } else {
      TakenPort(c, TakenBy(cfg, c, t).0, t, TakenBy(cfg, c, t).1.value);
    }
  }

  /** Only the program counter of a thread without a port changes. */
  lemma PlainLike(c: Service, c': Service, t: nat)
    requires Inv(c) && t < |c.protocol.threads| && t !in c.held
    requires c'.entries == c.entries && c'.ports == c.ports && c'.held == c.held && c'.protocol.pool == c.protocol.pool
    requires |c'.protocol.threads| == |c.protocol.threads|
    requires forall u :: 0 <= u < |c.protocol.threads| && u != t ==> c'.protocol.threads[u] == c.protocol.threads[u]
    ensures LeaksOnly(c, c', {})
  {
  }

  lemma TakenPort(c: Service, ports: Ports.State, t: nat, port: int)
    requires Inv(c) && t < |c.protocol.threads| && c.protocol.threads[t].Starting? && t !in c.held
    requires port !in c.ports.ports && port != 0
    requires ports.ports == c.ports.ports[port := Pool.Owner(c.protocol.threads[t].f)]
    ensures LeaksOnly(c, c.(ports := ports, held := c.held[t := port]), {})
  {
    hide Pool.Owner, Pool.IsLambdaOwner;
    var c' := c.(ports := ports, held := c.held[t := port]);
    forall u <- c'.held
      ensures HolderInv(c', u)
    {
      assert u != t ==> HolderInv(c, u);
    }
    forall f <- c'.entries
      ensures EntryInv(c', f)
    {
      assert EntryInv(c, f);
    }
    forall p
      ensures InUse(c', p) <==> InUse(c, p) || p == port
    {
      assert c'.held[t] == port;
      if u :| u in c.held && c.held[u] == p {
        assert c'.held[u] == p;
      }
    }
  }

  lemma HealthyStep(cfg: Config, c: Service, t: nat)
    requires Inv(c) && Enabled(cfg, c, Healthy(t))
    ensures LeaksOnly(c, Apply(cfg, c, Healthy(t)), {})
    ensures Apply(cfg, c, Healthy(t)).protocol.overwritten == c.protocol.overwritten
  {
    hide Pool.Owner, Pool.IsLambdaOwner;
    var c' := Apply(cfg, c, Healthy(t));
    forall u <- c'.held
      ensures HolderInv(c', u)
    {
      assert HolderInv(c, u) && HolderInv(c, t);
    }
    forall f <- c'.entries
      ensures EntryInv(c', f)
    {
      assert EntryInv(c, f);
    }
    assert forall port :: InUse(c', port) <==> InUse(c, port);
  }

  /** The port of a failed start goes back, and nobody else has it. */
  lemma GivenBack(c: Service, c': Service, t: nat)
    requires Inv(c) && t in c.held && c'.protocol.pool == c.protocol.pool && c'.entries == c.entries
    requires c'.ports.ports == c.ports.ports - {c.held[t]} && c'.held == c.held - {t}
    requires |c'.protocol.threads| == |c.protocol.threads|
    requires forall u :: 0 <= u < |c.protocol.threads| && u != t ==> c'.protocol.threads[u] == c.protocol.threads[u]
    ensures LeaksOnly(c, c', {})
  {
    hide Pool.Owner, Pool.IsLambdaOwner;
    forall u <- c'.held
      ensures HolderInv(c', u)
    {
      assert HolderInv(c, u);
    }
    forall f <- c'.entries
      ensures EntryInv(c', f)
    {
      assert EntryInv(c, f);
    }
    forall p
      ensures InUse(c', p) <==> InUse(c, p) && p != c.held[t]
    {
      if u :| u in c.held && c.held[u] == p && p != c.held[t] {
        assert c'.held[u] == p;
      }
    }
  }

  lemma FailsStep(cfg: Config, c: Service, t: nat)
    requires Inv(c) && Enabled(cfg, c, Fails(t))
    ensures LeaksOnly(c, Apply(cfg, c, Fails(t)), {})
    ensures Apply(cfg, c, Fails(t)).protocol.overwritten == c.protocol.overwritten
  {
    if t in c.held {
      assert HolderInv(c, t);
      GivenBack(c, Apply(cfg, c, Fails(t)), t);
    } else {
      PlainLike(c, Apply(cfg, c, Fails(t)), t);
    }
  }

  /** The entry takes the port over; if it replaces a live entry, that entry's port is leaked. */
  lemma EnterStep(cfg: Config, c: Service, t: nat, id: string)
    requires Inv(c) && Enabled(cfg, c, Enter(t, id))
    ensures LeaksOnly(c, Apply(cfg, c, Enter(t, id)),
                      if Overwrites(cfg, c, Enter(t, id)) then {OverwrittenPort(cfg, c, Enter(t, id))} else {})
    ensures Apply(cfg, c, Enter(t, id)).protocol.overwritten
        <==> c.protocol.overwritten || Overwrites(cfg, c, Enter(t, id))
  {
    hide Pool.Owner;
    var c' := Apply(cfg, c, Enter(t, id));
    var f := c.protocol.threads[t].f;
    assert HolderInv(c, t);
    forall u <- c'.held
      ensures HolderInv(c', u)
    {
      assert HolderInv(c, u);
    }
    forall g <- c'.entries
      ensures EntryInv(c', g)
    {
      assert g != f ==> EntryInv(c, g);
    }
    EntriesAfter(c, c', t, f, id);
    if f in c.entries {
      assert EntryInv(c, f);
      OwnersAreLambda(f);
    }
  }

  lemma OwnersAreLambda(f: string)
    ensures Pool.IsLambdaOwner(Pool.Owner(f))
  {
  }

  lemma EntriesAfter(c: Service, c': Service, t: nat, f: string, id: string)
    requires Inv(c) && t in c.held
    requires c'.entries == c.entries[f := Pool.Entry(id, c.held[t])] && c'.held == c.held - {t}
    requires c.protocol.threads[t].f == f
    ensures forall p :: InUse(c', p) <==> InUse(c, p) && !(f in c.entries && p == c.entries[f].hostPort)
    ensures UsedOnce(c')
  {
    hide Pool.Owner, Pool.IsLambdaOwner;
    forall p
      ensures InUse(c', p) <==> InUse(c, p) && !(f in c.entries && p == c.entries[f].hostPort)
    {
      if u :| u in c.held && c.held[u] == p {
        assert if u == t then c'.entries[f].hostPort == p else c'.held[u] == p;
      } else if g :| g in c.entries && c.entries[g].hostPort == p && g != f {
        assert c'.entries[g].hostPort == p;
        if f in c.entries {
          EntriesDiffer(c, f, g);
        }
      }
    }
  }

  lemma EntriesDiffer(c: Service, f: string, g: string)
    requires Inv(c) && f in c.entries && g in c.entries && f != g
    ensures c.entries[f].hostPort != c.entries[g].hostPort
  {
    assert EntryInv(c, f) && EntryInv(c, g);
    if Pool.Owner(f) == Pool.Owner(g) {
      Pool.OwnersDiffer(f, g);
    }
  }

  /** A stopped container gives its port back, and nobody else has it. */
  lemma RemoveStep(cfg: Config, c: Service, f: string)
    requires Inv(c) && Enabled(cfg, c, Remove(f))
    ensures LeaksOnly(c, Apply(cfg, c, Remove(f)), {})
    ensures Apply(cfg, c, Remove(f)).protocol.overwritten == c.protocol.overwritten
  {
    hide Pool.Owner, Pool.IsLambdaOwner;
    var c' := Apply(cfg, c, Remove(f));
    if f in c.entries {
      assert EntryInv(c, f);
      forall g <- c'.entries
        ensures EntryInv(c', g)
      {
        assert EntryInv(c, g);
        EntriesDiffer(c, f, g);
      }
      forall p
        ensures InUse(c', p) <==> InUse(c, p) && p != c.entries[f].hostPort
      {
        if g :| g in c.entries && c.entries[g].hostPort == p && p != c.entries[f].hostPort {
          assert c'.entries[g].hostPort == p;
        }
        forall g <- c'.entries
          ensures c'.entries[g].hostPort != c.entries[f].hostPort
        {
          EntriesDiffer(c, f, g);
        }
      }
    }
    forall u <- c'.held
      ensures HolderInv(c', u)
    {
      assert HolderInv(c, u);
    }
  }

  lemma OtherStep(cfg: Config, c: Service, e: Step)
    requires Inv(c) && Enabled(cfg, c, e) && (e.OtherAllocates? || e.OtherReleases?)
    ensures LeaksOnly(c, Apply(cfg, c, e), {})
    ensures Apply(cfg, c, e).protocol.overwritten == c.protocol.overwritten
  {
    hide Choose;
    if e.OtherAllocates? {
      ChoiceFailsOrEscapesExactlyWhen(cfg, c.ports.ports, e.preferred);
    }
    OthersPorts(c, Apply(cfg, c, e));
  }

  /** Ports of functions stay what they are, and no others become ports of functions. */
  lemma OthersPorts(c: Service, c': Service)
    requires Inv(c) && c'.protocol == c.protocol && c'.entries == c.entries && c'.held == c.held
    requires forall p | p in c.ports.ports && Pool.IsLambdaOwner(c.ports.ports[p]) ::
               p in c'.ports.ports && c'.ports.ports[p] == c.ports.ports[p]
    requires forall p | p in c'.ports.ports && Pool.IsLambdaOwner(c'.ports.ports[p]) ::
               p in c.ports.ports && c.ports.ports[p] == c'.ports.ports[p]
    ensures LeaksOnly(c, c', {})
  {
    hide Pool.Owner, Pool.IsLambdaOwner;
    forall t <- c'.held
      ensures HolderInv(c', t)
    {
      assert HolderInv(c, t);
      OwnersAreLambda(c.protocol.threads[t].f);
    }
    forall f <- c'.entries
      ensures EntryInv(c', f)
    {
      assert EntryInv(c, f);
      OwnersAreLambda(f);
    }
    assert forall port :: InUse(c', port) <==> InUse(c, port);
  }

  /** No step leaks a port, except the one that replaces a live pool entry, which leaks that entry's port. */
  lemma StepLeaksExactlyWhen(cfg: Config, c: Service, e: Step)
    requires !InRange(cfg, 0) && Inv(c) && Enabled(cfg, c, e)
    ensures LeaksOnly(c, Apply(cfg, c, e), if Overwrites(cfg, c, e) then {OverwrittenPort(cfg, c, e)} else {})
    ensures Apply(cfg, c, e).protocol.overwritten <==> c.protocol.overwritten || Overwrites(cfg, c, e)
  {
    hide Inv, LeaksOnly, Apply, Enabled;
    match e
    case Plain(_) => PlainStep(cfg, c, e);
    case TakePort(t) => TakePortStep(cfg, c, t);
    case Healthy(t) => HealthyStep(cfg, c, t);
    case Fails(t) => FailsStep(cfg, c, t);
    case Enter(t, id) => EnterStep(cfg, c, t, id);
    case Remove(f) => RemoveStep(cfg, c, f);
    case _ => OtherStep(cfg, c, e);
  }

  // ---------------------------------------------------------------- whole schedules

  lemma {:induction false} RunLeaksExactlyWhen(cfg: Config, c: Service, schedule: seq<Step>)
    requires !InRange(cfg, 0) && Inv(c) && Run(cfg, c, schedule).Some?
    requires (exists port :: Leaked(c, port)) <==> c.protocol.overwritten
    ensures var c' := Run(cfg, c, schedule).value;
            Inv(c') && ((exists port :: Leaked(c', port)) <==> c'.protocol.overwritten)
    decreases |schedule|
  {
    hide Inv, Leaked, Apply, Enabled;
    if schedule != [] {
      var c' := Apply(cfg, c, schedule[0]);
      StepLeaksExactlyWhen(cfg, c, schedule[0]);
      if Overwrites(cfg, c, schedule[0]) {
        assert Leaked(c', OverwrittenPort(cfg, c, schedule[0]));
      }
      if port :| Leaked(c, port) {
        assert Leaked(c', port);
      }
      RunLeaksExactlyWhen(cfg, c', schedule[1..]);
    }
  }

  /**
   * In every interleaving, with every failure and with other services on the same allocator: a port
   * is lost if and only if a live pool entry was replaced at some time. And whatever is released
   * belongs to the function that releases it.
   */
  lemma PortIsLostExactlyWhenOverwritten(cfg: Config, threads: nat, schedule: seq<Step>)
    requires !InRange(cfg, 0) && Run(cfg, Initial(threads), schedule).Some?
    ensures var c := Run(cfg, Initial(threads), schedule).value;
            Inv(c) && ((exists port :: Leaked(c, port)) <==> c.protocol.overwritten)
  {
    RunLeaksExactlyWhen(cfg, Initial(threads), schedule);
  }

  /** A failed start deletes its startup entry only when nobody waits on it. */
  predicate Clean(cfg: Config, c: Service, e: Step)
    requires Enabled(cfg, c, e)
  {
    ProtocolStep(cfg, c, e).Some? ==> Startup.Clean(c.protocol, ProtocolStep(cfg, c, e).value)
  }

  predicate CleanRun(cfg: Config, c: Service, schedule: seq<Step>)
    decreases |schedule|
  {
    schedule == [] ||
    (Enabled(cfg, c, schedule[0]) && Clean(cfg, c, schedule[0]) &&
     CleanRun(cfg, Apply(cfg, c, schedule[0]), schedule[1..]))
  }

  lemma {:induction false} CleanRunKeepsProtocol(cfg: Config, c: Service, schedule: seq<Step>)
    requires Startup.Inv(c.protocol) && CleanRun(cfg, c, schedule)
    ensures Run(cfg, c, schedule).Some? && Startup.Inv(Run(cfg, c, schedule).value.protocol)
    decreases |schedule|
  {
    hide Startup.Inv, Enabled, ApplyPorts, Startup.Apply;
    if schedule != [] {
      var step := ProtocolStep(cfg, c, schedule[0]);
      if step.Some? {
        ProtocolStepIsEnabled(cfg, c, schedule[0]);
        Startup.CleanStepKeepsInv(c.protocol, step.value);
      }
      CleanRunKeepsProtocol(cfg, Apply(cfg, c, schedule[0]), schedule[1..]);
    }
  }

  lemma ProtocolStepIsEnabled(cfg: Config, c: Service, e: Step)
    requires Enabled(cfg, c, e) && ProtocolStep(cfg, c, e).Some?
    ensures Startup.Enabled(c.protocol, ProtocolStep(cfg, c, e).value)
  {
  }

  /**
   * So in every clean interleaving the ports of functions are exactly those of the pool entries and
   * of the starts in flight, each under its function's name, and each in use once.
   */
  lemma CleanInterleavingsConserve(cfg: Config, threads: nat, schedule: seq<Step>)
    requires !InRange(cfg, 0) && CleanRun(cfg, Initial(threads), schedule)
    ensures Run(cfg, Initial(threads), schedule).Some?
    ensures var c := Run(cfg, Initial(threads), schedule).value;
            && Inv(c)
            && forall port | port in c.ports.ports :: Pool.IsLambdaOwner(c.ports.ports[port]) <==> InUse(c, port)
  {
    hide Startup.Inv, CleanRun;
    InitialProtocol(threads);
    CleanRunKeepsProtocol(cfg, Initial(threads), schedule);
    PortIsLostExactlyWhenOverwritten(cfg, threads, schedule);
    var c := Run(cfg, Initial(threads), schedule).value;
    NotOverwritten(c.protocol);
    forall port | port in c.ports.ports
      ensures Pool.IsLambdaOwner(c.ports.ports[port]) <==> InUse(c, port)
    {
      assert !Leaked(c, port);
      if InUse(c, port) {
        UsedPortsAreLambdas(c, port);
      }
    }
  }

  lemma InitialProtocol(threads: nat)
    ensures Startup.Inv(Startup.Initial(threads))
  {
  }

  lemma NotOverwritten(s: Startup.State)
    requires Startup.Inv(s)
    ensures !s.overwritten
  {
  }

  lemma UsedPortsAreLambdas(c: Service, port: int)
    requires Inv(c) && InUse(c, port)
    ensures port in c.ports.ports && Pool.IsLambdaOwner(c.ports.ports[port])
  {
    hide Pool.Owner, Pool.IsLambdaOwner;
    if f :| f in c.entries && c.entries[f].hostPort == port {
      assert EntryInv(c, f);
      OwnersAreLambda(f);
    } else {
      var t :| t in c.held && c.held[t] == port;
      assert HolderInv(c, t);
      OwnersAreLambda(c.protocol.threads[t].f);
    }
  }

  /** A start holds the port that it is granted, and hands it to the pool entry with the ID of its container. */
  lemma PortGoesWithTheContainer(cfg: Config, c: Service, t: nat, id: string)
    ensures Enabled(cfg, c, TakePort(t)) && TakenBy(cfg, c, t).1.Ok? ==>
              var c' := Apply(cfg, c, TakePort(t));
              t in c'.held && c'.held[t] == TakenBy(cfg, c, t).1.value && c'.protocol == c.protocol
    ensures Enabled(cfg, c, TakePort(t)) && TakenBy(cfg, c, t).1.Err? ==>
              var c' := Apply(cfg, c, TakePort(t));
              t !in c'.held && t < |c'.protocol.threads| && c'.protocol.threads[t].Dropping?
    ensures Enabled(cfg, c, Enter(t, id)) ==>
              var c' := Apply(cfg, c, Enter(t, id));
              && t !in c'.held && c'.ports == c.ports
              && c'.entries == c.entries[c.protocol.threads[t].f := Pool.Entry(id, c.held[t])]
  {
    hide Allocate;
  }
}
