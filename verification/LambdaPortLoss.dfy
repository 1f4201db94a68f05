// A schedule of concurrent invocations that loses a port.
module LambdaPortLoss {
  import opened Wrappers
  import Ports
  import opened LambdaPorts
  import Pool = LambdaPool
  import Startup = LambdaStartup

  /** A schedule of the protocol in which no start succeeds and nothing leaves the pool, as steps of the service. */
  predicate TakesNoPort(step: Startup.Step)
  {
    IsPlain(step) || step.StartFails?
  }

  function Lifted(schedule: seq<Startup.Step>): seq<Step>
  {
    if schedule == [] then []
    else [LiftedStep(schedule[0])] + Lifted(schedule[1..])
  }

  function LiftedStep(step: Startup.Step): Step
  {
    if step.StartFails? then Fails(step.t) else Plain(step)
  }

  lemma LiftedStepApplies(cfg: Ports.Config, c: Service, step: Startup.Step)
    requires c.held == map[] && TakesNoPort(step) && Startup.Enabled(c.protocol, step)
    ensures Enabled(cfg, c, LiftedStep(step))
    ensures Apply(cfg, c, LiftedStep(step)) == c.(protocol := Startup.Apply(c.protocol, step))
  {
    hide Startup.Apply, Startup.Enabled;
  }

  lemma RunStep(cfg: Ports.Config, c: Service, e: Step, rest: seq<Step>)
    requires Enabled(cfg, c, e)
    ensures Run(cfg, c, [e] + rest) == Run(cfg, Apply(cfg, c, e), rest)
  {
    assert ([e] + rest)[0] == e && ([e] + rest)[1..] == rest;
  }

  lemma {:induction false} RunLifted(cfg: Ports.Config, c: Service, schedule: seq<Startup.Step>, rest: seq<Step>)
    requires c.held == map[] && TakeNoPorts(schedule)
    requires Startup.Run(c.protocol, schedule).Some?
    ensures Run(cfg, c, Lifted(schedule) + rest)
         == Run(cfg, c.(protocol := Startup.Run(c.protocol, schedule).value), rest)
    decreases |schedule|
  {
    hide Run, Startup.Apply, Startup.Enabled, Apply, Enabled, LiftedStep;
    if schedule == [] {
      assert Lifted(schedule) + rest == rest;
    } else {
      var step := schedule[0];
      var e := LiftedStep(step);
      assert TakesNoPort(step);
      LiftedStepApplies(cfg, c, step);
      assert Lifted(schedule) + rest == [e] + (Lifted(schedule[1..]) + rest);
      RunStep(cfg, c, e, Lifted(schedule[1..]) + rest);
      RunLifted(cfg, Apply(cfg, c, e), schedule[1..], rest);
    }
  }

  /** The range has two ports above 0, and one resource may have both. */
  predicate TwoPorts(cfg: Ports.Config)
  {
    0 < cfg.rangeStart < cfg.rangeEnd && (cfg.maxPerResource <= 0 || cfg.maxPerResource >= 2)
  }

  lemma TwoPortsForOne(cfg: Ports.Config, r: string)
    requires TwoPorts(cfg)
    ensures var (s1, p1) := Ports.Allocate(cfg, Ports.State(map[], map[]), 0, r);
            p1.Ok? && Ports.Allocate(cfg, s1, 0, r).1.Ok?
  {
    var first := cfg.rangeStart;
    var s1 := Ports.Assign(Ports.State(map[], map[]), first, r);
    assert Ports.FirstFree(map[], first, cfg.rangeEnd) == Some(first);
    assert Ports.Allocate(cfg, Ports.State(map[], map[]), 0, r) == (s1, Ok(first));
    assert Ports.FirstFree(s1.ports, first + 1, cfg.rangeEnd) == Some(first + 1);
    assert Ports.FirstFree(s1.ports, first, cfg.rangeEnd) == Some(first + 1);
  }

  function BothSucceed(t: nat, u: nat): seq<Step>
  {
    [TakePort(t), TakePort(u), Healthy(t), Healthy(u), Enter(t, "a"), Enter(u, "b")]
  }

  /** Thread t has taken a port. */
  lemma Takes(cfg: Ports.Config, c: Service, t: nat, rest: seq<Step>)
    requires t < |c.protocol.threads| && c.protocol.threads[t].Starting? && t !in c.held && TakenBy(cfg, c, t).1.Ok?
    ensures Run(cfg, c, [TakePort(t)] + rest)
         == Run(cfg, c.(ports := TakenBy(cfg, c, t).0, held := c.held[t := TakenBy(cfg, c, t).1.value]), rest)
  {
    RunStep(cfg, c, TakePort(t), rest);
  }

  lemma Succeeds(cfg: Ports.Config, c: Service, t: nat, rest: seq<Step>)
    requires t < |c.protocol.threads| && c.protocol.threads[t].Starting? && t in c.held
    ensures var pc := c.protocol.threads[t];
            Run(cfg, c, [Healthy(t)] + rest) ==
            Run(cfg, c.(protocol := Startup.Goto(c.protocol, t, Startup.Registering(pc.f, pc.e))), rest)
  {
    RunStep(cfg, c, Healthy(t), rest);
  }

  lemma BothEnter(cfg: Ports.Config, c: Service, t: nat, u: nat, f: string)
    requires t < |c.protocol.threads| && u < |c.protocol.threads| && t != u && t in c.held && u in c.held
    requires c.protocol.threads[t].Registering? && c.protocol.threads[t].f == f
    requires c.protocol.threads[u].Registering? && c.protocol.threads[u].f == f
    ensures var r := Run(cfg, c, [Enter(t, "a"), Enter(u, "b")]); r.Some? && r.value.protocol.overwritten
  {
    var c1 := Apply(cfg, c, Enter(t, "a"));
    assert c1.protocol.threads[u] == c.protocol.threads[u] && u in c1.held && f in c1.protocol.pool;
    RunStep(cfg, c1, Enter(u, "b"), []);
    RunStep(cfg, c, Enter(t, "a"), [Enter(u, "b")]);
  }

  lemma BothSucceedOverwrites(cfg: Ports.Config, c: Service, t: nat, u: nat, f: string)
    requires TwoPorts(cfg) && c.ports == Ports.State(map[], map[]) && c.held == map[] && t != u
    requires Startup.StartingFor(c.protocol, t, f) && Startup.StartingFor(c.protocol, u, f)
    ensures var r := Run(cfg, c, BothSucceed(t, u)); r.Some? && r.value.protocol.overwritten
  {
    hide Run, Ports.Allocate, TwoPorts, Pool.Owner;
    TwoPortsForOne(cfg, Pool.Owner(f));
    var (s1, p1) := TakenBy(cfg, c, t);
    var c1 := c.(ports := s1, held := c.held[t := p1.value]);
    var (s2, p2) := TakenBy(cfg, c1, u);
    var c2 := c1.(ports := s2, held := c1.held[u := p2.value]);
    var c3 := c2.(protocol := Startup.Goto(c.protocol, t, Startup.Registering(f, c.protocol.threads[t].e)));
    var c4 := c3.(protocol := Startup.Goto(c3.protocol, u, Startup.Registering(f, c.protocol.threads[u].e)));
    var entering := [Enter(t, "a"), Enter(u, "b")];
    assert BothSucceed(t, u) == [TakePort(t)] + ([TakePort(u)] + ([Healthy(t)] + ([Healthy(u)] + entering)));
    Takes(cfg, c, t, [TakePort(u)] + ([Healthy(t)] + ([Healthy(u)] + entering)));
    Takes(cfg, c1, u, [Healthy(t)] + ([Healthy(u)] + entering));
    Succeeds(cfg, c2, t, [Healthy(u)] + entering);
    Succeeds(cfg, c3, u, entering);
    BothEnter(cfg, c4, t, u, f);
  }

  /** Two invocations of a function; one start fails while the other invocation waits, and both start then. */
  function DoubleStart(f: string): seq<Startup.Step>
  {
    Startup.FirstInvocation(0, f) + [Startup.Invoke(1, f), Startup.Check(1), Startup.Get(1), Startup.StartFails(0)]
    + ([Startup.Drop(0)] + (Startup.WaiterStarts(0, 1) + Startup.FirstInvocation(0, f)))
  }

  lemma DoubleStartRuns(f: string)
    ensures var r := Startup.Run(Startup.Initial(2), DoubleStart(f));
            r.Some? && Startup.StartingFor(r.value, 0, f) && Startup.StartingFor(r.value, 1, f)
  {
    hide Startup.Run, Startup.CleanRun, Startup.Inv, Startup.FirstInvocation, Startup.WaiterStarts, Startup.Apply;
    var failing := Startup.FirstInvocation(0, f)
                   + [Startup.Invoke(1, f), Startup.Check(1), Startup.Get(1), Startup.StartFails(0)];
    var starting := Startup.WaiterStarts(0, 1) + Startup.FirstInvocation(0, f);
    Startup.AwaitedDropIsReachable(f);
    var s := Startup.Run(Startup.Initial(2), failing).value;
    InitialProtocol(2);
    Startup.CleanRunKeepsInv(Startup.Initial(2), failing);
    assert s.threads[1] == Startup.Blocked(f, s.threads[0].e);
    Startup.AwaitedDropAllowsDoubleStart(s, 0, 1);
    Startup.RunStep(s, Startup.Drop(0), starting);
    Startup.RunConcat(Startup.Initial(2), failing, [Startup.Drop(0)] + starting);
  }

  predicate TakeNoPorts(schedule: seq<Startup.Step>)
  {
    forall step <- schedule :: TakesNoPort(step)
  }

  lemma PiecesTakeNoPorts(t: nat, u: nat, f: string)
    ensures TakeNoPorts(Startup.FirstInvocation(t, f)) && TakeNoPorts(Startup.WaiterStarts(t, u))
    ensures TakeNoPorts([Startup.Invoke(u, f), Startup.Check(u), Startup.Get(u), Startup.StartFails(t)])
    ensures TakeNoPorts([Startup.Drop(t)])
  {
  }

  lemma DoubleStartTakesNoPort(f: string)
    ensures TakeNoPorts(DoubleStart(f))
  {
    hide TakesNoPort, Startup.FirstInvocation, Startup.WaiterStarts;
    PiecesTakeNoPorts(0, 1, f);
  }

  /**
   * With any range of two ports above 0 there is a schedule that loses a port: after one failed start
   * two invocations start the same function, and the second entry replaces the first.
   */
  lemma DoubleStartLosesPort(cfg: Ports.Config, f: string)
    requires TwoPorts(cfg)
    ensures var r := Run(cfg, Initial(2), Lifted(DoubleStart(f)) + BothSucceed(0, 1));
            r.Some? && exists port :: Leaked(r.value, port)
  {
    hide Run, Lifted, DoubleStart, BothSucceed, Leaked, Startup.Run;
    DoubleStartRuns(f);
    DoubleStartTakesNoPort(f);
    RunLifted(cfg, Initial(2), DoubleStart(f), BothSucceed(0, 1));
    var c := Initial(2).(protocol := Startup.Run(Startup.Initial(2), DoubleStart(f)).value);
    BothSucceedOverwrites(cfg, c, 0, 1, f);
    PortIsLostExactlyWhenOverwritten(cfg, 2, Lifted(DoubleStart(f)) + BothSucceed(0, 1));
  }
}
