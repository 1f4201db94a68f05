// The port allocator: cyclic first fit over a range, with one count per resource.
module Ports {
  import opened Wrappers

  datatype Config = Config(rangeStart: int, rangeEnd: int, maxPerResource: int)

  /** Which resource each port belongs to, and how many ports each resource has. */
  datatype State = State(ports: map<int, string>, counts: map<string, int>)

  datatype Refusal = ResourceLimit | Exhausted

  predicate InRange(cfg: Config, port: int)
  {
    cfg.rangeStart <= port <= cfg.rangeEnd
  }

  function Count(s: State, r: string): int
  {
    if r in s.counts then s.counts[r] else 0
  }

  predicate AtLimit(cfg: Config, s: State, r: string)
  {
    cfg.maxPerResource > 0 && Count(s, r) >= cfg.maxPerResource
  }

  function Assign(s: State, port: int, r: string): State
  {
    State(s.ports[port := r], s.counts[r := Count(s, r) + 1])
  }

  function Release(s: State, port: int): State
  {
    if port !in s.ports then s
    else
      var r := s.ports[port];
      State(s.ports - {port}, if Count(s, r) - 1 <= 0 then s.counts - {r} else s.counts[r := Count(s, r) - 1])
  }

  /** The lowest unused port between the bounds. */
  function FirstFree(ports: map<int, string>, lo: int, hi: int): Option<int>
    decreases hi - lo
  {
    if lo > hi then None else if lo !in ports then Some(lo) else FirstFree(ports, lo + 1, hi)
  }

  /** The preferred port, else the first free one above it, else the first free one below it. */
  function Choose(cfg: Config, ports: map<int, string>, preferred: int): Option<int>
  {
    if preferred !in ports && InRange(cfg, preferred) then Some(preferred)
    else
      var start := if preferred + 1 < cfg.rangeStart then cfg.rangeStart else preferred + 1;
      var above := FirstFree(ports, start, cfg.rangeEnd);
      if above.Some? then above else FirstFree(ports, cfg.rangeStart, preferred - 1)
  }

  function Take(s: State, choice: Option<int>, r: string): (State, Result<int, Refusal>)
  {
    if choice.None? then (s, Err(Exhausted)) else (Assign(s, choice.value, r), Ok(choice.value))
  }

  function Allocate(cfg: Config, s: State, preferred: int, r: string): (State, Result<int, Refusal>)
  {
    if AtLimit(cfg, s, r) then (s, Err(ResourceLimit)) else Take(s, Choose(cfg, s.ports, preferred), r)
  }

  function AllocateAny(cfg: Config, s: State, r: string): (State, Result<int, Refusal>)
  {
    if AtLimit(cfg, s, r) then (s, Err(ResourceLimit))
    else Take(s, FirstFree(s.ports, cfg.rangeStart, cfg.rangeEnd), r)
  }

  lemma {:induction false} FirstFreeIsLowest(ports: map<int, string>, lo: int, hi: int)
    ensures var p := FirstFree(ports, lo, hi);
            && (p == None <==> forall q :: lo <= q <= hi ==> q in ports)
            && (p.Some? ==> lo <= p.value <= hi && p.value !in ports && forall q :: lo <= q < p.value ==> q in ports)
    decreases hi - lo
  {
    if lo <= hi && lo in ports {
      FirstFreeIsLowest(ports, lo + 1, hi);
    }
  }

  /** The lowest free port is determined by these facts, so a linear search finds it. */
  lemma LowestIsFirstFree(ports: map<int, string>, lo: int, hi: int, p: int)
    requires forall q :: lo <= q < p ==> q in ports
    ensures lo <= p <= hi && p !in ports ==> FirstFree(ports, lo, hi) == Some(p)
    ensures p > hi ==> FirstFree(ports, lo, hi) == None
  {
    FirstFreeIsLowest(ports, lo, hi);
  }

  class PortManager {
    const cfg: Config
    var ports: map<int, string>
    var resourcePorts: map<string, int>

    ghost function Contents(): State
      reads this
    {
      State(ports, resourcePorts)
    }

    constructor (cfg: Config)
      ensures this.cfg == cfg && Contents() == State(map[], map[])
    {
      this.cfg, ports, resourcePorts := cfg, map[], map[];
    }

    method IsLimited(r: string) returns (limited: bool)
      ensures limited == AtLimit(cfg, Contents(), r)
    {
      var count := if r in resourcePorts then resourcePorts[r] else 0;
      limited := cfg.maxPerResource > 0 && count >= cfg.maxPerResource;
    }

    method AssignPort(port: int, r: string)
      modifies this
      ensures Contents() == Assign(old(Contents()), port, r)
    {
      ports := ports[port := r];
      resourcePorts := resourcePorts[r := (if r in resourcePorts then resourcePorts[r] else 0) + 1];
    }

    /** One linear search. */
    method Search(lo: int, hi: int) returns (found: Option<int>)
      ensures found == FirstFree(ports, lo, hi)
    {
      var port := lo;
      while port <= hi
        invariant forall q :: lo <= q < port ==> q in ports
        invariant lo <= port
      {
        if port !in ports {
          LowestIsFirstFree(ports, lo, hi, port);
          return Some(port);
        }
        port := port + 1;
      }
      LowestIsFirstFree(ports, lo, hi, port);
      return None;
    }

    method AllocatePort(preferred: int, r: string) returns (result: Result<int, Refusal>)
      modifies this
      ensures (Contents(), result) == Allocate(cfg, old(Contents()), preferred, r)
    {
      var limited := IsLimited(r);
      if limited {
        return Err(ResourceLimit);
      }
      if preferred !in ports && InRange(cfg, preferred) {
        AssignPort(preferred, r);
        return Ok(preferred);
      }
      var start := preferred + 1;
      if start < cfg.rangeStart {
        start := cfg.rangeStart;
      }
      var found := Search(start, cfg.rangeEnd);
      if found.None? {
        found := Search(cfg.rangeStart, preferred - 1);
      }
      if found.None? {
        return Err(Exhausted);
      }
      AssignPort(found.value, r);
      return Ok(found.value);
    }

    method AllocateAnyPort(r: string) returns (result: Result<int, Refusal>)
      modifies this
      ensures (Contents(), result) == AllocateAny(cfg, old(Contents()), r)
    {
      var limited := IsLimited(r);
      if limited {
        return Err(ResourceLimit);
      }
      var found := Search(cfg.rangeStart, cfg.rangeEnd);
      if found.None? {
        return Err(Exhausted);
      }
      AssignPort(found.value, r);
      return Ok(found.value);
    }

    method ReleasePort(port: int)
      modifies this
      ensures Contents() == Release(old(Contents()), port)
    {
      if port !in ports {
        return;
      }
      var r := ports[port];
      ports := ports - {port};
      var left := (if r in resourcePorts then resourcePorts[r] else 0) - 1;
      resourcePorts := resourcePorts[r := left];
      if left <= 0 {
        resourcePorts := resourcePorts - {r};
      }
      assert resourcePorts == Release(old(Contents()), port).counts;
    }
  }

  // ---------------------------------------------------------------- which port is chosen

  /** How many steps lead from the preferred port to this one, going up and wrapping round the range. */
  function Distance(cfg: Config, preferred: int, port: int): int
  {
    if port >= preferred then port - preferred else (cfg.rangeEnd - preferred + 1) + (port - cfg.rangeStart)
  }

  /**
   * Cyclic first fit: the free port of the range that comes first after the preferred one, and failure only when
   * full.
   */
  lemma ChoiceIsCyclicFirstFit(cfg: Config, ports: map<int, string>, preferred: int)
    requires InRange(cfg, preferred)
    ensures var p := Choose(cfg, ports, preferred);
            && (p == None <==> forall q :: InRange(cfg, q) ==> q in ports)
            && (p.Some? ==>
                  && InRange(cfg, p.value) && p.value !in ports
                  && forall q :: InRange(cfg, q) && q !in ports ==>
                       Distance(cfg, preferred, p.value) <= Distance(cfg, preferred, q))
  {
    FirstFreeIsLowest(ports, preferred + 1, cfg.rangeEnd);
    FirstFreeIsLowest(ports, cfg.rangeStart, preferred - 1);
  }

  /** Below the range, and one above it, the choice is the lowest free port of the range. */
  lemma ChoiceOutsideIsLowest(cfg: Config, ports: map<int, string>, preferred: int)
    requires preferred < cfg.rangeStart || preferred == cfg.rangeEnd + 1
    ensures Choose(cfg, ports, preferred) == FirstFree(ports, cfg.rangeStart, cfg.rangeEnd)
  {
    FirstFreeIsLowest(ports, cfg.rangeStart, preferred - 1);
    FirstFreeIsLowest(ports, cfg.rangeStart, cfg.rangeEnd);
  }

  /** For every preferred port: when the search fails, and when it hands out a port outside the range. */
  lemma ChoiceFailsOrEscapesExactlyWhen(cfg: Config, ports: map<int, string>, preferred: int)
    ensures var p := Choose(cfg, ports, preferred);
            var last := if preferred - 1 > cfg.rangeEnd then preferred - 1 else cfg.rangeEnd;
            && (p == None <==> forall q :: cfg.rangeStart <= q <= last ==> q in ports)
            && (p.Some? ==> p.value !in ports)
            && (p.Some? && !InRange(cfg, p.value) <==>
                && preferred > cfg.rangeEnd + 1
                && (forall q :: InRange(cfg, q) ==> q in ports)
                && exists q :: cfg.rangeStart <= q < preferred && q !in ports)
  {
    var start := if preferred + 1 < cfg.rangeStart then cfg.rangeStart else preferred + 1;
    FirstFreeIsLowest(ports, start, cfg.rangeEnd);
    FirstFreeIsLowest(ports, cfg.rangeStart, preferred - 1);
  }

  /** With a full range 10..11 and port 20 preferred, port 12 is handed out although it is outside. */
  lemma EscapingPort()
    ensures var cfg := Config(10, 11, 0);
            var full := map[10 := "a", 11 := "a"];
            Choose(cfg, full, 20) == Some(12) && !InRange(cfg, 12)
  {
    var full := map[10 := "a", 11 := "a"];
    assert FirstFree(full, 21, 11) == None;
    assert FirstFree(full, 12, 19) == Some(12);
    assert FirstFree(full, 11, 19) == Some(12);
  }

  // ---------------------------------------------------------------- runs

  ghost function Owned(s: State, r: string): set<int>
  {
    set p | p in s.ports && s.ports[p] == r
  }

  /** The counts are the numbers of owned ports, without zero entries. */
  ghost predicate Consistent(s: State)
  {
    forall r :: Count(s, r) == |Owned(s, r)| && (r in s.counts <==> Owned(s, r) != {})
  }

  ghost predicate WithinLimits(cfg: Config, s: State)
  {
    cfg.maxPerResource > 0 ==> forall r :: |Owned(s, r)| <= cfg.maxPerResource
  }

  ghost predicate AllInRange(cfg: Config, s: State)
  {
    forall p <- s.ports :: InRange(cfg, p)
  }

  lemma AssignOwned(s: State, port: int, r: string)
    requires port !in s.ports
    ensures forall q :: Owned(Assign(s, port, r), q) == if q == r then Owned(s, q) + {port} else Owned(s, q)
    ensures Consistent(s) ==> Consistent(Assign(s, port, r))
  {
    hide Assign, Owned, Count;
    forall q {
      AssignOwnedBy(s, port, r, q);
    }
  }

  lemma AssignOwnedBy(s: State, port: int, r: string, q: string)
    requires port !in s.ports
    ensures var s' := Assign(s, port, r);
            && Owned(s', q) == (if q == r then Owned(s, q) + {port} else Owned(s, q))
            && (Count(s, q) == |Owned(s, q)| && (q in s.counts <==> Owned(s, q) != {}) ==>
                  Count(s', q) == |Owned(s', q)| && (q in s'.counts <==> Owned(s', q) != {}))
  {
    var s' := Assign(s, port, r);
    assert Owned(s', q) == if q == r then Owned(s, q) + {port} else Owned(s, q);
  }

  lemma ReleaseOwned(s: State, port: int)
    ensures forall q :: Owned(Release(s, port), q) == Owned(s, q) - {port}
    ensures Consistent(s) ==> Consistent(Release(s, port))
  {
    hide Release, Owned, Count;
    forall q {
      ReleaseOwnedBy(s, port, q);
    }
  }

  lemma ReleaseOwnedBy(s: State, port: int, q: string)
    ensures var s' := Release(s, port);
            && Owned(s', q) == Owned(s, q) - {port}
            && (Count(s, q) == |Owned(s, q)| && (q in s.counts <==> Owned(s, q) != {}) ==>
                  Count(s', q) == |Owned(s', q)| && (q in s'.counts <==> Owned(s', q) != {}))
  {
    var s' := Release(s, port);
    assert Owned(s', q) == Owned(s, q) - {port};
    if port in s.ports && q != s.ports[port] {
      assert Owned(s, q) - {port} == Owned(s, q);
    }
  }

  datatype Op = AllocateOp(preferred: int, r: string) | AllocateAnyOp(r: string) | ReleaseOp(port: int)

  function Apply(cfg: Config, s: State, op: Op): State
  {
    match op
    case AllocateOp(preferred, r) => Allocate(cfg, s, preferred, r).0
    case AllocateAnyOp(r) => AllocateAny(cfg, s, r).0
    case ReleaseOp(port) => Release(s, port)
  }

  function Run(cfg: Config, s: State, ops: seq<Op>): State
    decreases |ops|
  {
    if ops == [] then s else Run(cfg, Apply(cfg, s, ops[0]), ops[1..])
  }

  predicate NearRange(cfg: Config, op: Op)
  {
    op.AllocateOp? ==> op.preferred <= cfg.rangeEnd + 1
  }

  lemma OpKeepsInvariants(cfg: Config, s: State, op: Op)
    requires Consistent(s) && WithinLimits(cfg, s)
    ensures var s' := Apply(cfg, s, op);
            && Consistent(s') && WithinLimits(cfg, s')
            && (AllInRange(cfg, s) && NearRange(cfg, op) ==> AllInRange(cfg, s'))
  {
    match op
    case AllocateOp(preferred, r) =>
      ChoiceFailsOrEscapesExactlyWhen(cfg, s.ports, preferred);
      if !AtLimit(cfg, s, r) {
        TakeKeepsInvariants(cfg, s, Choose(cfg, s.ports, preferred), r);
      }
    case AllocateAnyOp(r) =>
      FirstFreeIsLowest(s.ports, cfg.rangeStart, cfg.rangeEnd);
      if !AtLimit(cfg, s, r) {
        TakeKeepsInvariants(cfg, s, FirstFree(s.ports, cfg.rangeStart, cfg.rangeEnd), r);
      }
    case ReleaseOp(port) =>
      ReleaseOwned(s, port);
      forall q
        ensures |Owned(Release(s, port), q)| <= |Owned(s, q)|
      {
        assert Owned(Release(s, port), q) == Owned(s, q) - {port};
      }
  }

  lemma TakeKeepsInvariants(cfg: Config, s: State, choice: Option<int>, r: string)
    requires Consistent(s) && WithinLimits(cfg, s) && !AtLimit(cfg, s, r)
    requires choice.Some? ==> choice.value !in s.ports
    ensures Consistent(Take(s, choice, r).0) && WithinLimits(cfg, Take(s, choice, r).0)
  {
    if choice.Some? {
      AssignOwned(s, choice.value, r);
      assert Count(s, r) == |Owned(s, r)|;
    }
  }

  /**
   * Over every sequence of operations the two maps agree, limits hold, and ports stay in range if asked for near
   * it.
   */
  lemma {:induction false} RunKeepsInvariants(cfg: Config, s: State, ops: seq<Op>)
    requires Consistent(s) && WithinLimits(cfg, s)
    ensures var s' := Run(cfg, s, ops);
            && Consistent(s') && WithinLimits(cfg, s')
            && (AllInRange(cfg, s) && (forall op <- ops :: NearRange(cfg, op)) ==> AllInRange(cfg, s'))
    decreases |ops|
  {
    if ops != [] {
      OpKeepsInvariants(cfg, s, ops[0]);
      RunKeepsInvariants(cfg, Apply(cfg, s, ops[0]), ops[1..]);
    }
  }


  // ---------------------------------------------------------------- when a port is granted

  /**
   * A port is granted exactly when the resource is below its limit and the search finds one; the resource then
   * owns it.
   */
  lemma AllocationIsGrantedExactlyWhen(cfg: Config, s: State, preferred: int, r: string)
    requires Consistent(s)
    ensures var (after, result) := Allocate(cfg, s, preferred, r);
            var last := if preferred - 1 > cfg.rangeEnd then preferred - 1 else cfg.rangeEnd;
            && (result.Ok? <==> (cfg.maxPerResource <= 0 || |Owned(s, r)| < cfg.maxPerResource)
                                && exists q :: cfg.rangeStart <= q <= last && q !in s.ports)
            && (result.Ok? ==> result.value !in s.ports && after.ports == s.ports[result.value := r]
                               && Owned(after, r) == Owned(s, r) + {result.value})
            && (result.Err? ==> after == s)
            && (result == Err(ResourceLimit) <==> cfg.maxPerResource > 0 && |Owned(s, r)| >= cfg.maxPerResource)
  {
    ChoiceFailsOrEscapesExactlyWhen(cfg, s.ports, preferred);
    assert Count(s, r) == |Owned(s, r)|;
    if !AtLimit(cfg, s, r) && Choose(cfg, s.ports, preferred).Some? {
      AssignOwned(s, Choose(cfg, s.ports, preferred).value, r);
    }
  }

  /** The same without a preference: the lowest free port of the range. */
  lemma AnyAllocationIsGrantedExactlyWhen(cfg: Config, s: State, r: string)
    requires Consistent(s)
    ensures var (after, result) := AllocateAny(cfg, s, r);
            && (result.Ok? <==> (cfg.maxPerResource <= 0 || |Owned(s, r)| < cfg.maxPerResource)
                                && exists q :: InRange(cfg, q) && q !in s.ports)
            && (result.Ok? ==> InRange(cfg, result.value) && result.value !in s.ports
                               && (forall q :: cfg.rangeStart <= q < result.value ==> q in s.ports)
                               && after.ports == s.ports[result.value := r])
            && (result.Err? ==> after == s)
  {
    FirstFreeIsLowest(s.ports, cfg.rangeStart, cfg.rangeEnd);
    assert Count(s, r) == |Owned(s, r)|;
  }
}
