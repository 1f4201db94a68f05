// Concurrent invocations of Lambda functions: the double-checked start of one container per function.
//
// Each function has a startup entry, a mutex that is shared by the invocations that found the
// function without a container. Every step below is one piece of code under one mutex, or a wait.
module LambdaStartup {
  import opened Wrappers

  type EntryID = nat

  /** Where an invocation of function f stands; e is the startup entry it got. */
  datatype Pc =
    | Idle
    | Checking(f: string)                  // about to look at the pool
    | Getting(f: string)                   // about to get or create the startup entry
    | Blocked(f: string, e: EntryID)       // waiting for the entry's mutex
    | Rechecking(f: string, e: EntryID)    // has the mutex, about to look at the pool again
    | Starting(f: string, e: EntryID)      // startContainer is in flight
    | Registering(f: string, e: EntryID)   // started, about to store the pool entry
    | Dropping(f: string, e: EntryID)      // the start failed, about to delete the startup entry
    | Leaving(e: EntryID)                  // about to unlock the mutex

  /** `overwritten` records whether a live pool entry was ever replaced. */
  datatype State = State(
    pool: set<string>,
    startup: map<string, EntryID>,
    mutexes: seq<Option<nat>>,
    threads: seq<Pc>,
    overwritten: bool)

  datatype Step =
    | Invoke(t: nat, fn: string)
    | Check(t: nat)
    | Get(t: nat)
    | Acquire(t: nat)
    | Recheck(t: nat)
    | Started(t: nat)
    | StartFails(t: nat)
    | Register(t: nat)
    | Drop(t: nat)
    | Leave(t: nat)
    | RemovePooled(fn: string)  // delete, update or shutdown takes the function out of the pool

  predicate Enabled(s: State, step: Step)
  {
    if step.RemovePooled? then true
    else
      && step.t < |s.threads|
      && var pc := s.threads[step.t];
         match step
         case Invoke(_, _) => pc.Idle?
         case Check(_) => pc.Checking?
         case Get(_) => pc.Getting?
         case Acquire(_) => pc.Blocked? && pc.e < |s.mutexes| && s.mutexes[pc.e] == None
         case Recheck(_) => pc.Rechecking?
         case Started(_) => pc.Starting?
         case StartFails(_) => pc.Starting?
         case Register(_) => pc.Registering?
         case Drop(_) => pc.Dropping?
         case Leave(_) => pc.Leaving? && pc.e < |s.mutexes|
  }

  function Goto(s: State, t: nat, pc: Pc): State
    requires t < |s.threads|
  {
    s.(threads := s.threads[t := pc])
  }

  function Apply(s: State, step: Step): State
    requires Enabled(s, step)
  {
    if step.RemovePooled? then s.(pool := s.pool - {step.fn})
    else
      var t := step.t;
      var pc := s.threads[t];
      match step
      case Invoke(_, f) => Goto(s, t, Checking(f))
      case Check(_) => Goto(s, t, if pc.f in s.pool then Idle else Getting(pc.f))
      case Get(_) =>
        if pc.f in s.startup then Goto(s, t, Blocked(pc.f, s.startup[pc.f]))
        else
          Goto(s.(startup := s.startup[pc.f := |s.mutexes|], mutexes := s.mutexes + [None]), t,
               Blocked(pc.f, |s.mutexes|))
      case Acquire(_) => Goto(s.(mutexes := s.mutexes[pc.e := Some(t)]), t, Rechecking(pc.f, pc.e))
      case Recheck(_) => Goto(s, t, if pc.f in s.pool then Leaving(pc.e) else Starting(pc.f, pc.e))
      case Started(_) => Goto(s, t, Registering(pc.f, pc.e))
      case StartFails(_) => Goto(s, t, Dropping(pc.f, pc.e))
      case Register(_) =>
        Goto(s.(pool := s.pool + {pc.f}, overwritten := s.overwritten || pc.f in s.pool), t, Leaving(pc.e))
      case Drop(_) => Goto(s.(startup := s.startup - {pc.f}), t, Leaving(pc.e))
      case Leave(_) => Goto(s.(mutexes := s.mutexes[pc.e := None]), t, Idle)
  }

  function Initial(threads: nat): State
  {
    State({}, map[], [], seq(threads, _ => Idle), false)
  }

  function Run(s: State, schedule: seq<Step>): Option<State>
    decreases |schedule|
  {
    if schedule == [] then Some(s)
    else if !Enabled(s, schedule[0]) then None
    else Run(Apply(s, schedule[0]), schedule[1..])
  }

  // ---------------------------------------------------------------- one start at a time

  /** The invocation still depends on the startup entry of its function. */
  predicate Refers(pc: Pc)
  {
    pc.Blocked? || pc.Rechecking? || pc.Starting? || pc.Registering? || pc.Dropping?
  }

  predicate HoldsMutex(pc: Pc)
  {
    pc.Rechecking? || pc.Starting? || pc.Registering? || pc.Dropping? || pc.Leaving?
  }

  /** From the second look at the pool to the end of the start. */
  predicate InStart(pc: Pc)
  {
    pc.Starting? || pc.Registering? || pc.Dropping?
  }

  predicate StartingFor(s: State, t: nat, f: string)
  {
    t < |s.threads| && s.threads[t].Starting? && s.threads[t].f == f
  }

  ghost predicate SingleStart(s: State)
  {
    forall f, t: nat, u: nat | StartingFor(s, t, f) && StartingFor(s, u, f) :: t == u
  }

  ghost predicate ThreadInv(s: State, t: nat)
    requires t < |s.threads|
  {
    var pc := s.threads[t];
    && (HoldsMutex(pc) ==> pc.e < |s.mutexes| && s.mutexes[pc.e] == Some(t))
    && (Refers(pc) ==> pc.f in s.startup && s.startup[pc.f] == pc.e)
    && (InStart(pc) ==> pc.f !in s.pool)
  }

  ghost predicate EntriesInv(s: State)
  {
    && (forall f <- s.startup :: s.startup[f] < |s.mutexes|)
    && (forall f <- s.startup, g <- s.startup :: s.startup[f] == s.startup[g] ==> f == g)
  }

  ghost predicate Inv(s: State)
  {
    && !s.overwritten
    && EntriesInv(s)
    && forall t :: 0 <= t < |s.threads| ==> ThreadInv(s, t)
  }

  /** Some other invocation still waits on the entry that this one is about to delete. */
  predicate Awaited(s: State, t: nat)
    requires t < |s.threads| && s.threads[t].Dropping?
  {
    exists u :: 0 <= u < |s.threads| && u != t && s.threads[u] == Blocked(s.threads[t].f, s.threads[t].e)
  }

  /** A failed start deletes its entry only when nobody waits on it. */
  predicate Clean(s: State, step: Step)
    requires Enabled(s, step)
  {
    step.Drop? ==> !Awaited(s, step.t)
  }

  predicate CleanRun(s: State, schedule: seq<Step>)
    decreases |schedule|
  {
    schedule == [] ||
    (Enabled(s, schedule[0]) && Clean(s, schedule[0]) && CleanRun(Apply(s, schedule[0]), schedule[1..]))
  }

  lemma InvMeansSingleStart(s: State)
    requires Inv(s)
    ensures SingleStart(s)
  {
    forall f, t: nat, u: nat | StartingFor(s, t, f) && StartingFor(s, u, f)
      ensures t == u
    {
      assert ThreadInv(s, t) && ThreadInv(s, u);
    }
  }

  /** Only one thread at a time is inside the part that an entry's mutex guards. */
  lemma OthersAreOutside(s: State, t: nat, u: nat)
    requires Inv(s) && t < |s.threads| && u < |s.threads| && t != u
    requires HoldsMutex(s.threads[t]) && HoldsMutex(s.threads[u])
    ensures s.threads[t].e != s.threads[u].e
    ensures InStart(s.threads[t]) && InStart(s.threads[u]) ==> s.threads[t].f != s.threads[u].f
  {
    assert ThreadInv(s, t) && ThreadInv(s, u);
  }

  lemma StepKeepsThread(s: State, step: Step, u: nat)
    requires Inv(s) && Enabled(s, step) && Clean(s, step) && u < |s.threads|
    ensures ThreadInv(Apply(s, step), u)
  {
    assert ThreadInv(s, u);
    if !step.RemovePooled? {
      var t := step.t;
      assert ThreadInv(s, t);
      if u != t && HoldsMutex(s.threads[t]) && HoldsMutex(s.threads[u]) {
        OthersAreOutside(s, t, u);
      }
    }
  }

  lemma CleanStepKeepsInv(s: State, step: Step)
    requires Inv(s) && Enabled(s, step) && Clean(s, step)
    ensures Inv(Apply(s, step))
  {
    hide ThreadInv;
    if step.Register? {
      RegisteredIsNew(s, step.t);
    }
    forall u | 0 <= u < |s.threads| {
      StepKeepsThread(s, step, u);
    }
  }

  lemma RegisteredIsNew(s: State, t: nat)
    requires Inv(s) && t < |s.threads| && s.threads[t].Registering?
    ensures s.threads[t].f !in s.pool
  {
    assert ThreadInv(s, t);
  }

  lemma {:induction false} CleanRunKeepsInv(s: State, schedule: seq<Step>)
    requires Inv(s) && CleanRun(s, schedule)
    ensures Run(s, schedule).Some? && Inv(Run(s, schedule).value)
    decreases |schedule|
  {
    hide Inv;
    if schedule != [] {
      CleanStepKeepsInv(s, schedule[0]);
      CleanRunKeepsInv(Apply(s, schedule[0]), schedule[1..]);
    }
  }

  lemma {:induction false} WithoutFailuresRunsAreClean(s: State, schedule: seq<Step>)
    requires Run(s, schedule).Some?
    requires forall step <- schedule :: !step.StartFails?
    requires forall t :: 0 <= t < |s.threads| ==> !s.threads[t].Dropping?
    ensures CleanRun(s, schedule)
    decreases |schedule|
  {
    if schedule != [] {
      assert !schedule[0].StartFails?;
      WithoutFailuresRunsAreClean(Apply(s, schedule[0]), schedule[1..]);
    }
  }

  /**
   * When no start fails, in every interleaving a function has at most one start in flight and no live entry is
   * replaced.
   */
  lemma SingleStartWithoutFailures(threads: nat, schedule: seq<Step>)
    requires Run(Initial(threads), schedule).Some?
    requires forall step <- schedule :: !step.StartFails?
    ensures var s := Run(Initial(threads), schedule).value; SingleStart(s) && !s.overwritten
  {
    WithoutFailuresRunsAreClean(Initial(threads), schedule);
    SingleStartInCleanRuns(threads, schedule);
  }

  /** The same when starts fail, as long as no failing start leaves somebody waiting on the entry it deletes. */
  lemma SingleStartInCleanRuns(threads: nat, schedule: seq<Step>)
    requires CleanRun(Initial(threads), schedule)
    ensures Run(Initial(threads), schedule).Some?
    ensures var s := Run(Initial(threads), schedule).value; SingleStart(s) && !s.overwritten
  {
    CleanRunKeepsInv(Initial(threads), schedule);
    InvMeansSingleStart(Run(Initial(threads), schedule).value);
  }

  // ---------------------------------------------------------------- what a failed start can break

  /** The waiter starts a container under the deleted entry. */
  function WaiterStarts(t: nat, u: nat): seq<Step>
  {
    [Leave(t), Acquire(u), Recheck(u)]
  }

  /** An invocation that finds neither container nor startup entry. */
  function FirstInvocation(t: nat, f: string): seq<Step>
  {
    [Invoke(t, f), Check(t), Get(t), Acquire(t), Recheck(t)]
  }

  /** Both starts succeed, and the second replaces the pool entry of the first. */
  function OverwriteSchedule(t: nat, u: nat): seq<Step>
  {
    [Started(u), Started(t), Register(u), Register(t)]
  }

  lemma RunStep(s: State, step: Step, rest: seq<Step>)
    requires Enabled(s, step)
    ensures Run(s, [step] + rest) == Run(Apply(s, step), rest)
    ensures Clean(s, step) && CleanRun(Apply(s, step), rest) ==> CleanRun(s, [step] + rest)
  {
    assert ([step] + rest)[1..] == rest;
  }

  lemma RunNothing(s: State)
    ensures CleanRun(s, []) && Run(s, []) == Some(s)
  {
  }

  lemma {:induction false} RunConcat(s: State, a: seq<Step>, b: seq<Step>)
    requires CleanRun(s, a) && Run(s, a).Some?
    ensures Run(s, a + b) == Run(Run(s, a).value, b)
    ensures CleanRun(Run(s, a).value, b) ==> CleanRun(s, a + b)
    decreases |a|
  {
    if a == [] {
      assert a + b == b;
    } else {
      assert (a + b)[1..] == a[1..] + b;
      RunConcat(Apply(s, a[0]), a[1..], b);
    }
  }

  /** Invocation t of f after `k` steps from a state in which f has neither container nor startup entry. */
  function FirstInvocationAt(s: State, t: nat, f: string, k: nat): State
    requires t < |s.threads|
  {
    var e := |s.mutexes|;
    if k == 0 then s
    else if k == 1 then Goto(s, t, Checking(f))
    else if k == 2 then Goto(s, t, Getting(f))
    else
      Goto(s.(startup := s.startup[f := e], mutexes := s.mutexes + [if k == 3 then None else Some(t)]), t,
           if k == 3 then Blocked(f, e) else if k == 4 then Rechecking(f, e) else Starting(f, e))
  }

  lemma FirstInvocationStep(s: State, t: nat, f: string, k: nat)
    requires t < |s.threads| && s.threads[t].Idle? && f !in s.pool && f !in s.startup && k < 5
    ensures var before, step := FirstInvocationAt(s, t, f, k), FirstInvocation(t, f)[k];
            Enabled(before, step) && Clean(before, step) && Apply(before, step) == FirstInvocationAt(s, t, f, k + 1)
  {
    var before, step := FirstInvocationAt(s, t, f, k), FirstInvocation(t, f)[k];
    assert s.threads[t := before.threads[t]] == before.threads;
    assert Apply(before, step).threads == FirstInvocationAt(s, t, f, k + 1).threads;
    assert k == 3 ==> Apply(before, step).mutexes == FirstInvocationAt(s, t, f, 4).mutexes;
  }

  lemma {:induction false} FirstInvocationRuns(s: State, t: nat, f: string, k: nat)
    requires t < |s.threads| && s.threads[t].Idle? && f !in s.pool && f !in s.startup && k <= 5
    ensures var from, rest := FirstInvocationAt(s, t, f, k), FirstInvocation(t, f)[k..];
            CleanRun(from, rest) && Run(from, rest) == Some(FirstInvocationAt(s, t, f, 5))
    decreases 5 - k
  {
    hide Run, CleanRun, FirstInvocationAt, Apply, Enabled;
    var all := FirstInvocation(t, f);
    if k == 5 {
      RunNothing(FirstInvocationAt(s, t, f, 5));
      assert all[5..] == [];
    } else {
      FirstInvocationStep(s, t, f, k);
      FirstInvocationRuns(s, t, f, k + 1);
      RunStep(FirstInvocationAt(s, t, f, k), all[k], all[k + 1..]);
      assert all[k..] == [all[k]] + all[k + 1..];
    }
  }

  lemma FirstInvocationStarts(s: State, t: nat, f: string)
    requires t < |s.threads| && s.threads[t].Idle? && f !in s.pool && f !in s.startup
    ensures var r := Run(s, FirstInvocation(t, f));
            && CleanRun(s, FirstInvocation(t, f)) && r.Some?
            && r.value == State(s.pool, s.startup[f := |s.mutexes|], s.mutexes + [Some(t)],
                                s.threads[t := Starting(f, |s.mutexes|)], s.overwritten)
  {
    hide Run, CleanRun, FirstInvocation;
    FirstInvocationRuns(s, t, f, 0);
    assert FirstInvocation(t, f)[0..] == FirstInvocation(t, f);
  }

  lemma DroppedEntryStillStarts(s: State, t: nat, u: nat)
    requires Inv(s) && t < |s.threads| && u < |s.threads| && t != u
    requires s.threads[t].Dropping? && s.threads[u] == Blocked(s.threads[t].f, s.threads[t].e)
    ensures var f, s1 := s.threads[t].f, Apply(s, Drop(t));
            var r := Run(s1, WaiterStarts(t, u));
            && CleanRun(s1, WaiterStarts(t, u))
            && r.Some? && |r.value.threads| == |s.threads|
            && StartingFor(r.value, u, f) && r.value.threads[t].Idle?
            && f !in r.value.pool && f !in r.value.startup
  {
    assert ThreadInv(s, t);
    var s1 := Apply(s, Drop(t));
    var s2 := Apply(s1, Leave(t));
    var s3 := Apply(s2, Acquire(u));
    RunStep(s3, Recheck(u), []);
    RunStep(s2, Acquire(u), [Recheck(u)]);
    RunStep(s1, Leave(t), [Acquire(u), Recheck(u)]);
  }

  /** Deleting an awaited entry is enough: a schedule without any further failure starts the function twice. */
  lemma AwaitedDropAllowsDoubleStart(s: State, t: nat, u: nat)
    requires Inv(s) && t < |s.threads| && u < |s.threads| && t != u
    requires s.threads[t].Dropping? && s.threads[u] == Blocked(s.threads[t].f, s.threads[t].e)
    ensures var f, s1 := s.threads[t].f, Apply(s, Drop(t));
            var schedule := WaiterStarts(t, u) + FirstInvocation(t, f);
            var r := Run(s1, schedule);
            && CleanRun(s1, schedule)
            && r.Some? && StartingFor(r.value, t, f) && StartingFor(r.value, u, f)
  {
    hide Apply, WaiterStarts, FirstInvocation, Run, CleanRun;
    var f, s1 := s.threads[t].f, Apply(s, Drop(t));
    DroppedEntryStillStarts(s, t, u);
    var s2 := Run(s1, WaiterStarts(t, u)).value;
    FirstInvocationStarts(s2, t, f);
    RunConcat(s1, WaiterStarts(t, u), FirstInvocation(t, f));
  }

  /** Such a state is reached when one of two invocations fails to start the container. */
  lemma AwaitedDropIsReachable(f: string)
    ensures var r := Run(Initial(2), FirstInvocation(0, f) + [Invoke(1, f), Check(1), Get(1), StartFails(0)]);
            r.Some? && |r.value.threads| == 2 && r.value.threads[0].Dropping? && Awaited(r.value, 0)
            && r.value.threads[0].f == f
    ensures CleanRun(Initial(2), FirstInvocation(0, f) + [Invoke(1, f), Check(1), Get(1), StartFails(0)])
  {
    FirstInvocationStarts(Initial(2), 0, f);
    var s := Run(Initial(2), FirstInvocation(0, f)).value;
    var s1 := Apply(s, Invoke(1, f));
    var s2 := Apply(s1, Check(1));
    var s3 := Apply(s2, Get(1));
    var s4 := Apply(s3, StartFails(0));
    RunStep(s3, StartFails(0), []);
    RunStep(s2, Get(1), [StartFails(0)]);
    RunStep(s1, Check(1), [Get(1), StartFails(0)]);
    RunStep(s, Invoke(1, f), [Check(1), Get(1), StartFails(0)]);
    RunConcat(Initial(2), FirstInvocation(0, f), [Invoke(1, f), Check(1), Get(1), StartFails(0)]);
    assert s4.threads[1] == Blocked(s4.threads[0].f, s4.threads[0].e);
  }

  /** A failed start makes a double start possible if and only if somebody waits on the entry it deletes. */
  lemma DoubleStartPossibleExactlyWhen(s: State, t: nat)
    requires Inv(s) && Enabled(s, Drop(t))
    ensures (exists schedule :: CleanRun(Apply(s, Drop(t)), schedule) && Run(Apply(s, Drop(t)), schedule).Some? &&
                                !SingleStart(Run(Apply(s, Drop(t)), schedule).value))
       <==> Awaited(s, t)
  {
    var s1 := Apply(s, Drop(t));
    if Awaited(s, t) {
      var u :| 0 <= u < |s.threads| && u != t && s.threads[u] == Blocked(s.threads[t].f, s.threads[t].e);
      AwaitedDropAllowsDoubleStart(s, t, u);
      assert CleanRun(s1, WaiterStarts(t, u) + FirstInvocation(t, s.threads[t].f));
    } else {
      CleanStepKeepsInv(s, Drop(t));
      forall schedule | CleanRun(s1, schedule)
        ensures Run(s1, schedule).Some? && SingleStart(Run(s1, schedule).value)
      {
        CleanRunKeepsInv(s1, schedule);
        InvMeansSingleStart(Run(s1, schedule).value);
      }
    }
  }

  /** Two concurrent starts of one function end with a live pool entry being overwritten. */
  lemma DoubleStartOverwrites(s: State, t: nat, u: nat, f: string)
    requires t != u && StartingFor(s, t, f) && StartingFor(s, u, f)
    ensures var r := Run(s, OverwriteSchedule(t, u)); r.Some? && r.value.overwritten
  {
    var s1 := Apply(s, Started(u));
    var s2 := Apply(s1, Started(t));
    var s3 := Apply(s2, Register(u));
    RunStep(s3, Register(t), []);
    RunStep(s2, Register(u), [Register(t)]);
    RunStep(s1, Started(t), [Register(u), Register(t)]);
    RunStep(s, Started(u), [Started(t), Register(u), Register(t)]);
  }


  // ---------------------------------------------------------------- how an invocation gets on

  /**
   * What each step of an invocation depends on: it passes without a start only when the function is in
   * the pool as it looks, starts only when it is not, under the entry's mutex, and pools what it started.
   */
  lemma InvocationGoesOn(s: State, step: Step)
    requires Enabled(s, step) && !step.RemovePooled?
    ensures var s', t := Apply(s, step), step.t;
            && |s'.threads| == |s.threads|
            && (forall u :: 0 <= u < |s.threads| && u != t ==> s'.threads[u] == s.threads[u])
            && var pc, pc' := s.threads[t], s'.threads[t];
               && (pc.Checking? ==> (if pc.f in s.pool then pc' == Idle else pc' == Getting(pc.f)) && s'.pool == s.pool)
               && (pc.Getting? ==> pc'.Blocked? && pc'.f == pc.f && pc.f in s'.startup && s'.startup[pc.f] == pc'.e)
               && (pc.Blocked? ==>
                     pc' == Rechecking(pc.f, pc.e) && s.mutexes[pc.e] == None && s'.mutexes[pc.e] == Some(t))
               && (pc.Rechecking? ==> pc' == if pc.f in s.pool then Leaving(pc.e) else Starting(pc.f, pc.e))
               && (pc.Starting? ==> pc' == if step.Started? then Registering(pc.f, pc.e) else Dropping(pc.f, pc.e))
               && (pc.Registering? ==> pc' == Leaving(pc.e) && s'.pool == s.pool + {pc.f})
               && (pc.Dropping? ==> pc' == Leaving(pc.e) && s'.startup == s.startup - {pc.f})
               && (pc.Leaving? ==> pc' == Idle && s'.mutexes[pc.e] == None)
  {
  }
}
