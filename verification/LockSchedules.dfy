// Every interleaving of Lock, TryLock and Unlock by any number of threads.
//
// A thread in Lock captures a channel inside the mutex, leaves the mutex, and then waits for
// that channel to be closed or for its context to end. The steps below are the atomic pieces
// of that protocol; a schedule is any sequence of enabled steps.
module LockSchedules {
  import opened Wrappers
  import opened Locks

  datatype Pc =
    | Idle
    | Entering(want: string)             // in Lock, about to take the mutex
    | Waiting(key: string, ch: Channel)  // in Lock, blocked in the select

  datatype Thread = Thread(pc: Pc, holds: set<string>)

  datatype State = State(table: Table, threads: seq<Thread>, panicked: bool)

  datatype Step =
    | CallLock(t: nat, key: string)
    | Enter(t: nat)    // the mutex-guarded part of one turn of Lock
    | Wake(t: nat)     // the captured channel is closed
    | Timeout(t: nat)  // the context ended first
    | CallUnlock(t: nat, key: string)
    | CallTryLock(t: nat, key: string)

  predicate Enabled(s: State, e: Step)
  {
    && e.t < |s.threads|
    && var pc := s.threads[e.t].pc;
       match e
       case CallLock(_, _) => pc.Idle?
       case Enter(_) => pc.Entering?
       case Wake(_) => pc.Waiting? && pc.ch < |s.table.closed| && s.table.closed[pc.ch]
       case Timeout(_) => pc.Waiting?
       case CallUnlock(_, _) => pc.Idle?
       case CallTryLock(_, _) => pc.Idle?
  }

  function Acquire(s: State, t: nat, key: string): State
    requires t < |s.threads|
  {
    s.(table := Register(s.table, key),
       threads := s.threads[t := Thread(Idle, s.threads[t].holds + {key})])
  }

  function MoveTo(s: State, t: nat, pc: Pc): State
    requires t < |s.threads|
  {
    s.(threads := s.threads[t := s.threads[t].(pc := pc)])
  }

  /** Closing a channel that is not open panics. A caller that unlocks no longer counts as a holder. */
  function Release(s: State, t: nat, key: string): State
    requires t < |s.threads|
  {
    var after := s.(threads := s.threads[t := s.threads[t].(holds := s.threads[t].holds - {key})]);
    if key !in s.table.locks then after
    else if s.table.locks[key] >= |s.table.closed| || s.table.closed[s.table.locks[key]] then
      after.(panicked := true)
    else
      after.(table := Deregister(s.table, key))
  }

  function Apply(s: State, e: Step): State
    requires Enabled(s, e)
  {
    var pc := s.threads[e.t].pc;
    match e
    case CallLock(t, key) => MoveTo(s, t, Entering(key))
    case Enter(t) =>
      if pc.want in s.table.locks then MoveTo(s, t, Waiting(pc.want, s.table.locks[pc.want]))
      else Acquire(s, t, pc.want)
    case Wake(t) => MoveTo(s, t, Entering(pc.key))
    case Timeout(t) => MoveTo(s, t, Idle)
    case CallUnlock(t, key) => Release(s, t, key)
    case CallTryLock(t, key) => if key in s.table.locks then s else Acquire(s, t, key)
  }

  /** The state after a schedule, or None when some step of it is not enabled. */
  function Run(s: State, schedule: seq<Step>): Option<State>
    decreases |schedule|
  {
    if schedule == [] then Some(s)
    else if !Enabled(s, schedule[0]) then None
    else Run(Apply(s, schedule[0]), schedule[1..])
  }

  function Initial(threads: nat): State
  {
    State(Table(map[], []), seq(threads, _ => Thread(Idle, {})), false)
  }

  // ---------------------------------------------------------------- no lost wakeup, no double close

  /** The captured channel is closed, or it is the very channel that the next Unlock will close. */
  predicate CanStillBeWoken(table: Table, pc: Pc)
  {
    pc.Waiting? ==>
      && pc.ch < |table.closed|
      && (table.closed[pc.ch] || (pc.key in table.locks && table.locks[pc.key] == pc.ch))
  }

  ghost predicate Inv(s: State)
  {
    && !s.panicked
    && Wellformed(s.table)
    && forall t :: 0 <= t < |s.threads| ==> CanStillBeWoken(s.table, s.threads[t].pc)
  }

  lemma RegisterKeepsWoken(table: Table, key: string, pc: Pc)
    requires key !in table.locks && CanStillBeWoken(table, pc)
    ensures CanStillBeWoken(Register(table, key), pc)
  {
  }

  lemma DeregisterKeepsWoken(table: Table, key: string, pc: Pc)
    requires key in table.locks && table.locks[key] < |table.closed| && CanStillBeWoken(table, pc)
    ensures CanStillBeWoken(Deregister(table, key), pc)
  {
  }

  lemma MoveKeepsInv(s: State, t: nat, pc: Pc)
    requires Inv(s) && t < |s.threads| && CanStillBeWoken(s.table, pc)
    ensures Inv(MoveTo(s, t, pc))
  {
    hide Wellformed, CanStillBeWoken;
  }

  lemma AcquireKeepsInv(s: State, t: nat, key: string)
    requires Inv(s) && t < |s.threads| && key !in s.table.locks
    ensures Inv(Acquire(s, t, key))
  {
    RegisterKeepsWellformed(s.table, key);
    NotWaiting(Register(s.table, key), Idle);
    hide Wellformed, CanStillBeWoken, Register;
    forall u | 0 <= u < |s.threads| {
      RegisterKeepsWoken(s.table, key, s.threads[u].pc);
    }
  }

  lemma RegisteredIsOpen(table: Table, key: string)
    requires Wellformed(table) && key in table.locks
    ensures table.locks[key] < |table.closed| && !table.closed[table.locks[key]]
    ensures CanStillBeWoken(table, Waiting(key, table.locks[key]))
  {
  }

  lemma ReleaseKeepsInv(s: State, t: nat, key: string)
    requires Inv(s) && t < |s.threads|
    ensures Inv(Release(s, t, key))
  {
    hide Wellformed, CanStillBeWoken, Deregister;
    if key in s.table.locks {
      RegisteredIsOpen(s.table, key);
      DeregisterKeepsWellformed(s.table, key);
      forall u | 0 <= u < |s.threads| {
        DeregisterKeepsWoken(s.table, key, s.threads[u].pc);
      }
    }
  }

  lemma StepKeepsInv(s: State, e: Step)
    requires Inv(s) && Enabled(s, e)
    ensures Inv(Apply(s, e))
  {
    hide Inv, MoveTo, Acquire, Release, CanStillBeWoken;
    var pc := s.threads[e.t].pc;
    NotWaiting(s.table, Idle);
    match e
    case CallLock(t, key) =>
      NotWaiting(s.table, Entering(key));
      MoveKeepsInv(s, t, Entering(key));
    case Enter(t) =>
      if pc.want in s.table.locks {
        RegisteredIsOpen(s.table, pc.want) by { TableIsWellformed(s); }
        MoveKeepsInv(s, t, Waiting(pc.want, s.table.locks[pc.want]));
      } else {
        AcquireKeepsInv(s, t, pc.want);
      }
    case Wake(t) =>
      NotWaiting(s.table, Entering(pc.key));
      MoveKeepsInv(s, t, Entering(pc.key));
    case Timeout(t) => MoveKeepsInv(s, t, Idle);
    case CallUnlock(t, key) => ReleaseKeepsInv(s, t, key);
    case CallTryLock(t, key) =>
      if key !in s.table.locks {
        AcquireKeepsInv(s, t, key);
      }
  }

  lemma NotWaiting(table: Table, pc: Pc)
    requires !pc.Waiting?
    ensures CanStillBeWoken(table, pc)
  {
  }

  lemma TableIsWellformed(s: State)
    requires Inv(s)
    ensures Wellformed(s.table)
  {
  }

  lemma {:induction false} RunKeepsInv(s: State, schedule: seq<Step>)
    requires Inv(s) && Run(s, schedule).Some?
    ensures Inv(Run(s, schedule).value)
    ensures |Run(s, schedule).value.threads| == |s.threads|
    decreases |schedule|
  {
    if schedule != [] {
      StepKeepsInv(s, schedule[0]);
      RunKeepsInv(Apply(s, schedule[0]), schedule[1..]);
    }
  }

  /** Whatever the callers do, no schedule closes a channel twice and every waiter stays wakeable. */
  lemma EveryScheduleIsSafe(threads: nat, schedule: seq<Step>)
    requires Run(Initial(threads), schedule).Some?
    ensures Inv(Run(Initial(threads), schedule).value)
  {
    RunKeepsInv(Initial(threads), schedule);
  }

  /** A waiter can be woken exactly when its key has been released since it looked. */
  lemma WakeEnabledExactlyAfterRelease(s: State, t: nat)
    requires Inv(s) && t < |s.threads| && s.threads[t].pc.Waiting?
    ensures var pc := s.threads[t].pc;
            Enabled(s, Wake(t)) <==> !(pc.key in s.table.locks && s.table.locks[pc.key] == pc.ch)
  {
    assert CanStillBeWoken(s.table, s.threads[t].pc);
  }

  /** Once enabled, a wakeup stays enabled until the waiter itself moves, however long the others run. */
  lemma {:induction false} WakeupIsNeverLost(s: State, schedule: seq<Step>, t: nat)
    requires Inv(s) && Run(s, schedule).Some? && Enabled(s, Wake(t))
    requires forall e <- schedule :: e.t != t
    ensures var s' := Run(s, schedule).value; Enabled(s', Wake(t)) && s'.threads[t] == s.threads[t]
    decreases |schedule|
  {
    if schedule != [] {
      StepKeepsInv(s, schedule[0]);
      assert schedule[0] in schedule;
      assert forall e <- schedule[1..] :: e in schedule;
      WakeupIsNeverLost(Apply(s, schedule[0]), schedule[1..], t);
    }
  }

  /** From every reachable state a waiter whose key is free gets it with its own next two steps. */
  lemma FreeKeyIsWithinReach(s: State, t: nat)
    requires Inv(s) && t < |s.threads| && s.threads[t].pc.Waiting?
    requires s.threads[t].pc.key !in s.table.locks
    ensures var r := Run(s, [Wake(t), Enter(t)]);
            && r.Some?
            && t < |r.value.threads|
            && r.value.threads[t] == Thread(Idle, s.threads[t].holds + {s.threads[t].pc.key})
            && s.threads[t].pc.key in r.value.table.locks
  {
    WakeEnabledExactlyAfterRelease(s, t);
    var s1 := Apply(s, Wake(t));
    assert [Wake(t), Enter(t)][1..] == [Enter(t)];
    assert Run(s1, [Enter(t)]) == Run(Apply(s1, Enter(t)), []);
  }

  /** An Unlock of a taken key makes every thread that waits for that acquisition runnable. */
  lemma UnlockWakesAllWaiters(s: State, u: nat, key: string, t: nat)
    requires Inv(s) && Enabled(s, CallUnlock(u, key)) && key in s.table.locks
    requires t < |s.threads| && s.threads[t].pc.Waiting? && s.threads[t].pc.key == key
    ensures Enabled(Apply(s, CallUnlock(u, key)), Wake(t))
  {
    var s' := Apply(s, CallUnlock(u, key));
    StepKeepsInv(s, CallUnlock(u, key));
    WakeEnabledExactlyAfterRelease(s', t);
  }

  // ---------------------------------------------------------------- mutual exclusion

  /** Callers unlock only what they hold. */
  predicate Disciplined(s: State, e: Step)
    requires Enabled(s, e)
  {
    e.CallUnlock? ==> e.key in s.threads[e.t].holds
  }

  predicate DisciplinedRun(s: State, schedule: seq<Step>)
    decreases |schedule|
  {
    schedule == [] ||
    (Enabled(s, schedule[0]) && Disciplined(s, schedule[0]) && DisciplinedRun(Apply(s, schedule[0]), schedule[1..]))
  }

  predicate Holds(s: State, t: nat, key: string)
  {
    t < |s.threads| && key in s.threads[t].holds
  }

  ghost predicate AtMostOneHolder(s: State)
  {
    forall t: nat, u: nat, key | Holds(s, t, key) && Holds(s, u, key) :: t == u
  }

  ghost predicate LockedMeansHeld(s: State)
  {
    && (forall t: nat, key | Holds(s, t, key) :: key in s.table.locks)
    && (forall key <- s.table.locks :: exists t: nat :: Holds(s, t, key))
  }

  ghost predicate Exclusive(s: State)
  {
    AtMostOneHolder(s) && LockedMeansHeld(s)
  }

  lemma AcquireKeepsExclusion(s: State, t: nat, key: string)
    requires Exclusive(s) && t < |s.threads| && key !in s.table.locks
    ensures Exclusive(Acquire(s, t, key))
  {
    var s' := Acquire(s, t, key);
    forall k <- s'.table.locks
      ensures exists u: nat :: Holds(s', u, k)
    {
      if k == key {
        assert Holds(s', t, k);
      } else {
        var u: nat :| Holds(s, u, k);
        assert Holds(s', u, k);
      }
    }
    forall u: nat, v: nat, k | Holds(s', u, k) && Holds(s', v, k)
      ensures u == v
    {
      assert k != key ==> Holds(s, u, k) && Holds(s, v, k);
      assert Holds(s, u, key) ==> key in s.table.locks;
      assert Holds(s, v, key) ==> key in s.table.locks;
    }
    forall u: nat, k | Holds(s', u, k)
      ensures k in s'.table.locks
    {
      assert k != key ==> Holds(s, u, k);
    }
  }

  lemma MoveKeepsExclusion(s: State, t: nat, pc: Pc)
    requires Exclusive(s) && t < |s.threads|
    ensures Exclusive(MoveTo(s, t, pc))
  {
    var s' := MoveTo(s, t, pc);
    assert forall u: nat, k :: Holds(s', u, k) <==> Holds(s, u, k);
  }

  /** An Unlock keeps exclusion if and only if the caller holds the key or nobody does. */
  lemma UnlockKeepsExclusionExactlyWhen(s: State, t: nat, key: string)
    requires Inv(s) && Exclusive(s) && Enabled(s, CallUnlock(t, key))
    ensures Exclusive(Apply(s, CallUnlock(t, key))) <==> Holds(s, t, key) || key !in s.table.locks
  {
    var s' := Apply(s, CallUnlock(t, key));
    assert forall u: nat, k :: Holds(s', u, k) <==> Holds(s, u, k) && !(u == t && k == key);
    if key !in s.table.locks {
      assert !Holds(s, t, key);
      assert forall u: nat, k :: Holds(s', u, k) <==> Holds(s, u, k);
    } else if Holds(s, t, key) {
      forall k <- s'.table.locks
        ensures exists u: nat :: Holds(s', u, k)
      {
        var u: nat :| Holds(s, u, k);
        assert Holds(s', u, k);
      }
    } else {
      var u: nat :| Holds(s, u, key);
      assert Holds(s', u, key) && key !in s'.table.locks;
    }
  }

  lemma DisciplinedStepKeepsExclusion(s: State, e: Step)
    requires Inv(s) && Exclusive(s) && Enabled(s, e) && Disciplined(s, e)
    ensures Exclusive(Apply(s, e))
  {
    match e
    case CallLock(t, key) => MoveKeepsExclusion(s, t, Entering(key));
    case Enter(t) =>
      var key := s.threads[t].pc.want;
      if key in s.table.locks {
        MoveKeepsExclusion(s, t, Waiting(key, s.table.locks[key]));
      } else {
        AcquireKeepsExclusion(s, t, key);
      }
    case Wake(t) => MoveKeepsExclusion(s, t, Entering(s.threads[t].pc.key));
    case Timeout(t) => MoveKeepsExclusion(s, t, Idle);
    case CallUnlock(t, key) => UnlockKeepsExclusionExactlyWhen(s, t, key);
    case CallTryLock(t, key) =>
      if key !in s.table.locks {
        AcquireKeepsExclusion(s, t, key);
      }
  }

  lemma {:induction false} DisciplinedRunIsExclusive(s: State, schedule: seq<Step>)
    requires Inv(s) && Exclusive(s) && DisciplinedRun(s, schedule)
    ensures Run(s, schedule).Some? && Exclusive(Run(s, schedule).value)
    decreases |schedule|
  {
    if schedule != [] {
      StepKeepsInv(s, schedule[0]);
      DisciplinedStepKeepsExclusion(s, schedule[0]);
      DisciplinedRunIsExclusive(Apply(s, schedule[0]), schedule[1..]);
    }
  }

  /** Mutual exclusion over whole runs: one holder per key, and a key is in the map iff it is held. */
  lemma MutualExclusion(threads: nat, schedule: seq<Step>)
    requires DisciplinedRun(Initial(threads), schedule)
    ensures Run(Initial(threads), schedule).Some?
    ensures Exclusive(Run(Initial(threads), schedule).value)
  {
    assert forall t: nat, key :: !Holds(Initial(threads), t, key);
    DisciplinedRunIsExclusive(Initial(threads), schedule);
  }

  /** The undisciplined caller: thread 1 unlocks the key of thread 0, and thread 2 gets it as well. */
  lemma ForeignUnlockBreaksExclusion(key: string)
    ensures var r := Run(Initial(3), [CallTryLock(0, key), CallUnlock(1, key), CallTryLock(2, key)]);
            r.Some? && Holds(r.value, 0, key) && Holds(r.value, 2, key)
  {
    var s0 := Initial(3);
    var s1 := Apply(s0, CallTryLock(0, key));
    var s2 := Apply(s1, CallUnlock(1, key));
    var s3 := Apply(s2, CallTryLock(2, key));
    var steps := [CallTryLock(0, key), CallUnlock(1, key), CallTryLock(2, key)];
    assert steps[1..] == [CallUnlock(1, key), CallTryLock(2, key)] && steps[1..][1..] == [CallTryLock(2, key)];
    assert Run(s2, [CallTryLock(2, key)]) == Run(s3, []);
    assert Run(s1, steps[1..]) == Run(s2, steps[1..][1..]);
  }


  // ---------------------------------------------------------------- what Lock, TryLock and Unlock give

  /** The thread is in Lock for this key. */
  predicate InLock(pc: Pc, key: string)
  {
    pc == Entering(key) || (pc.Waiting? && pc.key == key)
  }

  /**
   * A thread leaves Lock with the key, which was free and is locked now, or by the end of its context,
   * empty-handed.
   */
  lemma LockReturnsWithTheKeyOrByTimeout(s: State, e: Step, t: nat, key: string)
    requires Enabled(s, e) && t < |s.threads| && InLock(s.threads[t].pc, key)
    ensures var s' := Apply(s, e);
            && |s'.threads| == |s.threads|
            && var before, after := s.threads[t], s'.threads[t];
               || (InLock(after.pc, key) && after.holds == before.holds)
               || (e == Enter(t) && after == Thread(Idle, before.holds + {key})
                   && key !in s.table.locks && key in s'.table.locks)
               || (e == Timeout(t) && after == Thread(Idle, before.holds) && s'.table == s.table)
  {
  }

  /** Over every run: without a timeout of its own, a thread that is no longer in Lock got the key at some point. */
  lemma {:induction false} LockIsHeldUnlessTimedOut(s: State, schedule: seq<Step>, t: nat, key: string)
    returns (at: nat)
    requires t < |s.threads| && InLock(s.threads[t].pc, key) && Run(s, schedule).Some?
    requires Timeout(t) !in schedule
    requires var end := Run(s, schedule).value; t < |end.threads| && !InLock(end.threads[t].pc, key)
    ensures at <= |schedule| && Run(s, schedule[..at]).Some? && Holds(Run(s, schedule[..at]).value, t, key)
    decreases |schedule|
  {
    var s' := Apply(s, schedule[0]);
    LockReturnsWithTheKeyOrByTimeout(s, schedule[0], t, key);
    if InLock(s'.threads[t].pc, key) {
      var later := LockIsHeldUnlessTimedOut(s', schedule[1..], t, key);
      at := later + 1;
      assert schedule[..at][0] == schedule[0] && schedule[..at][1..] == schedule[1..][..later];
    } else {
      at := 1;
      assert schedule[..1][0] == schedule[0] && schedule[..1][1..] == [];
      assert Run(s', []) == Some(s');
    }
  }

  /** A turn of Lock takes a free key, and waits for a taken one on the channel that is registered for it. */
  lemma EnterWaitsExactlyWhenTaken(s: State, t: nat)
    requires Enabled(s, Enter(t))
    ensures var key, s' := s.threads[t].pc.want, Apply(s, Enter(t));
            if key in s.table.locks then s'.threads[t].pc == Waiting(key, s.table.locks[key]) && s'.table == s.table
            else Holds(s', t, key) && s'.threads[t].pc.Idle?
  {
  }

  /** TryLock gets a key exactly when it is free, and never waits. */
  lemma TryLockTakesExactlyWhenFree(s: State, t: nat, key: string)
    requires Enabled(s, CallTryLock(t, key))
    ensures var s' := Apply(s, CallTryLock(t, key));
            && s'.threads[t].pc.Idle? && key in s'.table.locks
            && s'.threads[t].holds == s.threads[t].holds + if key in s.table.locks then {} else {key}
  {
  }

  /** Unlock gives the key up and closes the channel of its acquisition, and touches no other key or channel. */
  lemma UnlockFreesTheKey(s: State, t: nat, key: string)
    requires Inv(s) && Enabled(s, CallUnlock(t, key))
    ensures var s' := Apply(s, CallUnlock(t, key));
            && key !in s'.table.locks && !Holds(s', t, key)
            && (forall k <- s.table.locks | k != key :: k in s'.table.locks && s'.table.locks[k] == s.table.locks[k])
            && |s'.table.closed| == |s.table.closed|
            && forall ch: nat | ch < |s.table.closed| ::
                 s'.table.closed[ch] <==> s.table.closed[ch] || (key in s.table.locks && s.table.locks[key] == ch)
  {
  }

  function HandOver(key: string): seq<Step>
  {
    [CallTryLock(0, key), CallLock(1, key), Enter(1), CallUnlock(0, key), Wake(1), Enter(1)]
  }

  lemma RunFirst(s: State, e: Step, rest: seq<Step>)
    requires Enabled(s, e)
    ensures Run(s, [e] + rest) == Run(Apply(s, e), rest)
  {
    assert ([e] + rest)[0] == e && ([e] + rest)[1..] == rest;
  }

  /** A waiter gets the key from its holder: the whole way from a taken key to the next holder. */
  lemma HandOverWorks(key: string)
    ensures var r := Run(Initial(2), HandOver(key));
            r.Some? && |r.value.threads| == 2
            && Holds(r.value, 1, key) && !Holds(r.value, 0, key) && r.value.threads[1].pc.Idle?
  {
    var s1 := Apply(Initial(2), CallTryLock(0, key));
    var s2 := Apply(s1, CallLock(1, key));
    var s3 := Apply(s2, Enter(1));
    var s4 := Apply(s3, CallUnlock(0, key));
    var s5 := Apply(s4, Wake(1));
    RunFirst(s5, Enter(1), []);
    RunFirst(s4, Wake(1), [Enter(1)]);
    RunFirst(s3, CallUnlock(0, key), [Wake(1), Enter(1)]);
    RunFirst(s2, Enter(1), [CallUnlock(0, key), Wake(1), Enter(1)]);
    RunFirst(s1, CallLock(1, key), [Enter(1), CallUnlock(0, key), Wake(1), Enter(1)]);
    RunFirst(Initial(2), CallTryLock(0, key), [CallLock(1, key), Enter(1), CallUnlock(0, key), Wake(1), Enter(1)]);
  }
}
