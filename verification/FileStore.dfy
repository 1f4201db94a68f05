// The file-backed store: every Put and Delete is followed by a snapshot that is written to a
// temporary file and renamed over the state file.
//
// A file holds a whole snapshot, the beginning of one, or something that is no snapshot at all.
module FileStore {
  import opened Wrappers
  import opened MemoryStore
  import StoreKeys

  datatype Content = Whole(data: Data) | Partial | Foreign

  /** The step of an atomic write that fails, if any; a failing write leaves a partial temporary file behind it. */
  datatype Failure = NoFailure | MarshalFails | CreateFails | WriteFails | CloseFails | RenameFails

  function Restored(file: Option<Content>): Option<Data>
  {
    if file.Some? && file.value.Whole? then Some(file.value.data) else None
  }

  class FileBackedStore {
    const store: Store
    var file: Option<Content>
    var temps: map<nat, Content>

    ghost predicate Valid()
      reads this, store
    {
      store.Valid()
    }

    /**
     * An existing state file is restored; a file that cannot be read as a snapshot is ignored.
     * The keys of a readable file are taken as they are.
     */
    constructor (file: Option<Content>)
      ensures fresh(store)
      ensures Valid() <==> Restored(file).Some? ==> WellKeyed(Restored(file).value)
      ensures this.file == file && temps == map[]
      ensures store.data == if Restored(file).Some? then Restored(file).value else map[]
    {
      store := new Store();
      this.file, temps := file, map[];
      new;
      if file.Some? && file.value.Whole? {
        store.data := file.value.data;
      }
    }

    /** Every failing step removes the temporary file and leaves the state file alone. */
    method AtomicWrite(data: Data, failure: Failure) returns (ok: bool)
      requires !failure.MarshalFails?
      modifies this
      ensures ok <==> failure == NoFailure
      ensures file == if ok then Some(Whole(data)) else old(file)
      ensures temps == old(temps)
    {
      if failure == CreateFails {
        return false;
      }
      var tmp := FreshName(temps.Keys);
      temps := temps[tmp := Partial];
      if failure == WriteFails {
        temps := temps - {tmp};
        return false;
      }
      temps := temps[tmp := Whole(data)];
      if failure == CloseFails {
        temps := temps - {tmp};
        return false;
      }
      if failure == RenameFails {
        temps := temps - {tmp};
        return false;
      }
      file := Some(temps[tmp]);
      temps := temps - {tmp};
      return true;
    }

    method Snapshot(failure: Failure) returns (ok: bool)
      modifies this
      ensures ok <==> failure == NoFailure
      ensures file == if ok then Some(Whole(store.data)) else old(file)
      ensures temps == old(temps)
    {
      var data := store.data;
      if failure == MarshalFails {
        return false;
      }
      ok := AtomicWrite(data, failure);
    }

    /** A successful Put is durable; a failed one has changed the memory but not the file. */
    method PutResource(r: Resource, failure: Failure) returns (ok: bool)
      modifies this, store
      ensures temps == old(temps)
      ensures old(Valid()) ==> Valid()
      ensures store.data == old(store.data)[KeyOf(r) := r]
      ensures if ok then Restored(file) == Some(store.data) else file == old(file)
      ensures ok <==> failure == NoFailure
    {
      store.Put(r);
      ok := Snapshot(failure);
    }

    method DeleteResource(kind: string, id: string, failure: Failure) returns (ok: bool)
      modifies this, store
      ensures temps == old(temps)
      ensures old(Valid()) ==> Valid()
      ensures store.data == old(store.data) - {StoreKeys.StoreKey(kind, id)}
      ensures if ok then Restored(file) == Some(store.data) else file == old(file)
      ensures ok <==> failure == NoFailure
    {
      store.Delete(kind, id);
      ok := Snapshot(failure);
    }
  }

  /** A name that is not taken, as os.CreateTemp picks it. */
  function FreshName(taken: set<nat>): (name: nat)
    ensures name !in taken
  {
    FreshAbove(taken, 0)
  }

  function FreshAbove(taken: set<nat>, from: nat): (name: nat)
    ensures name !in taken && name >= from
    decreases |taken|
  {
    if from !in taken then from
    else
      var rest := taken - {from};
      assert |rest| < |taken|;
      var name := FreshAbove(rest, from + 1);
      name
  }

  // ---------------------------------------------------------------- concurrent writers and crashes

  datatype Change = Stores(resource: Resource) | Removes(kind: string, id: string)

  function Changed(data: Data, change: Change): Data
  {
    match change
    case Stores(r) => data[KeyOf(r) := r]
    case Removes(kind, id) => data - {StoreKeys.StoreKey(kind, id)}
  }

  /** A writer between its change of the memory and the end of its snapshot; `at` is when it copied the memory. */
  datatype Pc =
    | Idle
    | Mutated
    | Copied(at: nat)
    | Writing(at: nat, temp: nat)
    | Written(at: nat, temp: nat)

  /** `history` lists every value the memory ever had, the current one last. */
  datatype State = State(
    history: seq<Data>,
    file: Option<Content>,
    temps: map<nat, Content>,
    nextTemp: nat,
    threads: seq<Pc>,
    renamed: bool)

  datatype Step =
    | Mutate(t: nat, change: Change)
    | Copy(t: nat)
    | Create(t: nat)
    | Fill(t: nat)    // the write and the close of the temporary file
    | Rename(t: nat)  // the operation returns nil
    | Fail(t: nat)    // any step fails: the temporary file is removed and the operation returns an error
    | Crash           // the process ends anywhere and is started again

  predicate Enabled(s: State, step: Step)
  {
    && |s.history| > 0
    && (step.Crash? ||
        (step.t < |s.threads| &&
         var pc := s.threads[step.t];
         match step
         case Mutate(_, _) => pc.Idle?
         case Copy(_) => pc.Mutated?
         case Create(_) => pc.Copied?
         case Fill(_) => pc.Writing? && pc.at < |s.history|
         case Rename(_) => pc.Written? && pc.temp in s.temps
         case Fail(_) => !pc.Idle? && !pc.Mutated?))
  }

  function Memory(s: State): Data
    requires |s.history| > 0
  {
    s.history[|s.history| - 1]
  }

  function Goto(s: State, t: nat, pc: Pc): State
    requires t < |s.threads|
  {
    s.(threads := s.threads[t := pc])
  }

  function Apply(s: State, step: Step): State
    requires Enabled(s, step)
  {
    match step
    case Mutate(t, change) => Goto(s.(history := s.history + [Changed(Memory(s), change)]), t, Mutated)
    case Copy(t) => Goto(s, t, Copied(|s.history| - 1))
    case Create(t) =>
      Goto(s.(temps := s.temps[s.nextTemp := Partial], nextTemp := s.nextTemp + 1), t,
           Writing(s.threads[t].at, s.nextTemp))
    case Fill(t) =>
      var pc := s.threads[t];
      Goto(s.(temps := s.temps[pc.temp := Whole(s.history[pc.at])]), t, Written(pc.at, pc.temp))
    case Rename(t) =>
      var pc := s.threads[t];
      Goto(s.(file := Some(s.temps[pc.temp]), temps := s.temps - {pc.temp}, renamed := true), t, Idle)
    case Fail(t) =>
      var pc := s.threads[t];
      Goto(if pc.Copied? then s else s.(temps := s.temps - {pc.temp}), t, Idle)
    case Crash =>
      var data := if Restored(s.file).Some? then Restored(s.file).value else map[];
      s.(history := s.history + [data], threads := seq(|s.threads|, _ => Idle))
  }

  function Run(s: State, schedule: seq<Step>): Option<State>
    decreases |schedule|
  {
    if schedule == [] then Some(s)
    else if !Enabled(s, schedule[0]) then None
    else Run(Apply(s, schedule[0]), schedule[1..])
  }

  /** The store is opened over whatever file there is. */
  function Initial(threads: nat, file: Option<Content>): State
  {
    State([if Restored(file).Some? then Restored(file).value else map[]], file, map[], 0, seq(threads, _ => Idle),
          false)
  }

  ghost predicate WriterInv(s: State, pc: Pc)
  {
    && (!pc.Idle? && !pc.Mutated? ==> pc.at < |s.history|)
    && (pc.Writing? ==> pc.temp in s.temps && s.temps[pc.temp] == Partial)
    && (pc.Written? ==> pc.temp in s.temps && pc.at < |s.history| && s.temps[pc.temp] == Whole(s.history[pc.at]))
  }

  predicate HasTemp(pc: Pc)
  {
    pc.Writing? || pc.Written?
  }

  ghost predicate TempsInv(s: State)
  {
    && (forall n <- s.temps :: n < s.nextTemp)
    && (forall t, u | 0 <= t < |s.threads| && 0 <= u < |s.threads| && HasTemp(s.threads[t]) && HasTemp(s.threads[u]) ::
          s.threads[t].temp == s.threads[u].temp ==> t == u)
  }

  /** Once a snapshot has been renamed, the state file holds the whole memory as it was at some time. */
  ghost predicate FileIsPastMemory(s: State)
  {
    s.renamed ==> exists i :: 0 <= i < |s.history| && s.file == Some(Whole(s.history[i]))
  }

  ghost predicate Inv(s: State)
  {
    && |s.history| > 0
    && TempsInv(s)
    && (forall t :: 0 <= t < |s.threads| ==> WriterInv(s, s.threads[t]))
    && FileIsPastMemory(s)
  }

  lemma StepKeepsWriters(s: State, step: Step)
    requires Inv(s) && Enabled(s, step)
    ensures var s' := Apply(s, step);
            TempsInv(s') && forall t :: 0 <= t < |s'.threads| ==> WriterInv(s', s'.threads[t])
  {
    var s' := Apply(s, step);
    forall t | 0 <= t < |s'.threads|
      ensures WriterInv(s', s'.threads[t])
    {
      assert WriterInv(s, s.threads[t]);
      if !step.Crash? {
        assert WriterInv(s, s.threads[step.t]);
      }
    }
    if step.Create? {
      forall u | 0 <= u < |s.threads| && HasTemp(s.threads[u])
        ensures s.threads[u].temp < s.nextTemp
      {
        assert WriterInv(s, s.threads[u]);
      }
    }
  }

  lemma StepKeepsFile(s: State, step: Step)
    requires Inv(s) && Enabled(s, step)
    ensures FileIsPastMemory(Apply(s, step))
  {
    var s' := Apply(s, step);
    if step.Rename? {
      assert WriterInv(s, s.threads[step.t]);
      assert s'.file == Some(Whole(s'.history[s.threads[step.t].at]));
    } else if s.renamed {
      var i :| 0 <= i < |s.history| && s.file == Some(Whole(s.history[i]));
      assert s'.history[i] == s.history[i];
    }
  }

  lemma StepKeepsInv(s: State, step: Step)
    requires Inv(s) && Enabled(s, step)
    ensures Inv(Apply(s, step))
  {
    StepKeepsWriters(s, step);
    StepKeepsFile(s, step);
  }

  lemma {:induction false} RunKeepsInv(s: State, schedule: seq<Step>)
    requires Inv(s) && Run(s, schedule).Some?
    ensures Inv(Run(s, schedule).value)
    decreases |schedule|
  {
    if schedule != [] {
      StepKeepsInv(s, schedule[0]);
      RunKeepsInv(Apply(s, schedule[0]), schedule[1..]);
    }
  }

  /**
   * Under every interleaving, every failure and every crash, the state file is never partial after
   * the first rename, and a restart brings back a value that the memory had before.
   */
  lemma EveryCrashRecoversPastMemory(threads: nat, file: Option<Content>, schedule: seq<Step>)
    requires Run(Initial(threads, file), schedule).Some?
    requires Run(Initial(threads, file), schedule).value.renamed
    ensures var s := Run(Initial(threads, file), schedule).value;
            && Enabled(s, Crash)
            && exists i :: 0 <= i < |s.history| && s.file == Some(Whole(s.history[i]))
                           && Memory(Apply(s, Crash)) == s.history[i]
  {
    RunKeepsInv(Initial(threads, file), schedule);
    var s := Run(Initial(threads, file), schedule).value;
    var i :| 0 <= i < |s.history| && s.file == Some(Whole(s.history[i]));
    assert Memory(Apply(s, Crash)) == s.history[i];
  }

  // ---------------------------------------------------------------- one writer at a time

  /** An operation begins only when no other one is under way. */
  predicate Alone(s: State, step: Step)
  {
    step.Mutate? ==> forall t :: 0 <= t < |s.threads| ==> s.threads[t].Idle?
  }

  predicate SingleWriterRun(s: State, schedule: seq<Step>)
    decreases |schedule|
  {
    schedule == [] ||
    (Enabled(s, schedule[0]) && Alone(s, schedule[0]) && SingleWriterRun(Apply(s, schedule[0]), schedule[1..]))
  }

  /** At most one writer is busy, and what it copied is still the current memory. */
  ghost predicate CopyIsCurrent(s: State)
  {
    && (forall t, u | 0 <= t < |s.threads| && 0 <= u < |s.threads| ::
          !s.threads[t].Idle? && !s.threads[u].Idle? ==> t == u)
    && (forall t :: 0 <= t < |s.threads| && !s.threads[t].Idle? && !s.threads[t].Mutated? ==>
          s.threads[t].at == |s.history| - 1)
  }

  lemma {:induction false} SingleWriterKeepsCopy(s: State, schedule: seq<Step>)
    requires Inv(s) && CopyIsCurrent(s) && SingleWriterRun(s, schedule)
    ensures Run(s, schedule).Some? && Inv(Run(s, schedule).value) && CopyIsCurrent(Run(s, schedule).value)
    decreases |schedule|
  {
    if schedule != [] {
      var s' := Apply(s, schedule[0]);
      StepKeepsInv(s, schedule[0]);
      assert CopyIsCurrent(s');
      SingleWriterKeepsCopy(s', schedule[1..]);
    }
  }

  /** With one writer at a time, when Put or Delete returns nil the state file restores to the current memory. */
  lemma SingleWriterIsDurable(threads: nat, file: Option<Content>, schedule: seq<Step>, t: nat)
    requires SingleWriterRun(Initial(threads, file), schedule)
    requires Run(Initial(threads, file), schedule).Some?
    requires Enabled(Run(Initial(threads, file), schedule).value, Rename(t))
    ensures var s := Apply(Run(Initial(threads, file), schedule).value, Rename(t));
            |s.history| > 0 && Restored(s.file) == Some(Memory(s))
  {
    SingleWriterKeepsCopy(Initial(threads, file), schedule);
    var s := Run(Initial(threads, file), schedule).value;
    assert WriterInv(s, s.threads[t]);
  }

  // ---------------------------------------------------------------- several writers

  predicate HasCopy(pc: Pc)
  {
    pc.Copied? || pc.Writing? || pc.Written?
  }

  /** Some writer is about to put into the file what is no longer the memory. */
  predicate HasStaleCopy(s: State)
    requires |s.history| > 0
  {
    exists t :: 0 <= t < |s.threads| && StaleCopy(s, t)
  }

  predicate StaleCopy(s: State, t: nat)
    requires |s.history| > 0 && t < |s.threads|
  {
    HasCopy(s.threads[t]) && s.threads[t].at < |s.history| && s.history[s.threads[t].at] != Memory(s)
  }

  predicate AllIdle(s: State)
  {
    forall t :: 0 <= t < |s.threads| ==> s.threads[t].Idle?
  }

  predicate Durable(s: State)
    requires |s.history| > 0
  {
    Restored(s.file) == Some(Memory(s))
  }

  /** The operations under way go on without error, and no others begin. */
  predicate Finishing(step: Step)
  {
    step.Copy? || step.Create? || step.Fill? || step.Rename?
  }

  /** Every operation under way returns nil in this order, and nothing else happens. */
  ghost predicate Completes(s: State, schedule: seq<Step>)
  {
    (forall step <- schedule :: Finishing(step)) && Run(s, schedule).Some? && AllIdle(Run(s, schedule).value)
  }

  /** A rename leaves a file that restores to the memory if and only if the writer's copy is still current. */
  lemma RenameIsDurableExactlyWhen(s: State, t: nat)
    requires Inv(s) && Enabled(s, Rename(t))
    ensures Durable(Apply(s, Rename(t))) <==> s.history[s.threads[t].at] == Memory(s)
  {
    assert WriterInv(s, s.threads[t]);
  }

  lemma {:induction false} FinishingKeepsMemory(s: State, schedule: seq<Step>)
    requires Inv(s) && (forall step <- schedule :: Finishing(step)) && Run(s, schedule).Some?
    ensures Run(s, schedule).value.history == s.history
    decreases |schedule|
  {
    if schedule != [] {
      assert Finishing(schedule[0]);
      StepKeepsInv(s, schedule[0]);
      FinishingKeepsMemory(Apply(s, schedule[0]), schedule[1..]);
    }
  }

  lemma {:induction false} CurrentCopiesEndDurable(s: State, schedule: seq<Step>)
    requires Inv(s) && Completes(s, schedule) && !HasStaleCopy(s) && (!AllIdle(s) || Durable(s))
    ensures Inv(Run(s, schedule).value) && Durable(Run(s, schedule).value)
    decreases |schedule|
  {
    if schedule != [] {
      var step := schedule[0];
      var s' := Apply(s, step);
      assert Finishing(step);
      StepKeepsInv(s, step);
      FinishingKeepsCurrent(s, step);
      CurrentCopiesEndDurable(s', schedule[1..]);
    }
  }

  lemma FinishingKeepsCurrent(s: State, step: Step)
    requires Inv(s) && Enabled(s, step) && Finishing(step) && !HasStaleCopy(s)
    ensures var s' := Apply(s, step); !HasStaleCopy(s') && (!AllIdle(s') || Durable(s'))
  {
    var s' := Apply(s, step);
    assert !StaleCopy(s, step.t) && WriterInv(s, s.threads[step.t]);
    forall t | 0 <= t < |s'.threads|
      ensures !StaleCopy(s', t)
    {
      assert !StaleCopy(s, t);
    }
    if !step.Rename? {
      assert !s'.threads[step.t].Idle?;
    }
  }

  // The other direction: any writer can be the last one to rename.

  function Remaining(pc: Pc, t: nat): seq<Step>
  {
    match pc
    case Idle => []
    case Mutated => [Copy(t), Create(t), Fill(t), Rename(t)]
    case Copied(_) => [Create(t), Fill(t), Rename(t)]
    case Writing(_, _) => [Fill(t), Rename(t)]
    case Written(_, _) => [Rename(t)]
  }

  lemma RunStep(s: State, step: Step, rest: seq<Step>)
    requires Enabled(s, step)
    ensures Run(s, [step] + rest) == Run(Apply(s, step), rest)
  {
    assert ([step] + rest)[1..] == rest;
  }

  lemma {:induction false} RunConcat(s: State, a: seq<Step>, b: seq<Step>)
    requires Run(s, a).Some?
    ensures Run(s, a + b) == Run(Run(s, a).value, b)
    decreases |a|
  {
    if a == [] {
      assert a + b == b;
    } else {
      assert (a + b)[0] == a[0] && (a + b)[1..] == a[1..] + b;
      RunConcat(Apply(s, a[0]), a[1..], b);
    }
  }

  /** What the operation of thread t leaves behind when the others stand still. */
  ghost predicate Finished(s: State, s': State, t: nat)
    requires |s.history| > 0 && t < |s.threads|
  {
    var pc := s.threads[t];
    && s'.history == s.history && s'.threads == s.threads[t := Idle]
    && (pc.Mutated? ==> s'.file == Some(Whole(Memory(s))))
    && (HasCopy(pc) && pc.at < |s.history| ==> s'.file == Some(Whole(s.history[pc.at])))
  }

  lemma RemainingStep(s: State, t: nat)
    requires |s.history| > 0 && t < |s.threads| && WriterInv(s, s.threads[t]) && !s.threads[t].Idle?
    ensures var step := Remaining(s.threads[t], t)[0];
            && Enabled(s, step) && step.t == t
            && var s' := Apply(s, step);
               && s'.history == s.history && s'.threads == s.threads[t := s'.threads[t]]
               && Remaining(s.threads[t], t) == [step] + Remaining(s'.threads[t], t)
               && (step.Rename? ==> s'.threads[t].Idle? && Finished(s, s', t))
               && (!step.Rename? ==>
                     HasCopy(s'.threads[t]) && s'.threads[t].at == if s.threads[t].Mutated? then |s.history| - 1
                                                                  else s.threads[t].at)
  {
  }

  lemma LaterFinished(s: State, s': State, end: State, t: nat)
    requires |s.history| > 0 && t < |s.threads| && WriterInv(s, s.threads[t])
    requires |s'.threads| == |s.threads| && s'.history == s.history && s'.threads == s.threads[t := s'.threads[t]]
    requires HasCopy(s'.threads[t])
    requires s'.threads[t].at == if s.threads[t].Mutated? then |s.history| - 1
                                 else if HasCopy(s.threads[t]) then s.threads[t].at else 0
    requires !s.threads[t].Idle? && Finished(s', end, t)
    ensures Finished(s, end, t)
  {
    assert s'.threads[t := Idle] == s.threads[t := Idle];
  }

  lemma {:induction false} RunRemaining(s: State, t: nat)
    requires Inv(s) && t < |s.threads|
    ensures var r := Run(s, Remaining(s.threads[t], t));
            r.Some? && Inv(r.value) && Finished(s, r.value, t)
    decreases |Remaining(s.threads[t], t)|
  {
    hide Inv, Run, Apply, Enabled, Remaining, Finished;
    InvHasHistory(s);
    if s.threads[t].Idle? {
      NothingRemains(s, t);
      IdleIsFinished(s, t);
    } else {
      WriterOf(s, t);
      RemainingStep(s, t);
      var step := Remaining(s.threads[t], t)[0];
      var s' := Apply(s, step);
      StepKeepsInv(s, step);
      RunStep(s, step, Remaining(s'.threads[t], t));
      RunRemaining(s', t);
      if step.Rename? {
        NothingRemains(s', t);
      } else {
        LaterFinished(s, s', Run(s', Remaining(s'.threads[t], t)).value, t);
      }
    }
  }

  lemma NothingRemains(s: State, t: nat)
    requires |s.history| > 0 && t < |s.threads| && s.threads[t].Idle?
    ensures Run(s, Remaining(s.threads[t], t)) == Some(s)
  {
  }

  lemma IdleIsFinished(s: State, t: nat)
    requires |s.history| > 0 && t < |s.threads| && s.threads[t].Idle?
    ensures Finished(s, s, t)
  {
    assert s.threads[t := Idle] == s.threads;
  }

  /** The threads before `n` except `last` have finished. */
  ghost predicate DoneUpTo(s: State, s': State, n: nat, last: nat)
  {
    && Inv(s') && s'.history == s.history && |s'.threads| == |s.threads|
    && forall t :: 0 <= t < |s.threads| ==> s'.threads[t] == if t < n && t != last then Idle else s.threads[t]
  }

  lemma {:induction false} FinishOthers(s: State, n: nat, last: nat) returns (schedule: seq<Step>)
    requires Inv(s) && n <= |s.threads|
    ensures forall step <- schedule :: Finishing(step)
    ensures Run(s, schedule).Some? && DoneUpTo(s, Run(s, schedule).value, n, last)
    decreases n
  {
    hide Inv, Run, Remaining, Finishing;
    InvHasHistory(s);
    if n == 0 {
      schedule := [];
      NoSteps(s);
    } else {
      var before := FinishOthers(s, n - 1, last);
      var s' := Run(s, before).value;
      if n - 1 == last {
        schedule := before;
      } else {
        var steps := Remaining(s'.threads[n - 1], n - 1);
        RemainingFinishes(s'.threads[n - 1], n - 1);
        RunRemaining(s', n - 1);
        RunConcat(s, before, steps);
        schedule := before + steps;
      }
    }
  }

  lemma NoSteps(s: State)
    ensures Run(s, []) == Some(s)
  {
  }

  lemma StaleCopyCanComeLast(s: State, t: nat) returns (schedule: seq<Step>)
    requires Inv(s) && t < |s.threads| && StaleCopy(s, t)
    ensures Completes(s, schedule) && Run(s, schedule).value.history == s.history && !Durable(Run(s, schedule).value)
  {
    hide Inv, Run, Remaining;
    assert |s.history| > 0 by { InvHasHistory(s); }
    var before := FinishOthers(s, |s.threads|, t);
    var s' := Run(s, before).value;
    var steps := Remaining(s'.threads[t], t);
    assert forall step <- steps :: Finishing(step) by { RemainingFinishes(s'.threads[t], t); }
    RunRemaining(s', t);
    RunConcat(s, before, steps);
    schedule := before + steps;
  }

  lemma WriterOf(s: State, t: nat)
    requires Inv(s) && t < |s.threads|
    ensures WriterInv(s, s.threads[t])
  {
  }

  lemma InvHasHistory(s: State)
    requires Inv(s)
    ensures |s.history| > 0
  {
  }

  lemma RemainingFinishes(pc: Pc, t: nat)
    ensures forall step <- Remaining(pc, t) :: Finishing(step)
  {
  }

  ghost predicate CanLoseUpdate(s: State)
  {
    exists schedule :: Completes(s, schedule) &&
                       |Run(s, schedule).value.history| > 0 && !Durable(Run(s, schedule).value)
  }

  /**
   * Whatever is under way: all operations can return nil with a file that does not restore to the
   * memory if and only if some writer holds a copy that is no longer current (or nothing is under
   * way and the file is behind already).
   */
  lemma UpdateCanBeLostExactlyWhen(s: State)
    requires Inv(s)
    ensures CanLoseUpdate(s) <==> HasStaleCopy(s) || (AllIdle(s) && !Durable(s))
  {
    if HasStaleCopy(s) {
      var t: nat :| t < |s.threads| && StaleCopy(s, t);
      var schedule := StaleCopyCanComeLast(s, t);
      assert Completes(s, schedule);
    } else if AllIdle(s) && !Durable(s) {
      assert Completes(s, []);
    } else {
      forall schedule | Completes(s, schedule)
        ensures |Run(s, schedule).value.history| > 0 && Durable(Run(s, schedule).value)
      {
        CurrentCopiesEndDurable(s, schedule);
      }
    }
  }

  /** A change is safe from being lost if and only if no other writer holds a different copy when it is made. */
  lemma ChangeCanBeLostExactlyWhen(s: State, u: nat, change: Change)
    requires Inv(s) && Enabled(s, Mutate(u, change))
    ensures CanLoseUpdate(Apply(s, Mutate(u, change))) <==>
            exists t :: 0 <= t < |s.threads| && t != u && HasCopy(s.threads[t])
                        && s.history[s.threads[t].at] != Changed(Memory(s), change)
  {
    hide CanLoseUpdate;
    var s' := Apply(s, Mutate(u, change));
    StepKeepsInv(s, Mutate(u, change));
    UpdateCanBeLostExactlyWhen(s');
    assert !AllIdle(s') by { assert s'.threads[u] == Mutated; }
    forall t | 0 <= t < |s.threads|
      ensures StaleCopy(s', t) <==> t != u && HasCopy(s.threads[t])
                                    && s.history[s.threads[t].at] != Changed(Memory(s), change)
    {
      assert WriterInv(s, s.threads[t]);
    }
  }

  // ---------------------------------------------------------------- two writers

  function Finish(t: nat): seq<Step>
  {
    [Create(t), Fill(t), Rename(t)]
  }

  /** After creating and filling its temporary file, with no other one around. */
  function FilledBy(s: State, t: nat): State
    requires t < |s.threads| && s.threads[t].Copied? && s.threads[t].at < |s.history|
  {
    var at := s.threads[t].at;
    s.(temps := map[s.nextTemp := Whole(s.history[at])], nextTemp := s.nextTemp + 1,
       threads := s.threads[t := Written(at, s.nextTemp)])
  }

  lemma CreateThenFill(s: State, t: nat)
    requires |s.history| > 0 && t < |s.threads| && s.threads[t].Copied? && s.threads[t].at < |s.history|
    requires s.temps == map[]
    ensures Enabled(s, Create(t)) && Enabled(Apply(s, Create(t)), Fill(t))
    ensures Apply(Apply(s, Create(t)), Fill(t)) == FilledBy(s, t)
  {
    var s2 := Apply(Apply(s, Create(t)), Fill(t));
    assert s2.threads == FilledBy(s, t).threads && s2.temps == FilledBy(s, t).temps;
  }

  lemma RenameFilled(s: State, t: nat)
    requires |s.history| > 0 && t < |s.threads| && s.threads[t].Copied? && s.threads[t].at < |s.history|
    ensures Enabled(FilledBy(s, t), Rename(t))
    ensures Apply(FilledBy(s, t), Rename(t))
         == State(s.history, Some(Whole(s.history[s.threads[t].at])), map[], s.nextTemp + 1, s.threads[t := Idle], true)
  {
    var s' := Apply(FilledBy(s, t), Rename(t));
    assert s'.threads == s.threads[t := Idle] && s'.temps == map[];
  }

  lemma RunFinish(s: State, t: nat, rest: seq<Step>)
    requires |s.history| > 0 && t < |s.threads| && s.threads[t].Copied? && s.threads[t].at < |s.history|
    requires s.temps == map[]
    ensures var s' := State(s.history, Some(Whole(s.history[s.threads[t].at])), map[], s.nextTemp + 1,
                            s.threads[t := Idle], true);
            Run(s, Finish(t) + rest) == Run(s', rest)
  {
    hide Run, Apply, Enabled, FilledBy;
    CreateThenFill(s, t);
    RenameFilled(s, t);
    assert Finish(t) + rest == [Create(t)] + ([Fill(t)] + ([Rename(t)] + rest));
    RunStep(s, Create(t), [Fill(t)] + ([Rename(t)] + rest));
    RunStep(Apply(s, Create(t)), Fill(t), [Rename(t)] + rest);
    RunStep(FilledBy(s, t), Rename(t), rest);
  }

  function StoreThenRemove(r: Resource): seq<Step>
  {
    [Mutate(0, Stores(r)), Copy(0), Mutate(1, Removes(r.kind, r.id)), Copy(1)]
  }

  lemma RunStoreThenRemove(r: Resource, rest: seq<Step>)
    ensures var stored := map[][KeyOf(r) := r];
            var s := State([map[], stored, stored - {KeyOf(r)}], None, map[], 0, [Copied(1), Copied(2)], false);
            Run(Initial(2, None), StoreThenRemove(r) + rest) == Run(s, rest)
  {
    hide Run, KeyOf;
    var store, remove := Mutate(0, Stores(r)), Mutate(1, Removes(r.kind, r.id));
    var s1 := Apply(Initial(2, None), store);
    var s2 := Apply(s1, Copy(0));
    var s3 := Apply(s2, remove);
    assert StoreThenRemove(r) + rest == [store] + ([Copy(0)] + ([remove] + ([Copy(1)] + rest)));
    RunStep(Initial(2, None), store, [Copy(0)] + ([remove] + ([Copy(1)] + rest)));
    RunStep(s1, Copy(0), [remove] + ([Copy(1)] + rest));
    RunStep(s2, remove, [Copy(1)] + rest);
    RunStep(s3, Copy(1), rest);
    KeyIsStoreKey(r);
    var stored := map[][KeyOf(r) := r];
    assert s1.history == [map[], stored] && s1.threads == [Mutated, Idle];
    assert s3.history == [map[], stored, stored - {KeyOf(r)}] && s3.threads == [Copied(1), Mutated];
    assert Apply(s3, Copy(1)) == State(s3.history, None, map[], 0, [Copied(1), Copied(2)], false);
  }

  lemma KeyIsStoreKey(r: Resource)
    ensures KeyOf(r) == StoreKeys.StoreKey(r.kind, r.id)
  {
  }

  /** With two writers a late rename can bring back an older snapshot although both operations returned nil. */
  lemma LateRenameLosesUpdate(r: Resource)
    ensures var s := Run(Initial(2, None), StoreThenRemove(r) + (Finish(1) + Finish(0)));
            && s.Some? && s.value.threads == [Idle, Idle] && |s.value.history| > 0
            && KeyOf(r) !in Memory(s.value)
            && Restored(s.value.file) == Some(map[KeyOf(r) := r])
  {
    hide KeyOf, Finish, StoreThenRemove;
    var stored := map[][KeyOf(r) := r];
    var s1 := State([map[], stored, stored - {KeyOf(r)}], None, map[], 0, [Copied(1), Copied(2)], false);
    RunStoreThenRemove(r, Finish(1) + Finish(0));
    RunFinish(s1, 1, Finish(0));
    var s2 := State(s1.history, Some(Whole(s1.history[2])), map[], 1, [Copied(1), Idle], true);
    assert s1.threads[1 := Idle] == s2.threads;
    RunFinish(s2, 0, []);
    assert Finish(0) + [] == Finish(0);
    assert s2.threads[0 := Idle] == [Idle, Idle];
  }

  /** An operation that fails leaves the file and the memory alone and takes its temporary file away. */
  lemma FailureLeavesNoTrace(s: State, t: nat)
    requires Enabled(s, Fail(t))
    ensures var s' := Apply(s, Fail(t));
            && s'.file == s.file && s'.history == s.history && s'.threads == s.threads[t := Idle]
            && (HasTemp(s.threads[t]) ==> s.threads[t].temp !in s'.temps)
            && forall n <- s.temps :: (HasTemp(s.threads[t]) ==> n != s.threads[t].temp) ==>
                 n in s'.temps && s'.temps[n] == s.temps[n]
  {
  }
}
