// One round of the reconciler: repair the differences between the stored container IDs and
// the containers that Docker lists, removing at most ten unknown containers.
module Reconciler {
  import opened Wrappers
  import opened StoreKeys
  import opened MemoryStore
  import Locks

  /** A listed container with the labels that the reconciler reads; a missing label is empty. */
  datatype Container = Container(id: string, kind: string, provider: string, service: string, region: string)

  /** The clock is read for every update: by store key for a terminated resource, by container ID for an orphan. */
  type Clock = string -> int

  const MAX_ORPHAN_CLEANUP_PER_RECONCILE := 10

  function Ids(cs: seq<Container>): set<string>
  {
    set c | c in cs :: c.id
  }

  /** The container IDs that the store mentions. */
  function Known(data: Data): set<string>
  {
    set k | k in data && data[k].containerID != "" :: data[k].containerID
  }

  function Terminate(r: Resource, now: int): Resource
  {
    r.(status := "terminated", updatedAt := now)
  }

  predicate Vanished(r: Resource, live: set<string>)
  {
    r.containerID != "" && r.containerID !in live
  }

  /** The first phase: unlocked resources whose container is gone become terminated. */
  function Terminated(data: Data, live: set<string>, busy: set<string>, now: Clock): Data
  {
    map k | k in data :: if Vanished(data[k], live) && k !in busy then Terminate(data[k], now(k)) else data[k]
  }

  function Unknown(cs: seq<Container>, known: set<string>): seq<Container>
  {
    if cs == [] then []
    else
      var before := Unknown(cs[..|cs| - 1], known);
      var c := cs[|cs| - 1];
      if c.id in known then before else before + [c]
  }

  function Batch(unknown: seq<Container>): seq<Container>
  {
    if |unknown| <= MAX_ORPHAN_CLEANUP_PER_RECONCILE then unknown else unknown[..MAX_ORPHAN_CLEANUP_PER_RECONCILE]
  }

  function ShortId(id: string): string
  {
    if |id| > 12 then id[..12] else id
  }

  function OrphanRecord(c: Container, now: int): Resource
  {
    Resource(c.kind, ShortId(c.id), c.provider, c.service, c.region, None, None, "orphan", now, now, c.id)
  }

  function OrphanKey(c: Container): string
  {
    StoreKey(c.kind, ShortId(c.id))
  }

  function OrphanKeys(cs: seq<Container>): set<string>
  {
    set c | c in cs :: OrphanKey(c)
  }

  /** The second phase's inserts, in list order; a locked key is skipped. */
  function WithOrphans(data: Data, cs: seq<Container>, busy: set<string>, now: Clock): Data
  {
    if cs == [] then data
    else
      var before := WithOrphans(data, cs[..|cs| - 1], busy, now);
      var c := cs[|cs| - 1];
      if OrphanKey(c) in busy then before else before[OrphanKey(c) := OrphanRecord(c, now(c.id))]
  }

  function Without(cs: seq<Container>, gone: set<string>): seq<Container>
  {
    if cs == [] then []
    else
      var before := Without(cs[..|cs| - 1], gone);
      var c := cs[|cs| - 1];
      if c.id in gone then before else before + [c]
  }

  /** What may happen to a round from outside. */
  datatype Weather = Weather(
    busy: set<string>,     // keys that other threads hold during the round
    failing: set<string>,  // containers whose removal fails
    removes: bool,         // whether a remover is configured
    now: Clock)

  /** The store and the containers after one successful round. */
  function Round(data: Data, cs: seq<Container>, w: Weather): (Data, seq<Container>)
  {
    var batch := Batch(Unknown(cs, Known(data)));
    (WithOrphans(Terminated(data, Ids(cs), w.busy, w.now), batch, w.busy, w.now),
     if w.removes then Without(cs, Ids(batch) - w.failing) else cs)
  }

  // ---------------------------------------------------------------- the loops of a round

  class Docker {
    var containers: seq<Container>

    constructor (initial: seq<Container>)
      ensures containers == initial
    {
      containers := initial;
    }

    method ListManagedContainers(fails: bool) returns (listed: Option<seq<Container>>)
      ensures listed == if fails then None else Some(containers)
    {
      listed := if fails then None else Some(containers);
    }

    /** A failed removal leaves the container in place. */
    method RemoveContainer(id: string, fails: bool) returns (removed: bool)
      modifies this
      ensures removed == !fails
      ensures containers == if fails then old(containers) else Without(old(containers), {id})
    {
      if !fails {
        containers := Without(containers, {id});
      }
      removed := !fails;
    }
  }

  lemma {:induction false} UnknownIsPrefix(cs: seq<Container>, i: nat, known: set<string>)
    requires i <= |cs|
    ensures Unknown(cs[..i], known) <= Unknown(cs, known)
  {
    if i == |cs| {
      assert cs[..i] == cs;
    } else {
      var front := cs[..|cs| - 1];
      UnknownIsPrefix(front, i, known);
      assert front[..i] == cs[..i];
    }
  }

  lemma {:induction false} WithoutTwice(cs: seq<Container>, a: set<string>, b: set<string>)
    ensures Without(Without(cs, a), b) == Without(cs, a + b)
  {
    if cs != [] {
      var front := cs[..|cs| - 1];
      WithoutTwice(front, a, b);
      var c := cs[|cs| - 1];
      if c.id !in a {
        assert Without(cs, a)[..|Without(cs, a)| - 1] == Without(front, a);
      }
    }
  }

  lemma {:induction false} WithoutNothing(cs: seq<Container>)
    ensures Without(cs, {}) == cs
  {
    if cs != [] {
      WithoutNothing(cs[..|cs| - 1]);
    }
  }

  class ReconcilerService {
    const store: Store
    const locker: Locks.LockManager
    const docker: Docker
    const hasRemover: bool

    ghost predicate Valid()
      reads this, store, locker
    {
      store.Valid() && locker.Valid()
    }

    constructor (store: Store, locker: Locks.LockManager, docker: Docker, hasRemover: bool)
      requires store.Valid() && locker.Valid()
      ensures Valid()
      ensures this.store == store && this.locker == locker && this.docker == docker && this.hasRemover == hasRemover
    {
      this.store, this.locker, this.docker, this.hasRemover := store, locker, docker, hasRemover;
    }

    /** One turn of the terminate loop writes back the copy that List returned. */
    method TerminateIfVanished(r: Resource, live: set<string>, now: int)
      requires Valid()
      modifies store, locker
      ensures Valid() && locker.locks == old(locker.locks)
      ensures store.data == if Vanished(r, live) && KeyOf(r) !in old(locker.locks)
                            then old(store.data)[KeyOf(r) := Terminate(r, now)] else old(store.data)
    {
      if r.containerID == "" || r.containerID in live {
        return;
      }
      var taken := locker.TryLock(r.kind, r.id);
      if taken {
        store.Put(Terminate(r, now));
        locker.Unlock(r.kind, r.id);
      }
    }

    method TerminateVanished(resources: seq<Resource>, live: set<string>, now: Clock)
      requires Valid() && IsListing(store.data, "", map[], resources)
      modifies store, locker
      ensures Valid() && locker.locks == old(locker.locks)
      ensures store.data == Terminated(old(store.data), live, old(locker.locks).Keys, now)
    {
      ghost var before, busy := store.data, locker.locks.Keys;
      for i := 0 to |resources|
        invariant Valid() && locker.locks.Keys == busy && locker.locks == old(locker.locks)
        invariant TerminatedUpTo(before, store.data, resources, i, live, busy, now)
      {
        TerminateOneMore(before, store.data, resources, i, live, busy, now);
        TerminateIfVanished(resources[i], live, now(KeyOf(resources[i])));
      }
      AllTerminated(before, store.data, resources, live, busy, now);
    }

    /** One turn of the orphan loop: insert the record if its key is free, and remove the container in any case. */
    method CleanOrphan(c: Container, fails: bool, now: int)
      requires Valid()
      modifies store, locker, docker
      ensures Valid() && locker.locks == old(locker.locks)
      ensures store.data == if OrphanKey(c) in old(locker.locks) then old(store.data)
                            else old(store.data)[OrphanKey(c) := OrphanRecord(c, now)]
      ensures docker.containers == if hasRemover && !fails then Without(old(docker.containers), {c.id})
                                   else old(docker.containers)
    {
      var id := ShortId(c.id);
      var taken := locker.TryLock(c.kind, id);
      if taken {
        store.Put(OrphanRecord(c, now));
        locker.Unlock(c.kind, id);
      }
      if hasRemover {
        var _ := docker.RemoveContainer(c.id, fails);
      }
    }

    /** The orphan loop over the listed containers, which stops at the eleventh unknown one. */
    method CleanOrphans(cs: seq<Container>, known: set<string>, failing: set<string>, now: Clock)
      requires Valid() && docker.containers == cs
      modifies store, locker, docker
      ensures Valid() && locker.locks == old(locker.locks)
      ensures var batch := Batch(Unknown(cs, known));
              && store.data == WithOrphans(old(store.data), batch, old(locker.locks).Keys, now)
              && docker.containers == if hasRemover then Without(cs, Ids(batch) - failing) else cs
    {
      hide Without, WithOrphans, Unknown, OrphanKey, OrphanRecord, Batch;
      ghost var before, w := store.data, Weather(locker.locks.Keys, failing, hasRemover, now);
      OrphansNotStarted(before, cs, known, w);
      var cleaned := 0;
      var i := 0;
      while i < |cs|
        invariant 0 <= i <= |cs| && Valid() && locker.locks == old(locker.locks)
        invariant OrphansCleaned(before, cs, i, known, w, store.data, docker.containers, cleaned)
      {
        var c := cs[i];
        if c.id !in known {
          if cleaned >= MAX_ORPHAN_CLEANUP_PER_RECONCILE {
            break;
          }
          OneMoreOrphan(before, cs, i, known, w, store.data, docker.containers, cleaned);
          CleanOrphan(c, c.id in failing, now(c.id));
          cleaned := cleaned + 1;
        } else {
          KnownContainerSkipped(before, cs, i, known, w, store.data, docker.containers, cleaned);
        }
        i := i + 1;
      }
      BatchReached(cs, i, known);
    }

    method CollectKnown(resources: seq<Resource>) returns (known: set<string>)
      ensures known == set j | 0 <= j < |resources| && resources[j].containerID != "" :: resources[j].containerID
    {
      known := {};
      for i := 0 to |resources|
        invariant known == set j | 0 <= j < i && resources[j].containerID != "" :: resources[j].containerID
      {
        if resources[i].containerID != "" {
          known := known + {resources[i].containerID};
        }
      }
    }

    method Reconcile(listFails: bool, failing: set<string>, now: Clock)
      requires Valid()
      modifies store, locker, docker
      ensures Valid() && locker.locks == old(locker.locks)
      ensures listFails ==> store.data == old(store.data) && docker.containers == old(docker.containers)
      ensures !listFails ==>
                (store.data, docker.containers) ==
                Round(old(store.data), old(docker.containers),
                      Weather(old(locker.locks).Keys, failing, hasRemover, now))
    {
      var listed := docker.ListManagedContainers(listFails);
      if listed.None? {
        return;
      }
      var cs := listed.value;
      var resources := store.List("", map[]);
      TerminateVanished(resources, Ids(cs), now);
      var known := CollectKnown(resources);
      KnownOfListing(old(store.data), resources, known);
      CleanOrphans(cs, known, failing, now);
    }
  }

  /** The first `n` listed resources have been handled, the others are as before. */
  ghost predicate TerminatedUpTo(before: Data, data: Data, resources: seq<Resource>, n: nat,
                                 live: set<string>, busy: set<string>, now: Clock)
  {
    && n <= |resources|
    && IsListing(before, "", map[], resources)
    && data.Keys == before.Keys
    && (forall j :: 0 <= j < |resources| ==>
          var key := KeyOf(resources[j]);
          key in data && data[key] == if j < n then Terminated(before, live, busy, now)[key] else before[key])
  }

  lemma TerminateOneMore(before: Data, data: Data, resources: seq<Resource>, n: nat,
                         live: set<string>, busy: set<string>, now: Clock)
    requires n < |resources| && TerminatedUpTo(before, data, resources, n, live, busy, now)
    ensures var r := resources[n];
            var next := if Vanished(r, live) && KeyOf(r) !in busy
                        then data[KeyOf(r) := Terminate(r, now(KeyOf(r)))] else data;
            TerminatedUpTo(before, next, resources, n + 1, live, busy, now)
  {
    var r := resources[n];
    assert r in resources;
    var next := if Vanished(r, live) && KeyOf(r) !in busy then data[KeyOf(r) := Terminate(r, now(KeyOf(r)))] else data;
    assert forall j | 0 <= j < |resources| :: KeyOf(resources[j]) == KeyOf(r) <==> j == n;
    assert next.Keys == before.Keys;
  }

  lemma AllTerminated(before: Data, data: Data, resources: seq<Resource>,
                      live: set<string>, busy: set<string>, now: Clock)
    requires WellKeyed(before) && TerminatedUpTo(before, data, resources, |resources|, live, busy, now)
    ensures data == Terminated(before, live, busy, now)
  {
    forall k <- before
      ensures data[k] == Terminated(before, live, busy, now)[k]
    {
      assert before[k] in resources;
    }
  }

  /** The state of the orphan loop before container `i`. */
  ghost predicate OrphansCleaned(before: Data, cs: seq<Container>, i: nat, known: set<string>, w: Weather,
                                 data: Data, left: seq<Container>, cleaned: nat)
    requires i <= |cs|
  {
    var done := Unknown(cs[..i], known);
    && |done| == cleaned <= MAX_ORPHAN_CLEANUP_PER_RECONCILE
    && data == WithOrphans(before, done, w.busy, w.now)
    && left == if w.removes then Without(cs, Ids(done) - w.failing) else cs
  }

  lemma OrphansNotStarted(before: Data, cs: seq<Container>, known: set<string>, w: Weather)
    ensures OrphansCleaned(before, cs, 0, known, w, before, cs, 0)
  {
    WithoutNothing(cs);
    assert Ids(Unknown(cs[..0], known)) - w.failing == {};
  }

  lemma KnownContainerSkipped(before: Data, cs: seq<Container>, i: nat, known: set<string>, w: Weather,
                              data: Data, left: seq<Container>, cleaned: nat)
    requires i < |cs| && cs[i].id in known
    requires OrphansCleaned(before, cs, i, known, w, data, left, cleaned)
    ensures OrphansCleaned(before, cs, i + 1, known, w, data, left, cleaned)
  {
    assert cs[..i + 1][..i] == cs[..i];
  }

  lemma OneMoreOrphan(before: Data, cs: seq<Container>, i: nat, known: set<string>, w: Weather,
                      data: Data, left: seq<Container>, cleaned: nat)
    requires i < |cs| && cs[i].id !in known && cleaned < MAX_ORPHAN_CLEANUP_PER_RECONCILE
    requires OrphansCleaned(before, cs, i, known, w, data, left, cleaned)
    ensures var c := cs[i];
            OrphansCleaned(before, cs, i + 1, known, w,
                           if OrphanKey(c) in w.busy then data else data[OrphanKey(c) := OrphanRecord(c, w.now(c.id))],
                           if w.removes && c.id !in w.failing then Without(left, {c.id}) else left,
                           cleaned + 1)
  {
    hide OrphanKey, OrphanRecord, Without;
    var c, done := cs[i], Unknown(cs[..i], known);
    assert cs[..i + 1][..i] == cs[..i];
    assert Unknown(cs[..i + 1], known) == done + [c];
    InsertOneMore(before, done, c, w);
    RemoveOneMore(cs, done, c, w);
  }

  lemma InsertOneMore(before: Data, done: seq<Container>, c: Container, w: Weather)
    ensures var data := WithOrphans(before, done, w.busy, w.now);
            WithOrphans(before, done + [c], w.busy, w.now) ==
            if OrphanKey(c) in w.busy then data else data[OrphanKey(c) := OrphanRecord(c, w.now(c.id))]
  {
    hide OrphanKey, OrphanRecord;
    assert (done + [c])[..|done|] == done;
  }

  lemma RemoveOneMore(cs: seq<Container>, done: seq<Container>, c: Container, w: Weather)
    ensures var left := Without(cs, Ids(done) - w.failing);
            Without(cs, Ids(done + [c]) - w.failing) ==
            if c.id in w.failing then left else Without(left, {c.id})
  {
    hide Without;
    WithoutTwice(cs, Ids(done) - w.failing, {c.id});
    assert Ids(done + [c]) == Ids(done) + {c.id};
    assert Ids(done + [c]) - w.failing ==
           if c.id in w.failing then Ids(done) - w.failing else Ids(done) - w.failing + {c.id};
  }

  /** Where the orphan loop stops, it has seen the whole batch. */
  lemma BatchReached(cs: seq<Container>, i: nat, known: set<string>)
    requires i <= |cs|
    requires |Unknown(cs[..i], known)| <= MAX_ORPHAN_CLEANUP_PER_RECONCILE
    requires i < |cs| ==> |Unknown(cs[..i], known)| == MAX_ORPHAN_CLEANUP_PER_RECONCILE
    ensures Unknown(cs[..i], known) == Batch(Unknown(cs, known))
  {
    UnknownIsPrefix(cs, i, known);
    assert i == |cs| ==> cs[..i] == cs;
  }

  lemma KnownOfListing(data: Data, resources: seq<Resource>, known: set<string>)
    requires WellKeyed(data) && IsListing(data, "", map[], resources)
    requires known == set j | 0 <= j < |resources| && resources[j].containerID != "" :: resources[j].containerID
    ensures known == Known(data)
  {
    forall k | k in data && data[k].containerID != ""
      ensures data[k].containerID in known
    {
      assert data[k] in resources;
    }
    forall j | 0 <= j < |resources| && resources[j].containerID != ""
      ensures resources[j].containerID in Known(data)
    {
      assert resources[j] in resources;
    }
  }
}
