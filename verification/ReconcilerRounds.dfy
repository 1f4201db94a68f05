// What one reconciler round means, and where repeated rounds lead.
module ReconcilerRounds {
  import opened Wrappers
  import opened StoreKeys
  import opened MemoryStore
  import opened Reconciler

  /** Docker gives every container its own ID. */
  ghost predicate DistinctIds(cs: seq<Container>)
  {
    forall i, j :: 0 <= i < j < |cs| ==> cs[i].id != cs[j].id
  }

  function UnknownTo(data: Data, cs: seq<Container>): seq<Container>
  {
    Unknown(cs, Known(data))
  }

  // ---------------------------------------------------------------- the filters

  lemma {:induction false} UnknownMembers(cs: seq<Container>, known: set<string>)
    ensures forall c :: c in Unknown(cs, known) <==> c in cs && c.id !in known
  {
    if cs != [] {
      UnknownMembers(cs[..|cs| - 1], known);
      assert cs == cs[..|cs| - 1] + [cs[|cs| - 1]];
    }
  }

  lemma {:induction false} WithoutMembers(cs: seq<Container>, gone: set<string>)
    ensures forall c :: c in Without(cs, gone) <==> c in cs && c.id !in gone
  {
    if cs != [] {
      WithoutMembers(cs[..|cs| - 1], gone);
      assert cs == cs[..|cs| - 1] + [cs[|cs| - 1]];
    }
  }

  lemma {:induction false} UnknownIsDistinct(cs: seq<Container>, known: set<string>)
    requires DistinctIds(cs)
    ensures DistinctIds(Unknown(cs, known))
  {
    if cs != [] {
      var front := cs[..|cs| - 1];
      UnknownIsDistinct(front, known);
      UnknownMembers(front, known);
      forall i | 0 <= i < |Unknown(front, known)|
        ensures Unknown(front, known)[i].id != cs[|cs| - 1].id
      {
        assert Unknown(front, known)[i] in front;
      }
    }
  }

  lemma {:induction false} WithoutIsDistinct(cs: seq<Container>, gone: set<string>)
    requires DistinctIds(cs)
    ensures DistinctIds(Without(cs, gone))
  {
    if cs != [] {
      var front := cs[..|cs| - 1];
      WithoutIsDistinct(front, gone);
      WithoutMembers(front, gone);
      forall i | 0 <= i < |Without(front, gone)|
        ensures Without(front, gone)[i].id != cs[|cs| - 1].id
      {
        assert Without(front, gone)[i] in front;
      }
    }
  }

  lemma {:induction false} FiltersCommute(cs: seq<Container>, known: set<string>, gone: set<string>)
    ensures Unknown(Without(cs, gone), known) == Without(Unknown(cs, known), gone)
  {
    if cs != [] {
      var front, c := cs[..|cs| - 1], cs[|cs| - 1];
      FiltersCommute(front, known, gone);
      if c.id !in gone {
        assert Without(cs, gone)[..|Without(front, gone)|] == Without(front, gone);
      }
      if c.id !in known {
        assert Unknown(cs, known)[..|Unknown(front, known)|] == Unknown(front, known);
      }
    }
  }

  lemma EmptyOrMember(cs: seq<Container>)
    ensures cs == [] || cs[0] in cs
  {
  }

  lemma {:induction false} PrefixRemoved(cs: seq<Container>, n: nat)
    requires DistinctIds(cs) && n <= |cs|
    ensures Without(cs, Ids(cs[..n])) == cs[n..]
  {
    if n == |cs| {
      WithoutMembers(cs, Ids(cs[..n]));
      assert cs[..n] == cs;
      EmptyOrMember(Without(cs, Ids(cs)));
    } else {
      var front := cs[..|cs| - 1];
      PrefixRemoved(front, n);
      assert front[..n] == cs[..n];
      assert cs[n..] == front[n..] + [cs[|cs| - 1]];
    }
  }

  /** Knowing less can only make more containers unknown, and strictly more if it matters for one of them. */
  lemma {:induction false} ForgettingAddsUnknown(cs: seq<Container>, known: set<string>, less: set<string>)
    requires forall c <- cs :: c.id in less ==> c.id in known
    ensures |Unknown(cs, less)| >= |Unknown(cs, known)|
    ensures (exists c <- cs :: c.id in known && c.id !in less) ==> |Unknown(cs, less)| > |Unknown(cs, known)|
    ensures (forall c <- cs :: c.id in known ==> c.id in less) ==> Unknown(cs, less) == Unknown(cs, known)
  {
    if cs != [] {
      var front := cs[..|cs| - 1];
      assert cs == front + [cs[|cs| - 1]];
      ForgettingAddsUnknown(front, known, less);
    }
  }

  // ---------------------------------------------------------------- what one round means

  /** The batch containers that compete for a key, when no lock is in the way. */
  ghost predicate Claims(cs: seq<Container>, busy: set<string>, key: string, c: Container)
  {
    c in cs && OrphanKey(c) == key && key !in busy
  }

  lemma {:induction false} UnclaimedKey(data: Data, cs: seq<Container>, busy: set<string>, now: Clock, key: string)
    requires forall c <- cs :: !Claims(cs, busy, key, c)
    ensures var after := WithOrphans(data, cs, busy, now);
            (key in after <==> key in data) && (key in data ==> after[key] == data[key])
  {
    if cs != [] {
      var front, last := cs[..|cs| - 1], cs[|cs| - 1];
      assert last in cs && !Claims(cs, busy, key, last);
      forall c <- front
        ensures !Claims(front, busy, key, c)
      {
        assert c in cs && !Claims(cs, busy, key, c);
      }
      UnclaimedKey(data, front, busy, now, key);
    }
  }

  lemma {:induction false} ClaimedKey(data: Data, cs: seq<Container>, busy: set<string>, now: Clock, key: string,
                                      c: Container)
    returns (winner: Container)
    requires Claims(cs, busy, key, c)
    ensures Claims(cs, busy, key, winner)
    ensures var after := WithOrphans(data, cs, busy, now);
            key in after && after[key] == OrphanRecord(winner, now(winner.id))
  {
    var front, last := cs[..|cs| - 1], cs[|cs| - 1];
    if OrphanKey(last) == key {
      winner := last;
    } else {
      assert cs == front + [last];
      winner := ClaimedKey(data, front, busy, now, key, c);
    }
  }

  /** Every key of the store after a round, whatever is locked and whichever removals fail. */
  lemma RoundMeaning(data: Data, cs: seq<Container>, w: Weather, key: string)
    ensures var (after, _) := Round(data, cs, w);
            var batch := Batch(UnknownTo(data, cs));
            if exists c :: Claims(batch, w.busy, key, c)
            then key in after && exists c :: Claims(batch, w.busy, key, c) && after[key] == OrphanRecord(c, w.now(c.id))
            else
              && (key in after <==> key in data)
              && (key in data ==>
                    after[key] == if Vanished(data[key], Ids(cs)) && key !in w.busy
                                  then Terminate(data[key], w.now(key)) else data[key])
  {
    var terminated := Terminated(data, Ids(cs), w.busy, w.now);
    var batch := Batch(UnknownTo(data, cs));
    if c :| Claims(batch, w.busy, key, c) {
      var _ := ClaimedKey(terminated, batch, w.busy, w.now, key, c);
    } else {
      UnclaimedKey(terminated, batch, w.busy, w.now, key);
    }
  }

  /** With no lock held and fresh, distinct orphan keys: exactly these resources change, and exactly so. */
  lemma UndisturbedRound(data: Data, cs: seq<Container>, w: Weather)
    requires w.busy == {}
    requires var batch := Batch(UnknownTo(data, cs));
             && (forall b <- batch :: OrphanKey(b) !in data)
             && (forall b <- batch, c <- batch :: OrphanKey(b) == OrphanKey(c) ==> b == c)
    ensures var (after, _) := Round(data, cs, w);
            var batch := Batch(UnknownTo(data, cs));
            && after.Keys == data.Keys + OrphanKeys(batch)
            && (forall k <- data ::
                  after[k] == if Vanished(data[k], Ids(cs)) then Terminate(data[k], w.now(k)) else data[k])
            && (forall b <- batch :: after[OrphanKey(b)] == OrphanRecord(b, w.now(b.id)))
  {
    var (after, _) := Round(data, cs, w);
    var batch := Batch(UnknownTo(data, cs));
    forall k
      ensures k in after <==> k in data || k in OrphanKeys(batch)
      ensures k in data ==>
                k in after && after[k] == if Vanished(data[k], Ids(cs)) then Terminate(data[k], w.now(k)) else data[k]
    {
      RoundMeaning(data, cs, w, k);
      assert forall b <- batch :: Claims(batch, w.busy, OrphanKey(b), b);
    }
    forall b <- batch
      ensures OrphanKey(b) in after && after[OrphanKey(b)] == OrphanRecord(b, w.now(b.id))
    {
      RoundMeaning(data, cs, w, OrphanKey(b));
      assert Claims(batch, w.busy, OrphanKey(b), b);
    }
  }

  /** A container that the store mentions is never removed, under any weather. */
  lemma KnownContainersSurvive(data: Data, cs: seq<Container>, w: Weather, c: Container)
    requires c in cs && c.id in Known(data)
    ensures c in Round(data, cs, w).1
  {
    UnknownMembers(cs, Known(data));
    WithoutMembers(cs, Ids(Batch(UnknownTo(data, cs))) - w.failing);
  }

  /** A round never adds a container and removes at most ten. */
  lemma RoundRemovesOnlyTheBatch(data: Data, cs: seq<Container>, w: Weather, c: Container)
    ensures c in Round(data, cs, w).1 <==>
              c in cs && !(w.removes && c.id in Ids(Batch(UnknownTo(data, cs))) && c.id !in w.failing)
    ensures |Batch(UnknownTo(data, cs))| <= 10
  {
    WithoutMembers(cs, Ids(Batch(UnknownTo(data, cs))) - w.failing);
  }

  /** A locked key loses its record but not its container's removal; see also BatchIsRecordedExactlyWhen. */
  lemma LockedOrphanIsRemovedUnrecorded(data: Data, cs: seq<Container>, w: Weather, c: Container)
    requires w.removes && c in Batch(UnknownTo(data, cs)) && OrphanKey(c) in w.busy && c.id !in w.failing
    ensures var (after, left) := Round(data, cs, w);
            && c !in left
            && (OrphanKey(c) in after <==> OrphanKey(c) in data)
            && (OrphanKey(c) in data ==> after[OrphanKey(c)] == data[OrphanKey(c)])
  {
    RoundMeaning(data, cs, w, OrphanKey(c));
    RoundRemovesOnlyTheBatch(data, cs, w, c);
  }

  // ---------------------------------------------------------------- convergence

  /** No lock is held and the configured remover succeeds. */
  function Calm(now: Clock): Weather
  {
    Weather({}, {}, true, now)
  }

  /** Every known, listed container has a record that this round's inserts do not overwrite. */
  ghost predicate KeepsRecords(data: Data, cs: seq<Container>)
  {
    forall c <- cs | c.id in Known(data) ::
      exists k <- data :: data[k].containerID == c.id && k !in OrphanKeys(Batch(UnknownTo(data, cs)))
  }

  lemma KnownAfterRound(data: Data, cs: seq<Container>, w: Weather, c: Container)
    requires c in cs && c.id !in Ids(Batch(UnknownTo(data, cs)))
    ensures c.id in Known(Round(data, cs, w).0) ==> c.id in Known(data)
    ensures c.id in Known(data) && (exists k <- data :: data[k].containerID == c.id
                                                     && k !in OrphanKeys(Batch(UnknownTo(data, cs)))) ==>
              c.id in Known(Round(data, cs, w).0)
    ensures w.busy == {} && c.id in Known(data) ==>
              (c.id in Known(Round(data, cs, w).0) <==>
               exists k <- data :: data[k].containerID == c.id && k !in OrphanKeys(Batch(UnknownTo(data, cs))))
  {
    var after := Round(data, cs, w).0;
    var batch := Batch(UnknownTo(data, cs));
    if c.id in Known(after) {
      var k :| k in after && after[k].containerID == c.id && c.id != "";
      RoundMeaning(data, cs, w, k);
      assert after[k].containerID != "";
      assert !exists b :: Claims(batch, w.busy, k, b);
      assert k in data && data[k].containerID == c.id;
      assert forall b <- batch :: OrphanKey(b) == k && k !in w.busy ==> Claims(batch, w.busy, k, b);
    }
    if k :| k in data && data[k].containerID == c.id && k !in OrphanKeys(batch) {
      RoundMeaning(data, cs, w, k);
      assert forall b :: Claims(batch, w.busy, k, b) ==> OrphanKey(b) in OrphanKeys(batch);
      assert k in after && after[k].containerID == c.id;
    }
  }

  lemma UnknownAfterRound(data: Data, cs: seq<Container>, now: Clock)
    requires DistinctIds(cs)
    ensures var (after, left) := Round(data, cs, Calm(now));
            var u := UnknownTo(data, cs);
            && DistinctIds(left)
            && Unknown(left, Known(data)) == u[|Batch(u)|..]
            && (forall c <- left :: c in cs && c.id !in Ids(Batch(u)))
  {
    var u := UnknownTo(data, cs);
    var gone := Ids(Batch(u));
    assert gone - {} == gone;
    UnknownIsDistinct(cs, Known(data));
    PrefixRemoved(u, |Batch(u)|);
    assert u[..|Batch(u)|] == Batch(u);
    FiltersCommute(cs, Known(data), gone);
    WithoutMembers(cs, gone);
    WithoutIsDistinct(cs, gone);
  }

  /** A calm round lowers the number of unknown containers by min(10, unknown) if and only if no record is lost. */
  lemma RoundLowersUnknownExactlyWhen(data: Data, cs: seq<Container>, now: Clock)
    requires DistinctIds(cs)
    ensures var (after, left) := Round(data, cs, Calm(now));
            var u := UnknownTo(data, cs);
            && |UnknownTo(after, left)| >= |u| - |Batch(u)|
            && (|UnknownTo(after, left)| == |u| - |Batch(u)| <==> KeepsRecords(data, cs))
            && (KeepsRecords(data, cs) ==> UnknownTo(after, left) == u[|Batch(u)|..])
  {
    var w := Calm(now);
    var (after, left) := Round(data, cs, w);
    UnknownAfterRound(data, cs, now);
    forall c <- left
      ensures c.id in Known(after) ==> c.id in Known(data)
      ensures KeepsRecords(data, cs) && c.id in Known(data) ==> c.id in Known(after)
    {
      KnownAfterRound(data, cs, w, c);
    }
    ForgettingAddsUnknown(left, Known(data), Known(after));
    if !KeepsRecords(data, cs) {
      var c :| c in cs && c.id in Known(data) &&
      !exists k <- data :: data[k].containerID == c.id && k !in OrphanKeys(Batch(UnknownTo(data, cs)));
      KnownContainersSurvive(data, cs, w, c);
      KnownAfterRound(data, cs, w, c);
    }
  }

  /** The key of an unknown container is free, or its record mentions no listed container. */
  ghost predicate Safe(data: Data, cs: seq<Container>)
  {
    forall c <- UnknownTo(data, cs) :: OrphanKey(c) in data ==> data[OrphanKey(c)].containerID !in Ids(cs)
  }

  lemma SafeKeepsRecords(data: Data, cs: seq<Container>)
    requires Safe(data, cs)
    ensures KeepsRecords(data, cs)
  {
    forall c | c in cs && c.id in Known(data)
      ensures exists k <- data :: data[k].containerID == c.id && k !in OrphanKeys(Batch(UnknownTo(data, cs)))
    {
      var k :| k in data && data[k].containerID == c.id;
      assert c.id in Ids(cs);
    }
  }

  lemma SafeIsKept(data: Data, cs: seq<Container>, now: Clock)
    requires DistinctIds(cs) && Safe(data, cs)
    ensures var (after, left) := Round(data, cs, Calm(now)); DistinctIds(left) && Safe(after, left)
  {
    var w := Calm(now);
    var (after, left) := Round(data, cs, w);
    var u := UnknownTo(data, cs);
    UnknownAfterRound(data, cs, now);
    SafeKeepsRecords(data, cs);
    RoundLowersUnknownExactlyWhen(data, cs, now);
    forall c <- UnknownTo(after, left)
      ensures OrphanKey(c) in after ==> after[OrphanKey(c)].containerID !in Ids(left)
    {
      assert c in u;
      RoundMeaning(data, cs, w, OrphanKey(c));
      assert forall b <- left :: b.id in Ids(cs) && b.id !in Ids(Batch(u));
    }
  }

  function Rounds(data: Data, cs: seq<Container>, clock: seq<Clock>): (Data, seq<Container>)
    decreases |clock|
  {
    if clock == [] then (data, cs)
    else var (d, c) := Round(data, cs, Calm(clock[0])); Rounds(d, c, clock[1..])
  }

  /** After n calm rounds the first min(10n, u) unknown containers are gone and the others are still there. */
  lemma {:induction false} RoundsRemoveTenEach(data: Data, cs: seq<Container>, clock: seq<Clock>)
    requires DistinctIds(cs) && Safe(data, cs)
    ensures var (after, left) := Rounds(data, cs, clock);
            var u := UnknownTo(data, cs);
            UnknownTo(after, left) == u[if 10 * |clock| < |u| then 10 * |clock| else |u|..]
    decreases |clock|
  {
    hide Round, Safe, DistinctIds, KeepsRecords, Unknown, UnknownTo;
    if clock != [] {
      var (d, c) := Round(data, cs, Calm(clock[0]));
      SafeKeepsRecords(data, cs);
      RoundLowersUnknownExactlyWhen(data, cs, clock[0]);
      SafeIsKept(data, cs, clock[0]);
      RoundsRemoveTenEach(d, c, clock[1..]);
    }
  }

  /** Nothing is unknown, and every record of a vanished container says terminated. */
  ghost predicate Settled(data: Data, cs: seq<Container>)
  {
    && UnknownTo(data, cs) == []
    && forall k <- data :: Vanished(data[k], Ids(cs)) ==> data[k].status == "terminated"
  }

  /** The same resources, except for the time of the last update. */
  ghost predicate SameButUpdatedAt(a: Data, b: Data)
  {
    a.Keys == b.Keys && forall k <- a :: a[k].(updatedAt := b[k].updatedAt) == b[k]
  }

  lemma QuietRound(data: Data, cs: seq<Container>, now: Clock)
    requires UnknownTo(data, cs) == []
    ensures var (after, left) := Round(data, cs, Calm(now));
            && left == cs
            && Settled(after, left)
            && (Settled(data, cs) ==> SameButUpdatedAt(data, after))
  {
    var (after, left) := Round(data, cs, Calm(now));
    WithoutNothing(cs);
    assert Ids(Batch(UnknownTo(data, cs))) - {} == {};
    assert forall k <- data :: after[k].containerID == data[k].containerID;
    forall id | id in Known(data)
      ensures id in Known(after)
    {
      var k :| k in data && data[k].containerID == id && id != "";
      assert after[k].containerID == id;
    }
    UnknownMembers(cs, Known(data));
    UnknownMembers(cs, Known(after));
    EmptyOrMember(UnknownTo(after, left));
  }

  /** ceil(u / 10) + 1 rounds settle the state, and more rounds keep it settled. */
  lemma {:induction false} RoundsSettle(data: Data, cs: seq<Container>, clock: seq<Clock>)
    requires DistinctIds(cs) && Safe(data, cs)
    requires 10 * (|clock| - 1) >= |UnknownTo(data, cs)|
    ensures var (after, left) := Rounds(data, cs, clock); Settled(after, left)
    decreases |clock|
  {
    var u := UnknownTo(data, cs);
    var (d, c) := Round(data, cs, Calm(clock[0]));
    if |clock| == 1 {
      QuietRound(data, cs, clock[0]);
      assert clock[1..] == [];
      assert Rounds(d, c, clock[1..]) == (d, c);
    } else {
      SafeKeepsRecords(data, cs);
      RoundLowersUnknownExactlyWhen(data, cs, clock[0]);
      SafeIsKept(data, cs, clock[0]);
      RoundsSettle(d, c, clock[1..]);
    }
  }

  lemma {:induction false} WithoutIsShorter(cs: seq<Container>, gone: set<string>)
    ensures |Without(cs, gone)| <= |cs|
    ensures (exists c <- cs :: c.id in gone) ==> |Without(cs, gone)| < |cs|
  {
    if cs != [] {
      var front := cs[..|cs| - 1];
      WithoutIsShorter(front, gone);
      assert cs == front + [cs[|cs| - 1]];
    }
  }

  /** A calm round with an unknown container removes one, even if it makes another one unknown. */
  lemma RoundShortensList(data: Data, cs: seq<Container>, now: Clock)
    requires UnknownTo(data, cs) != []
    ensures |Round(data, cs, Calm(now)).1| < |cs|
  {
    var u := UnknownTo(data, cs);
    var gone := Ids(Batch(u));
    assert gone - {} == gone;
    UnknownMembers(cs, Known(data));
    assert u[0] in u && u[0] in Batch(u);
    WithoutIsShorter(cs, gone);
  }

  /** Without any condition on the records: as many rounds as there are containers, and one more, settle the state. */
  lemma {:induction false} RoundsAlwaysSettle(data: Data, cs: seq<Container>, clock: seq<Clock>)
    requires DistinctIds(cs)
    requires |clock| >= if UnknownTo(data, cs) == [] then 1 else |cs| + 1
    ensures var (after, left) := Rounds(data, cs, clock); Settled(after, left)
    decreases |clock|
  {
    hide Settled, Round, DistinctIds, SameButUpdatedAt;
    var (d, c) := Round(data, cs, Calm(clock[0]));
    if UnknownTo(data, cs) == [] {
      QuietRound(data, cs, clock[0]);
      if |clock| > 1 {
        SettledIsFinal(d, c, clock[1..]);
        SettledStays(d, c, clock[1..]);
      }
    } else {
      UnknownAfterRound(data, cs, clock[0]);
      RoundShortensList(data, cs, clock[0]);
      RoundsAlwaysSettle(d, c, clock[1..]);
    }
  }

  lemma {:induction false} SettledStays(data: Data, cs: seq<Container>, clock: seq<Clock>)
    requires Settled(data, cs)
    ensures var (after, left) := Rounds(data, cs, clock); Settled(after, left)
    decreases |clock|
  {
    hide Round, SameButUpdatedAt;
    if clock != [] {
      var (d, c) := Round(data, cs, Calm(clock[0]));
      QuietRound(data, cs, clock[0]);
      SettledStays(d, c, clock[1..]);
    }
  }

  lemma FiltersOfOne(c: Container, ids: set<string>)
    ensures Unknown([c], ids) == if c.id in ids then [] else [c]
    ensures Without([c], ids) == if c.id in ids then [] else [c]
  {
    assert [c][..0] == [];
  }

  lemma FiltersOfTwo(a: Container, b: Container, ids: set<string>)
    ensures Unknown([a, b], ids) == Unknown([a], ids) + Unknown([b], ids)
    ensures Without([a, b], ids) == Without([a], ids) + Without([b], ids)
  {
    FiltersOfOne(b, ids);
    assert [a, b][..1] == [a];
  }

  /** A round over one unknown container that is not listed alone. */
  lemma RoundOverOneUnknown(data: Data, cs: seq<Container>, now: Clock, c: Container)
    requires UnknownTo(data, cs) == [c]
    ensures Round(data, cs, Calm(now))
         == (Terminated(data, Ids(cs), {}, now)[OrphanKey(c) := OrphanRecord(c, now(c.id))], Without(cs, {c.id}))
  {
    hide OrphanKey, OrphanRecord, Terminated, Unknown;
    var terminated := Terminated(data, Ids(cs), {}, now);
    assert Batch([c]) == [c] && [c][..0] == [];
    assert WithOrphans(terminated, [c], {}, now) == terminated[OrphanKey(c) := OrphanRecord(c, now(c.id))];
    assert Ids([c]) - {} == {c.id};
  }

  /**
   * A live container can lose its record to an orphan. Here the record of x sits at the key that
   * the unknown container y gets: the first round removes y and makes x unknown, although the
   * store mentioned it, and the second round removes x.
   */
  lemma OverwrittenRecordCostsContainer(r: Resource, x: Container, y: Container, now: Clock, later: Clock)
    requires r.containerID == x.id && x.id != y.id && x.id != "" && y.id != ""
    ensures var data, cs := map[OrphanKey(y) := r], [x, y];
            var (after, left) := Round(data, cs, Calm(now));
            && x.id in Known(data) && !KeepsRecords(data, cs)
            && left == [x] && UnknownTo(after, left) == [x]
            && Round(after, left, Calm(later)).1 == []
  {
    hide OrphanKey, Unknown, Without, Round, Ids;
    var data, cs := map[OrphanKey(y) := r], [x, y];
    var (after, left) := Round(data, cs, Calm(now));
    KnownOfOne(OrphanKey(y), r);
    FiltersOfTwo(x, y, {x.id});
    FiltersOfOne(x, {x.id});
    FiltersOfOne(y, {x.id});
    RoundOverOneUnknown(data, cs, now, y);
    FiltersOfTwo(x, y, {y.id});
    FiltersOfOne(x, {y.id});
    FiltersOfOne(y, {y.id});
    var record := OrphanRecord(y, now(y.id));
    assert left == [x];
    assert after == map[OrphanKey(y) := record];
    KnownOfOne(OrphanKey(y), record);
    RoundOverOneUnknown(after, left, later, x);
    assert Batch([y]) == [y];
    OneKey(y);
    assert x in cs;
  }

  lemma OneKey(y: Container)
    ensures OrphanKey(y) in OrphanKeys([y])
  {
    assert y in [y];
  }

  lemma KnownOfOne(key: string, r: Resource)
    requires r.containerID != ""
    ensures Known(map[key := r]) == {r.containerID}
  {
    assert map[key := r][key] == r;
  }

  /** From a settled state on, rounds change nothing but UpdatedAt. */
  lemma {:induction false} SettledIsFinal(data: Data, cs: seq<Container>, clock: seq<Clock>)
    requires Settled(data, cs)
    ensures var (after, left) := Rounds(data, cs, clock); left == cs && SameButUpdatedAt(data, after)
    decreases |clock|
  {
    if clock != [] {
      var (d, c) := Round(data, cs, Calm(clock[0]));
      QuietRound(data, cs, clock[0]);
      SettledIsFinal(d, c, clock[1..]);
    }
  }

  // ---------------------------------------------------------------- a failed removal

  lemma {:induction false} KnownContainerStays(data: Data, cs: seq<Container>, clock: seq<Clock>, c: Container)
    requires DistinctIds(cs) && Safe(data, cs) && c in cs && c.id in Known(data)
    ensures c in Rounds(data, cs, clock).1
    decreases |clock|
  {
    if clock != [] {
      var w := Calm(clock[0]);
      var (d, left) := Round(data, cs, w);
      SafeIsKept(data, cs, clock[0]);
      SafeKeepsRecords(data, cs);
      KnownContainersSurvive(data, cs, w, c);
      UnknownMembers(cs, Known(data));
      UnknownAfterRound(data, cs, clock[0]);
      KnownAfterRound(data, cs, w, c);
      KnownContainerStays(d, left, clock[1..], c);
    }
  }

  /** What is unknown stays unknown or goes. */
  lemma {:induction false} UnknownStaysUnknown(data: Data, cs: seq<Container>, clock: seq<Clock>, c: Container)
    requires DistinctIds(cs) && Safe(data, cs) && c in UnknownTo(data, cs)
    ensures var (after, left) := Rounds(data, cs, clock); c in left ==> c in UnknownTo(after, left)
    decreases |clock|
  {
    hide Round, Safe, DistinctIds, KeepsRecords;
    if clock != [] {
      var (d, left) := Round(data, cs, Calm(clock[0]));
      var u := UnknownTo(data, cs);
      SafeKeepsRecords(data, cs);
      SafeIsKept(data, cs, clock[0]);
      RoundLowersUnknownExactlyWhen(data, cs, clock[0]);
      UnknownAfterRound(data, cs, clock[0]);
      if c in Batch(u) {
        assert c !in left;
        NeverComesBack(d, left, clock[1..], c);
      } else {
        assert u == Batch(u) + u[|Batch(u)|..];
        UnknownStaysUnknown(d, left, clock[1..], c);
      }
    }
  }

  lemma {:induction false} NeverComesBack(data: Data, cs: seq<Container>, clock: seq<Clock>, c: Container)
    requires c !in cs
    ensures c !in Rounds(data, cs, clock).1
    decreases |clock|
  {
    if clock != [] {
      RoundRemovesOnlyTheBatch(data, cs, Calm(clock[0]), c);
      var (d, left) := Round(data, cs, Calm(clock[0]));
      NeverComesBack(d, left, clock[1..], c);
    }
  }

  /** Unknown containers ask for different keys and have IDs, as Docker's have. */
  ghost predicate DistinctOrphans(data: Data, cs: seq<Container>)
  {
    && (forall a <- UnknownTo(data, cs), b <- UnknownTo(data, cs) :: OrphanKey(a) == OrphanKey(b) ==> a == b)
    && forall c <- cs :: c.id != ""
  }

  /**
   * A container of the batch becomes known if and only if the key of its record is free; whether it is removed
   * is another matter.
   */
  lemma BatchIsRecordedExactlyWhen(data: Data, cs: seq<Container>, w: Weather, c: Container)
    requires DistinctIds(cs) && DistinctOrphans(data, cs) && c in Batch(UnknownTo(data, cs))
    ensures c.id in Known(Round(data, cs, w).0) <==> OrphanKey(c) !in w.busy
  {
    var after := Round(data, cs, w).0;
    var batch := Batch(UnknownTo(data, cs));
    UnknownMembers(cs, Known(data));
    if OrphanKey(c) !in w.busy {
      BatchBecomesKnown(data, cs, w, c);
    } else if c.id in Known(after) {
      var k :| k in after && after[k].containerID == c.id;
      RoundMeaning(data, cs, w, k);
      var b :| Claims(batch, w.busy, k, b) && after[k] == OrphanRecord(b, w.now(b.id));
      SameIdSameContainer(cs, b, c);
      assert false;
    }
  }

  /** A container whose removal fails stays, and stays unknown if and only if the key of its record is locked. */
  lemma FailedRemovalIsForgottenExactlyWhen(data: Data, cs: seq<Container>, w: Weather, c: Container)
    requires DistinctIds(cs) && DistinctOrphans(data, cs)
    requires c in Batch(UnknownTo(data, cs)) && c.id in w.failing
    ensures var (after, left) := Round(data, cs, w);
            c in left && (c.id !in Known(after) <==> OrphanKey(c) in w.busy)
  {
    UnknownMembers(cs, Known(data));
    RoundRemovesOnlyTheBatch(data, cs, w, c);
    BatchIsRecordedExactlyWhen(data, cs, w, c);
  }

  lemma SameIdSameContainer(cs: seq<Container>, b: Container, c: Container)
    requires DistinctIds(cs) && b in cs && c in cs && b.id == c.id
    ensures b == c
  {
  }

  /**
   * Hence, from a safe state: however many calm rounds follow, a container whose removal failed
   * keeps running if and only if its key was free in that round. Only then was it recorded, and
   * from the record on it counts as known; a locked key makes the later rounds try again.
   */
  lemma FailedRemovalIsNeverRetriedExactlyWhen(data: Data, cs: seq<Container>, w: Weather, clock: seq<Clock>,
                                               c: Container)
    requires DistinctIds(cs) && Safe(data, cs) && DistinctOrphans(data, cs)
    requires c in Batch(UnknownTo(data, cs)) && c.id in w.failing
    requires var (after, left) := Round(data, cs, w); 10 * |clock| >= |UnknownTo(after, left)|
    ensures var (after, left) := Round(data, cs, w);
            c in Rounds(after, left, clock).1 <==> OrphanKey(c) !in w.busy
  {
    hide Safe, DistinctOrphans, Round, Rounds, DistinctIds;
    var (after, left) := Round(data, cs, w);
    FailedRemovalIsForgottenExactlyWhen(data, cs, w, c);
    SafeInAnyWeather(data, cs, w);
    if OrphanKey(c) !in w.busy {
      KnownContainerStays(after, left, clock, c);
    } else {
      UnknownMembers(left, Known(after));
      UnknownStaysUnknown(after, left, clock, c);
      RoundsRemoveTenEach(after, left, clock);
    }
  }

  lemma SafeInAnyWeather(data: Data, cs: seq<Container>, w: Weather)
    requires DistinctIds(cs) && Safe(data, cs) && DistinctOrphans(data, cs)
    ensures var (after, left) := Round(data, cs, w); DistinctIds(left) && Safe(after, left)
  {
    var (after, left) := Round(data, cs, w);
    var u := UnknownTo(data, cs);
    WithoutMembers(cs, Ids(Batch(u)) - w.failing);
    WithoutIsDistinct(cs, Ids(Batch(u)) - w.failing);
    assert forall b <- left :: b in cs;
    UnknownMembers(left, Known(after));
    forall b <- UnknownTo(after, left)
      ensures OrphanKey(b) in after ==> after[OrphanKey(b)].containerID !in Ids(left)
    {
      LaterUnknownIsUntouched(data, cs, w, b);
      assert Ids(left) <= Ids(cs);
    }
  }

  lemma BatchBecomesKnown(data: Data, cs: seq<Container>, w: Weather, b: Container)
    requires DistinctOrphans(data, cs)
    requires b in Batch(UnknownTo(data, cs)) && OrphanKey(b) !in w.busy
    ensures b.id in Known(Round(data, cs, w).0)
  {
    var after := Round(data, cs, w).0;
    UnknownMembers(cs, Known(data));
    RoundMeaning(data, cs, w, OrphanKey(b));
    assert Claims(Batch(UnknownTo(data, cs)), w.busy, OrphanKey(b), b);
    assert after[OrphanKey(b)].containerID == b.id;
  }

  lemma LaterUnknownIsUntouched(data: Data, cs: seq<Container>, w: Weather, b: Container)
    requires Safe(data, cs) && DistinctOrphans(data, cs)
    requires b in cs && b.id !in Known(Round(data, cs, w).0)
    ensures var after := Round(data, cs, w).0;
            OrphanKey(b) in after ==> after[OrphanKey(b)].containerID !in Ids(cs)
  {
    var after := Round(data, cs, w).0;
    var u := UnknownTo(data, cs);
    UnknownMembers(cs, Known(data));
    RoundMeaning(data, cs, w, OrphanKey(b));
    if b in Batch(u) && OrphanKey(b) !in w.busy {
      BatchBecomesKnown(data, cs, w, b);
    } else if b.id in Known(data) {
      SafeKeepsRecords(data, cs);
      if b.id !in Ids(Batch(u)) {
        KnownAfterRound(data, cs, w, b);
      }
    }
  }

  /** Any single unknown container: one failed removal under a free key, and no later round removes it. */
  lemma OneFailureKeepsContainer(c: Container, now: Clock, clock: seq<Clock>)
    requires c.id != "" && |clock| > 0
    ensures var failed := Round(map[], [c], Weather({}, {c.id}, true, now));
            Rounds(failed.0, failed.1, clock).1 == [c]
    ensures var failed := Round(map[], [c], Weather({OrphanKey(c)}, {c.id}, true, now));
            Rounds(failed.0, failed.1, clock).1 == []
  {
    hide OrphanKey, Round, Rounds, Unknown;
    assert Known(map[]) == {};
    FiltersOfOne(c, {});
    assert UnknownTo(map[], [c]) == [c] && Batch([c]) == [c];
    OneFailure(c, Weather({}, {c.id}, true, now), clock);
    OneFailure(c, Weather({OrphanKey(c)}, {c.id}, true, now), clock);
  }

  /** Any single unknown container whose key is locked: one round removes it and records nothing. */
  lemma LockedOrphanLeavesNoTrace(c: Container, now: Clock)
    ensures Round(map[], [c], Weather({OrphanKey(c)}, {}, true, now)) == (map[], [])
  {
    hide OrphanKey, Unknown, Without;
    var w := Weather({OrphanKey(c)}, {}, true, now);
    assert Known(map[]) == {};
    FiltersOfOne(c, {});
    assert UnknownTo(map[], [c]) == [c] && Batch([c]) == [c] && [c][..0] == [];
    assert Terminated(map[], Ids([c]), w.busy, now) == map[];
    assert WithOrphans(map[], [c], w.busy, now) == WithOrphans(map[], [], w.busy, now);
    FiltersOfOne(c, Ids([c]) - {});
  }

  lemma OneFailure(c: Container, w: Weather, clock: seq<Clock>)
    requires c.id != "" && |clock| > 0 && w.removes && c.id in w.failing
    requires UnknownTo(map[], [c]) == [c] && Batch([c]) == [c]
    ensures var failed := Round(map[], [c], w);
            Rounds(failed.0, failed.1, clock).1 == if OrphanKey(c) in w.busy then [] else [c]
  {
    hide OrphanKey, Round, Rounds, Unknown, Without;
    var (after, left) := Round(map[], [c], w);
    OneRound(c, w);
    FiltersOfOne(c, Known(after));
    FailedRemovalIsNeverRetriedExactlyWhen(map[], [c], w, clock, c);
    OnlyOne(after, [c], clock, c);
  }

  lemma OneRound(c: Container, w: Weather)
    requires UnknownTo(map[], [c]) == [c] && Batch([c]) == [c] && w.removes && c.id in w.failing
    ensures Round(map[], [c], w).1 == [c]
  {
    hide OrphanKey, WithOrphans, Unknown;
    FiltersOfOne(c, Ids([c]) - w.failing);
  }

  lemma {:induction false} OnlyOne(data: Data, cs: seq<Container>, clock: seq<Clock>, c: Container)
    requires cs == [c] || cs == []
    ensures Rounds(data, cs, clock).1 == [c] || Rounds(data, cs, clock).1 == []
    decreases |clock|
  {
    hide Without, Unknown, WithOrphans;
    if clock != [] {
      FiltersOfOne(c, Ids(Batch(UnknownTo(data, cs))) - {});
      WithoutNothing([]);
      NothingLeft(Ids(Batch(UnknownTo(data, cs))) - {});
      var (d, left) := Round(data, cs, Calm(clock[0]));
      OnlyOne(d, left, clock[1..], c);
    }
  }

  lemma NothingLeft(gone: set<string>)
    ensures Without([], gone) == []
  {
  }

  // ---------------------------------------------------------------- which containers survive

  /** The record at this key says that c is known, and no container outside the set asks for the key. */
  ghost predicate Supports(data: Data, cs: seq<Container>, safe: set<Container>, k: string, c: Container)
  {
    && c.id != "" && k in data && data[k].containerID == c.id
    && forall b <- cs :: OrphanKey(b) == k ==> b in safe
  }

  /** Listed containers of which each has such a record: nothing that is removed can take it away. */
  ghost predicate Protected(data: Data, cs: seq<Container>, safe: set<Container>)
  {
    forall c <- safe :: c in cs && exists k :: Supports(data, cs, safe, k, c)
  }

  lemma ProtectedAreKnown(data: Data, cs: seq<Container>, safe: set<Container>)
    requires Protected(data, cs, safe)
    ensures forall c <- safe :: c.id in Known(data)
  {
    forall c <- safe
      ensures c.id in Known(data)
    {
      var k :| Supports(data, cs, safe, k, c);
      assert data[k].containerID != "";
    }
  }

  lemma ProtectedStays(data: Data, cs: seq<Container>, now: Clock, safe: set<Container>)
    requires Protected(data, cs, safe)
    ensures var (after, left) := Round(data, cs, Calm(now)); Protected(after, left, safe)
  {
    var w := Calm(now);
    var (after, left) := Round(data, cs, w);
    UnknownMembers(cs, Known(data));
    ProtectedAreKnown(data, cs, safe);
    forall c <- safe
      ensures c in left && exists k :: Supports(after, left, safe, k, c)
    {
      var k :| Supports(data, cs, safe, k, c);
      KnownContainersSurvive(data, cs, w, c);
      RoundMeaning(data, cs, w, k);
      assert forall b <- Batch(UnknownTo(data, cs)) :: b in UnknownTo(data, cs);
      WithoutMembers(cs, Ids(Batch(UnknownTo(data, cs))) - w.failing);
      assert Supports(after, left, safe, k, c);
    }
  }

  lemma ProtectedBefore(data: Data, cs: seq<Container>, now: Clock, safe: set<Container>)
    requires DistinctIds(cs)
    requires var (after, left) := Round(data, cs, Calm(now)); Protected(after, left, safe)
    ensures Protected(data, cs, safe)
  {
    var w := Calm(now);
    var (after, left) := Round(data, cs, w);
    UnknownAfterRound(data, cs, now);
    forall c <- safe
      ensures c in cs && exists k :: Supports(data, cs, safe, k, c)
    {
      var k :| Supports(after, left, safe, k, c);
      SupportedBefore(data, cs, now, safe, k, c);
    }
  }

  lemma SupportedBefore(data: Data, cs: seq<Container>, now: Clock, safe: set<Container>, k: string, c: Container)
    requires DistinctIds(cs)
    requires var (after, left) := Round(data, cs, Calm(now)); c in left && Supports(after, left, safe, k, c)
    ensures Supports(data, cs, safe, k, c)
  {
    var w := Calm(now);
    var (after, left) := Round(data, cs, w);
    var batch := Batch(UnknownTo(data, cs));
    UnknownAfterRound(data, cs, now);
    RoundMeaning(data, cs, w, k);
    assert forall b :: Claims(batch, w.busy, k, b) ==> b.id in Ids(batch);
    forall b <- cs | OrphanKey(b) == k
      ensures b in safe
    {
      RoundRemovesOnlyTheBatch(data, cs, w, b);
      assert !Claims(batch, w.busy, k, b);
      UnknownMembers(cs, Known(data));
      forall b' <- batch | b'.id == b.id {
        SameIdSameContainer(cs, b', b);
      }
    }
  }

  /** In a settled state every listed container is protected by the others. */
  lemma SettledIsProtected(data: Data, cs: seq<Container>)
    requires UnknownTo(data, cs) == []
    ensures Protected(data, cs, set c | c in cs)
  {
    UnknownMembers(cs, Known(data));
    var safe := set c | c in cs;
    forall c <- safe
      ensures exists k :: Supports(data, cs, safe, k, c)
    {
      assert c !in UnknownTo(data, cs);
      var k :| k in data && data[k].containerID == c.id && c.id != "";
      assert Supports(data, cs, safe, k, c);
    }
  }

  lemma {:induction false} ProtectedSurvive(data: Data, cs: seq<Container>, clock: seq<Clock>, safe: set<Container>)
    requires Protected(data, cs, safe)
    ensures forall c <- safe :: c in Rounds(data, cs, clock).1
    decreases |clock|
  {
    hide Round;
    if clock != [] {
      var (d, left) := Round(data, cs, Calm(clock[0]));
      ProtectedStays(data, cs, clock[0], safe);
      ProtectedSurvive(d, left, clock[1..], safe);
    }
  }

  lemma {:induction false} SurvivorsWereProtected(data: Data, cs: seq<Container>, clock: seq<Clock>)
    requires DistinctIds(cs)
    requires var (after, left) := Rounds(data, cs, clock); UnknownTo(after, left) == []
    ensures Protected(data, cs, set c | c in Rounds(data, cs, clock).1)
    decreases |clock|
  {
    hide Round, DistinctIds, Protected;
    if clock == [] {
      SettledIsProtected(data, cs);
    } else {
      var (d, left) := Round(data, cs, Calm(clock[0]));
      UnknownAfterRound(data, cs, clock[0]);
      SurvivorsWereProtected(d, left, clock[1..]);
      ProtectedBefore(data, cs, clock[0], set c | c in Rounds(data, cs, clock).1);
    }
  }

  /**
   * From any state, which containers are left when the rounds have settled: exactly those in some
   * set of listed containers that protect each other, a condition on the first state alone.
   */
  lemma SurvivesExactlyWhen(data: Data, cs: seq<Container>, clock: seq<Clock>, c: Container)
    requires DistinctIds(cs)
    requires |clock| >= if UnknownTo(data, cs) == [] then 1 else |cs| + 1
    ensures c in Rounds(data, cs, clock).1 <==> exists safe :: Protected(data, cs, safe) && c in safe
  {
    hide Protected, DistinctIds, Rounds;
    RoundsAlwaysSettle(data, cs, clock);
    var left := Rounds(data, cs, clock).1;
    SurvivorsWereProtected(data, cs, clock);
    if safe :| Protected(data, cs, safe) && c in safe {
      ProtectedSurvive(data, cs, clock, safe);
    }
    if c in left {
      assert c in set b | b in left;
    }
  }

  /** In a safe state these are simply the containers that the store mentions. */
  lemma KnownSurviveInSafeState(data: Data, cs: seq<Container>, clock: seq<Clock>, c: Container)
    requires DistinctIds(cs) && Safe(data, cs) && c in cs
    requires |clock| >= if UnknownTo(data, cs) == [] then 1 else |cs| + 1
    ensures c in Rounds(data, cs, clock).1 <==> c.id in Known(data)
  {
    hide Rounds, Round;
    SurvivesExactlyWhen(data, cs, clock, c);
    var known := set b | b in cs && b.id in Known(data);
    UnknownMembers(cs, Known(data));
    forall b <- known
      ensures exists k :: Supports(data, cs, known, k, b)
    {
      var k :| k in data && data[k].containerID == b.id && b.id != "";
      assert b.id in Ids(cs);
      assert Supports(data, cs, known, k, b);
    }
    if safe :| Protected(data, cs, safe) && c in safe {
      var k :| Supports(data, cs, safe, k, c);
    }
    if c.id in Known(data) {
      assert Protected(data, cs, known) && c in known;
    }
  }


  // ---------------------------------------------------------------- what the records say

  function FirstTwelve(id: string): string
  {
    if |id| <= 12 then id else id[..12]
  }

  /** The key under which the store keeps a resource of the container's kind and short ID. */
  function RecordKey(c: Container): string
  {
    StoreKey(c.kind, FirstTwelve(c.id))
  }

  /** The record of an unknown container, field by field. */
  lemma OrphansAreRecordedAs(data: Data, cs: seq<Container>, w: Weather, c: Container)
    requires c in Batch(UnknownTo(data, cs)) && RecordKey(c) !in w.busy
    requires forall b <- Batch(UnknownTo(data, cs)) :: RecordKey(b) == RecordKey(c) ==> b == c
    ensures var after := Round(data, cs, w).0;
            && RecordKey(c) in after
            && var r := after[RecordKey(c)];
               && r.kind == c.kind && r.id == FirstTwelve(c.id) && r.containerID == c.id
               && r.provider == c.provider && r.service == c.service && r.region == c.region
               && r.status == "orphan" && r.createdAt == r.updatedAt == w.now(c.id)
               && r.tags == None && r.spec == None
  {
    assert forall b :: RecordKey(b) == OrphanKey(b);
    assert Claims(Batch(UnknownTo(data, cs)), w.busy, OrphanKey(c), c);
    RoundMeaning(data, cs, w, OrphanKey(c));
  }

  /**
   * A record changes only by an orphan's record or by losing its container, and then in status and update time
   * alone.
   */
  lemma RecordsChangeOnlyIn(data: Data, cs: seq<Container>, w: Weather, key: string)
    requires key in data && forall b <- Batch(UnknownTo(data, cs)) :: RecordKey(b) != key
    ensures var after, r := Round(data, cs, w).0, data[key];
            && key in after
            && after[key] == if r.containerID != "" && (forall c <- cs :: c.id != r.containerID) && key !in w.busy
                             then r.(status := "terminated", updatedAt := w.now(key)) else r
  {
    assert forall b :: RecordKey(b) == OrphanKey(b);
    RoundMeaning(data, cs, w, key);
  }

  /** The life of an orphan: unknown, after one calm round "orphan" and gone, after the next one "terminated". */
  lemma OrphanLifecycle(data: Data, cs: seq<Container>, first: Clock, second: Clock, c: Container)
    requires DistinctIds(cs) && Safe(data, cs) && DistinctOrphans(data, cs) && c in Batch(UnknownTo(data, cs))
    ensures var (d1, left1) := Round(data, cs, Calm(first));
            var d2 := Round(d1, left1, Calm(second)).0;
            var key := RecordKey(c);
            && c in cs && c.id !in Known(data)
            && key in d1 && d1[key].status == "orphan" && d1[key].containerID == c.id && c !in left1
            && key in d2 && d2[key] == d1[key].(status := "terminated", updatedAt := second(key))
  {
    hide Safe, OrphanKey, Round, DistinctIds;
    var u := UnknownTo(data, cs);
    UnknownMembers(cs, Known(data));
    RecordKeysAreOrphanKeys();
    OrphansAreRecordedAs(data, cs, Calm(first), c);
    UnknownAfterRound(data, cs, first);
    SafeKeepsRecords(data, cs);
    RoundLowersUnknownExactlyWhen(data, cs, first);
    var (d1, left1) := Round(data, cs, Calm(first));
    forall b <- Batch(UnknownTo(d1, left1))
      ensures RecordKey(b) != RecordKey(c)
    {
      assert b in UnknownTo(d1, left1) && b in u;
      UnknownMembers(left1, Known(d1));
    }
    RecordsChangeOnlyIn(d1, left1, Calm(second), RecordKey(c));
  }

  lemma RecordKeysAreOrphanKeys()
    ensures forall b :: RecordKey(b) == OrphanKey(b)
  {
  }
}
