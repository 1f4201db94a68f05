// The keyed lock table: one mutex-guarded map, and one channel per acquisition that is
// closed on release. Each method below is one critical section of the lock manager.
module Locks {
  import opened StoreKeys

  /** A channel is a place in the channel heap. */
  type Channel = nat

  /** The lock map together with the channel heap; `closed[c]` says whether channel c was closed. */
  datatype Table = Table(locks: map<string, Channel>, closed: seq<bool>)

  /** Registered channels exist, are open, and belong to one key each. */
  ghost predicate Wellformed(t: Table)
  {
    && (forall k <- t.locks :: t.locks[k] < |t.closed| && !t.closed[t.locks[k]])
    && (forall k <- t.locks, l <- t.locks :: t.locks[k] == t.locks[l] ==> k == l)
  }

  function Register(t: Table, key: string): Table
  {
    Table(t.locks[key := |t.closed|], t.closed + [false])
  }

  function Deregister(t: Table, key: string): Table
    requires key in t.locks && t.locks[key] < |t.closed|
  {
    Table(t.locks - {key}, t.closed[t.locks[key] := true])
  }

  lemma RegisterKeepsWellformed(t: Table, key: string)
    requires Wellformed(t) && key !in t.locks
    ensures Wellformed(Register(t, key))
  {
  }

  lemma DeregisterKeepsWellformed(t: Table, key: string)
    requires Wellformed(t) && key in t.locks
    ensures Wellformed(Deregister(t, key))
  {
  }

  class LockManager {
    var locks: map<string, Channel>
    var closed: seq<bool>

    ghost function State(): Table
      reads this
    {
      Table(locks, closed)
    }

    ghost predicate Valid()
      reads this
    {
      Wellformed(State())
    }

    constructor ()
      ensures Valid() && State() == Table(map[], [])
    {
      locks, closed := map[], [];
    }

    method MakeChannel() returns (ch: Channel)
      modifies this`closed
      ensures ch == |old(closed)| && closed == old(closed) + [false]
    {
      ch := |closed|;
      closed := closed + [false];
    }

    /** Closing a closed channel panics, so callers must show that it is still open. */
    method CloseChannel(ch: Channel)
      requires ch < |closed| && !closed[ch]
      modifies this`closed
      ensures closed == old(closed)[ch := true]
    {
      closed := closed[ch := true];
    }

    /** One turn of the retry loop of Lock up to its wait: take the key, or learn which channel to wait for. */
    method LockAttempt(kind: string, id: string) returns (acquired: bool, ch: Channel)
      requires Valid()
      modifies this
      ensures Valid()
      ensures acquired <==> StoreKey(kind, id) !in old(locks)
      ensures acquired ==> State() == Register(old(State()), StoreKey(kind, id))
      ensures !acquired ==> State() == old(State()) && ch == locks[StoreKey(kind, id)] && !closed[ch]
    {
      var key := StoreKey(kind, id);
      if key !in locks {
        RegisterKeepsWellformed(State(), key);
        ch := MakeChannel();
        locks := locks[key := ch];
        return true, ch;
      }
      return false, locks[key];
    }

    /** Never closes a channel twice: the precondition of CloseChannel is proved here. */
    method Unlock(kind: string, id: string)
      requires Valid()
      modifies this
      ensures Valid()
      ensures var key := StoreKey(kind, id);
              State() == if key in old(locks) then Deregister(old(State()), key) else old(State())
    {
      var key := StoreKey(kind, id);
      if key !in locks {
        return;
      }
      DeregisterKeepsWellformed(State(), key);
      var ch := locks[key];
      locks := locks - {key};
      CloseChannel(ch);
    }

    method TryLock(kind: string, id: string) returns (ok: bool)
      requires Valid()
      modifies this
      ensures Valid()
      ensures ok <==> StoreKey(kind, id) !in old(locks)
      ensures State() == if ok then Register(old(State()), StoreKey(kind, id)) else old(State())
    {
      var key := StoreKey(kind, id);
      if key in locks {
        return false;
      }
      RegisterKeepsWellformed(State(), key);
      var ch := MakeChannel();
      locks := locks[key := ch];
      return true;
    }
  }
}
