// The colon-joined string keys of the state store and of the idempotency cache.
//
// Two different pairs can be joined to the same string. This module says exactly when,
// and that kinds with a fixed number of colons never collide.
module StoreKeys {

  function StoreKey(kind: string, id: string): (key: string)
  {
    kind + ":" + id
  }

  function Colons(s: string): nat
  {
    if s == [] then 0 else (if s[0] == ':' then 1 else 0) + Colons(s[1..])
  }

  /** The form of every service kind, as in "aws:ec2:instance". */
  predicate IsServiceKind(kind: string)
  {
    Colons(kind) == 2
  }

  /** The longer kind swallows a colon and a piece of the other pair's id. */
  predicate Overlaps(kind: string, id: string, longKind: string, shortId: string)
  {
    && |kind| < |longKind|
    && longKind[..|kind| + 1] == kind + ":"
    && id == longKind[|kind| + 1..] + ":" + shortId
  }

  lemma KeysCollideExactlyWhen(k1: string, i1: string, k2: string, i2: string)
    ensures StoreKey(k1, i1) == StoreKey(k2, i2)
       <==> (k1 == k2 && i1 == i2) || Overlaps(k1, i1, k2, i2) || Overlaps(k2, i2, k1, i1)
  {
    if StoreKey(k1, i1) == StoreKey(k2, i2) {
      if |k1| == |k2| {
        SameSplit(k1, i1, k2, i2);
      } else if |k1| < |k2| {
        EqualKeysOverlap(k1, i1, k2, i2);
      } else {
        EqualKeysOverlap(k2, i2, k1, i1);
      }
    }
    if Overlaps(k1, i1, k2, i2) {
      OverlapGivesEqualKeys(k1, i1, k2, i2);
    }
    if Overlaps(k2, i2, k1, i1) {
      OverlapGivesEqualKeys(k2, i2, k1, i1);
    }
  }

  lemma SameSplit(k1: string, i1: string, k2: string, i2: string)
    requires |k1| == |k2| && StoreKey(k1, i1) == StoreKey(k2, i2)
    ensures k1 == k2 && i1 == i2
  {
    assert k1 == StoreKey(k1, i1)[..|k1|] && k2 == StoreKey(k2, i2)[..|k2|];
    assert i1 == StoreKey(k1, i1)[|k1| + 1..] && i2 == StoreKey(k2, i2)[|k2| + 1..];
  }

  lemma EqualKeysOverlap(k1: string, i1: string, k2: string, i2: string)
    requires |k1| < |k2| && StoreKey(k1, i1) == StoreKey(k2, i2)
    ensures Overlaps(k1, i1, k2, i2)
  {
    var key := StoreKey(k1, i1);
    assert k2[..|k1| + 1] == key[..|k1| + 1] == k1 + ":";
    assert i1 == key[|k1| + 1..];
    assert key == (k1 + ":") + (k2[|k1| + 1..] + ":" + i2);
  }

  lemma OverlapGivesEqualKeys(k1: string, i1: string, k2: string, i2: string)
    requires Overlaps(k1, i1, k2, i2)
    ensures StoreKey(k1, i1) == StoreKey(k2, i2)
  {
    assert k2 == k2[..|k1| + 1] + k2[|k1| + 1..];
    assert StoreKey(k2, i2) == (k1 + ":") + (k2[|k1| + 1..] + ":" + i2);
  }

  lemma {:induction false} ColonsAppend(s: string, t: string)
    ensures Colons(s + t) == Colons(s) + Colons(t)
  {
    if s == [] {
      assert s + t == t;
    } else {
      ColonsAppend(s[1..], t);
      assert (s + t)[1..] == s[1..] + t;
    }
  }

  lemma {:induction false} NoColons(s: string)
    requires ':' !in s
    ensures Colons(s) == 0
  {
    if s != [] {
      NoColons(s[1..]);
    }
  }

  function ServiceKind(provider: string, service: string, name: string): string
  {
    provider + ":" + service + ":" + name
  }

  lemma ServiceKindHasTwoColons(provider: string, service: string, name: string)
    requires ':' !in provider && ':' !in service && ':' !in name
    ensures IsServiceKind(ServiceKind(provider, service, name))
  {
    NoColons(provider);
    NoColons(service);
    NoColons(name);
    ColonsAppend(provider, ":");
    ColonsAppend(provider + ":", service);
    ColonsAppend(provider + ":" + service, ":");
    ColonsAppend(provider + ":" + service + ":", name);
  }

  /** With equally many colons in both kinds the key determines kind and id, whatever the ids contain. */
  lemma KeyDeterminesPair(k1: string, i1: string, k2: string, i2: string)
    requires Colons(k1) == Colons(k2)
    requires StoreKey(k1, i1) == StoreKey(k2, i2)
    ensures k1 == k2 && i1 == i2
  {
    KeysCollideExactlyWhen(k1, i1, k2, i2);
    if Overlaps(k1, i1, k2, i2) {
      OverlapAddsColon(k1, k2);
    } else if Overlaps(k2, i2, k1, i1) {
      OverlapAddsColon(k2, k1);
    }
  }

  lemma OverlapAddsColon(shortKind: string, longKind: string)
    requires |shortKind| < |longKind| && longKind[..|shortKind| + 1] == shortKind + ":"
    ensures Colons(longKind) > Colons(shortKind)
  {
    var rest := longKind[|shortKind| + 1..];
    assert longKind == (shortKind + ":") + rest;
    ColonsAppend(shortKind + ":", rest);
    ColonsAppend(shortKind, ":");
  }

  /** Without that restriction two different pairs can share a key. */
  lemma KeysCanCollide()
    ensures StoreKey("aws", "s3:bucket") == StoreKey("aws:s3", "bucket")
  {
    OverlapGivesEqualKeys("aws", "s3:bucket", "aws:s3", "bucket");
  }
}
