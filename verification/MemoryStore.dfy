// The in-memory resource store: a map from "kind:id" to resources.
module MemoryStore {
  import opened Wrappers
  import opened StoreKeys
  import opened Strings

  /** A value of a resource's Spec, as far as handlers look at it. */
  datatype SpecValue =
    | Text(text: string)
    | Number(number: nat)
    | TextList(items: seq<string>)

  /** How fmt prints the value with %v. */
  function Show(v: SpecValue): string
  {
    match v
    case Text(text) => text
    case Number(number) => Decimal(number)
    case TextList(items) => "[" + Join(items, " ") + "]"
  }

  /** Tags and Spec are None when the Go map is nil. Times are clock readings. */
  datatype Resource = Resource(
    kind: string, id: string, provider: string, service: string, region: string,
    tags: Option<map<string, string>>, spec: Option<map<string, SpecValue>>,
    status: string, createdAt: int, updatedAt: int, containerID: string)

  type Data = map<string, Resource>
  type Filter = map<string, string>

  function KeyOf(r: Resource): string
  {
    StoreKey(r.kind, r.id)
  }

  /** Every resource is stored under its own key. */
  ghost predicate WellKeyed(data: Data)
  {
    forall k <- data :: k == KeyOf(data[k])
  }

  /** One condition of a filter. An unknown filter key selects everything. */
  predicate MatchesCondition(r: Resource, key: string, value: string)
  {
    match key
    case "Status" => r.status == value
    case "Provider" => r.provider == value
    case "Service" => r.service == value
    case "Region" => r.region == value
    case "Kind" => r.kind == value
    case _ =>
      if HasPrefix(key, "tag:") then
        // a missing tag reads as the empty string, a nil map matches nothing
        r.tags.Some? && (if key[4..] in r.tags.value then r.tags.value[key[4..]] else "") == value
      else if HasPrefix(key, "spec:") then
        r.spec.Some? && key[5..] in r.spec.value && Show(r.spec.value[key[5..]]) == value
      else
        true
  }

  predicate MatchFilter(r: Resource, filter: Filter)
  {
    forall k <- filter :: MatchesCondition(r, k, filter[k])
  }

  /** What List selects: the empty kind stands for all kinds. */
  predicate Selected(r: Resource, kind: string, filter: Filter)
  {
    (kind == "" || r.kind == kind) && MatchFilter(r, filter)
  }

  /** `found` holds each stored resource that is selected once, in some order. */
  ghost predicate IsListing(data: Data, kind: string, filter: Filter, found: seq<Resource>)
  {
    && (forall r :: r in found <==> KeyOf(r) in data && data[KeyOf(r)] == r && Selected(r, kind, filter))
    && (forall i, j :: 0 <= i < j < |found| ==> KeyOf(found[i]) != KeyOf(found[j]))
  }

  class Store {
    var data: Data

    ghost predicate Valid()
      reads this
    {
      WellKeyed(data)
    }

    constructor ()
      ensures Valid() && data == map[]
    {
      data := map[];
    }

    method Get(kind: string, id: string) returns (r: Option<Resource>)
      ensures StoreKey(kind, id) !in data ==> r == None
      ensures StoreKey(kind, id) in data ==> r == Some(data[StoreKey(kind, id)])
    {
      var key := StoreKey(kind, id);
      r := if key in data then Some(data[key]) else None;
    }

    /** The map is iterated in an arbitrary order. */
    method List(kind: string, filter: Filter) returns (found: seq<Resource>)
      requires Valid()
      ensures IsListing(data, kind, filter, found)
    {
      found := [];
      var todo := data.Keys;
      while todo != {}
        invariant todo <= data.Keys
        invariant forall r :: r in found <==>
                    KeyOf(r) in data.Keys - todo && data[KeyOf(r)] == r && Selected(r, kind, filter)
        invariant forall i, j :: 0 <= i < j < |found| ==> KeyOf(found[i]) != KeyOf(found[j])
        decreases |todo|
      {
        var k :| k in todo;
        var r := data[k];
        if Selected(r, kind, filter) {
          assert forall i | 0 <= i < |found| :: found[i] in found;
          found := found + [r];
        }
        todo := todo - {k};
      }
    }

    method Put(r: Resource)
      modifies this
      ensures data == old(data)[KeyOf(r) := r]
      ensures old(Valid()) ==> Valid()
    {
      data := data[KeyOf(r) := r];
    }

    method Delete(kind: string, id: string)
      modifies this
      ensures data == old(data) - {StoreKey(kind, id)}
      ensures old(Valid()) ==> Valid()
    {
      data := data - {StoreKey(kind, id)};
    }
  }

  // ---------------------------------------------------------------- the store as a map from (kind, id)

  datatype Op =
    | Put(resource: Resource)
    | Delete(kind: string, id: string)
    | Snapshot(path: string)
    | Restore(path: string)

  type Disk<!K> = map<string, map<K, Resource>>

  /** One operation on the string-keyed store; restoring from a missing file fails and changes nothing. */
  function Apply(data: Data, files: Disk<string>, op: Op): (Data, Disk<string>)
  {
    match op
    case Put(r) => (data[KeyOf(r) := r], files)
    case Delete(kind, id) => (data - {StoreKey(kind, id)}, files)
    case Snapshot(path) => (data, files[path := data])
    case Restore(path) => (if path in files then files[path] else data, files)
  }

  type Pair = (string, string)

  /** The same operation on a map keyed by the pair, which cannot collide. */
  function ApplyPairs(m: map<Pair, Resource>, files: Disk<Pair>, op: Op): (map<Pair, Resource>, Disk<Pair>)
  {
    match op
    case Put(r) => (m[(r.kind, r.id) := r], files)
    case Delete(kind, id) => (m - {(kind, id)}, files)
    case Snapshot(path) => (m, files[path := m])
    case Restore(path) => (if path in files then files[path] else m, files)
  }

  predicate ServiceOp(op: Op)
  {
    match op
    case Put(r) => IsServiceKind(r.kind)
    case Delete(kind, _) => IsServiceKind(kind)
    case _ => true
  }

  /** Same resources, each under its key on one side and its pair on the other. */
  ghost predicate Represents(data: Data, m: map<Pair, Resource>)
  {
    && WellKeyed(data)
    && (forall k <- data :: IsServiceKind(data[k].kind))
    && (forall p <- m :: m[p].kind == p.0 && m[p].id == p.1 && IsServiceKind(p.0))
    && (forall k <- data :: (data[k].kind, data[k].id) in m && m[(data[k].kind, data[k].id)] == data[k])
    && (forall p <- m :: StoreKey(p.0, p.1) in data && data[StoreKey(p.0, p.1)] == m[p])
  }

  ghost predicate RepresentsDisk(files: Disk<string>, pairFiles: Disk<Pair>)
  {
    files.Keys == pairFiles.Keys && forall path <- files :: Represents(files[path], pairFiles[path])
  }

  lemma PutKeepsRepresentation(data: Data, m: map<Pair, Resource>, r: Resource)
    requires Represents(data, m) && IsServiceKind(r.kind)
    ensures Represents(data[KeyOf(r) := r], m[(r.kind, r.id) := r])
  {
    var m' := m[(r.kind, r.id) := r];
    forall p <- m'
      ensures StoreKey(p.0, p.1) == KeyOf(r) ==> p == (r.kind, r.id)
    {
      if StoreKey(p.0, p.1) == KeyOf(r) {
        KeyDeterminesPair(p.0, p.1, r.kind, r.id);
      }
    }
  }

  lemma DeleteKeepsRepresentation(data: Data, m: map<Pair, Resource>, kind: string, id: string)
    requires Represents(data, m) && IsServiceKind(kind)
    ensures Represents(data - {StoreKey(kind, id)}, m - {(kind, id)})
  {
    forall p <- m
      ensures StoreKey(p.0, p.1) == StoreKey(kind, id) ==> p == (kind, id)
    {
      if StoreKey(p.0, p.1) == StoreKey(kind, id) {
        KeyDeterminesPair(p.0, p.1, kind, id);
      }
    }
  }

  function RunOps(data: Data, files: Disk<string>, ops: seq<Op>): (Data, Disk<string>)
    decreases |ops|
  {
    if ops == [] then (data, files)
    else var (d, f) := Apply(data, files, ops[0]); RunOps(d, f, ops[1..])
  }

  function RunPairs(m: map<Pair, Resource>, files: Disk<Pair>, ops: seq<Op>): (map<Pair, Resource>, Disk<Pair>)
    decreases |ops|
  {
    if ops == [] then (m, files)
    else var (d, f) := ApplyPairs(m, files, ops[0]); RunPairs(d, f, ops[1..])
  }

  /** For service kinds and any ids, every run of the string-keyed store is a run of the pair-keyed one. */
  lemma {:induction false} StoreRefinesPairMap(data: Data, files: Disk<string>, m: map<Pair, Resource>,
                                               pairFiles: Disk<Pair>,
                                              ops: seq<Op>)
    requires Represents(data, m) && RepresentsDisk(files, pairFiles)
    requires forall op <- ops :: ServiceOp(op)
    ensures Represents(RunOps(data, files, ops).0, RunPairs(m, pairFiles, ops).0)
    ensures RepresentsDisk(RunOps(data, files, ops).1, RunPairs(m, pairFiles, ops).1)
    decreases |ops|
  {
    if ops != [] {
      var op := ops[0];
      assert ServiceOp(op);
      match op {
        case Put(r) => PutKeepsRepresentation(data, m, r);
        case Delete(kind, id) => DeleteKeepsRepresentation(data, m, kind, id);
        case Snapshot(_) =>
        case Restore(_) =>
      }
      var (d, f) := Apply(data, files, op);
      var (d', f') := ApplyPairs(m, pairFiles, op);
      StoreRefinesPairMap(d, f, d', f', ops[1..]);
    }
  }

  /** Hence Get finds under (kind, id) the resource that was last put there, or nothing. */
  lemma LookupAgrees(data: Data, m: map<Pair, Resource>, kind: string, id: string)
    requires Represents(data, m) && IsServiceKind(kind)
    ensures StoreKey(kind, id) in data <==> (kind, id) in m
    ensures (kind, id) in m ==> data[StoreKey(kind, id)] == m[(kind, id)]
  {
    if StoreKey(kind, id) in data {
      var r := data[StoreKey(kind, id)];
      KeyDeterminesPair(kind, id, r.kind, r.id);
    }
  }

  /** And List returns exactly the resources of the pair-keyed map that pass, each once. */
  lemma ListingAgrees(data: Data, m: map<Pair, Resource>, kind: string, filter: Filter, found: seq<Resource>)
    requires Represents(data, m) && IsListing(data, kind, filter, found)
    ensures forall r :: r in found <==> (r.kind, r.id) in m && m[(r.kind, r.id)] == r && Selected(r, kind, filter)
    ensures forall i, j :: 0 <= i < j < |found| ==> (found[i].kind, found[i].id) != (found[j].kind, found[j].id)
  {
    hide Selected, IsServiceKind, StoreKey;
    forall r: Resource
      ensures r in found <==> (r.kind, r.id) in m && m[(r.kind, r.id)] == r && Selected(r, kind, filter)
    {
      assert KeyOf(r) == StoreKey(r.kind, r.id);
    }
    forall i, j | 0 <= i < j < |found|
      ensures (found[i].kind, found[i].id) != (found[j].kind, found[j].id)
    {
      assert KeyOf(found[i]) != KeyOf(found[j]);
    }
  }

  /** For other kinds one Put can destroy a resource of another kind. */
  lemma CollidingPutLosesResource(r: Resource)
    ensures var a := r.(kind := "aws", id := "s3:bucket");
            var b := r.(kind := "aws:s3", id := "bucket");
            && KeyOf(a) in RunOps(map[], map[], [Put(a), Put(b)]).0
            && RunOps(map[], map[], [Put(a), Put(b)]).0[KeyOf(a)] == b != a
  {
    var a := r.(kind := "aws", id := "s3:bucket");
    var b := r.(kind := "aws:s3", id := "bucket");
    KeysCanCollide();
    var d := Apply(map[], map[], Put(a)).0;
    assert [Put(a), Put(b)][1..] == [Put(b)];
    assert RunOps(d, map[], [Put(b)]) == RunOps(Apply(d, map[], Put(b)).0, map[], []);
  }

  // ---------------------------------------------------------------- filters

  /** The conditions on a resource's own fields and on its tags; a tag that is missing reads as empty. */
  lemma FieldConditions(r: Resource, value: string, tag: string)
    ensures MatchesCondition(r, "Status", value) <==> r.status == value
    ensures MatchesCondition(r, "Provider", value) <==> r.provider == value
    ensures MatchesCondition(r, "Service", value) <==> r.service == value
    ensures MatchesCondition(r, "Region", value) <==> r.region == value
    ensures MatchesCondition(r, "Kind", value) <==> r.kind == value
    ensures MatchesCondition(r, "tag:" + tag, value)
       <==> r.tags.Some? && if tag in r.tags.value then r.tags.value[tag] == value else value == ""
  {
    hide Show;
    var key := "tag:" + tag;
    assert key[0] == 't' && key[4..] == tag && HasPrefix(key, "tag:");
  }

  /** A filter selects what meets all its conditions, and the empty filter everything. */
  lemma FilterMeetsAll(r: Resource, filter: Filter, key: string, value: string)
    ensures MatchFilter(r, map[])
    ensures key !in filter ==>
              (MatchFilter(r, filter[key := value]) <==> MatchFilter(r, filter) && MatchesCondition(r, key, value))
  {
    hide MatchesCondition;
    var more := filter[key := value];
    if key !in filter {
      assert forall k <- filter :: k in more && more[k] == filter[k];
      assert key in more && forall k <- more :: k == key || (k in filter && filter[k] == more[k]);
    }
  }

  /** How the values of a Spec print, as filters compare them: decimal numbers, and lists in brackets with spaces. */
  lemma ValuesPrintAs(text: string, n: nat, a: string, b: string)
    ensures Show(Text(text)) == text
    ensures FromDecimal(Show(Number(n))) == n && forall c <- Show(Number(n)) :: '0' <= c <= '9'
    ensures Show(TextList([])) == "[]" && Show(TextList([a])) == "[" + a + "]"
    ensures Show(TextList([a, b])) == "[" + (a + " " + b) + "]"
  {
    DecimalRoundTrip(n);
    forall i | 0 <= i < |Decimal(n)|
      ensures '0' <= Decimal(n)[i] <= '9'
    {
      DecimalHasOnlyDigits(n, i);
    }
    assert [a, b][1..] == [b];
    assert Join([a, b], " ") == a + " " + Join([b], " ");
  }
}
