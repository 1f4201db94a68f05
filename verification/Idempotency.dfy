// The idempotency middleware: recorded responses with a time to live, lazy expiry and a collector.
//
// A request is two critical sections with the handler between them: the lookup, and the store of
// the answer. The collector and other requests can run anywhere in between. Times are clock
// readings in nanoseconds; the hash of a body is a parameter.
module Idempotency {
  import opened Wrappers
  import opened StoreKeys

  type Bytes = seq<bv8>

  const IDEMPOTENCY_TTL := 300_000_000_000
  const MAX_IDEMPOTENCY_BODY_BYTES := 0x10_0000

  datatype Response = Response(status: int, body: Bytes, contentType: string)

  datatype Record = Record(bodyHash: string, response: Response, expiresAt: int)

  type Records = map<string, Record>

  /** What the middleware reads of a request; the two tokens are empty when their header is missing. */
  datatype Request = Request(googRequestID: string, amznToken: string, service: string, body: Bytes, readable: bool)

  /** The lookup answers by itself, or hands a body to the handler; the answer of a recorded request is stored. */
  datatype Verdict =
    | Responds(response: Response)
    | RunsHandler(body: Bytes, recorded: bool)

  function Token(r: Request): string
  {
    if r.googRequestID != "" then r.googRequestID else r.amznToken
  }

  function RecordKey(r: Request): string
  {
    StoreKey(r.service, Token(r))
  }

  /** Only this much of a body is hashed, and only this much reaches the handler. */
  function Truncated(body: Bytes): Bytes
  {
    if |body| <= MAX_IDEMPOTENCY_BODY_BYTES then body else body[..MAX_IDEMPOTENCY_BODY_BYTES]
  }

  /** The fixed texts of the two error responses. */
  datatype Texts = Texts(unreadable: Bytes, mismatch: Bytes)

  datatype Config = Config(hash: Bytes -> string, texts: Texts)

  function Unreadable(c: Config): Response
  {
    Response(400, c.texts.unreadable, "text/plain; charset=utf-8")
  }

  function Mismatch(c: Config): Response
  {
    Response(400, c.texts.mismatch, "application/json")
  }

  function BodyHash(c: Config, r: Request): string
  {
    c.hash(Truncated(r.body))
  }

  /** The answer from a live record: a replay, or a mismatch when the body differs. */
  function FromRecord(c: Config, rec: Record, r: Request): Response
  {
    if rec.bodyHash != BodyHash(c, r) then Mismatch(c) else rec.response
  }

  function NewRecord(c: Config, r: Request, response: Response, now: int): Record
  {
    Record(BodyHash(c, r), response, now + IDEMPOTENCY_TTL)
  }

  predicate Expired(rec: Record, now: int)
  {
    now > rec.expiresAt
  }

  predicate Live(records: Records, key: string, now: int)
  {
    key in records && !Expired(records[key], now)
  }

  /** The requests that carry a token and can be read: only they are looked up. */
  predicate IsLookedUp(r: Request)
  {
    Token(r) != "" && r.readable
  }

  /** A lookup deletes the record if it has expired. */
  function OnLookup(c: Config, records: Records, r: Request, now: int): (Records, Verdict)
  {
    var key := RecordKey(r);
    if Token(r) == "" then (records, RunsHandler(r.body, false))
    else if !r.readable then (records, Responds(Unreadable(c)))
    else if Live(records, key, now) then (records, Responds(FromRecord(c, records[key], r)))
    else (records - {key}, RunsHandler(Truncated(r.body), true))
  }

  function OnAnswer(c: Config, records: Records, r: Request, response: Response, now: int): Records
  {
    records[RecordKey(r) := NewRecord(c, r, response, now)]
  }

  function Collect(records: Records, now: int): Records
  {
    map k | k in records && !Expired(records[k], now) :: records[k]
  }

  class IdempotencyStore {
    var records: Records

    constructor ()
      ensures records == map[]
    {
      records := map[];
    }

    /** The collector, visiting the records in any order. */
    method Gc(now: int)
      modifies this
      ensures records == Collect(old(records), now)
    {
      ghost var before := records;
      var todo := records.Keys;
      while todo != {}
        invariant todo <= records.Keys <= before.Keys
        invariant forall k <- before :: k in records <==> k in todo || !Expired(before[k], now)
        invariant forall k <- records :: records[k] == before[k]
        decreases |todo|
      {
        var k :| k in todo;
        todo := todo - {k};
        if Expired(records[k], now) {
          records := records - {k};
        }
      }
      assert records == Collect(before, now);
    }

    method Get(key: string, now: int) returns (found: Option<Record>)
      modifies this
      ensures found == if Live(old(records), key, now) then Some(old(records)[key]) else None
      ensures records == if found.Some? then old(records) else old(records) - {key}
    {
      if key !in records {
        return None;
      }
      if Expired(records[key], now) {
        records := records - {key};
        return None;
      }
      return Some(records[key]);
    }

    method Set(key: string, rec: Record)
      modifies this
      ensures records == old(records)[key := rec]
    {
      records := records[key := rec];
    }

    /** The middleware up to the handler. */
    method Begin(c: Config, r: Request, now: int) returns (verdict: Verdict)
      modifies this
      ensures (records, verdict) == OnLookup(c, old(records), r, now)
    {
      if Token(r) == "" {
        return RunsHandler(r.body, false);
      }
      if !r.readable {
        return Responds(Unreadable(c));
      }
      var found := Get(RecordKey(r), now);
      if found.Some? {
        if found.value.bodyHash != BodyHash(c, r) {
          return Responds(Mismatch(c));
        }
        return Responds(found.value.response);
      }
      return RunsHandler(Truncated(r.body), true);
    }

    /** The middleware after the handler of a recorded request. */
    method Finish(c: Config, r: Request, response: Response, now: int)
      modifies this
      ensures records == OnAnswer(c, old(records), r, response, now)
    {
      Set(RecordKey(r), Record(BodyHash(c, r), response, now + IDEMPOTENCY_TTL));
    }
  }

  // ---------------------------------------------------------------- interleaved requests and collections

  /** The records, and the recorded requests whose handler is running. */
  datatype State = State(records: Records, running: map<nat, Request>)

  datatype Event =
    | LookedUp(id: nat, request: Request, now: int)
    | Answered(id: nat, response: Response, now: int)
    | Collected(now: int)

  /** Requests have numbers of their own, and a handler answers once. */
  predicate Possible(s: State, e: Event)
  {
    match e
    case LookedUp(id, _, _) => id !in s.running
    case Answered(id, _, _) => id in s.running
    case Collected(_) => true
  }

  function Step(c: Config, s: State, e: Event): State
    requires Possible(s, e)
  {
    match e
    case LookedUp(id, r, now) =>
      var (records, verdict) := OnLookup(c, s.records, r, now);
      State(records, if verdict.RunsHandler? && verdict.recorded then s.running[id := r] else s.running)
    case Answered(id, response, now) =>
      State(OnAnswer(c, s.records, s.running[id], response, now), s.running - {id})
    case Collected(now) => s.(records := Collect(s.records, now))
  }

  /**
   * `clock` is the latest reading so far. A lookup reads the clock inside its critical section; an
   * answer and the collector read it before theirs, and may wait for the mutex with an old reading.
   */
  predicate Timely(clock: int, e: Event)
  {
    e.LookedUp? ==> clock <= e.now
  }

  function Later(clock: int, e: Event): int
  {
    if clock < e.now then e.now else clock
  }

  /** The latest reading after the events. */
  function EndOf(clock: int, events: seq<Event>): int
    decreases |events|
  {
    if events == [] then clock else EndOf(Later(clock, events[0]), events[1..])
  }

  predicate PossibleRun(c: Config, s: State, clock: int, events: seq<Event>)
    decreases |events|
  {
    events == [] ||
    (Possible(s, events[0]) && Timely(clock, events[0]) &&
     PossibleRun(c, Step(c, s, events[0]), Later(clock, events[0]), events[1..]))
  }

  function Run(c: Config, s: State, clock: int, events: seq<Event>): State
    requires PossibleRun(c, s, clock, events)
    decreases |events|
  {
    if events == [] then s else Run(c, Step(c, s, events[0]), Later(clock, events[0]), events[1..])
  }

  function VerdictOf(c: Config, s: State, e: Event): seq<Verdict>
  {
    if e.LookedUp? then [OnLookup(c, s.records, e.request, e.now).1] else []
  }

  /** The verdicts on the requests of a run, in the order of their lookups. */
  function Verdicts(c: Config, s: State, clock: int, events: seq<Event>): seq<Verdict>
    requires PossibleRun(c, s, clock, events)
    decreases |events|
  {
    if events == [] then []
    else VerdictOf(c, s, events[0]) + Verdicts(c, Step(c, s, events[0]), Later(clock, events[0]), events[1..])
  }

  function WithoutCollector(events: seq<Event>): seq<Event>
  {
    if events == [] then []
    else (if events[0].Collected? then [] else [events[0]]) + WithoutCollector(events[1..])
  }

  // ---------------------------------------------------------------- against a store that never forgets

  /** The specification: a record is replaced by the next answer for its key, and otherwise stays for ever. */
  function Remember(c: Config, s: State, e: Event): State
    requires Possible(s, e)
  {
    match e
    case LookedUp(id, r, now) =>
      var verdict := OnLookup(c, s.records, r, now).1;
      s.(running := if verdict.RunsHandler? && verdict.recorded then s.running[id := r] else s.running)
    case Answered(_, _, _) => Step(c, s, e)
    case Collected(_) => s
  }

  predicate RememberedRun(c: Config, s: State, events: seq<Event>)
    decreases |events|
  {
    events == [] || (Possible(s, events[0]) && RememberedRun(c, Remember(c, s, events[0]), events[1..]))
  }

  function RememberedVerdicts(c: Config, s: State, events: seq<Event>): seq<Verdict>
    requires RememberedRun(c, s, events)
    decreases |events|
  {
    if events == [] then []
    else VerdictOf(c, s, events[0]) + RememberedVerdicts(c, Remember(c, s, events[0]), events[1..])
  }

  /** `all` never forgot anything; what is missing from `s` has expired. */
  ghost predicate Forgot(s: State, all: State, clock: int)
  {
    && s.running == all.running
    && (forall k <- s.records :: k in all.records && s.records[k] == all.records[k])
    && (forall k <- all.records :: k !in s.records ==> Expired(all.records[k], clock))
  }

  lemma StepForgetsOnlyExpired(c: Config, s: State, all: State, clock: int, e: Event)
    requires Forgot(s, all, clock) && Possible(s, e) && Timely(clock, e)
    ensures Possible(all, e) && Forgot(Step(c, s, e), Remember(c, all, e), Later(clock, e))
    ensures VerdictOf(c, s, e) == VerdictOf(c, all, e)
  {
    hide NewRecord, FromRecord, Truncated, RecordKey;
  }

  /**
   * Lazy deletion and collecting at any times, also while handlers run, change no answer: in every
   * interleaving the verdicts are those of a store that neither deletes nor collects anything.
   */
  lemma {:induction false} CollectorIsInvisible(c: Config, s: State, all: State, clock: int, events: seq<Event>)
    requires Forgot(s, all, clock) && PossibleRun(c, s, clock, events)
    ensures RememberedRun(c, all, WithoutCollector(events))
    ensures Verdicts(c, s, clock, events) == RememberedVerdicts(c, all, WithoutCollector(events))
    decreases |events|
  {
    hide Step, Remember, Forgot, VerdictOf, Possible;
    if events != [] {
      var e, rest := events[0], WithoutCollector(events[1..]);
      StepForgetsOnlyExpired(c, s, all, clock, e);
      CollectorIsInvisible(c, Step(c, s, e), Remember(c, all, e), Later(clock, e), events[1..]);
      if e.Collected? {
        assert Remember(c, all, e) == all && VerdictOf(c, s, e) == [] by { CollectionIsNoRequest(c, s, all, e); }
        assert WithoutCollector(events) == rest;
      } else {
        assert WithoutCollector(events) == [e] + rest && ([e] + rest)[1..] == rest;
      }
    }
  }

  lemma CollectionIsNoRequest(c: Config, s: State, all: State, e: Event)
    requires e.Collected?
    ensures Possible(all, e) && Remember(c, all, e) == all && VerdictOf(c, s, e) == []
  {
  }

  const NOTHING := State(map[], map[])

  /** In particular from an empty store. */
  lemma CollectorIsInvisibleFromTheStart(c: Config, clock: int, events: seq<Event>)
    requires PossibleRun(c, NOTHING, clock, events)
    ensures RememberedRun(c, NOTHING, WithoutCollector(events))
    ensures Verdicts(c, NOTHING, clock, events) == RememberedVerdicts(c, NOTHING, WithoutCollector(events))
  {
    CollectorIsInvisible(c, NOTHING, NOTHING, clock, events);
  }

  // ---------------------------------------------------------------- when the handler runs

  /** A handler that is running for this key has answered. */
  predicate AnswersKey(s: State, e: Event, key: string)
  {
    e.Answered? && e.id in s.running && RecordKey(s.running[e.id]) == key
  }

  predicate KeyAnswered(c: Config, s: State, clock: int, events: seq<Event>, key: string)
    requires PossibleRun(c, s, clock, events)
    decreases |events|
  {
    events != [] &&
    (AnswersKey(s, events[0], key) ||
     KeyAnswered(c, Step(c, s, events[0]), Later(clock, events[0]), events[1..], key))
  }

  function NextRecord(c: Config, s: State, e: Event, key: string, last: Option<Record>): Option<Record>
    requires Possible(s, e)
  {
    if AnswersKey(s, e, key) then Some(NewRecord(c, s.running[e.id], e.response, e.now)) else last
  }

  /** What the last answer for the key stored, kept or not; `last` stands for the time before the events. */
  function LastRecord(c: Config, s: State, clock: int, events: seq<Event>, key: string, last: Option<Record>)
    : Option<Record>
    requires PossibleRun(c, s, clock, events)
    decreases |events|
  {
    if events == [] then last
    else
      LastRecord(c, Step(c, s, events[0]), Later(clock, events[0]), events[1..], key,
                 NextRecord(c, s, events[0], key, last))
  }

  /** The store holds that record, or it has expired. */
  ghost predicate Follows(records: Records, key: string, last: Option<Record>, clock: int)
  {
    && (key in records ==> last == Some(records[key]))
    && (key !in records && last.Some? ==> Expired(last.value, clock))
  }

  lemma StepFollows(c: Config, s: State, clock: int, e: Event, key: string, last: Option<Record>)
    requires Follows(s.records, key, last, clock) && Possible(s, e) && Timely(clock, e)
    ensures Follows(Step(c, s, e).records, key, NextRecord(c, s, e, key, last), Later(clock, e))
  {
    hide RecordKey, FromRecord, Truncated, NewRecord;
  }

  lemma {:induction false} RecordFollowsAnswers(c: Config, s: State, clock: int, events: seq<Event>, key: string,
                                               last: Option<Record>)
    requires PossibleRun(c, s, clock, events) && Follows(s.records, key, last, clock)
    ensures Follows(Run(c, s, clock, events).records, key, LastRecord(c, s, clock, events, key, last),
                    EndOf(clock, events))
    decreases |events|
  {
    hide Step, Possible, Timely, Follows, NextRecord;
    if events != [] {
      var e := events[0];
      StepFollows(c, s, clock, e, key, last);
      RecordFollowsAnswers(c, Step(c, s, e), Later(clock, e), events[1..], key, NextRecord(c, s, e, key, last));
    }
  }

  /** A request is answered from the last record of its key as long as that is live, and runs the handler otherwise. */
  lemma VerdictFollowsAnswers(c: Config, records: Records, r: Request, last: Option<Record>, clock: int, now: int)
    requires Follows(records, RecordKey(r), last, clock) && IsLookedUp(r) && clock <= now
    ensures OnLookup(c, records, r, now).1
         == if last.Some? && !Expired(last.value, now) then Responds(FromRecord(c, last.value, r))
            else RunsHandler(Truncated(r.body), true)
    ensures last.Some? && !Expired(last.value, now) ==> OnLookup(c, records, r, now).0 == records
  {
    hide RecordKey, FromRecord, Truncated;
  }

  lemma {:induction false} UnansweredKeepsLast(c: Config, s: State, clock: int, events: seq<Event>, key: string,
                                              last: Option<Record>)
    requires PossibleRun(c, s, clock, events) && !KeyAnswered(c, s, clock, events, key)
    ensures LastRecord(c, s, clock, events, key, last) == last
    decreases |events|
  {
    hide Step, Possible, Timely, AnswersKey;
    if events != [] {
      UnansweredKeepsLast(c, Step(c, s, events[0]), Later(clock, events[0]), events[1..], key, last);
    }
  }

  /**
   * Through any interleaving, what is in the store under the key is the record of the last answer for
   * it, and that is there as long as it has not expired. Without a new answer this is the old record.
   */
  lemma RecordSurvives(c: Config, s: State, clock: int, events: seq<Event>, key: string, until: int)
    requires PossibleRun(c, s, clock, events) && key in s.records && EndOf(clock, events) <= until
    ensures var after := Run(c, s, clock, events).records;
            var last := LastRecord(c, s, clock, events, key, Some(s.records[key]));
            && last.Some?
            && (Live(after, key, until) <==> !Expired(last.value, until))
            && (key in after ==> after[key] == last.value)
            && (!KeyAnswered(c, s, clock, events, key) ==> last.value == s.records[key])
  {
    hide PossibleRun, Run, EndOf, LastRecord, KeyAnswered;
    RecordFollowsAnswers(c, s, clock, events, key, Some(s.records[key]));
    SomeRecordStays(c, s, clock, events, key, Some(s.records[key]));
    if !KeyAnswered(c, s, clock, events, key) {
      UnansweredKeepsLast(c, s, clock, events, key, Some(s.records[key]));
    }
  }

  lemma {:induction false} SomeRecordStays(c: Config, s: State, clock: int, events: seq<Event>, key: string,
                                          last: Option<Record>)
    requires PossibleRun(c, s, clock, events) && last.Some?
    ensures LastRecord(c, s, clock, events, key, last).Some?
    decreases |events|
  {
    hide Step, Possible, Timely, AnswersKey;
    if events != [] {
      var e := events[0];
      SomeRecordStays(c, Step(c, s, e), Later(clock, e), events[1..], key, NextRecord(c, s, e, key, last));
    }
  }

  ghost predicate SameToken(r: Request, q: Request)
  {
    IsLookedUp(r) && IsLookedUp(q) && Token(r) == Token(q) && r.service == q.service
  }

  /**
   * A request reached the handler. Whatever happens next, a second request with its service and
   * token reaches the handler, at any later time, if and only if no handler has answered for that
   * key in between, or the last such answer is more than five minutes old.
   */
  lemma DuplicateRunsExactlyWhenUnanswered(c: Config, s: State, id: nat, first: Request, clock: int,
                                           between: seq<Event>, second: Request, now: int)
    requires id !in s.running && SameToken(first, second)
    requires OnLookup(c, s.records, first, clock).1.RunsHandler?
    requires PossibleRun(c, Step(c, s, LookedUp(id, first, clock)), clock, between)
    requires EndOf(clock, between) <= now
    ensures var s1 := Step(c, s, LookedUp(id, first, clock));
            var last := LastRecord(c, s1, clock, between, RecordKey(first), None);
            (OnLookup(c, Run(c, s1, clock, between).records, second, now).1.RunsHandler? <==>
             last.None? || Expired(last.value, now))
  {
    hide FromRecord, Truncated, LastRecord, Run, PossibleRun, EndOf;
    var s1 := Step(c, s, LookedUp(id, first, clock));
    var key := RecordKey(first);
    RecordFollowsAnswers(c, s1, clock, between, key, None);
    VerdictFollowsAnswers(c, Run(c, s1, clock, between).records, second,
                          LastRecord(c, s1, clock, between, key, None), EndOf(clock, between), now);
  }

  /** The shortest case: a second request before the first with its token is answered. Both reach the handler. */
  lemma TwoRequestsBothRun(c: Config, first: Request, second: Request, clock: int, now: int)
    requires SameToken(first, second) && clock <= now
    ensures var s1 := Step(c, NOTHING, LookedUp(0, first, clock));
            && OnLookup(c, map[], first, clock).1.RunsHandler?
            && OnLookup(c, s1.records, second, now).1.RunsHandler?
  {
    DuplicateRunsExactlyWhenUnanswered(c, NOTHING, 0, first, clock, [], second, now);
  }

  /** Such a record exists exactly when some handler has answered for the key. */
  lemma {:induction false} LastRecordExactlyWhenAnswered(c: Config, s: State, clock: int, events: seq<Event>,
                                                        key: string)
    requires PossibleRun(c, s, clock, events)
    ensures LastRecord(c, s, clock, events, key, None).Some? <==> KeyAnswered(c, s, clock, events, key)
    decreases |events|
  {
    hide Step, Possible, Timely;
    if events != [] {
      var e, rest := events[0], events[1..];
      if AnswersKey(s, e, key) {
        SomeRecordStays(c, Step(c, s, e), Later(clock, e), rest, key, NextRecord(c, s, e, key, None));
      } else {
        LastRecordExactlyWhenAnswered(c, Step(c, s, e), Later(clock, e), rest, key);
      }
    }
  }

  /**
   * The verdict on a later request: the recorded response when the hashes agree, which within a MiB are
   * those of the whole bodies, and otherwise a 400 in JSON.
   */
  ghost predicate IsReplayOrMismatch(c: Config, first: Request, second: Request, response: Response, verdict: Verdict)
  {
    && verdict.Responds?
    && (if c.hash(Truncated(second.body)) == c.hash(Truncated(first.body)) then verdict.response == response
        else verdict.response == Response(400, c.texts.mismatch, "application/json"))
    && (|first.body| <= 0x10_0000 && |second.body| <= 0x10_0000 ==>
          if c.hash(second.body) == c.hash(first.body) then verdict.response == response
          else verdict.response == Response(400, c.texts.mismatch, "application/json"))
  }

  /**
   * Once the handler of a request has answered, and unless a handler of a concurrent duplicate
   * answers later, every request with that service and token is answered from the record until five
   * minutes after the reading `at` of the answer: the same body gets the recorded response, another
   * body gets a 400, and nothing is changed.
   */
  lemma HandlerRunsOncePerToken(c: Config, s: State, id: nat, response: Response, clock: int, at: int,
                                between: seq<Event>, second: Request, now: int)
    requires id in s.running && SameToken(s.running[id], second)
    requires var s1, start := Step(c, s, Answered(id, response, at)), Later(clock, Answered(id, response, at));
             && PossibleRun(c, s1, start, between)
             && !KeyAnswered(c, s1, start, between, RecordKey(second))
             && EndOf(start, between) <= now <= at + IDEMPOTENCY_TTL
    ensures var s1, start := Step(c, s, Answered(id, response, at)), Later(clock, Answered(id, response, at));
            var before := Run(c, s1, start, between).records;
            && OnLookup(c, before, second, now).0 == before
            && IsReplayOrMismatch(c, s.running[id], second, response, OnLookup(c, before, second, now).1)
  {
    hide KeyAnswered, Run, PossibleRun, EndOf, LastRecord;
    var s1, start := Step(c, s, Answered(id, response, at)), Later(clock, Answered(id, response, at));
    var key := RecordKey(second);
    var last := Some(NewRecord(c, s.running[id], response, at));
    assert s1.records[key] == last.value;
    RecordFollowsAnswers(c, s1, start, between, key, last);
    UnansweredKeepsLast(c, s1, start, between, key, last);
    VerdictFollowsAnswers(c, Run(c, s1, start, between).records, second, last, EndOf(start, between), now);
  }

  lemma {:induction false} EndIsLast(clock: int, events: seq<Event>)
    ensures clock <= EndOf(clock, events) && (events != [] ==> events[0].now <= EndOf(clock, events))
    decreases |events|
  {
    if events != [] {
      EndIsLast(Later(clock, events[0]), events[1..]);
    }
  }

  /** While the record is live no new duplicate starts, so nobody can answer for its key. */
  lemma {:induction false} NoDuplicateNoAnswer(c: Config, s: State, clock: int, events: seq<Event>, key: string,
                                              until: int)
    requires PossibleRun(c, s, clock, events) && EndOf(clock, events) <= until
    requires Live(s.records, key, until)
    requires forall i <- s.running :: RecordKey(s.running[i]) != key
    ensures !KeyAnswered(c, s, clock, events, key)
    decreases |events|
  {
    hide Step, Possible;
    if events != [] {
      var e := events[0];
      EndIsLast(clock, events);
      StepStartsNoDuplicate(c, s, e, key, until);
      NoDuplicateNoAnswer(c, Step(c, s, e), Later(clock, e), events[1..], key, until);
    }
  }

  lemma StepStartsNoDuplicate(c: Config, s: State, e: Event, key: string, until: int)
    requires Possible(s, e) && e.now <= until && Live(s.records, key, until)
    requires forall i <- s.running :: RecordKey(s.running[i]) != key
    ensures Live(Step(c, s, e).records, key, until)
    ensures forall i <- Step(c, s, e).running :: RecordKey(Step(c, s, e).running[i]) != key
  {
    hide RecordKey, FromRecord, Truncated, NewRecord;
  }

  /** So without a concurrent duplicate the handler has run once, and its answer is everyone's for five minutes. */
  lemma HandlerRunsOnceWithoutDuplicates(c: Config, s: State, id: nat, response: Response, clock: int, at: int,
                                         between: seq<Event>, second: Request, now: int)
    requires id in s.running && SameToken(s.running[id], second)
    requires forall i <- s.running :: RecordKey(s.running[i]) == RecordKey(second) ==> i == id
    requires var s1, start := Step(c, s, Answered(id, response, at)), Later(clock, Answered(id, response, at));
             PossibleRun(c, s1, start, between) && EndOf(start, between) <= now <= at + IDEMPOTENCY_TTL
    ensures var s1, start := Step(c, s, Answered(id, response, at)), Later(clock, Answered(id, response, at));
            var before := Run(c, s1, start, between).records;
            && OnLookup(c, before, second, now).0 == before
            && IsReplayOrMismatch(c, s.running[id], second, response, OnLookup(c, before, second, now).1)
  {
    hide IsReplayOrMismatch, KeyAnswered, Run, PossibleRun, OnLookup, EndOf;
    var s1, start := Step(c, s, Answered(id, response, at)), Later(clock, Answered(id, response, at));
    NoDuplicateNoAnswer(c, s1, start, between, RecordKey(second), now);
    HandlerRunsOncePerToken(c, s, id, response, clock, at, between, second, now);
  }

  // ---------------------------------------------------------------- scope

  /**
   * Two requests meet in one record exactly when they agree in service and token, or one service
   * name swallows a colon and a piece of the other's token; services with equally many colons never do.
   */
  lemma RequestsMeetExactlyWhen(r: Request, q: Request)
    ensures RecordKey(r) == RecordKey(q) <==>
            || (r.service == q.service && Token(r) == Token(q))
            || Overlaps(r.service, Token(r), q.service, Token(q))
            || Overlaps(q.service, Token(q), r.service, Token(r))
    ensures Colons(r.service) == Colons(q.service) ==>
              (RecordKey(r) == RecordKey(q) <==> r.service == q.service && Token(r) == Token(q))
  {
    hide Token;
    KeysCollideExactlyWhen(r.service, Token(r), q.service, Token(q));
    if RecordKey(r) == RecordKey(q) && Colons(r.service) == Colons(q.service) {
      KeyDeterminesPair(r.service, Token(r), q.service, Token(q));
    }
  }

  /** GCP's header comes before that of AWS, and a request without either is passed on whole and leaves no record. */
  lemma TokenIsTakenFrom(c: Config, records: Records, r: Request, now: int)
    ensures Token(r) == if r.googRequestID != "" then r.googRequestID else r.amznToken
    ensures r.googRequestID == "" && r.amznToken == "" ==>
              OnLookup(c, records, r, now) == (records, RunsHandler(r.body, false))
    ensures (r.googRequestID != "" || r.amznToken != "") && !r.readable ==>
              var (after, verdict) := OnLookup(c, records, r, now);
              after == records && verdict.Responds? && verdict.response.status == 400
  {
  }

  ghost predicate Injective(hash: Bytes -> string)
  {
    forall a: Bytes, b: Bytes :: hash(a) == hash(b) ==> a == b
  }

  /**
   * With an injective hash, and bodies within a MiB, a live record is replayed to exactly the body that
   * it was made for, as long as the recorded response is not itself such a 400.
   */
  lemma ReplayedExactlyToTheSameBody(c: Config, records: Records, first: Request, second: Request, response: Response,
                                     at: int, now: int)
    requires Injective(c.hash) && SameToken(first, second)
    requires |first.body| <= 0x10_0000 && |second.body| <= 0x10_0000
    requires now <= at + IDEMPOTENCY_TTL && response.status != 400
    ensures var verdict := OnLookup(c, OnAnswer(c, records, first, response, at), second, now).1;
            && (verdict == Responds(response) <==> second.body == first.body)
            && (second.body != first.body ==> verdict.Responds? && verdict.response.status == 400)
  {
  }

  /** Five minutes after its answer a record is no longer used, and neither collector nor lookup leaves it behind. */
  lemma RecordIsGoneAfterFiveMinutes(c: Config, records: Records, r: Request, response: Response, at: int, now: int)
    requires IsLookedUp(r) && now > at + 300_000_000_000
    ensures var answered := OnAnswer(c, records, r, response, at);
            && OnLookup(c, answered, r, now).1 == RunsHandler(Truncated(r.body), true)
            && RecordKey(r) !in OnLookup(c, answered, r, now).0
            && RecordKey(r) !in Collect(answered, now)
  {
    hide RecordKey, Truncated;
  }

  /** Until then the collector keeps it, and every other record that has not expired. */
  lemma CollectorKeepsTheLiving(c: Config, records: Records, r: Request, response: Response, at: int, now: int)
    requires now <= at + 300_000_000_000
    ensures var answered := OnAnswer(c, records, r, response, at);
            && RecordKey(r) in Collect(answered, now)
            && forall k <- records :: records[k].expiresAt >= now ==>
                 k in Collect(records, now) && Collect(records, now)[k] == records[k]
  {
    hide RecordKey, Truncated;
  }

  // ---------------------------------------------------------------- long bodies

  /** The handler gets the whole body if and only if the request carries no token or fits into a MiB. */
  lemma BodyArrivesWholeExactlyWhen(c: Config, r: Request, now: int)
    requires r.readable
    ensures var verdict := OnLookup(c, map[], r, now).1;
            && verdict.RunsHandler?
            && (verdict.body == r.body <==> Token(r) == "" || |r.body| <= MAX_IDEMPOTENCY_BODY_BYTES)
  {
    assert |r.body| > MAX_IDEMPOTENCY_BODY_BYTES ==> |Truncated(r.body)| == MAX_IDEMPOTENCY_BODY_BYTES;
  }

  /**
   * Two bodies of a request with a token get the same verdicts from all stores if and only if they agree on the
   * first MiB.
   */
  lemma BodiesAreNotToldApartExactlyWhen(c: Config, r: Request, body: Bytes, now: int)
    requires IsLookedUp(r)
    ensures (forall records :: OnLookup(c, records, r.(body := body), now) == OnLookup(c, records, r, now))
       <==> Truncated(body) == Truncated(r.body)
  {
    hide Truncated;
    var q := r.(body := body);
    assert RecordKey(q) == RecordKey(r) && Token(q) == Token(r);
    if Truncated(body) == Truncated(r.body) {
      forall records {
        LongBodiesAreNotToldApart(c, records, r, body, Response(0, [], ""), now);
      }
    } else {
      assert OnLookup(c, map[], q, now).1.body != OnLookup(c, map[], r, now).1.body;
    }
  }

  /** Then the records they leave are the same as well. */
  lemma LongBodiesAreNotToldApart(c: Config, records: Records, r: Request, body: Bytes, response: Response, now: int)
    requires Token(r) != "" && Truncated(body) == Truncated(r.body)
    ensures OnLookup(c, records, r.(body := body), now) == OnLookup(c, records, r, now)
    ensures OnAnswer(c, records, r.(body := body), response, now) == OnAnswer(c, records, r, response, now)
  {
    hide Truncated;
  }

  function MiBAnd(last: Bytes): Bytes
  {
    seq(MAX_IDEMPOTENCY_BODY_BYTES, _ => 0) + last
  }

  /**
   * A body of one MiB, and that body with one byte more: the second is answered with a replay, and its byte is
   * lost.
   */
  lemma LastByteIsLost(c: Config, r: Request, response: Response, now: int)
    requires IsLookedUp(r)
    ensures var short, long := r.(body := MiBAnd([])), r.(body := MiBAnd([1]));
            && short.body != long.body
            && OnLookup(c, map[], long, now).1 == RunsHandler(short.body, true)
            && OnLookup(c, OnAnswer(c, map[], short, response, now), long, now).1 == Responds(response)
  {
    hide RecordKey;
    assert MiBAnd([]) == MiBAnd([1])[..MAX_IDEMPOTENCY_BODY_BYTES] && |MiBAnd([])| < |MiBAnd([1])|;
    assert RecordKey(r.(body := MiBAnd([]))) == RecordKey(r.(body := MiBAnd([1]))) by { KeyIgnoresBody(r); }
  }

  lemma KeyIgnoresBody(r: Request)
    ensures forall body :: RecordKey(r.(body := body)) == RecordKey(r)
  {
  }
}
