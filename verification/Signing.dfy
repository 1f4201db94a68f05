// Signing a request for the storage backend with AWS Signature Version 4.
module Signing {
  import opened Wrappers
  import opened Strings
  import opened Text
  import opened SigV4
  import opened Authorization

  const REGION := "us-east-1"
  const SERVICE := "s3"
  const HOST_PREFIX := "host:"
  const HASH_PREFIX := "x-amz-content-sha256:"
  const DATE_PREFIX := "x-amz-date:"
  const HEADERS_TO_SIGN := "host;x-amz-content-sha256;x-amz-date"

  /** The hash functions, and the bytes of a string. Nothing is assumed of them. */
  datatype Digests = Digests(sha256: string -> Bytes, hmac: (Bytes, string) -> Bytes, bytes: string -> Bytes)

  /** What is signed: the lines of the canonical request that depend on the request. */
  datatype Content = Content(verb: string, path: string, query: SigV4.Params, host: string, bodyHash: string,
                             amzDate: string)

  function HexByte(b: Byte): string
  {
    [LowerHex(b as int / 16), LowerHex(b as int % 16)]
  }

  function LowerHex(d: int): char
    requires 0 <= d < 16
  {
    if d < 10 then ('0' as int + d) as char else ('a' as int + d - 10) as char
  }

  function Hex(s: Bytes): string
  {
    if s == [] then "" else HexByte(s[0]) + Hex(s[1..])
  }

  function CanonicalURI(path: string): string
  {
    if path == "" then "/" else path
  }

  function CanonicalHeaders(c: Content): string
  {
    HOST_PREFIX + c.host + "\n" + HASH_PREFIX + c.bodyHash + "\n" + DATE_PREFIX + c.amzDate + "\n"
  }

  function CanonicalRequest(c: Content, query: string): string
  {
    Join([c.verb, CanonicalURI(c.path), query, CanonicalHeaders(c), HEADERS_TO_SIGN, c.bodyHash], "\n")
  }

  function StringToSign(d: Digests, c: Content, query: string, date: string): string
  {
    Join([ALGORITHM, c.amzDate, Scope(date, REGION, SERVICE), Hex(d.sha256(CanonicalRequest(c, query)))], "\n")
  }

  function SigningKey(d: Digests, secretKey: string, date: string): Bytes
  {
    d.hmac(d.hmac(d.hmac(d.hmac(d.bytes("AWS4" + secretKey), date), REGION), SERVICE), TERMINATOR)
  }

  function Signed(d: Digests, c: Content, query: string, accessKey: string, secretKey: string, date: string): Components
  {
    Components(accessKey, date, REGION, SERVICE, HEADERS_TO_SIGN,
               Hex(d.hmac(SigningKey(d, secretKey, date), StringToSign(d, c, query, date))))
  }

  class HttpRequest {
    const verb: string
    const path: string
    const query: SigV4.Params
    const host: string
    const urlHost: string
    var headers: map<string, string>

    constructor (verb: string, path: string, query: SigV4.Params, host: string, urlHost: string, headers: map<string,
                 string>)
      ensures this.verb == verb && this.path == path && this.query == query
      ensures this.host == host && this.urlHost == urlHost && this.headers == headers
    {
      this.verb, this.path, this.query := verb, path, query;
      this.host, this.urlHost, this.headers := host, urlHost, headers;
    }

    function ContentToSign(bodyHash: string, amzDate: string): Content
    {
      Content(verb, path, query, if host == "" then urlHost else host, bodyHash, amzDate)
    }
  }

  /** Replaces any Authorization header. The two time stamps come from one clock reading. */
  method SignRequest(r: HttpRequest, d: Digests, accessKey: string, secretKey: string, body: string, date: string,
                     amzDate: string)
    modifies r
    ensures var bodyHash := Hex(d.sha256(body));
            exists query :: IsQuery(r.query, query) &&
              r.headers == old(r.headers)["X-Amz-Date" := amzDate]["X-Amz-Content-Sha256" := bodyHash]
                ["Authorization" :=
                  Header(Signed(d, r.ContentToSign(bodyHash, amzDate), query, accessKey, secretKey, date))]
  {
    hide IsQuery, Header, Signed, Hex;
    r.headers := r.headers["X-Amz-Date" := amzDate] - {"Authorization"};
    var bodyHash := Hex(d.sha256(body));
    r.headers := r.headers["X-Amz-Content-Sha256" := bodyHash];
    var query := CanonicalQueryString(r.query);
    var signed := Signed(d, r.ContentToSign(bodyHash, amzDate), query, accessKey, secretKey, date);
    r.headers := r.headers["Authorization" := Header(signed)];
  }

  // ---------------------------------------------------------------- what the gateway makes of a signed request

  lemma {:induction false} HexIsClean(s: Bytes)
    ensures ',' !in Hex(s) && '\n' !in Hex(s) && Trimmed(Hex(s))
    decreases |s|
  {
    if s != [] {
      HexIsClean(s[1..]);
      HexByteIsClean(s[0]);
    }
  }

  lemma HexByteIsClean(b: Byte)
    ensures ',' !in HexByte(b) && '\n' !in HexByte(b) && Trimmed(HexByte(b))
  {
    assert 0 <= b as int / 16 < 16 && 0 <= b as int % 16 < 16;
  }

  lemma ConstantsAreClean()
    ensures NoSeparators(REGION) && NoSeparators(SERVICE) && ',' !in HEADERS_TO_SIGN && Trimmed(HEADERS_TO_SIGN)
  {
  }

  /**
   * The verifier and the idempotency cache recognise what signing prints exactly when the access key and date
   * are plain.
   */
  lemma SignedRequestIsRecognisedExactlyWhen(d: Digests, c: Content, query: string, accessKey: string,
                                             secretKey: string,
                                             date: string)
    ensures var signed := Signed(d, c, query, accessKey, secretKey, date);
            (Parsed(Header(signed)) == Ok(signed) <==>
             NoSeparators(accessKey) && NoLeadingSpace(accessKey) && NoSeparators(date))
    ensures NoSeparators(accessKey) && NoLeadingSpace(accessKey) && NoSeparators(date) ==>
              forall path, serviceHeader ::
                DetectedService(Header(Signed(d, c, query, accessKey, secretKey, date)), path, serviceHeader) == SERVICE
  {
    hide NoSeparators, NoLeadingSpace, Parsed, Header, Trimmed, Hex, REGION, SERVICE, HEADERS_TO_SIGN, SigningKey,
         StringToSign,
         DetectedService;
    var signed := Signed(d, c, query, accessKey, secretKey, date);
    HexIsClean(d.hmac(SigningKey(d, secretKey, date), StringToSign(d, c, query, date)));
    ConstantsAreClean();
    RoundTripsExactlyWhenClean(signed);
    if Clean(signed) {
      forall path, serviceHeader
        ensures DetectedService(Header(signed), path, serviceHeader) == SERVICE
      {
        DetectionAgreesWithParsing(signed, path, serviceHeader);
      }
    }
  }

  // ---------------------------------------------------------------- what a canonical request says about the request

  /** What a request line, a host, a hash and a time stamp always are; the path may have line feeds. */
  predicate OneLiners(c: Content)
  {
    '\n' !in c.verb && '\n' !in c.host && '\n' !in c.bodyHash && '\n' !in c.amzDate
  }

  lemma SameCut(a: string, b: string, c: char, restA: string, restB: string)
    requires c !in a && c !in b && a + [c] + restA == b + [c] + restB
    ensures a == b && restA == restB
  {
    IndexAfter(a, c, restA);
    IndexAfter(b, c, restB);
    assert a == (a + [c] + restA)[..|a|] && b == (b + [c] + restB)[..|a|];
    assert restA == (a + [c] + restA)[|a| + 1..] && restB == (b + [c] + restB)[|a| + 1..];
  }

  /** The same from the back. */
  lemma SameCutBack(a: string, b: string, c: char, restA: string, restB: string)
    requires c !in restA && c !in restB && a + [c] + restA == b + [c] + restB
    ensures a == b && restA == restB
  {
    var s, t := a + [c] + restA, b + [c] + restB;
    assert restA == s[|a| + 1..] && restB == t[|b| + 1..];
    assert forall i | |a| < i < |s| :: s[i] in s[|a| + 1..];
    assert forall i | |b| < i < |t| :: t[i] in t[|b| + 1..];
    assert s[|a|] == c && t[|b|] == c;
    assert a == s[..|a|] && b == t[..|a|] && restA == s[|a| + 1..] && restB == t[|a| + 1..];
  }

  lemma SamePrefix(p: string, a: string, b: string)
    requires p + a == p + b
    ensures a == b
  {
    assert a == (p + a)[|p|..] && b == (p + b)[|p|..];
  }

  /** The canonical request, cut behind the first line feed and before the last eight. */
  function Lines(c: Content, query: string): string
  {
    c.verb + ['\n'] + FromPath(c, query)
  }

  function FromPath(c: Content, query: string): string
  {
    UpToHash(c, query) + ['\n'] + (DATE_PREFIX + c.amzDate) + ['\n'] + [] + ['\n'] + HEADERS_TO_SIGN + ['\n']
    + c.bodyHash
  }

  function UpToHash(c: Content, query: string): string
  {
    CanonicalURI(c.path) + ['\n'] + query + ['\n'] + (HOST_PREFIX + c.host) + ['\n'] + (HASH_PREFIX + c.bodyHash)
  }

  lemma CanonicalLines(c: Content, query: string)
    ensures CanonicalRequest(c, query) == Lines(c, query)
  {
    hide HOST_PREFIX, HASH_PREFIX, DATE_PREFIX, HEADERS_TO_SIGN, CanonicalURI, CanonicalHeaders, FromPath, Join;
    var three := [CanonicalHeaders(c), HEADERS_TO_SIGN, c.bodyHash];
    JoinThree(CanonicalHeaders(c), HEADERS_TO_SIGN, c.bodyHash, "\n");
    JoinFirst(query, three, "\n");
    JoinFirst(CanonicalURI(c.path), [query] + three, "\n");
    JoinFirst(c.verb, [CanonicalURI(c.path)] + ([query] + three), "\n");
    assert [c.verb, CanonicalURI(c.path), query, CanonicalHeaders(c), HEADERS_TO_SIGN, c.bodyHash]
        == [c.verb] + ([CanonicalURI(c.path)] + ([query] + three));
    CanonicalHeaderLines(c, query);
  }

  lemma CanonicalHeaderLines(c: Content, query: string)
    ensures CanonicalURI(c.path) + "\n"
            + (query + "\n" + (CanonicalHeaders(c) + "\n" + (HEADERS_TO_SIGN + "\n" + c.bodyHash)))
         == FromPath(c, query)
  {
    hide HOST_PREFIX, HASH_PREFIX, DATE_PREFIX, HEADERS_TO_SIGN, CanonicalURI;
  }

  lemma JoinFirst(first: string, rest: seq<string>, sep: string)
    requires rest != []
    ensures Join([first] + rest, sep) == first + sep + Join(rest, sep)
  {
    assert ([first] + rest)[1..] == rest;
  }

  lemma FromPathDetermines(a: Content, qa: string, b: Content, qb: string)
    requires OneLiners(a) && OneLiners(b) && FromPath(a, qa) == FromPath(b, qb)
    ensures a.bodyHash == b.bodyHash && a.amzDate == b.amzDate && UpToHash(a, qa) == UpToHash(b, qb)
  {
    hide UpToHash;
    PrefixesAreOneLiners();
    hide DATE_PREFIX, HEADERS_TO_SIGN;
    var lf, h := ['\n'], HEADERS_TO_SIGN;
    var datesA := UpToHash(a, qa) + lf + (DATE_PREFIX + a.amzDate);
    var datesB := UpToHash(b, qb) + lf + (DATE_PREFIX + b.amzDate);
    SameCutBack(datesA + lf + [] + lf + h, datesB + lf + [] + lf + h, '\n', a.bodyHash, b.bodyHash);
    SameCutBack(datesA + lf + [], datesB + lf + [], '\n', h, h);
    SameCutBack(datesA, datesB, '\n', [], []);
    SameCutBack(UpToHash(a, qa), UpToHash(b, qb), '\n', DATE_PREFIX + a.amzDate, DATE_PREFIX + b.amzDate);
    SamePrefix(DATE_PREFIX, a.amzDate, b.amzDate);
  }

  lemma UpToHashDetermines(a: Content, qa: string, b: Content, qb: string)
    requires OneLiners(a) && OneLiners(b) && '\n' !in qa && '\n' !in qb && UpToHash(a, qa) == UpToHash(b, qb)
    ensures CanonicalURI(a.path) == CanonicalURI(b.path) && qa == qb && a.host == b.host
  {
    hide CanonicalURI;
    PrefixesAreOneLiners();
    hide HOST_PREFIX, HASH_PREFIX;
    var lf, uriA, uriB := ['\n'], CanonicalURI(a.path), CanonicalURI(b.path);
    SameCutBack(uriA + lf + qa + lf + (HOST_PREFIX + a.host), uriB + lf + qb + lf + (HOST_PREFIX + b.host), '\n',
                HASH_PREFIX + a.bodyHash, HASH_PREFIX + b.bodyHash);
    SameCutBack(uriA + lf + qa, uriB + lf + qb, '\n', HOST_PREFIX + a.host, HOST_PREFIX + b.host);
    SameCutBack(uriA, uriB, '\n', qa, qb);
    SamePrefix(HOST_PREFIX, a.host, b.host);
  }

  lemma PrefixesAreOneLiners()
    ensures '\n' !in HOST_PREFIX && '\n' !in HASH_PREFIX && '\n' !in DATE_PREFIX && '\n' !in HEADERS_TO_SIGN
  {
  }

  lemma {:induction false} QueryIsOneLiner(params: SigV4.Params, query: string)
    requires IsQuery(params, query)
    ensures '\n' !in query
  {
    hide Parts, Sorted;
    var keys :| IsKeyList(keys, params) && query == Join(Parts(keys, params), ['&']);
    PartsAreFree(keys, params);
    JoinIsFree(Parts(keys, params), "&", '\n');
  }

  lemma {:induction false} JoinIsFree(parts: seq<string>, sep: string, c: char)
    requires c !in sep && forall p <- parts :: c !in p
    ensures c !in Join(parts, sep)
    decreases |parts|
  {
    if |parts| > 1 {
      JoinIsFree(parts[1..], sep, c);
    }
  }

  /**
   * Two requests have the same canonical text if and only if they agree in everything that is signed:
   * an empty path counts as "/", and keys without values do not count.
   */
  lemma CanonicalRequestsEqualExactlyWhen(a: Content, qa: string, b: Content, qb: string)
    requires OneLiners(a) && OneLiners(b) && IsQuery(a.query, qa) && IsQuery(b.query, qb)
    ensures CanonicalRequest(a, qa) == CanonicalRequest(b, qb) <==>
              && a.verb == b.verb && CanonicalURI(a.path) == CanonicalURI(b.path)
              && NonEmpty(a.query) == NonEmpty(b.query)
              && a.host == b.host && a.bodyHash == b.bodyHash && a.amzDate == b.amzDate
  {
    hide IsQuery, NonEmpty, CanonicalRequest, FromPath, UpToHash, CanonicalURI;
    CanonicalLines(a, qa);
    CanonicalLines(b, qb);
    QueryIsOneLiner(a.query, qa);
    QueryIsOneLiner(b.query, qb);
    QueriesEqualExactlyWhen(a.query, qa, b.query, qb);
    if CanonicalRequest(a, qa) == CanonicalRequest(b, qb) {
      SameCut(a.verb, b.verb, '\n', FromPath(a, qa), FromPath(b, qb));
      FromPathDetermines(a, qa, b, qb);
      UpToHashDetermines(a, qa, b, qb);
    } else if CanonicalURI(a.path) == CanonicalURI(b.path) && a.host == b.host && a.bodyHash == b.bodyHash
              && a.amzDate == b.amzDate && qa == qb {
      SameFromPath(a, b, qa);
    }
  }

  lemma SameFromPath(a: Content, b: Content, query: string)
    requires CanonicalURI(a.path) == CanonicalURI(b.path)
    requires a.host == b.host && a.bodyHash == b.bodyHash && a.amzDate == b.amzDate
    ensures FromPath(a, query) == FromPath(b, query)
  {
    hide CanonicalURI;
  }


  // ---------------------------------------------------------------- what a signature says

  /** The signature as the scheme defines it, from the secret to the last hash. */
  lemma SignatureIs(d: Digests, c: Content, query: string, accessKey: string, secretKey: string, date: string)
    ensures var day := d.hmac(d.bytes("AWS4" + secretKey), date);
            var key := d.hmac(d.hmac(d.hmac(day, "us-east-1"), "s3"), "aws4_request");
            var text := "AWS4-HMAC-SHA256" + "\n" + (c.amzDate + "\n" + (date + "/us-east-1/s3/aws4_request" + "\n"
                        + Hex(d.sha256(CanonicalRequest(c, query)))));
            Signed(d, c, query, accessKey, secretKey, date).signature == Hex(d.hmac(key, text))
  {
    hide Hex, CanonicalRequest;
    TextIs(d, c, query, date);
  }

  lemma TextIs(d: Digests, c: Content, query: string, date: string)
    ensures StringToSign(d, c, query, date)
         == ALGORITHM + "\n" + (c.amzDate + "\n" + (date + "/us-east-1/s3/aws4_request" + "\n"
            + Hex(d.sha256(CanonicalRequest(c, query)))))
  {
    hide Hex, CanonicalRequest, ALGORITHM;
    var hash := Hex(d.sha256(CanonicalRequest(c, query)));
    ScopeIs(date);
    JoinThree(c.amzDate, Scope(date, REGION, SERVICE), hash, "\n");
    JoinFirst(ALGORITHM, [c.amzDate, Scope(date, REGION, SERVICE), hash], "\n");
    assert [ALGORITHM, c.amzDate, Scope(date, REGION, SERVICE), hash]
        == [ALGORITHM] + [c.amzDate, Scope(date, REGION, SERVICE), hash];
  }

  lemma ScopeIs(date: string)
    ensures Scope(date, REGION, SERVICE) == date + "/us-east-1/s3/aws4_request"
  {
    JoinThree("us-east-1", "s3", "aws4_request", ['/']);
    JoinFirst(date, ["us-east-1", "s3", "aws4_request"], ['/']);
    assert [date, REGION, SERVICE, TERMINATOR] == [date] + ["us-east-1", "s3", "aws4_request"];
  }

  /** Hash functions without collisions. */
  ghost predicate CollisionFree(d: Digests)
  {
    && (forall a, b :: d.sha256(a) == d.sha256(b) ==> a == b)
    && (forall k, m, k', m' :: d.hmac(k, m) == d.hmac(k', m') ==> k == k' && m == m')
    && (forall a, b :: d.bytes(a) == d.bytes(b) ==> a == b)
  }

  lemma HexByteIsInjective(a: Byte, b: Byte)
    requires HexByte(a) == HexByte(b)
    ensures a == b
  {
    assert HexByte(a)[0] == HexByte(b)[0] && HexByte(a)[1] == HexByte(b)[1];
    LowerHexIsInjective(a as int / 16, b as int / 16);
    LowerHexIsInjective(a as int % 16, b as int % 16);
    assert a as int == a as int / 16 * 16 + a as int % 16;
  }

  lemma LowerHexIsInjective(a: int, b: int)
    requires 0 <= a < 16 && 0 <= b < 16 && LowerHex(a) == LowerHex(b)
    ensures a == b
  {
  }

  lemma {:induction false} HexIsInjective(a: Bytes, b: Bytes)
    requires Hex(a) == Hex(b)
    ensures a == b
    decreases |a|
  {
    hide HexByte;
    TwoPerByte(a);
    TwoPerByte(b);
    if a != [] {
      HexByteHasTwo(a[0]);
      HexByteHasTwo(b[0]);
      assert Hex(a)[..2] == HexByte(a[0]) && Hex(b)[..2] == HexByte(b[0]);
      assert Hex(a)[2..] == Hex(a[1..]) && Hex(b)[2..] == Hex(b[1..]);
      HexByteIsInjective(a[0], b[0]);
      HexIsInjective(a[1..], b[1..]);
    }
  }

  lemma HexByteHasTwo(b: Byte)
    ensures |HexByte(b)| == 2
  {
  }

  lemma {:induction false} TwoPerByte(s: Bytes)
    ensures |Hex(s)| == 2 * |s|
    decreases |s|
  {
    hide HexByte;
    if s != [] {
      HexByteHasTwo(s[0]);
      TwoPerByte(s[1..]);
    }
  }

  /** With the same secret or not: two signatures are equal if and only if everything that they sign is. */
  lemma SignaturesEqualExactlyWhen(d: Digests,
                                   a: Content, qa: string, accessA: string, secretA: string, dateA: string,
                                   b: Content, qb: string, accessB: string, secretB: string, dateB: string)
    requires CollisionFree(d) && '\n' !in a.amzDate && '\n' !in b.amzDate
    ensures var signedA := Signed(d, a, qa, accessA, secretA, dateA);
            var signedB := Signed(d, b, qb, accessB, secretB, dateB);
            (signedA.signature == signedB.signature <==>
             && secretA == secretB && dateA == dateB && a.amzDate == b.amzDate
             && CanonicalRequest(a, qa) == CanonicalRequest(b, qb))
  {
    hide Hex, CanonicalRequest, StringToSign, SigningKey;
    var keyA, keyB := SigningKey(d, secretA, dateA), SigningKey(d, secretB, dateB);
    var textA, textB := StringToSign(d, a, qa, dateA), StringToSign(d, b, qb, dateB);
    if Signed(d, a, qa, accessA, secretA, dateA).signature == Signed(d, b, qb, accessB, secretB, dateB).signature {
      HexIsInjective(d.hmac(keyA, textA), d.hmac(keyB, textB));
      KeyDetermines(d, secretA, dateA, secretB, dateB);
      TextDetermines(d, a, qa, b, qb, dateA);
    } else if a.amzDate == b.amzDate && dateA == dateB && CanonicalRequest(a, qa) == CanonicalRequest(b, qb) {
      TextIs(d, a, qa, dateA);
      TextIs(d, b, qb, dateB);
    }
  }

  lemma KeyDetermines(d: Digests, secretA: string, dateA: string, secretB: string, dateB: string)
    requires CollisionFree(d) && SigningKey(d, secretA, dateA) == SigningKey(d, secretB, dateB)
    ensures secretA == secretB && dateA == dateB
  {
    hide REGION, SERVICE, TERMINATOR;
    SamePrefix("AWS4", secretA, secretB);
  }

  lemma TextDetermines(d: Digests, a: Content, qa: string, b: Content, qb: string, date: string)
    requires CollisionFree(d) && '\n' !in a.amzDate && '\n' !in b.amzDate
    requires StringToSign(d, a, qa, date) == StringToSign(d, b, qb, date)
    ensures a.amzDate == b.amzDate && CanonicalRequest(a, qa) == CanonicalRequest(b, qb)
  {
    hide StringToSign, Hex, CanonicalRequest, ALGORITHM;
    TextIs(d, a, qa, date);
    TextIs(d, b, qb, date);
    var hashA, hashB := Hex(d.sha256(CanonicalRequest(a, qa))), Hex(d.sha256(CanonicalRequest(b, qb)));
    var scope := date + "/us-east-1/s3/aws4_request" + "\n";
    SamePrefix(ALGORITHM + "\n", a.amzDate + "\n" + (scope + hashA), b.amzDate + "\n" + (scope + hashB));
    SameCut(a.amzDate, b.amzDate, '\n', scope + hashA, scope + hashB);
    SamePrefix(scope, hashA, hashB);
    HexIsInjective(d.sha256(CanonicalRequest(a, qa)), d.sha256(CanonicalRequest(b, qb)));
  }

  /** What of a request is signed: an empty path as "/", and the host of the URL where the request names none. */
  lemma SignedContentIs(r: HttpRequest, bodyHash: string, amzDate: string)
    ensures var c := r.ContentToSign(bodyHash, amzDate);
            && c.verb == r.verb && c.query == r.query && c.bodyHash == bodyHash && c.amzDate == amzDate
            && (r.host != "" ==> c.host == r.host) && (r.host == "" ==> c.host == r.urlHost)
            && (r.path != "" ==> CanonicalURI(c.path) == r.path) && (r.path == "" ==> CanonicalURI(c.path) == "/")
  {
  }

  /** A byte is printed as two lower-case digits that have its value. */
  lemma HexByteIs(b: Byte)
    ensures var text := HexByte(b);
            && |text| == 2 && IsLowerHex(text[0]) && IsLowerHex(text[1])
            && LowerHexValue(text[0]) * 16 + LowerHexValue(text[1]) == b as int
  {
    assert b as int == b as int / 16 * 16 + b as int % 16;
    LowerHexIs(b as int / 16);
    LowerHexIs(b as int % 16);
  }

  predicate IsLowerHex(c: char)
  {
    '0' <= c <= '9' || 'a' <= c <= 'f'
  }

  function LowerHexValue(c: char): int
  {
    if '0' <= c <= '9' then c as int - '0' as int else c as int - 'a' as int + 10
  }

  lemma LowerHexIs(d: int)
    requires 0 <= d < 16
    ensures IsLowerHex(LowerHex(d)) && LowerHexValue(LowerHex(d)) == d
  {
  }
}
