// The Authorization header of AWS Signature Version 4: how it is printed, parsed and searched for a service.
module Authorization {
  import opened Wrappers
  import opened Strings
  import opened Text

  const ALGORITHM := "AWS4-HMAC-SHA256"
  const CREDENTIAL := "Credential"
  const SIGNED_HEADERS := "SignedHeaders"
  const SIGNATURE := "Signature"
  const TERMINATOR := "aws4_request"

  datatype Components = Components(
    accessKey: string, date: string, region: string, service: string, signedHeaders: string, signature: string)

  datatype ParseError =
    | InvalidPrefix
    | MalformedParameter(part: string)
    | Missing(name: string)
    | MalformedScope(credential: string)
    | InvalidTerminator(terminator: string)

  function Scope(date: string, region: string, service: string): string
  {
    Join([date, region, service, TERMINATOR], ['/'])
  }

  function Credential(c: Components): string
  {
    c.accessKey + ['/'] + Scope(c.date, c.region, c.service)
  }

  function Param(name: string, value: string): string
  {
    name + ['='] + value
  }

  /** The header that signing prints. */
  function Header(c: Components): string
  {
    ALGORITHM + " "
    + Join([Param(CREDENTIAL, Credential(c)), Param(SIGNED_HEADERS, c.signedHeaders), Param(SIGNATURE, c.signature)],
           ", ")
  }

  // ---------------------------------------------------------------- parsing

  type Params = map<string, string>

  function TrimPrefix(s: string, prefix: string): string
  {
    if HasPrefix(s, prefix) then s[|prefix|..] else s
  }

  /** One parameter added to those before it; the last one of a name wins. */
  function AddParam(params: Params, part: string): Result<Params, ParseError>
  {
    var t := TrimSpace(part);
    var i := IndexOf(t, '=');
    if i == |t| then Err(MalformedParameter(t)) else Ok(params[TrimSpace(t[..i]) := TrimSpace(t[i + 1..])])
  }

  function ParseParams(parts: seq<string>): Result<Params, ParseError>
  {
    if parts == [] then Ok(map[])
    else
      match ParseParams(parts[..|parts| - 1])
      case Err(e) => Err(e)
      case Ok(params) => AddParam(params, parts[|parts| - 1])
  }

  function ParseScope(credential: string, signedHeaders: string, signature: string): Result<Components, ParseError>
  {
    var parts := SplitN(credential, '/', 5);
    if |parts| != 5 then Err(MalformedScope(credential))
    else if parts[4] != TERMINATOR then Err(InvalidTerminator(parts[4]))
    else Ok(Components(parts[0], parts[1], parts[2], parts[3], signedHeaders, signature))
  }

  function Parameters(header: string): seq<string>
  {
    Split(TrimSpace(TrimPrefix(header, ALGORITHM)), ',')
  }

  function Parsed(header: string): Result<Components, ParseError>
  {
    if !HasPrefix(header, ALGORITHM) then Err(InvalidPrefix)
    else
      match ParseParams(Parameters(header))
      case Err(e) => Err(e)
      case Ok(params) =>
        if CREDENTIAL !in params then Err(Missing(CREDENTIAL))
        else if SIGNED_HEADERS !in params then Err(Missing(SIGNED_HEADERS))
        else if SIGNATURE !in params then Err(Missing(SIGNATURE))
        else ParseScope(params[CREDENTIAL], params[SIGNED_HEADERS], params[SIGNATURE])
  }

  lemma {:induction false} FailedPrefix(parts: seq<string>, i: nat)
    requires i <= |parts| && ParseParams(parts[..i]).Err?
    ensures ParseParams(parts) == ParseParams(parts[..i])
    decreases |parts| - i
  {
    if i < |parts| {
      assert parts[..i + 1][..i] == parts[..i];
      FailedPrefix(parts, i + 1);
    } else {
      assert parts[..i] == parts;
    }
  }

  method ParseAuthorization(header: string) returns (r: Result<Components, ParseError>)
    ensures r == Parsed(header)
  {
    hide TrimSpace, Split, ParseScope;
    if !HasPrefix(header, ALGORITHM) {
      return Err(InvalidPrefix);
    }
    var parts := Split(TrimSpace(TrimPrefix(header, ALGORITHM)), ',');
    var params: Params := map[];
    for i := 0 to |parts|
      invariant ParseParams(parts[..i]) == Ok(params)
    {
      assert parts[..i + 1][..i] == parts[..i];
      var part := TrimSpace(parts[i]);
      var idx := IndexOf(part, '=');
      if idx == |part| {
        FailedPrefix(parts, i + 1);
        return Err(MalformedParameter(part));
      }
      params := params[TrimSpace(part[..idx]) := TrimSpace(part[idx + 1..])];
    }
    assert parts[..|parts|] == parts;
    if CREDENTIAL !in params {
      return Err(Missing(CREDENTIAL));
    }
    if SIGNED_HEADERS !in params {
      return Err(Missing(SIGNED_HEADERS));
    }
    if SIGNATURE !in params {
      return Err(Missing(SIGNATURE));
    }
    return ParseScope(params[CREDENTIAL], params[SIGNED_HEADERS], params[SIGNATURE]);
  }

  // ---------------------------------------------------------------- printing and parsing

  predicate NoSeparators(s: string)
  {
    '/' !in s && ',' !in s
  }

  predicate NoLeadingSpace(s: string)
  {
    s == "" || !IsSpace(s[0])
  }

  /** No slash in the parts of the credential, no comma anywhere, no white space at the ends of a parameter's value. */
  predicate Clean(c: Components)
  {
    && NoSeparators(c.accessKey) && NoSeparators(c.date) && NoSeparators(c.region) && NoSeparators(c.service)
    && NoLeadingSpace(c.accessKey)
    && ',' !in c.signedHeaders && ',' !in c.signature && Trimmed(c.signedHeaders) && Trimmed(c.signature)
  }

  predicate IsName(name: string)
  {
    name != "" && Trimmed(name) && '=' !in name && ',' !in name
  }

  lemma NamesAreClean()
    ensures IsName(CREDENTIAL) && IsName(SIGNED_HEADERS) && IsName(SIGNATURE)
    ensures CREDENTIAL != SIGNED_HEADERS && CREDENTIAL != SIGNATURE && SIGNED_HEADERS != SIGNATURE
    ensures TERMINATOR != "" && NoSeparators(TERMINATOR) && !IsSpace(TERMINATOR[|TERMINATOR| - 1])
  {
    assert |CREDENTIAL| == 10 && |SIGNED_HEADERS| == 13 && |SIGNATURE| == 9;
  }

  lemma TrimmedParam(name: string, value: string)
    requires name != "" && Trimmed(name) && Trimmed(value)
    ensures Trimmed(Param(name, value))
  {
    assert !IsSpace('=');
  }

  /** A printed parameter, with or without a space before it, adds its name and value. */
  lemma AddPrinted(params: Params, name: string, value: string)
    requires name != "" && Trimmed(name) && '=' !in name && Trimmed(value)
    ensures AddParam(params, Param(name, value)) == Ok(params[name := value])
    ensures AddParam(params, " " + Param(name, value)) == Ok(params[name := value])
  {
    hide TrimSpace, IsSpace;
    var t := Param(name, value);
    TrimmedParam(name, value);
    TrimmedIsKept(t);
    LeadingSpaceIsTrimmed(t);
    IndexAfter(name, '=', value);
    assert t[..|name|] == name && t[|name| + 1..] == value;
    TrimmedIsKept(name);
    TrimmedIsKept(value);
  }

  lemma ScopeRoundTrip(c: Components)
    requires '/' !in c.accessKey && '/' !in c.date && '/' !in c.region && '/' !in c.service
    ensures SplitN(Credential(c), '/', 5) == [c.accessKey, c.date, c.region, c.service, TERMINATOR]
    ensures ParseScope(Credential(c), c.signedHeaders, c.signature) == Ok(c)
  {
    hide SplitN, TERMINATOR;
    var last := TERMINATOR;
    var service := c.service + ['/'] + last;
    var region := c.region + ['/'] + service;
    var date := c.date + ['/'] + region;
    ScopeText(c);
    SplitNHead(c.accessKey, '/', date, 5);
    SplitNHead(c.date, '/', region, 4);
    SplitNHead(c.region, '/', service, 3);
    SplitNHead(c.service, '/', last, 2);
    SplitNOne(last);
  }

  lemma SplitNOne(s: string)
    ensures SplitN(s, '/', 1) == [s]
  {
  }

  lemma ScopeText(c: Components)
    ensures Credential(c)
         == c.accessKey + ['/'] + (c.date + ['/'] + (c.region + ['/'] + (c.service + ['/'] + TERMINATOR)))
  {
    hide TERMINATOR;
    JoinThree(c.region, c.service, TERMINATOR, ['/']);
    assert [c.date, c.region, c.service, TERMINATOR][1..] == [c.region, c.service, TERMINATOR];
    assert Scope(c.date, c.region, c.service) == c.date + ['/'] + Join([c.region, c.service, TERMINATOR], ['/']);
  }

  lemma JoinThree(a: string, b: string, c: string, sep: string)
    ensures Join([a, b, c], sep) == a + sep + (b + sep + c)
  {
    assert [a, b, c][1..] == [b, c] && [b, c][1..] == [c];
    assert Join([b, c], sep) == b + sep + Join([c], sep);
  }

  /** Three parameters joined by a comma and a space come apart again. */
  lemma ThreeParameters(a: string, b: string, c: string)
    requires a != "" && c != "" && Trimmed(a) && Trimmed(c) && ',' !in a && ',' !in b && ',' !in c
    ensures Split(TrimSpace(" " + Join([a, b, c], ", ")), ',') == [a, " " + b, " " + c]
  {
    hide TrimSpace, Split, IsSpace;
    var third := " " + c;
    var second := " " + b + [','] + third;
    var all := a + [','] + second;
    JoinThree(a, b, c, ", ");
    assert ", " == [','] + " ";
    assert all == Join([a, b, c], ", ");
    LeadingSpaceIsTrimmed(all);
    assert all[0] == a[0] && all[|all| - 1] == c[|c| - 1];
    TrimmedIsKept(all);
    SplitHead(a, ',', second);
    SplitHead(" " + b, ',', third);
    SplitWhole(third, ',');
  }

  lemma ParamIsFree(name: string, value: string)
    requires name != "" && Trimmed(name) && Trimmed(value) && ',' !in name && ',' !in value
    ensures Param(name, value) != "" && Trimmed(Param(name, value)) && ',' !in Param(name, value)
  {
    TrimmedParam(name, value);
  }

  lemma PrintedParameters(c: Components)
    requires ',' !in Credential(c) && ',' !in c.signedHeaders && ',' !in c.signature
    requires Trimmed(Credential(c)) && Trimmed(c.signedHeaders) && Trimmed(c.signature)
    ensures HasPrefix(Header(c), ALGORITHM)
    ensures Parameters(Header(c)) == [Param(CREDENTIAL, Credential(c)), " " + Param(SIGNED_HEADERS, c.signedHeaders),
                                      " " + Param(SIGNATURE, c.signature)]
  {
    hide ALGORITHM, CREDENTIAL, SIGNED_HEADERS, SIGNATURE, Credential, Param, IsSpace, TrimSpace, Split, Join;
    NamesAreClean();
    var a, b := Param(CREDENTIAL, Credential(c)), Param(SIGNED_HEADERS, c.signedHeaders);
    var d := Param(SIGNATURE, c.signature);
    ParamIsFree(CREDENTIAL, Credential(c));
    ParamIsFree(SIGNED_HEADERS, c.signedHeaders);
    ParamIsFree(SIGNATURE, c.signature);
    ThreeParameters(a, b, d);
    var tail := " " + Join([a, b, d], ", ");
    assert Header(c) == ALGORITHM + tail;
    assert Header(c)[|ALGORITHM|..] == tail;
  }

  lemma CleanCredential(c: Components)
    requires Clean(c)
    ensures ',' !in Credential(c) && Trimmed(Credential(c))
  {
    hide TERMINATOR, IsSpace;
    ScopeText(c);
    NamesAreClean();
    assert Credential(c)[0] == if c.accessKey == "" then '/' else c.accessKey[0];
    assert !IsSpace('/') by { SlashIsNoSpace(); }
    assert Credential(c)[|Credential(c)| - 1] == TERMINATOR[|TERMINATOR| - 1];
  }

  lemma SlashIsNoSpace()
    ensures !IsSpace('/')
  {
  }

  lemma CleanHeaderIsParsed(c: Components)
    requires Clean(c)
    ensures Parsed(Header(c)) == Ok(c)
  {
    hide ALGORITHM, CREDENTIAL, SIGNED_HEADERS, SIGNATURE, Credential, Param, AddParam, Trimmed, Header, Parameters,
         ParseScope;
    CleanCredential(c);
    PrintedParameters(c);
    NamesAreClean();
    var p1, p2, p3 := Param(CREDENTIAL, Credential(c)), " " + Param(SIGNED_HEADERS, c.signedHeaders),
                      " " + Param(SIGNATURE, c.signature);
    var m1 := map[CREDENTIAL := Credential(c)];
    var m2 := m1[SIGNED_HEADERS := c.signedHeaders];
    AddPrinted(map[], CREDENTIAL, Credential(c));
    AddPrinted(m1, SIGNED_HEADERS, c.signedHeaders);
    AddPrinted(m2, SIGNATURE, c.signature);
    assert [p1, p2, p3][..2] == [p1, p2] && [p1, p2][..1] == [p1] && [p1][..0] == [];
    assert ParseParams([p1]) == AddParam(map[], p1);
    assert ParseParams([p1, p2]) == AddParam(m1, p2);
    assert ParseParams([p1, p2, p3]) == AddParam(m2, p3);
    ScopeRoundTrip(c);
  }

  ghost predicate CleanValues(params: Params)
  {
    forall name <- params :: ',' !in params[name] && Trimmed(params[name])
  }

  lemma {:induction false} ParsedValuesAreClean(parts: seq<string>)
    requires forall p <- parts :: ',' !in p
    ensures ParseParams(parts).Ok? ==> CleanValues(ParseParams(parts).value)
    decreases |parts|
  {
    hide TrimSpace, Trimmed;
    if parts != [] {
      var last := parts[|parts| - 1];
      assert last in parts && forall p <- parts[..|parts| - 1] :: p in parts;
      ParsedValuesAreClean(parts[..|parts| - 1]);
      TrimSpaceTrims(last);
      var t := TrimSpace(last);
      var i := IndexOf(t, '=');
      if i < |t| {
        TrimSpaceTrims(t[i + 1..]);
        assert forall x <- t[i + 1..] :: x in t;
      }
    } else {
      NoParameters();
    }
  }

  lemma NoParameters()
    ensures ParseParams([]) == Ok(map[])
  {
  }

  lemma ScopeIsClean(credential: string, signedHeaders: string, signature: string)
    requires ',' !in credential && Trimmed(credential)
    requires ParseScope(credential, signedHeaders, signature).Ok?
    ensures var c := ParseScope(credential, signedHeaders, signature).value;
            && NoSeparators(c.accessKey) && NoSeparators(c.date) && NoSeparators(c.region) && NoSeparators(c.service)
            && NoLeadingSpace(c.accessKey)
  {
    hide SplitN, IsSpace, TERMINATOR;
    SplitNPieces(credential, '/', 5);
    var parts := SplitN(credential, '/', 5);
    assert forall i | 0 <= i < |parts| :: parts[i] in parts;
    if parts[0] != "" {
      assert parts[0][0] in credential;
    }
  }

  lemma ParsedIsClean(header: string)
    requires Parsed(header).Ok?
    ensures Clean(Parsed(header).value)
  {
    hide NoSeparators, NoLeadingSpace, ParseParams, ParseScope, Trimmed, CREDENTIAL, SIGNED_HEADERS, SIGNATURE,
         ALGORITHM;
    SplitPiecesAreFree(TrimSpace(TrimPrefix(header, ALGORITHM)), ',');
    ParsedValuesAreClean(Parameters(header));
    var params := ParseParams(Parameters(header)).value;
    ScopeIsClean(params[CREDENTIAL], params[SIGNED_HEADERS], params[SIGNATURE]);
    ScopeKeepsTheRest(params[CREDENTIAL], params[SIGNED_HEADERS], params[SIGNATURE]);
  }

  lemma ScopeKeepsTheRest(credential: string, signedHeaders: string, signature: string)
    requires ParseScope(credential, signedHeaders, signature).Ok?
    ensures ParseScope(credential, signedHeaders, signature).value.signedHeaders == signedHeaders
    ensures ParseScope(credential, signedHeaders, signature).value.signature == signature
  {
  }

  /** A printed header gives back its components if and only if they are clean. */
  lemma RoundTripsExactlyWhenClean(c: Components)
    ensures Parsed(Header(c)) == Ok(c) <==> Clean(c)
  {
    hide Parsed, Clean, Header;
    if Clean(c) {
      CleanHeaderIsParsed(c);
    }
    if Parsed(Header(c)) == Ok(c) {
      ParsedIsClean(Header(c));
    }
  }

  /** Any header that parses, however it is spaced and ordered, has a printed header with the same components. */
  lemma EveryParsedHeaderHasAPrintedForm(header: string)
    requires Parsed(header).Ok?
    ensures Parsed(Header(Parsed(header).value)) == Parsed(header)
  {
    hide Parsed, Clean, Header;
    ParsedIsClean(header);
    CleanHeaderIsParsed(Parsed(header).value);
  }

  // ---------------------------------------------------------------- finding the service of a request

  function ServiceOfPart(part: string): Option<string>
  {
    var t := TrimSpace(part);
    if !HasPrefix(t, CREDENTIAL + "=") then None
    else
      var scope := SplitN(TrimPrefix(t, CREDENTIAL + "="), '/', 5);
      if |scope| == 5 then Some(scope[3]) else None
  }

  function FirstService(parts: seq<string>): Option<string>
    decreases |parts|
  {
    if parts == [] then None
    else if ServiceOfPart(parts[0]).Some? then ServiceOfPart(parts[0])
    else FirstService(parts[1..])
  }

  /** Without a usable credential the path decides, then a header of its own. */
  function ServiceOfPath(path: string, serviceHeader: string): string
  {
    if HasPrefix(path, "/storage/v1/") || HasPrefix(path, "/upload/storage/v1/") then "storage"
    else if HasPrefix(path, "/compute/v1/") then "compute"
    else if HasPrefix(path, "/v1/projects/") then "pubsub"
    else if serviceHeader != "" then serviceHeader
    else "unknown"
  }

  function DetectedService(header: string, path: string, serviceHeader: string): string
  {
    var fallback := ServiceOfPath(path, serviceHeader);
    if !HasPrefix(header, ALGORITHM + " ") then fallback
    else
      match FirstService(Split(TrimPrefix(header, ALGORITHM + " "), ','))
      case Some(service) => service
      case None => fallback
  }

  method DetectServiceFromRequest(header: string, path: string, serviceHeader: string) returns (service: string)
    ensures service == DetectedService(header, path, serviceHeader)
  {
    hide ServiceOfPath, TrimSpace, Split, ALGORITHM, CREDENTIAL;
    if HasPrefix(header, ALGORITHM + " ") {
      var parts := Split(TrimPrefix(header, ALGORITHM + " "), ',');
      for i := 0 to |parts|
        invariant FirstService(parts[i..]) == FirstService(parts)
      {
        assert parts[i..][0] == parts[i] && parts[i..][1..] == parts[i + 1..];
        var part := TrimSpace(parts[i]);
        if HasPrefix(part, CREDENTIAL + "=") {
          var scope := SplitN(TrimPrefix(part, CREDENTIAL + "="), '/', 5);
          if |scope| == 5 {
            return scope[3];
          }
        }
      }
    }
    return ServiceOfPath(path, serviceHeader);
  }

  lemma ServiceOfPrinted(c: Components)
    requires Clean(c)
    ensures ServiceOfPart(Param(CREDENTIAL, Credential(c))) == Some(c.service)
  {
    hide CREDENTIAL, TERMINATOR, Credential, SplitN, IsSpace, TrimSpace;
    var t := Param(CREDENTIAL, Credential(c));
    CleanCredential(c);
    NamesAreClean();
    TrimmedParam(CREDENTIAL, Credential(c));
    TrimmedIsKept(t);
    assert t[|CREDENTIAL + "="|..] == Credential(c);
    ScopeRoundTrip(c);
  }

  /**
   * The idempotency cache and the verifier find the same service in a printed header, whatever else the request
   * says.
   */
  lemma DetectionAgreesWithParsing(c: Components, path: string, serviceHeader: string)
    requires Clean(c)
    ensures DetectedService(Header(c), path, serviceHeader) == c.service
    ensures Parsed(Header(c)) == Ok(c)
  {
    hide ALGORITHM, CREDENTIAL, SIGNED_HEADERS, SIGNATURE, Credential, Param, ServiceOfPath, ServiceOfPart, Join,
         Trimmed, IsSpace,
         Split, Parsed;
    CleanHeaderIsParsed(c);
    CleanCredential(c);
    NamesAreClean();
    ServiceOfPrinted(c);
    var a, b := Param(CREDENTIAL, Credential(c)), Param(SIGNED_HEADERS, c.signedHeaders);
    var d := Param(SIGNATURE, c.signature);
    ParamIsFree(CREDENTIAL, Credential(c));
    FirstOfThree(a, b, d);
    assert Header(c)[|ALGORITHM + " "|..] == Join([a, b, d], ", ");
  }

  lemma FirstOfThree(a: string, b: string, c: string)
    requires ',' !in a
    ensures var parts := Split(Join([a, b, c], ", "), ','); parts[0] == a
  {
    hide Split, Join;
    JoinThree(a, b, c, ", ");
    var rest := " " + (b + ", " + c);
    assert ", " == [','] + " ";
    assert Join([a, b, c], ", ") == a + [','] + rest;
    SplitHead(a, ',', rest);
  }

  // ---------------------------------------------------------------- detection and parsing of any accepted header

  /** The name and the value that the parser reads from a part. */
  function NameOf(part: string): string
  {
    var t := TrimSpace(part);
    TrimSpace(t[..IndexOf(t, '=')])
  }

  function ValueOf(part: string): string
  {
    var t := TrimSpace(part);
    var i := IndexOf(t, '=');
    if i < |t| then TrimSpace(t[i + 1..]) else ""
  }

  predicate IsCredential(part: string)
  {
    IndexOf(TrimSpace(part), '=') < |TrimSpace(part)| && NameOf(part) == CREDENTIAL
  }

  /** The position of the parameter that the parser takes the credential from, or the number of parts. */
  function LastCredential(parts: seq<string>): (n: nat)
    ensures n <= |parts| && (n < |parts| ==> IsCredential(parts[n]))
  {
    if parts == [] then 0
    else
      var last := |parts| - 1;
      var n := LastCredential(parts[..last]);
      if IsCredential(parts[last]) then last else if n < last then n else |parts|
  }

  /** The position of the part in which the detection finds a service, or the number of parts. */
  function FirstUsable(parts: seq<string>): (n: nat)
    ensures n <= |parts|
  {
    if parts == [] || ServiceOfPart(parts[0]).Some? then 0 else 1 + FirstUsable(parts[1..])
  }

  lemma {:induction false} FirstServiceIsFirst(parts: seq<string>)
    ensures var n := FirstUsable(parts);
            && (n < |parts| ==> ServiceOfPart(parts[n]).Some?)
            && FirstService(parts) == if n < |parts| then ServiceOfPart(parts[n]) else None
    decreases |parts|
  {
    hide ServiceOfPart;
    if parts != [] && ServiceOfPart(parts[0]).None? {
      FirstServiceIsFirst(parts[1..]);
    }
  }

  lemma {:induction false} LastCredentialIsParsed(parts: seq<string>)
    requires ParseParams(parts).Ok?
    ensures var n, params := LastCredential(parts), ParseParams(parts).value;
            && (CREDENTIAL in params <==> n < |parts|)
            && (n < |parts| ==> params[CREDENTIAL] == ValueOf(parts[n]))
    decreases |parts|
  {
    hide TrimSpace, CREDENTIAL;
    if parts != [] {
      LastCredentialIsParsed(parts[..|parts| - 1]);
    }
  }

  /** The detection reads the items of the same list as the parser. */
  lemma SameItems(a: seq<string>, b: seq<string>)
    requires SameTrimmed(a, b)
    ensures FirstService(a) == FirstService(b)
    decreases |a|
  {
    hide TrimSpace;
    if a != [] {
      assert TrimSpace(a[0]) == TrimSpace(b[0]);
      assert SameTrimmed(a[1..], b[1..]) by {
        assert forall i | 0 <= i < |a[1..]| :: a[1..][i] == a[i + 1] && b[1..][i] == b[i + 1];
      }
      SameItems(a[1..], b[1..]);
    }
  }

  lemma DetectionReadsTheParameters(header: string, path: string, serviceHeader: string)
    requires HasPrefix(header, ALGORITHM + " ")
    ensures var found := FirstService(Parameters(header));
            DetectedService(header, path, serviceHeader)
            == if found.Some? then found.value else ServiceOfPath(path, serviceHeader)
  {
    hide ALGORITHM, CREDENTIAL, Split, TrimSpace, ServiceOfPath, FirstService, SameTrimmed;
    var rest := header[|ALGORITHM + " "|..];
    assert header[|ALGORITHM|..] == " " + rest;
    LeadingSpaceIsTrimmed(rest);
    CommaIsNoSpace();
    SplitTrimmed(rest, ',');
    SameItems(Split(TrimSpace(rest), ','), Split(rest, ','));
  }

  lemma CommaIsNoSpace()
    ensures !IsSpace(',') && !IsSpace('/')
  {
  }

  /** Where the detection finds a service there is a credential, without white space before its "=". */
  lemma UsableIsCredential(part: string)
    requires HasPrefix(TrimSpace(part), CREDENTIAL + "=")
    ensures IsCredential(part) && ValueOf(part) == TrimSpace(TrimSpace(part)[|CREDENTIAL + "="|..])
  {
    hide CREDENTIAL, TrimSpace, Trimmed;
    var t := TrimSpace(part);
    var rest := t[|CREDENTIAL + "="|..];
    NamesAreClean();
    assert t == CREDENTIAL + ['='] + rest;
    IndexAfter(CREDENTIAL, '=', rest);
    assert t[..|CREDENTIAL|] == CREDENTIAL;
    TrimmedIsKept(CREDENTIAL);
  }

  /** There both read the same service, whatever white space surrounds the value. */
  lemma SameServiceOfPart(part: string)
    requires HasPrefix(TrimSpace(part), CREDENTIAL + "=")
    ensures |SplitN(ValueOf(part), '/', 5)| == 5 ==> ServiceOfPart(part) == Some(SplitN(ValueOf(part), '/', 5)[3])
  {
    hide CREDENTIAL, TrimSpace, IsSpace, SplitN, ValueOf, TrimLeft;
    var t := TrimSpace(part);
    var rest := t[|CREDENTIAL + "="|..];
    UsableIsCredential(part);
    TrimSpaceTrims(part);
    assert rest != "" ==> rest[|rest| - 1] == t[|t| - 1];
    TrimRightKeeps(rest);
    CommaIsNoSpace();
    SplitNTrimmedLeft(rest, '/', 5);
    if |SplitN(ValueOf(part), '/', 5)| == 5 {
      SameTails(SplitN(rest, '/', 5), SplitN(ValueOf(part), '/', 5));
    }
  }

  lemma SameTails(a: seq<string>, b: seq<string>)
    requires |a| > 0 && |b| == 5 && a[1..] == b[1..]
    ensures |a| == 5 && a[3] == b[3]
  {
    assert |a[1..]| == |b[1..]| && a[1..][2] == b[1..][2];
  }

  /** The verifier's service is that of its last credential. */
  lemma ServiceOfParsed(header: string)
    requires Parsed(header).Ok?
    ensures var parts := Parameters(header);
            var n := LastCredential(parts);
            && n < |parts|
            && |SplitN(ValueOf(parts[n]), '/', 5)| == 5
            && Parsed(header).value.service == SplitN(ValueOf(parts[n]), '/', 5)[3]
  {
    hide CREDENTIAL, SIGNED_HEADERS, SIGNATURE, TERMINATOR, ALGORITHM, Parameters, SplitN, ParseParams,
         LastCredential, ValueOf;
    LastCredentialIsParsed(Parameters(header));
  }

  /** The detection looks into the header at all, and some part satisfies it. */
  predicate Detectable(header: string)
  {
    HasPrefix(header, ALGORITHM + " ") && FirstUsable(Parameters(header)) < |Parameters(header)|
  }

  /**
   * For every header that the verifier accepts: detection agrees with it if and only if the part that
   * the detection takes is the verifier's credential, or names the same service all the same; where
   * the detection takes no part, what the path and the other header say must happen to be that service.
   */
  lemma DetectionAgreesExactlyWhen(header: string, path: string, serviceHeader: string)
    requires Parsed(header).Ok?
    ensures var parts, service := Parameters(header), Parsed(header).value.service;
            DetectedService(header, path, serviceHeader) == service <==>
            if Detectable(header) then
              || FirstUsable(parts) == LastCredential(parts)
              || ServiceOfPart(parts[FirstUsable(parts)]) == Some(service)
            else ServiceOfPath(path, serviceHeader) == service
  {
    hide CREDENTIAL, ALGORITHM, Parsed, Parameters, ServiceOfPath, SplitN, ValueOf, FirstService;
    var parts := Parameters(header);
    var n := FirstUsable(parts);
    ServiceOfParsed(header);
    FirstServiceIsFirst(parts);
    if HasPrefix(header, ALGORITHM + " ") {
      DetectionReadsTheParameters(header, path, serviceHeader);
      if n < |parts| && n == LastCredential(parts) {
        SameServiceOfPart(parts[n]);
      }
    }
  }

  /**
   * With one credential the detection needs the space after the algorithm and no white space before
   * the "=" of the credential.
   */
  lemma OneCredentialIsDetectedExactlyWhen(header: string, path: string, serviceHeader: string, n: nat)
    requires Parsed(header).Ok? && n < |Parameters(header)|
    requires forall i :: 0 <= i < |Parameters(header)| ==> (IsCredential(Parameters(header)[i]) <==> i == n)
    ensures var service := Parsed(header).value.service;
            DetectedService(header, path, serviceHeader) == service <==>
            || (HasPrefix(header, ALGORITHM + " ") && HasPrefix(TrimSpace(Parameters(header)[n]), CREDENTIAL + "="))
            || ServiceOfPath(path, serviceHeader) == service
  {
    hide CREDENTIAL, ALGORITHM, Parsed, Parameters, ServiceOfPath, SplitN, ValueOf, TrimSpace, IsCredential,
         DetectedService;
    var parts := Parameters(header);
    ServiceOfParsed(header);
    DetectionAgreesExactlyWhen(header, path, serviceHeader);
    FirstServiceIsFirst(parts);
    if FirstUsable(parts) < |parts| {
      UsableIsCredential(parts[FirstUsable(parts)]);
    }
    if HasPrefix(TrimSpace(parts[n]), CREDENTIAL + "=") {
      SameServiceOfPart(parts[n]);
      UsableIsFound(parts, n);
    }
  }

  lemma {:induction false} UsableIsFound(parts: seq<string>, n: nat)
    requires n < |parts| && ServiceOfPart(parts[n]).Some?
    ensures FirstUsable(parts) <= n
    decreases |parts|
  {
    hide ServiceOfPart;
    if n > 0 && ServiceOfPart(parts[0]).None? {
      UsableIsFound(parts[1..], n - 1);
    }
  }

  lemma NoSpaceNoDetection(header: string, path: string, serviceHeader: string)
    requires |header| > |ALGORITHM| && header[|ALGORITHM|] != ' '
    ensures DetectedService(header, path, serviceHeader) == ServiceOfPath(path, serviceHeader)
  {
    hide ALGORITHM, ServiceOfPath, FirstService;
  }

  lemma SameParametersSameResult(a: string, b: string)
    requires HasPrefix(a, ALGORITHM) && HasPrefix(b, ALGORITHM) && Parameters(a) == Parameters(b)
    ensures Parsed(a) == Parsed(b)
  {
    hide ALGORITHM, Parameters, ParseParams, ParseScope;
  }

  /** A printed header with a tab instead of the space: the verifier accepts it, the detection does not look at it. */
  lemma TabHidesTheService(c: Components, path: string, serviceHeader: string)
    requires Clean(c)
    ensures var header := ALGORITHM + "\t" + Header(c)[|ALGORITHM| + 1..];
            && Parsed(header) == Ok(c)
            && DetectedService(header, path, serviceHeader) == ServiceOfPath(path, serviceHeader)
  {
    hide ALGORITHM, CREDENTIAL, SIGNED_HEADERS, SIGNATURE, ServiceOfPath, Split, TrimSpace, Join, Credential, Param,
         Clean, Parsed, DetectedService;
    CleanHeaderIsParsed(c);
    var rest := Header(c)[|ALGORITHM| + 1..];
    var header := ALGORITHM + "\t" + rest;
    assert Header(c) == ALGORITHM + " " + rest;
    assert header[|ALGORITHM|..] == "\t" + rest && Header(c)[|ALGORITHM|..] == " " + rest;
    SpaceAndTab(rest);
    SameParametersSameResult(header, Header(c));
    NoSpaceNoDetection(header, path, serviceHeader);
  }

  lemma SpaceAndTab(s: string)
    ensures TrimSpace("\t" + s) == TrimSpace(" " + s)
  {
    TrimAfterFront('\t', s);
    TrimAfterFront(' ', s);
  }

  /** An extra credential printed before the one of a clean header. */
  function WithExtra(extra: Components, c: Components): string
  {
    ALGORITHM + " " + Param(CREDENTIAL, Credential(extra)) + ", " + Header(c)[|ALGORITHM| + 1..]
  }

  /** Two credentials: the verifier goes by the last one, the detection by the first one. */
  lemma TwoCredentialsDiffer(extra: Components, c: Components, path: string, serviceHeader: string)
    requires Clean(extra) && Clean(c)
    ensures Parsed(WithExtra(extra, c)) == Ok(c)
    ensures DetectedService(WithExtra(extra, c), path, serviceHeader) == extra.service
  {
    hide ALGORITHM, CREDENTIAL, SIGNED_HEADERS, SIGNATURE, ServiceOfPath, ServiceOfPart, Parameters, Param, Credential,
         ParseScope, AddParam, ParseParams, Parsed, DetectedService, WithExtra;
    ExtraParameters(extra, c);
    ExtraIsOverwritten(extra, c);
    ServiceOfPrinted(extra);
    DetectionReadsTheParameters(WithExtra(extra, c), path, serviceHeader);
    FirstServiceIsFirst(Parameters(WithExtra(extra, c)));
    UsableIsFound(Parameters(WithExtra(extra, c)), 0);
  }

  lemma ExtraParameters(extra: Components, c: Components)
    requires Clean(extra) && Clean(c)
    ensures HasPrefix(WithExtra(extra, c), ALGORITHM + " ") && HasPrefix(WithExtra(extra, c), ALGORITHM)
    ensures Parameters(WithExtra(extra, c))
         == [Param(CREDENTIAL, Credential(extra)), " " + Param(CREDENTIAL, Credential(c)),
             " " + Param(SIGNED_HEADERS, c.signedHeaders), " " + Param(SIGNATURE, c.signature)]
  {
    hide ALGORITHM, CREDENTIAL, SIGNED_HEADERS, SIGNATURE, Credential, Param, IsSpace, TrimSpace, Split, Join;
    CleanCredential(extra);
    CleanCredential(c);
    NamesAreClean();
    var first := Param(CREDENTIAL, Credential(extra));
    var a, b := Param(CREDENTIAL, Credential(c)), Param(SIGNED_HEADERS, c.signedHeaders);
    var d := Param(SIGNATURE, c.signature);
    ParamIsFree(CREDENTIAL, Credential(extra));
    ParamIsFree(CREDENTIAL, Credential(c));
    ParamIsFree(SIGNED_HEADERS, c.signedHeaders);
    ParamIsFree(SIGNATURE, c.signature);
    FourParameters(first, a, b, d);
    assert Header(c)[|ALGORITHM| + 1..] == Join([a, b, d], ", ");
    var tail := " " + (first + ", " + Join([a, b, d], ", "));
    assert WithExtra(extra, c) == ALGORITHM + tail;
    assert WithExtra(extra, c)[|ALGORITHM|..] == tail;
  }

  lemma FourParameters(first: string, a: string, b: string, c: string)
    requires first != "" && a != "" && c != "" && Trimmed(first) && Trimmed(a) && Trimmed(c)
    requires ',' !in first && ',' !in a && ',' !in b && ',' !in c
    ensures Split(TrimSpace(" " + (first + ", " + Join([a, b, c], ", "))), ',') == [first, " " + a, " " + b, " " + c]
  {
    hide TrimSpace, Split, IsSpace;
    var fourth := " " + c;
    var third := " " + b + [','] + fourth;
    var second := " " + a + [','] + third;
    var all := first + [','] + second;
    JoinThree(a, b, c, ", ");
    assert ", " == [','] + " ";
    assert all == first + ", " + Join([a, b, c], ", ");
    LeadingSpaceIsTrimmed(all);
    assert all[0] == first[0] && all[|all| - 1] == c[|c| - 1];
    TrimmedIsKept(all);
    SplitHead(first, ',', second);
    SplitHead(" " + a, ',', third);
    SplitHead(" " + b, ',', fourth);
    SplitWhole(fourth, ',');
  }

  lemma ExtraIsOverwritten(extra: Components, c: Components)
    requires Clean(extra) && Clean(c)
    ensures Parsed(WithExtra(extra, c)) == Ok(c)
  {
    hide ALGORITHM, CREDENTIAL, SIGNED_HEADERS, SIGNATURE, Credential, Param, AddParam, Trimmed, WithExtra, Parameters,
         ParseScope;
    ExtraParameters(extra, c);
    CleanCredential(extra);
    CleanCredential(c);
    NamesAreClean();
    var p0 := Param(CREDENTIAL, Credential(extra));
    var p1, p2 := " " + Param(CREDENTIAL, Credential(c)), " " + Param(SIGNED_HEADERS, c.signedHeaders);
    var p3 := " " + Param(SIGNATURE, c.signature);
    var m0 := map[CREDENTIAL := Credential(extra)];
    var m1 := m0[CREDENTIAL := Credential(c)];
    var m2 := m1[SIGNED_HEADERS := c.signedHeaders];
    AddPrinted(map[], CREDENTIAL, Credential(extra));
    AddPrinted(m0, CREDENTIAL, Credential(c));
    AddPrinted(m1, SIGNED_HEADERS, c.signedHeaders);
    AddPrinted(m2, SIGNATURE, c.signature);
    assert [p0, p1, p2, p3][..3] == [p0, p1, p2] && [p0, p1, p2][..2] == [p0, p1] && [p0, p1][..1] == [p0];
    assert [p0][..0] == [];
    assert ParseParams([p0]) == AddParam(map[], p0);
    assert ParseParams([p0, p1]) == AddParam(m0, p1);
    assert ParseParams([p0, p1, p2]) == AddParam(m1, p2);
    assert ParseParams([p0, p1, p2, p3]) == AddParam(m2, p3);
    ScopeRoundTrip(c);
  }

  // ---------------------------------------------------------------- which headers are accepted

  predicate HasEquals(part: string)
  {
    '=' in TrimSpace(part)
  }

  lemma {:induction false} ParamsAreNamed(parts: seq<string>, name: string)
    ensures ParseParams(parts).Ok? <==> forall p <- parts :: HasEquals(p)
    ensures ParseParams(parts).Ok? ==> (name in ParseParams(parts).value <==> exists p <- parts :: NameOf(p) == name)
    decreases |parts|
  {
    hide TrimSpace, HasEquals, NameOf, AddParam;
    if parts != [] {
      var front, last := parts[..|parts| - 1], parts[|parts| - 1];
      assert forall p :: p in parts <==> p in front || p == last;
      ParamsAreNamed(front, name);
      if ParseParams(front).Ok? {
        AddedName(ParseParams(front).value, last);
      }
    }
  }

  lemma AddedName(params: Params, part: string)
    ensures AddParam(params, part).Ok? <==> HasEquals(part)
    ensures AddParam(params, part).Ok? ==> AddParam(params, part).value.Keys == params.Keys + {NameOf(part)}
  {
    hide TrimSpace;
    EqualsIsFound(TrimSpace(part));
  }

  lemma EqualsIsFound(t: string)
    ensures IndexOf(t, '=') < |t| <==> '=' in t
  {
    assert t[..|t|] == t;
  }

  /**
   * A header is accepted if and only if it begins with the algorithm, every part is a parameter, the
   * three names occur, and the last credential has five pieces that end as they must.
   */
  lemma AcceptedExactlyWhen(header: string)
    ensures var parts := Parameters(header);
            Parsed(header).Ok? <==>
            && HasPrefix(header, "AWS4-HMAC-SHA256") && (forall p <- parts :: HasEquals(p))
            && (exists p <- parts :: NameOf(p) == "SignedHeaders") && (exists p <- parts :: NameOf(p) == "Signature")
            && LastCredential(parts) < |parts|
            && var pieces := SplitN(ValueOf(parts[LastCredential(parts)]), '/', 5);
               |pieces| == 5 && pieces[4] == "aws4_request"
  {
    hide Parameters, SplitN, ValueOf, NameOf, HasEquals, LastCredential, ParseParams;
    var parts := Parameters(header);
    ParamsAreNamed(parts, SIGNED_HEADERS);
    ParamsAreNamed(parts, SIGNATURE);
    if ParseParams(parts).Ok? {
      LastCredentialIsParsed(parts);
    }
  }

  /** The services of the paths that the cache knows, and the order of the fallbacks behind them. */
  lemma PathsNameServices(rest: string, path: string, serviceHeader: string)
    ensures ServiceOfPath("/storage/v1/" + rest, serviceHeader) == "storage"
    ensures ServiceOfPath("/upload/storage/v1/" + rest, serviceHeader) == "storage"
    ensures ServiceOfPath("/compute/v1/" + rest, serviceHeader) == "compute"
    ensures ServiceOfPath("/v1/projects/" + rest, serviceHeader) == "pubsub"
    ensures (|path| < 2 || (path[1] != 's' && path[1] != 'u' && path[1] != 'c' && path[1] != 'v')) ==>
              ServiceOfPath(path, serviceHeader) == if serviceHeader != "" then serviceHeader else "unknown"
  {
    assert ("/compute/v1/" + rest)[1] == 'c' && ("/v1/projects/" + rest)[1] == 'v';
    assert ("/upload/storage/v1/" + rest)[1] == 'u' && ("/storage/v1/" + rest)[1] == 's';
    if HasPrefix(path, "/storage/v1/") {
      assert path[1] == 's';
    } else if HasPrefix(path, "/upload/storage/v1/") {
      assert path[1] == 'u';
    } else if HasPrefix(path, "/compute/v1/") {
      assert path[1] == 'c';
    } else if HasPrefix(path, "/v1/projects/") {
      assert path[1] == 'v';
    }
  }
}
