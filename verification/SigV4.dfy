// AWS Signature Version 4: percent-encoding and the canonical query string.
module SigV4 {
  import opened Strings
  import opened Text

  newtype Byte = b: int | 0 <= b < 256
  type Bytes = seq<Byte>

  /** The parameters of a query: every key with its values, in order. */
  type Params = map<Bytes, seq<Bytes>>

  predicate IsUnreserved(c: char)
  {
    'A' <= c <= 'Z' || 'a' <= c <= 'z' || '0' <= c <= '9' || c == '-' || c == '_' || c == '.' || c == '~'
  }

  function HexDigit(d: int): char
    requires 0 <= d < 16
  {
    if d < 10 then ('0' as int + d) as char else ('A' as int + d - 10) as char
  }

  function HexValue(c: char): int
  {
    if '0' <= c <= '9' then c as int - '0' as int
    else if 'A' <= c <= 'F' then c as int - 'A' as int + 10
    else 0
  }

  function EncodeByte(b: Byte): string
  {
    if IsUnreserved(b as char) then [b as char] else ['%', HexDigit(b as int / 16), HexDigit(b as int % 16)]
  }

  function Encoded(s: Bytes): string
  {
    if s == [] then "" else EncodeByte(s[0]) + Encoded(s[1..])
  }

  lemma EncodeNext(s: Bytes, i: nat)
    requires i < |s|
    ensures Encoded(s[i..]) == EncodeByte(s[i]) + Encoded(s[i + 1..])
  {
    hide EncodeByte;
    assert s[i..][0] == s[i] && s[i..][1..] == s[i + 1..];
  }

  lemma Associative(a: string, b: string, c: string)
    ensures a + b + c == a + (b + c)
  {
  }

  method UriEncode(s: Bytes) returns (b: string)
    ensures b == Encoded(s)
  {
    hide Encoded, IsUnreserved, HexDigit;
    b := "";
    assert s[0..] == s;
    for i := 0 to |s|
      invariant b + Encoded(s[i..]) == Encoded(s)
    {
      EncodeNext(s, i);
      Associative(b, EncodeByte(s[i]), Encoded(s[i + 1..]));
      var c := s[i] as char;
      b := b + if IsUnreserved(c) then [c] else ['%', HexDigit(s[i] as int / 16), HexDigit(s[i] as int % 16)];
    }
    EncodeNothing(s[|s|..]);
    assert b + "" == b;
  }

  lemma EncodeNothing(s: Bytes)
    requires s == []
    ensures Encoded(s) == ""
  {
  }

  /** The reader of percent-encoded text: RFC 3986 section 2.1 triplets, and bytes that stand for themselves. */
  function Decoded(t: string): Bytes
    decreases |t|
  {
    if t == "" then []
    else if t[0] == '%' && |t| >= 3 then [ToByte(HexValue(t[1]) * 16 + HexValue(t[2]))] + Decoded(t[3..])
    else [ToByte(t[0] as int)] + Decoded(t[1..])
  }

  function ToByte(n: nat): Byte
  {
    (n % 256) as Byte
  }

  /** Only unreserved characters, and triplets with upper-case digits of bytes that are not unreserved. */
  predicate IsCanonical(t: string)
    decreases |t|
  {
    || t == ""
    || (IsUnreserved(t[0]) && IsCanonical(t[1..]))
    || (|t| >= 3 && t[0] == '%' && IsHexDigit(t[1]) && IsHexDigit(t[2])
        && !IsUnreserved((HexValue(t[1]) * 16 + HexValue(t[2])) as char) && IsCanonical(t[3..]))
  }

  predicate IsHexDigit(c: char)
  {
    '0' <= c <= '9' || 'A' <= c <= 'F'
  }

  lemma HexRoundTrip(d: int)
    requires 0 <= d < 16
    ensures HexValue(HexDigit(d)) == d && IsHexDigit(HexDigit(d))
  {
  }

  lemma HexValueRoundTrip(c: char)
    requires IsHexDigit(c)
    ensures 0 <= HexValue(c) < 16 && HexDigit(HexValue(c)) == c
  {
  }

  lemma ByteRoundTrip(b: Byte, rest: string)
    ensures Decoded(EncodeByte(b) + rest) == [b] + Decoded(rest)
    ensures IsCanonical(EncodeByte(b) + rest) <==> IsCanonical(rest)
  {
    var t := EncodeByte(b) + rest;
    if IsUnreserved(b as char) {
      assert t[1..] == rest;
    } else {
      HexRoundTrip(b as int / 16);
      HexRoundTrip(b as int % 16);
      assert t[3..] == rest;
    }
  }

  /** Decoding undoes encoding, so encoding loses nothing. */
  lemma {:induction false} DecodeUndoesEncode(s: Bytes)
    ensures Decoded(Encoded(s)) == s && IsCanonical(Encoded(s))
    decreases |s|
  {
    if s != [] {
      ByteRoundTrip(s[0], Encoded(s[1..]));
      DecodeUndoesEncode(s[1..]);
    }
  }

  lemma TwoDigits(high: int, low: int)
    requires 0 <= high < 16 && 0 <= low < 16
    ensures (high * 16 + low) / 16 == high && (high * 16 + low) % 16 == low && high * 16 + low < 256
  {
  }

  lemma TripletRoundTrip(a: char, b: char)
    requires IsHexDigit(a) && IsHexDigit(b) && !IsUnreserved((HexValue(a) * 16 + HexValue(b)) as char)
    ensures EncodeByte(ToByte(HexValue(a) * 16 + HexValue(b))) == ['%', a, b]
  {
    hide HexValue, HexDigit, IsHexDigit, IsUnreserved;
    HexValueRoundTrip(a);
    HexValueRoundTrip(b);
    TwoDigits(HexValue(a), HexValue(b));
  }

  lemma {:induction false} CanonicalIsPrinted(t: string)
    requires IsCanonical(t)
    ensures Encoded(Decoded(t)) == t
    decreases |t|
  {
    hide HexValue, IsHexDigit, EncodeByte, ToByte;
    if t != "" {
      if IsUnreserved(t[0]) {
        UnreservedRoundTrip(t[0]);
        CanonicalIsPrinted(t[1..]);
        assert t == [t[0]] + t[1..];
      } else {
        TripletRoundTrip(t[1], t[2]);
        CanonicalIsPrinted(t[3..]);
        assert t == ['%', t[1], t[2]] + t[3..];
      }
    }
  }

  lemma UnreservedRoundTrip(c: char)
    requires IsUnreserved(c)
    ensures EncodeByte(ToByte(c as int)) == [c] && c != '%'
  {
  }

  /** What can be printed is exactly the canonical text. */
  lemma PrintedExactlyWhenCanonical(t: string)
    ensures (exists s :: Encoded(s) == t) <==> IsCanonical(t)
  {
    if s :| Encoded(s) == t {
      DecodeUndoesEncode(s);
    }
    if IsCanonical(t) {
      CanonicalIsPrinted(t);
    }
  }

  lemma {:induction false} CanonicalCharacters(t: string, i: nat)
    requires IsCanonical(t) && i < |t|
    ensures IsUnreserved(t[i]) || t[i] == '%'
    decreases |t|
  {
    if IsUnreserved(t[0]) {
      if i > 0 {
        CanonicalCharacters(t[1..], i - 1);
      }
    } else if i >= 3 {
      CanonicalCharacters(t[3..], i - 3);
    }
  }

  /** Never a separator of the query string, nor the end of a line. */
  lemma EncodingIsFree(s: Bytes, c: char)
    requires !IsUnreserved(c) && c != '%'
    ensures c !in Encoded(s)
  {
    DecodeUndoesEncode(s);
    if c in Encoded(s) {
      var i :| 0 <= i < |Encoded(s)| && Encoded(s)[i] == c;
      CanonicalCharacters(Encoded(s), i);
    }
  }

  // ---------------------------------------------------------------- the canonical query string

  /** Bytewise, as Go compares strings. */
  predicate Less(a: Bytes, b: Bytes)
  {
    b != [] && (a == [] || a[0] < b[0] || (a[0] == b[0] && Less(a[1..], b[1..])))
  }

  lemma {:induction false} LessIsStrictOrder(a: Bytes, b: Bytes, c: Bytes)
    ensures !Less(a, a)
    ensures a == b || Less(a, b) || Less(b, a)
    ensures Less(a, b) && Less(b, c) ==> Less(a, c)
    decreases |a|
  {
    if a != [] {
      LessIsStrictOrder(a[1..], if b == [] then [] else b[1..], if c == [] then [] else c[1..]);
    }
  }

  ghost predicate Sorted(keys: seq<Bytes>)
  {
    forall i, j :: 0 <= i < j < |keys| ==> Less(keys[i], keys[j])
  }

  /** All keys of the map, each once and in order. */
  ghost predicate IsKeyList(keys: seq<Bytes>, params: Params)
  {
    Sorted(keys) && forall k :: k in keys <==> k in params
  }

  /** There is only one such list, so the order in which the map is iterated cannot matter. */
  lemma {:induction false} KeyListIsUnique(a: seq<Bytes>, b: seq<Bytes>)
    requires Sorted(a) && Sorted(b) && forall k :: k in a <==> k in b
    ensures a == b
    decreases |a|
  {
    hide Less;
    assert (a == [] || a[0] in a) && (b == [] || b[0] in b);
    if a != [] {
      LessIsStrictOrder(a[0], b[0], a[0]);
      var i :| 0 <= i < |b| && b[i] == a[0];
      var j :| 0 <= j < |a| && a[j] == b[0];
      assert a[0] == b[0];
      LessIsStrictOrder(a[0], a[0], a[0]);
      TailsHaveSameKeys(a, b);
      KeyListIsUnique(a[1..], b[1..]);
    }
  }

  lemma TailsHaveSameKeys(a: seq<Bytes>, b: seq<Bytes>)
    requires a != [] && b != [] && a[0] == b[0] && Sorted(a) && Sorted(b) && !Less(a[0], a[0])
    requires forall k :: k in a <==> k in b
    ensures forall k :: k in a[1..] <==> k in b[1..]
  {
    hide Less;
    forall k
      ensures k in a[1..] <==> k in b[1..]
    {
      assert k in a <==> k == a[0] || k in a[1..];
      assert k in b <==> k == b[0] || k in b[1..];
      assert a[0] !in a[1..] && b[0] !in b[1..];
    }
  }

  function Insert(keys: seq<Bytes>, k: Bytes): seq<Bytes>
  {
    if keys == [] || Less(k, keys[0]) then [k] + keys else [keys[0]] + Insert(keys[1..], k)
  }

  lemma {:induction false} InsertKeepsSorted(keys: seq<Bytes>, k: Bytes)
    requires Sorted(keys) && k !in keys
    ensures Sorted(Insert(keys, k)) && forall x :: x in Insert(keys, k) <==> x == k || x in keys
    decreases |keys|
  {
    hide Less;
    if keys != [] {
      LessIsStrictOrder(k, keys[0], k);
      if Less(k, keys[0]) {
        forall x <- keys
          ensures Less(k, x)
        {
          LessIsStrictOrder(k, keys[0], x);
        }
      } else {
        assert forall x <- keys[1..] :: x in keys;
        InsertKeepsSorted(keys[1..], k);
        assert forall x <- keys :: x == keys[0] || x in keys[1..];
        var rest := Insert(keys[1..], k);
        assert forall x <- rest :: Less(keys[0], x);
        assert forall i | 0 <= i < |rest| :: rest[i] in rest;
      }
    }
  }

  function Part(k: Bytes, v: Bytes): string
  {
    Encoded(k) + ['='] + Encoded(v)
  }

  function ValueParts(k: Bytes, values: seq<Bytes>): seq<string>
  {
    seq(|values|, i requires 0 <= i < |values| => Part(k, values[i]))
  }

  function Parts(keys: seq<Bytes>, params: Params): seq<string>
    requires forall k <- keys :: k in params
  {
    if keys == [] then []
    else
      var last := keys[|keys| - 1];
      Parts(keys[..|keys| - 1], params) + ValueParts(last, params[last])
  }

  ghost predicate IsQuery(params: Params, query: string)
  {
    exists keys :: IsKeyList(keys, params) && query == Join(Parts(keys, params), ['&'])
  }

  /** sort.Strings. */
  method SortStrings(keys: seq<Bytes>) returns (sorted: seq<Bytes>)
    requires forall i, j :: 0 <= i < j < |keys| ==> keys[i] != keys[j]
    ensures Sorted(sorted) && forall k :: k in sorted <==> k in keys
  {
    sorted := [];
    for i := 0 to |keys|
      invariant Sorted(sorted) && forall k :: k in sorted <==> k in keys[..i]
    {
      InsertKeepsSorted(sorted, keys[i]);
      sorted := Insert(sorted, keys[i]);
    }
  }

  /** The map is iterated in an arbitrary order. */
  method CollectKeys(params: Params) returns (keys: seq<Bytes>)
    ensures forall k :: k in keys <==> k in params
    ensures forall i, j :: 0 <= i < j < |keys| ==> keys[i] != keys[j]
  {
    keys := [];
    var todo := params.Keys;
    while todo != {}
      invariant todo <= params.Keys
      invariant forall k :: k in keys <==> k in params && k !in todo
      invariant forall i, j :: 0 <= i < j < |keys| ==> keys[i] != keys[j]
      decreases |todo|
    {
      var k :| k in todo;
      keys := keys + [k];
      todo := todo - {k};
    }
  }

  method AppendValues(parts: seq<string>, k: Bytes, values: seq<Bytes>) returns (all: seq<string>)
    ensures all == parts + ValueParts(k, values)
  {
    hide Encoded;
    all := parts;
    for i := 0 to |values|
      invariant all == parts + ValueParts(k, values[..i])
    {
      var key := UriEncode(k);
      var value := UriEncode(values[i]);
      assert ValueParts(k, values[..i + 1]) == ValueParts(k, values[..i]) + [key + ['='] + value];
      all := all + [key + ['='] + value];
    }
    assert values[..|values|] == values;
  }

  method CanonicalQueryString(params: Params) returns (query: string)
    ensures IsQuery(params, query)
  {
    hide Sorted, ValueParts;
    var keys := CollectKeys(params);
    keys := SortStrings(keys);
    var parts: seq<string> := [];
    for i := 0 to |keys|
      invariant parts == Parts(keys[..i], params)
    {
      PartsNext(keys, params, i);
      parts := AppendValues(parts, keys[i], params[keys[i]]);
    }
    assert keys[..|keys|] == keys;
    return Join(parts, ['&']);
  }

  lemma PartsNext(keys: seq<Bytes>, params: Params, i: nat)
    requires i < |keys| && forall k <- keys :: k in params
    ensures Parts(keys[..i + 1], params) == Parts(keys[..i], params) + ValueParts(keys[i], params[keys[i]])
  {
    assert keys[..i + 1][..i] == keys[..i];
  }

  // ---------------------------------------------------------------- reading a query string back

  function AddValue(params: Params, part: string): Params
  {
    var i := IndexOf(part, '=');
    var k := Decoded(part[..i]);
    var v := if i < |part| then Decoded(part[i + 1..]) else [];
    params[k := (if k in params then params[k] else []) + [v]]
  }

  function Grouped(parts: seq<string>): Params
  {
    if parts == [] then map[] else AddValue(Grouped(parts[..|parts| - 1]), parts[|parts| - 1])
  }

  function ParseQuery(query: string): Params
  {
    if query == "" then map[] else Grouped(Split(query, '&'))
  }

  /** Keys without values leave no trace in a query string. */
  function NonEmpty(params: Params): Params
  {
    map k | k in params && params[k] != [] :: params[k]
  }

  lemma PartIsFree(k: Bytes, v: Bytes)
    ensures '&' !in Part(k, v) && Part(k, v) != "" && '\n' !in Part(k, v)
    ensures IndexOf(Part(k, v), '=') == |Encoded(k)|
  {
    hide Encoded;
    EncodingIsFree(k, '&');
    EncodingIsFree(v, '&');
    EncodingIsFree(k, '=');
    EncodingIsFree(k, '\n');
    EncodingIsFree(v, '\n');
    IndexAfter(Encoded(k), '=', Encoded(v));
  }

  lemma AddPart(params: Params, k: Bytes, v: Bytes)
    ensures AddValue(params, Part(k, v)) == params[k := (if k in params then params[k] else []) + [v]]
  {
    hide Encoded, Decoded;
    PartIsFree(k, v);
    DecodeUndoesEncode(k);
    DecodeUndoesEncode(v);
    assert Part(k, v)[..|Encoded(k)|] == Encoded(k) && Part(k, v)[|Encoded(k)| + 1..] == Encoded(v);
  }

  lemma GroupLast(parts: seq<string>, part: string)
    ensures Grouped(parts + [part]) == AddValue(Grouped(parts), part)
  {
    assert (parts + [part])[..|parts|] == parts;
  }

  lemma {:induction false} GroupValues(parts: seq<string>, k: Bytes, values: seq<Bytes>)
    requires k !in Grouped(parts)
    ensures Grouped(parts + ValueParts(k, values))
         == if values == [] then Grouped(parts) else Grouped(parts)[k := values]
    decreases |values|
  {
    hide Part, AddValue, Grouped;
    if values == [] {
      assert parts + ValueParts(k, values) == parts;
    } else {
      var front, last := values[..|values| - 1], values[|values| - 1];
      assert parts + ValueParts(k, values) == parts + ValueParts(k, front) + [Part(k, last)];
      GroupLast(parts + ValueParts(k, front), Part(k, last));
      GroupValues(parts, k, front);
      AddPart(Grouped(parts + ValueParts(k, front)), k, last);
      assert front + [last] == values;
    }
  }

  lemma {:induction false} GroupParts(keys: seq<Bytes>, params: Params)
    requires Sorted(keys) && forall k <- keys :: k in params
    ensures Grouped(Parts(keys, params)) == map k | k in keys && params[k] != [] :: params[k]
    decreases |keys|
  {
    hide Less, ValueParts, Grouped;
    if keys == [] {
      GroupNothing();
    } else {
      var front, last := keys[..|keys| - 1], keys[|keys| - 1];
      GroupParts(front, params);
      assert forall k :: k in keys <==> k in front || k == last;
      assert last !in front by {
        LessIsStrictOrder(last, last, last);
      }
      GroupValues(Parts(front, params), last, params[last]);
    }
  }

  lemma GroupNothing()
    ensures Grouped([]) == map[]
  {
  }

  lemma {:induction false} PartsAreFree(keys: seq<Bytes>, params: Params)
    requires forall k <- keys :: k in params
    ensures forall p <- Parts(keys, params) :: '&' !in p && p != "" && '\n' !in p
    decreases |keys|
  {
    hide Part;
    if keys != [] {
      var last := keys[|keys| - 1];
      PartsAreFree(keys[..|keys| - 1], params);
      forall p <- ValueParts(last, params[last])
        ensures '&' !in p && p != "" && '\n' !in p
      {
        var i :| 0 <= i < |params[last]| && p == Part(last, params[last][i]);
        PartIsFree(last, params[last][i]);
      }
    }
  }

  /** A query string gives back every key with its values in order, except keys without values. */
  lemma ParseUndoesQuery(params: Params, query: string)
    requires IsQuery(params, query)
    ensures ParseQuery(query) == NonEmpty(params)
  {
    hide Parts, Grouped, Sorted, Split;
    var keys :| IsKeyList(keys, params) && query == Join(Parts(keys, params), ['&']);
    var parts := Parts(keys, params);
    PartsAreFree(keys, params);
    GroupParts(keys, params);
    if parts == [] {
      GroupNothing();
    } else {
      assert query != "" by { assert parts[0] in parts; }
      SplitUndoesJoin(parts, '&');
    }
  }

  function Kept(keys: seq<Bytes>, params: Params): seq<Bytes>
    requires forall k <- keys :: k in params
  {
    if keys == [] then []
    else
      var front, last := keys[..|keys| - 1], keys[|keys| - 1];
      if params[last] == [] then Kept(front, params) else Kept(front, params) + [last]
  }

  lemma {:induction false} KeptKeys(keys: seq<Bytes>, params: Params)
    requires forall k <- keys :: k in params
    ensures forall k :: k in Kept(keys, params) <==> k in keys && params[k] != []
    decreases |keys|
  {
    if keys != [] {
      var front, last := keys[..|keys| - 1], keys[|keys| - 1];
      KeptKeys(front, params);
      assert forall k :: k in keys <==> k in front || k == last;
    }
  }

  lemma {:induction false} KeptSorted(keys: seq<Bytes>, params: Params)
    requires Sorted(keys) && forall k <- keys :: k in params
    ensures Sorted(Kept(keys, params))
    decreases |keys|
  {
    hide Less;
    if keys != [] {
      var front, last := keys[..|keys| - 1], keys[|keys| - 1];
      KeptSorted(front, params);
      KeptKeys(front, params);
      assert forall k <- front :: Less(k, last);
    }
  }

  lemma PartsSnoc(keys: seq<Bytes>, k: Bytes, params: Params)
    requires k in params && forall x <- keys :: x in params
    ensures Parts(keys + [k], params) == Parts(keys, params) + ValueParts(k, params[k])
  {
    assert (keys + [k])[..|keys|] == keys;
  }

  lemma {:induction false} KeptParts(keys: seq<Bytes>, params: Params)
    requires forall k <- keys :: k in params
    ensures forall k <- Kept(keys, params) :: k in NonEmpty(params)
    ensures Parts(keys, params) == Parts(Kept(keys, params), NonEmpty(params))
    decreases |keys|
  {
    hide ValueParts, Parts;
    KeptKeys(keys, params);
    if keys == [] {
      assert Kept(keys, params) == keys;
      NoParts(params);
      NoParts(NonEmpty(params));
    } else {
      var front, last := keys[..|keys| - 1], keys[|keys| - 1];
      KeptParts(front, params);
      assert keys == front + [last];
      PartsSnoc(front, last, params);
      if params[last] == [] {
        NoValueParts(last, params[last]);
      } else {
        PartsSnoc(Kept(front, params), last, NonEmpty(params));
      }
    }
  }

  lemma NoParts(params: Params)
    ensures Parts([], params) == []
  {
  }

  lemma NoValueParts(k: Bytes, values: seq<Bytes>)
    requires values == []
    ensures ValueParts(k, values) == []
  {
  }

  lemma QueryOfNonEmpty(params: Params, query: string)
    requires IsQuery(params, query)
    ensures IsQuery(NonEmpty(params), query)
  {
    hide Parts, Kept, Sorted;
    var keys :| IsKeyList(keys, params) && query == Join(Parts(keys, params), ['&']);
    KeptKeys(keys, params);
    KeptSorted(keys, params);
    KeptParts(keys, params);
    assert IsKeyList(Kept(keys, params), NonEmpty(params));
  }

  lemma QueryIsUnique(params: Params, q1: string, q2: string)
    requires IsQuery(params, q1) && IsQuery(params, q2)
    ensures q1 == q2
  {
    hide Parts, Sorted;
    var a :| IsKeyList(a, params) && q1 == Join(Parts(a, params), ['&']);
    var b :| IsKeyList(b, params) && q2 == Join(Parts(b, params), ['&']);
    KeyListIsUnique(a, b);
  }

  /** However the maps are iterated, two queries are the same text if and only if they carry the same values. */
  lemma QueriesEqualExactlyWhen(p1: Params, q1: string, p2: Params, q2: string)
    requires IsQuery(p1, q1) && IsQuery(p2, q2)
    ensures q1 == q2 <==> NonEmpty(p1) == NonEmpty(p2)
  {
    hide IsQuery, NonEmpty, ParseQuery;
    ParseUndoesQuery(p1, q1);
    ParseUndoesQuery(p2, q2);
    if NonEmpty(p1) == NonEmpty(p2) {
      QueryOfNonEmpty(p1, q1);
      QueryOfNonEmpty(p2, q2);
      QueryIsUnique(NonEmpty(p1), q1, q2);
    }
  }


  /** The order of the keys: the first difference decides, and the shorter of two keys without one comes first. */
  lemma {:induction false} LessMeaning(a: Bytes, b: Bytes)
    ensures Less(a, b) <==>
            exists n :: 0 <= n <= |a| && n < |b| && a[..n] == b[..n] && (n == |a| || a[n] < b[n])
    decreases |a|
  {
    if a != [] && b != [] && a[0] == b[0] {
      LessMeaning(a[1..], b[1..]);
      if n :| 0 <= n <= |a[1..]| && n < |b[1..]| && a[1..][..n] == b[1..][..n]
              && (n == |a[1..]| || a[1..][n] < b[1..][n]) {
        assert a[..n + 1] == [a[0]] + a[1..][..n] && b[..n + 1] == [b[0]] + b[1..][..n];
      }
      if n :| 0 <= n <= |a| && n < |b| && a[..n] == b[..n] && (n == |a| || a[n] < b[n]) {
        assert n > 0 && a[1..][..n - 1] == a[..n][1..] && b[1..][..n - 1] == b[..n][1..];
      }
    } else {
      assert a[..0] == b[..0];
      assert forall n | 0 < n <= |a| && n <= |b| :: a[..n][0] == a[0] && b[..n][0] == b[0];
    }
  }
}
