// Splitting and trimming, as the Go package strings does them.
module Text {
  import opened Strings

  /** The first position of c, or the length of s. */
  function IndexOf(s: string, c: char): (n: nat)
    ensures n <= |s| && c !in s[..n]
    ensures n < |s| ==> s[n] == c
  {
    if s == "" || s[0] == c then 0
    else
      var n := IndexOf(s[1..], c);
      assert s[..n + 1] == [s[0]] + s[1..][..n];
      n + 1
  }

  lemma IndexIsFirst(s: string, c: char, n: nat)
    requires n <= |s| && c !in s[..n] && (n < |s| ==> s[n] == c)
    ensures IndexOf(s, c) == n
  {
    var m := IndexOf(s, c);
    assert forall i | 0 <= i < n :: s[..n][i] == s[i];
    assert forall i | 0 <= i < m :: s[..m][i] == s[i];
  }

  lemma IndexAfter(a: string, c: char, rest: string)
    requires c !in a
    ensures IndexOf(a + [c] + rest, c) == |a|
  {
    assert (a + [c] + rest)[..|a|] == a;
    IndexIsFirst(a + [c] + rest, c, |a|);
  }

  /** At most n pieces; the last one keeps its separators. */
  function SplitN(s: string, c: char, n: nat): (parts: seq<string>)
    requires n > 0
    ensures 0 < |parts| <= n
    decreases n
  {
    var i := IndexOf(s, c);
    if n == 1 || i == |s| then [s] else [s[..i]] + SplitN(s[i + 1..], c, n - 1)
  }

  function Split(s: string, c: char): (parts: seq<string>)
    ensures |parts| > 0
    decreases |s|
  {
    var i := IndexOf(s, c);
    if i == |s| then [s] else [s[..i]] + Split(s[i + 1..], c)
  }

  lemma SplitHead(a: string, c: char, rest: string)
    requires c !in a
    ensures Split(a + [c] + rest, c) == [a] + Split(rest, c)
  {
    IndexAfter(a, c, rest);
    assert (a + [c] + rest)[..|a|] == a && (a + [c] + rest)[|a| + 1..] == rest;
  }

  lemma SplitNHead(a: string, c: char, rest: string, n: nat)
    requires c !in a && n > 1
    ensures SplitN(a + [c] + rest, c, n) == [a] + SplitN(rest, c, n - 1)
  {
    IndexAfter(a, c, rest);
    assert (a + [c] + rest)[..|a|] == a && (a + [c] + rest)[|a| + 1..] == rest;
  }

  lemma SplitWhole(a: string, c: char)
    requires c !in a
    ensures Split(a, c) == [a]
  {
    assert a[..|a|] == a;
    IndexIsFirst(a, c, |a|);
  }

  /** Splitting undoes joining when no piece contains the separator. */
  lemma {:induction false} SplitUndoesJoin(parts: seq<string>, c: char)
    requires |parts| > 0 && forall p <- parts :: c !in p
    ensures Split(Join(parts, [c]), c) == parts
    decreases |parts|
  {
    hide Split;
    assert parts[0] in parts;
    if |parts| == 1 {
      SplitWhole(parts[0], c);
      assert parts == [parts[0]];
    } else {
      assert forall p <- parts[1..] :: p in parts;
      SplitUndoesJoin(parts[1..], c);
      SplitHead(parts[0], c, Join(parts[1..], [c]));
      assert parts == [parts[0]] + parts[1..];
    }
  }

  lemma {:induction false} SplitPiecesAreFree(s: string, c: char)
    ensures forall p <- Split(s, c) :: c !in p && forall x <- p :: x in s
    decreases |s|
  {
    var i := IndexOf(s, c);
    if i < |s| {
      SplitPiecesAreFree(s[i + 1..], c);
      assert forall x <- s[..i] :: x in s;
      assert forall x <- s[i + 1..] :: x in s;
    }
  }

  /** All pieces but the last have no separator, and the first begins where s begins. */
  lemma {:induction false} SplitNPieces(s: string, c: char, n: nat)
    requires n > 0
    ensures var parts := SplitN(s, c, n);
            && (forall i :: 0 <= i < |parts| - 1 ==> c !in parts[i])
            && (forall p <- parts :: forall x <- p :: x in s)
            && (|parts| > 1 && parts[0] != "" ==> parts[0][0] == s[0])
    decreases n
  {
    var i := IndexOf(s, c);
    if n > 1 && i < |s| {
      SplitNPieces(s[i + 1..], c, n - 1);
      assert forall x <- s[..i] :: x in s;
      assert forall x <- s[i + 1..] :: x in s;
      assert i > 0 ==> s[..i][0] == s[0];
    }
  }

  // ---------------------------------------------------------------- white space

  predicate IsSpace(c: char)
  {
    || '\t' <= c <= '\r' || c == ' ' || c as int == 0x85 || c as int == 0xA0 || c as int == 0x1680
    || 0x2000 <= c as int <= 0x200A || c as int == 0x2028 || c as int == 0x2029 || c as int == 0x202F
    || c as int == 0x205F || c as int == 0x3000
  }

  function TrimLeft(s: string): string
  {
    if s != "" && IsSpace(s[0]) then TrimLeft(s[1..]) else s
  }

  function TrimRight(s: string): string
  {
    if s != "" && IsSpace(s[|s| - 1]) then TrimRight(s[..|s| - 1]) else s
  }

  function TrimSpace(s: string): string
  {
    TrimRight(TrimLeft(s))
  }

  predicate Trimmed(s: string)
  {
    s == "" || (!IsSpace(s[0]) && !IsSpace(s[|s| - 1]))
  }

  lemma {:induction false} TrimLeftMeaning(s: string)
    ensures var t := TrimLeft(s); (t == "" || !IsSpace(t[0])) && forall x <- t :: x in s
    decreases |s|
  {
    hide IsSpace;
    if s != "" && IsSpace(s[0]) {
      TrimLeftMeaning(s[1..]);
      assert forall x <- s[1..] :: x in s;
    }
  }

  lemma {:induction false} TrimRightMeaning(s: string)
    ensures var t := TrimRight(s); (t == "" || !IsSpace(t[|t| - 1])) && t <= s
    decreases |s|
  {
    hide IsSpace;
    if s != "" && IsSpace(s[|s| - 1]) {
      TrimRightMeaning(s[..|s| - 1]);
    }
  }

  lemma TrimSpaceTrims(s: string)
    ensures Trimmed(TrimSpace(s)) && forall x <- TrimSpace(s) :: x in s
  {
    hide IsSpace, TrimLeft, TrimRight;
    TrimLeftMeaning(s);
    TrimRightMeaning(TrimLeft(s));
  }

  lemma TrimmedIsKept(s: string)
    requires Trimmed(s)
    ensures TrimSpace(s) == s
  {
    hide IsSpace;
  }

  lemma LeadingSpaceIsTrimmed(s: string)
    ensures TrimSpace(" " + s) == TrimSpace(s)
  {
    assert IsSpace(' ') && (" " + s)[1..] == s;
  }

  // ---------------------------------------------------------------- trimming the ends of a list

  lemma {:induction false} TrimAfterFront(c: char, s: string)
    requires IsSpace(c)
    ensures TrimSpace([c] + s) == TrimSpace(s)
  {
    assert ([c] + s)[1..] == s;
  }

  lemma {:induction false} TrimLeftBeforeBack(s: string, c: char)
    requires IsSpace(c)
    ensures TrimLeft(s + [c]) == if TrimLeft(s) == "" then "" else TrimLeft(s) + [c]
    decreases |s|
  {
    if s == "" {
      assert s + [c] == [c] && [c][1..] == "";
    } else if IsSpace(s[0]) {
      assert (s + [c])[1..] == s[1..] + [c];
      TrimLeftBeforeBack(s[1..], c);
    }
  }

  lemma TrimBeforeBack(s: string, c: char)
    requires IsSpace(c)
    ensures TrimSpace(s + [c]) == TrimSpace(s)
  {
    TrimLeftBeforeBack(s, c);
    assert (TrimLeft(s) + [c])[..|TrimLeft(s)|] == TrimLeft(s);
  }

  /** The same list, up to white space around its items. */
  ghost predicate SameTrimmed(a: seq<string>, b: seq<string>)
  {
    |a| == |b| && forall i :: 0 <= i < |a| ==> TrimSpace(a[i]) == TrimSpace(b[i])
  }

  lemma SplitAfterFront(c: char, s: string, sep: char)
    requires c != sep
    ensures Split([c] + s, sep) == [[c] + Split(s, sep)[0]] + Split(s, sep)[1..]
  {
    var i := IndexOf(s, sep);
    assert ([c] + s)[1..] == s;
    assert IndexOf([c] + s, sep) == i + 1;
    assert ([c] + s)[..i + 1] == [c] + s[..i];
    if i < |s| {
      assert ([c] + s)[i + 2..] == s[i + 1..];
    } else {
      assert s[..i] == s;
    }
  }

  lemma {:induction false} SplitBeforeBack(s: string, c: char, sep: char)
    requires c != sep
    ensures var parts := Split(s, sep);
            Split(s + [c], sep) == parts[..|parts| - 1] + [parts[|parts| - 1] + [c]]
    decreases |s|
  {
    var i := IndexOf(s, sep);
    assert (s + [c])[..i] == s[..i];
    if i < |s| {
      IndexIsFirst(s + [c], sep, i);
      assert (s + [c])[i + 1..] == s[i + 1..] + [c];
      SplitBeforeBack(s[i + 1..], c, sep);
      var rest := Split(s[i + 1..], sep);
      assert ([s[..i]] + rest)[..|rest|] == [s[..i]] + rest[..|rest| - 1];
    } else {
      assert s[..i] == s;
      SplitWhole(s + [c], sep);
    }
  }

  lemma {:induction false} SplitTrimmedLeft(s: string, sep: char)
    requires !IsSpace(sep)
    ensures SameTrimmed(Split(TrimLeft(s), sep), Split(s, sep))
    decreases |s|
  {
    hide IsSpace, TrimSpace, Split;
    if s != "" && IsSpace(s[0]) {
      assert s == [s[0]] + s[1..];
      SplitAfterFront(s[0], s[1..], sep);
      TrimAfterFront(s[0], Split(s[1..], sep)[0]);
      SplitTrimmedLeft(s[1..], sep);
    }
  }

  lemma {:induction false} SplitTrimmedRight(s: string, sep: char)
    requires !IsSpace(sep)
    ensures SameTrimmed(Split(TrimRight(s), sep), Split(s, sep))
    decreases |s|
  {
    hide IsSpace, TrimSpace, Split;
    if s != "" && IsSpace(s[|s| - 1]) {
      var front, last := s[..|s| - 1], s[|s| - 1];
      assert s == front + [last];
      SplitBeforeBack(front, last, sep);
      TrimBeforeBack(Split(front, sep)[|Split(front, sep)| - 1], last);
      SplitTrimmedRight(front, sep);
    }
  }

  /** Trimming a list first makes no difference to its trimmed items. */
  lemma SplitTrimmed(s: string, sep: char)
    requires !IsSpace(sep)
    ensures SameTrimmed(Split(TrimSpace(s), sep), Split(s, sep))
  {
    hide IsSpace, Split, TrimLeft, TrimRight;
    SplitTrimmedLeft(s, sep);
    SplitTrimmedRight(TrimLeft(s), sep);
  }

  lemma SplitNAfterFront(c: char, s: string, sep: char, n: nat)
    requires c != sep && n > 0
    ensures SplitN([c] + s, sep, n) == [[c] + SplitN(s, sep, n)[0]] + SplitN(s, sep, n)[1..]
  {
    var i := IndexOf(s, sep);
    assert ([c] + s)[1..] == s;
    assert IndexOf([c] + s, sep) == i + 1;
    assert ([c] + s)[..i + 1] == [c] + s[..i];
    if n > 1 && i < |s| {
      assert ([c] + s)[i + 2..] == s[i + 1..];
    }
  }

  /** White space in front of a text goes to its first piece only. */
  lemma {:induction false} SplitNTrimmedLeft(s: string, sep: char, n: nat)
    requires !IsSpace(sep) && n > 0
    ensures SplitN(s, sep, n)[1..] == SplitN(TrimLeft(s), sep, n)[1..]
    decreases |s|
  {
    hide IsSpace, SplitN;
    if s != "" && IsSpace(s[0]) {
      assert s == [s[0]] + s[1..];
      SplitNAfterFront(s[0], s[1..], sep, n);
      SplitNTrimmedLeft(s[1..], sep, n);
    }
  }

  lemma TrimRightKeeps(s: string)
    requires s == "" || !IsSpace(s[|s| - 1])
    ensures TrimSpace(s) == TrimLeft(s)
  {
    TrimLeftKeepsLast(s);
  }

  lemma {:induction false} TrimLeftKeepsLast(s: string)
    ensures TrimLeft(s) == "" || TrimLeft(s)[|TrimLeft(s)| - 1] == s[|s| - 1]
    decreases |s|
  {
    if s != "" && IsSpace(s[0]) {
      TrimLeftKeepsLast(s[1..]);
    }
  }
}
