/** The functions of Go's `strings` package the exposition parser calls, on strings of
    Unicode code points. */
module GoStrings {

  /** `unicode.IsSpace`. */
  predicate IsSpace(c: char) {
    var n := c as int;
    || 9 <= n <= 13 || n == 0x20 || n == 0x85 || n == 0xA0 || n == 0x1680 || 0x2000 <= n <= 0x200a
    || n == 0x2028 || n == 0x2029 || n == 0x202f || n == 0x205f || n == 0x3000
  }

  function IndexOf(s: string, c: char): (i: int)
    ensures -1 <= i < |s|
  {
    if s == [] then -1
    else if s[0] == c then 0
    else
      var i := IndexOf(s[1..], c);
      if i == -1 then -1 else i + 1
  }

  function LastIndexOf(s: string, c: char): (i: int)
    ensures -1 <= i < |s|
  {
    if s == [] then -1
    else if s[|s| - 1] == c then |s| - 1
    else LastIndexOf(s[..|s| - 1], c)
  }

  lemma {:induction false} IndexNone(s: string, c: char)
    ensures IndexOf(s, c) == -1 <==> c !in s
  {
    if s != [] {
      assert s == [s[0]] + s[1..];
      IndexNone(s[1..], c);
    }
  }

  lemma {:induction false} IndexOfFirst(a: string, c: char, b: string)
    requires c !in a
    ensures IndexOf(a + [c] + b, c) == |a|
  {
    var s := a + [c] + b;
    if a == "" {
      assert s[0] == c;
    } else {
      assert s[0] == a[0] && s[1..] == a[1..] + [c] + b;
      IndexOfFirst(a[1..], c, b);
    }
  }

  lemma {:induction false} LastIndexOfLast(a: string, c: char, b: string)
    requires c !in b
    ensures LastIndexOf(a + [c] + b, c) == |a|
  {
    var s := a + [c] + b;
    if b == "" {
      assert s[|s| - 1] == c;
    } else {
      assert s[|s| - 1] == b[|b| - 1] && s[..|s| - 1] == a + [c] + b[..|b| - 1];
      LastIndexOfLast(a, c, b[..|b| - 1]);
    }
  }

  lemma {:induction false} LastIndexBelow(s: string, c: char, n: nat)
    requires n <= |s|
    ensures LastIndexOf(s, c) < n <==> c !in s[n..]
  {
    if n < |s| {
      var m := |s| - 1;
      assert s[n..] == s[..m][n..] + [s[m]];
      LastIndexBelow(s[..m], c, n);
    }
  }

  function TrimLeft(s: string, cut: char -> bool): string {
    if s != [] && cut(s[0]) then TrimLeft(s[1..], cut) else s
  }

  function TrimRight(s: string, cut: char -> bool): string {
    if s != [] && cut(s[|s| - 1]) then TrimRight(s[..|s| - 1], cut) else s
  }

  function TrimSpace(s: string): string {
    TrimRight(TrimLeft(s, IsSpace), IsSpace)
  }

  predicate IsQuote(c: char) {
    c == '"'
  }

  function TrimQuotes(s: string): string {
    TrimRight(TrimLeft(s, IsQuote), IsQuote)
  }

  function TokenLength(s: string): (n: nat)
    ensures n <= |s|
  {
    if s == [] || IsSpace(s[0]) then 0 else 1 + TokenLength(s[1..])
  }

  lemma {:induction false} TrimLeftShortens(s: string, cut: char -> bool)
    ensures |TrimLeft(s, cut)| <= |s|
    ensures TrimLeft(s, cut) != "" ==> !cut(TrimLeft(s, cut)[0])
  {
    if s != [] && cut(s[0]) { TrimLeftShortens(s[1..], cut); }
  }

  function Fields(s: string): seq<string>
    decreases |s|
  {
    TrimLeftShortens(s, IsSpace);
    var t := TrimLeft(s, IsSpace);
    if t == "" then []
    else
      var n := TokenLength(t);
      [t[..n]] + Fields(t[n..])
  }

  /** `strings.Split` at a character: one piece more than there are occurrences. */
  function SplitAt(s: string, c: char): (pieces: seq<string>)
    ensures |pieces| >= 1
    decreases |s|
  {
    var i := IndexOf(s, c);
    if i == -1 then [s] else [s[..i]] + SplitAt(s[i + 1..], c)
  }

  function Join(pieces: seq<string>, sep: string): string {
    if pieces == [] then ""
    else if |pieces| == 1 then pieces[0]
    else pieces[0] + sep + Join(pieces[1..], sep)
  }

  /** Splitting undoes joining: pieces without the separator come back as they were. */
  lemma {:induction false} SplitOfJoin(pieces: seq<string>, c: char)
    requires pieces != [] && forall p :: p in pieces ==> c !in p
    ensures SplitAt(Join(pieces, [c]), c) == pieces
  {
    var first := pieces[0];
    assert first in pieces;
    if |pieces| == 1 {
      IndexNone(first, c);
      assert pieces == [first];
    } else {
      var rest := Join(pieces[1..], [c]);
      var s := first + [c] + rest;
      assert Join(pieces, [c]) == s;
      IndexOfFirst(first, c, rest);
      assert s[..|first|] == first && s[|first| + 1..] == rest;
      SplitOfJoin(pieces[1..], c);
      assert pieces == [first] + pieces[1..];
    }
  }

  lemma Untrimmed(s: string, cut: char -> bool)
    requires s == "" || (!cut(s[0]) && !cut(s[|s| - 1]))
    ensures TrimRight(TrimLeft(s, cut), cut) == s
  {
  }

  lemma {:induction false} TokenLengthIs(token: string, rest: string)
    requires forall c :: c in token ==> !IsSpace(c)
    requires rest == "" || IsSpace(rest[0])
    ensures TokenLength(token + rest) == |token|
  {
    if token == "" {
      assert token + rest == rest;
    } else {
      assert (token + rest)[1..] == token[1..] + rest;
      TokenLengthIs(token[1..], rest);
    }
  }

  /** A token at the front is the first field. */
  lemma FirstField(token: string, rest: string)
    requires token != "" && forall c :: c in token ==> !IsSpace(c)
    requires rest == "" || IsSpace(rest[0])
    ensures Fields(token + rest) == [token] + Fields(rest)
  {
    var s := token + rest;
    assert s[0] in token;
    assert TrimLeft(s, IsSpace) == s;
    TokenLengthIs(token, rest);
    assert s[..|token|] == token && s[|token|..] == rest;
  }

  lemma SpaceSkipped(s: string)
    ensures Fields(" " + s) == Fields(s)
  {
    assert (" " + s)[1..] == s;
    assert IsSpace((" " + s)[0]);
    assert TrimLeft(" " + s, IsSpace) == TrimLeft(s, IsSpace);
  }

  /** The space characters, spelled out. */
  lemma SpacesSpelledOut(c: char)
    ensures IsSpace(c) <==>
      || c as int in {0x09, 0x0A, 0x0B, 0x0C, 0x0D, 0x20, 0x85, 0xA0, 0x1680}
      || c as int in {0x2000, 0x2001, 0x2002, 0x2003, 0x2004, 0x2005, 0x2006, 0x2007, 0x2008, 0x2009, 0x200A}
      || c as int in {0x2028, 0x2029, 0x202F, 0x205F, 0x3000}
  {
  }

  /** Any space in front is skipped. */
  lemma AnySpaceSkipped(c: char, s: string)
    requires IsSpace(c)
    ensures Fields([c] + s) == Fields(s)
  {
    assert ([c] + s)[1..] == s;
    assert TrimLeft([c] + s, IsSpace) == TrimLeft(s, IsSpace);
  }

  /** Trimming takes away cut characters on both sides, and all of them. */
  lemma TrimTakes(s: string, cut: char -> bool) returns (before: string, after: string)
    ensures var t := TrimRight(TrimLeft(s, cut), cut);
      && s == before + t + after
      && (forall c :: c in before + after ==> cut(c))
      && (t == "" || (!cut(t[0]) && !cut(t[|t| - 1])))
  {
    before := TrimLeftTakes(s, cut);
    after := TrimRightTakes(TrimLeft(s, cut), cut);
    assert s == before + (TrimRight(TrimLeft(s, cut), cut) + after);
  }

  lemma {:induction false} TrimLeftTakes(s: string, cut: char -> bool) returns (before: string)
    ensures s == before + TrimLeft(s, cut) && (forall c :: c in before ==> cut(c))
    ensures TrimLeft(s, cut) == "" || !cut(TrimLeft(s, cut)[0])
  {
    if s != [] && cut(s[0]) {
      var rest := TrimLeftTakes(s[1..], cut);
      before := [s[0]] + rest;
      assert s == [s[0]] + s[1..];
    } else {
      before := [];
    }
  }

  lemma {:induction false} TrimRightTakes(s: string, cut: char -> bool) returns (after: string)
    ensures s == TrimRight(s, cut) + after && (forall c :: c in after ==> cut(c))
    ensures var t := TrimRight(s, cut); t == "" || (!cut(t[|t| - 1]) && t[0] == s[0])
  {
    if s != [] && cut(s[|s| - 1]) {
      var rest := TrimRightTakes(s[..|s| - 1], cut);
      after := rest + [s[|s| - 1]];
      assert s == s[..|s| - 1] + [s[|s| - 1]];
    } else {
      after := [];
    }
  }

  /** Trimming a text that needs none out of cut characters around it. */
  lemma TrimPadded(lead: string, t: string, trail: string, cut: char -> bool)
    requires forall c :: c in lead + trail ==> cut(c)
    requires t == "" || (!cut(t[0]) && !cut(t[|t| - 1]))
    ensures TrimRight(TrimLeft(lead + t + trail, cut), cut) == t
  {
    assert forall c :: c in lead ==> c in lead + trail;
    assert forall c :: c in trail ==> c in lead + trail;
    assert lead + t + trail == lead + (t + trail);
    LeadTrimmed(lead, t + trail, cut);
    if t == "" {
      assert t + trail == trail && trail + "" == trail;
      LeadTrimmed(trail, "", cut);
    } else {
      assert TrimLeft(t + trail, cut) == t + trail;
      TrailTrimmed(t, trail, cut);
    }
  }

  lemma {:induction false} LeadTrimmed(lead: string, s: string, cut: char -> bool)
    requires forall c :: c in lead ==> cut(c)
    ensures TrimLeft(lead + s, cut) == TrimLeft(s, cut)
  {
    if lead == "" {
      assert lead + s == s;
    } else {
      assert (lead + s)[1..] == lead[1..] + s && (lead + s)[0] == lead[0];
      LeadTrimmed(lead[1..], s, cut);
    }
  }

  lemma {:induction false} TrailTrimmed(t: string, trail: string, cut: char -> bool)
    requires (forall c :: c in trail ==> cut(c)) && t != "" && !cut(t[|t| - 1])
    ensures TrimRight(t + trail, cut) == t
  {
    if trail == "" {
      assert t + trail == t;
    } else {
      var n := |trail| - 1;
      assert (t + trail)[..|t + trail| - 1] == t + trail[..n] && (t + trail)[|t + trail| - 1] == trail[n];
      TrailTrimmed(t, trail[..n], cut);
    }
  }

  /** The place of the first occurrence. */
  lemma {:induction false} IndexBefore(s: string, c: char)
    requires c in s
    ensures var i := IndexOf(s, c); i != -1 && s[i] == c && c !in s[..i]
  {
    if s[0] != c {
      assert s == [s[0]] + s[1..];
      IndexBefore(s[1..], c);
      var i := IndexOf(s[1..], c);
      assert s[..i + 1] == [s[0]] + s[1..][..i];
    }
  }
}
