/** The text format the exposition-line parser reads: a printer, and when parsing undoes it. */
module TextFormat {
  import opened Collections
  import opened GoStrings
  import opened Exposition

  datatype Label = Label(key: string, value: string)

  datatype Sample = Sample(name: string, labels: seq<Label>, value: string, stamp: Option<string>)

  /** A label value as the text format writes it: backslash, double quote and line feed escaped. */
  function Escape(v: string): string {
    if v == "" then ""
    else
      (if v[0] == '\\' then "\\\\" else if v[0] == '"' then "\\\"" else if v[0] == '\n' then "\\n" else [v[0]])
      + Escape(v[1..])
  }

  function PairText(l: Label): string {
    l.key + "=\"" + Escape(l.value) + "\""
  }

  function PairTexts(labels: seq<Label>): seq<string> {
    seq(|labels|, i requires 0 <= i < |labels| => PairText(labels[i]))
  }

  /** The value, and the time stamp if the line has one. */
  function Tail(s: Sample): string {
    s.value + if s.stamp.None? then "" else " " + s.stamp.value
  }

  function Print(s: Sample): string {
    s.name + (if s.labels == [] then "" else "{" + Join(PairTexts(s.labels), ",") + "}") + (" " + Tail(s))
  }

  /** A name, key or value that needs no quoting. */
  ghost predicate PlainToken(t: string) {
    t != "" && forall c :: c in t ==> !IsSpace(c) && c !in {'"', ',', '=', '{', '}'}
  }

  ghost predicate Printable(s: Sample) {
    PlainToken(s.name) && PlainToken(s.value) && (s.stamp.Some? ==> PlainToken(s.stamp.value)) && PlainLabels(s.labels)
  }

  /** Keys are plain and distinct; values are any text. */
  ghost predicate PlainLabels(labels: seq<Label>) {
    && (forall l :: l in labels ==> PlainToken(l.key))
    && (forall i, j :: 0 <= i < j < |labels| ==> labels[i].key != labels[j].key)
  }

  ghost predicate QuoteFree(labels: seq<Label>) {
    forall l :: l in labels ==> '"' !in l.value
  }

  /** No value holds a character that the format escapes. */
  ghost predicate NothingEscaped(labels: seq<Label>) {
    forall l :: l in labels ==> '"' !in l.value && '\\' !in l.value && '\n' !in l.value
  }

  /** The label map of the sample, with each value as it is written. */
  ghost function Written(labels: seq<Label>): map<string, string> {
    if labels == [] then map[]
    else
      var n := |labels| - 1;
      Written(labels[..n])[labels[n].key := Escape(labels[n].value)]
  }

  /** The label map of the sample. */
  ghost function Meant(labels: seq<Label>): map<string, string> {
    if labels == [] then map[]
    else
      var n := |labels| - 1;
      Meant(labels[..n])[labels[n].key := labels[n].value]
  }

  /** The label map the parser reads from a label list in braces. */
  ghost function ReadBack(labels: seq<Label>): map<string, string> {
    if labels == [] then map[] else LabelsIn(Join(PairTexts(labels), ","))
  }

  // --- Splitting undoes joining ---

  /** From the quote state, the text has commas inside quotes only and ends outside them. */
  ghost predicate Balanced(s: string, inQuotes: bool)
    decreases |s|
  {
    if s == [] then !inQuotes
    else if s[0] == '"' then Balanced(s[1..], !inQuotes)
    else (s[0] == ',' ==> inQuotes) && Balanced(s[1..], inQuotes)
  }

  /** A balanced piece is swallowed whole. */
  lemma {:induction false} SwallowPiece(piece: string, rest: string, current: string, inQuotes: bool)
    requires Balanced(piece, inQuotes)
    ensures SplitFrom(piece + rest, current, inQuotes) == SplitFrom(rest, current + piece, false)
    decreases |piece|
  {
    if piece == [] {
      assert piece + rest == rest && current + piece == current;
    } else {
      assert (piece + rest)[1..] == piece[1..] + rest;
      assert (current + [piece[0]]) + piece[1..] == current + piece;
      SwallowPiece(piece[1..], rest, current + [piece[0]], if piece[0] == '"' then !inQuotes else inQuotes);
    }
  }

  /** Splitting inverts joining with commas, but for a last piece that is empty, which is lost. */
  lemma {:induction false} SplitInvertsJoin(pieces: seq<string>)
    requires forall p :: p in pieces ==> Balanced(p, false) && TrimSpace(p) == p
    ensures Parts(Join(pieces, ","))
         == if pieces != [] && pieces[|pieces| - 1] == "" then pieces[..|pieces| - 1] else pieces
  {
    if pieces != [] {
      var first := pieces[0];
      assert first in pieces;
      if |pieces| == 1 {
        SwallowPiece(first, "", "", false);
        assert first + "" == first && "" + first == first;
      } else {
        SplitOne(pieces);
        SplitInvertsJoin(pieces[1..]);
        var n := |pieces| - 1;
        assert pieces == [first] + pieces[1..];
        assert pieces[..n] == [first] + pieces[1..][..n - 1];
      }
    }
  }

  lemma {:induction false} BalancedPlain(t: string, rest: string)
    requires '"' !in t && ',' !in t
    ensures Balanced(t + rest, false) == Balanced(rest, false)
  {
    if t == "" {
      assert t + rest == rest;
    } else {
      assert (t + rest)[1..] == t[1..] + rest;
      assert t == [t[0]] + t[1..];
      BalancedPlain(t[1..], rest);
    }
  }

  lemma {:induction false} BalancedQuoted(t: string, rest: string)
    requires '"' !in t
    ensures Balanced(t + rest, true) == Balanced(rest, true)
  {
    if t == "" {
      assert t + rest == rest;
    } else {
      assert (t + rest)[1..] == t[1..] + rest;
      assert t == [t[0]] + t[1..];
      BalancedQuoted(t[1..], rest);
    }
  }

  /** Escaping a quote-free value leaves it quote-free and without line feeds, and changes nothing exactly when
      it holds no backslash and no line feed. */
  lemma {:induction false} EscapeOf(v: string)
    requires '"' !in v
    ensures '"' !in Escape(v) && '\n' !in Escape(v)
    ensures Escape(v) == v <==> '\\' !in v && '\n' !in v
    ensures |Escape(v)| >= |v|
  {
    if v != "" {
      EscapeOf(v[1..]);
      assert v == [v[0]] + v[1..];
      if v[0] == '\\' || v[0] == '\n' {
        assert |Escape(v)| > |v|;
      }
    }
  }

  /** What is escaped holds no line feed, so a printed line is one line. */
  lemma {:induction false} EscapeOneLine(v: string)
    ensures '\n' !in Escape(v)
  {
    if v != "" { EscapeOneLine(v[1..]); }
  }

  lemma PairIsPiece(l: Label)
    requires PlainToken(l.key) && '"' !in l.value
    ensures var p := PairText(l); Balanced(p, false) && TrimSpace(p) == p && p != "" && '\n' !in p
  {
    EscapeOf(l.value);
    PairIsBalanced(l.key, Escape(l.value));
    PairIsTrimmed(l.key, Escape(l.value));
  }

  lemma PairIsBalanced(key: string, e: string)
    requires PlainToken(key) && '"' !in e
    ensures Balanced(key + "=\"" + e + "\"", false)
  {
    var open := "=\"" + (e + "\"");
    assert key + "=\"" + e + "\"" == key + open;
    BalancedPlain(key, open);
    assert open[1..] == "\"" + (e + "\"") && open[1..][1..] == e + "\"";
    BalancedQuoted(e, "\"");
  }

  lemma PairIsTrimmed(key: string, e: string)
    requires PlainToken(key) && '\n' !in e
    ensures var p := key + "=\"" + e + "\""; TrimSpace(p) == p && p != "" && '\n' !in p
  {
    var p := key + "=\"" + e + "\"";
    assert p[0] == key[0] && key[0] in key && p[|p| - 1] == '"';
    Untrimmed(p, IsSpace);
    assert forall c :: c in p ==> c in key || c in e || c == '=' || c == '"';
  }

  lemma PairIsRead(l: Label)
    requires PlainToken(l.key) && '"' !in l.value
    ensures var p := PairText(l);
      IndexOf(p, '=') == |l.key| && p[..|l.key|] == l.key && TrimQuotes(p[|l.key| + 1..]) == Escape(l.value)
  {
    var e, p := Escape(l.value), PairText(l);
    EscapeOf(l.value);
    var quoted := "\"" + e + "\"";
    assert p == l.key + ['='] + quoted;
    IndexOfFirst(l.key, '=', quoted);
    assert p[|l.key| + 1..] == quoted;
    QuotesTrimmed(e);
  }

  lemma QuotesTrimmed(e: string)
    requires '"' !in e
    ensures TrimQuotes("\"" + e + "\"") == e
  {
    var s := "\"" + e + "\"";
    assert s[1..] == e + "\"";
    if e == "" {
      assert TrimLeft(s, IsQuote) == TrimLeft("\"", IsQuote);
      assert "\""[1..] == "";
    } else {
      assert s[1..][0] == e[0] && e[0] in e;
      assert TrimLeft(s, IsQuote) == e + "\"";
      assert (e + "\"")[..|e|] == e;
      assert e[|e| - 1] in e;
      assert TrimRight(e, IsQuote) == e;
    }
  }

  lemma {:induction false} LabelsOfPairs(labels: seq<Label>)
    requires forall l :: l in labels ==> PlainToken(l.key) && '"' !in l.value
    ensures LabelsOf(PairTexts(labels)) == Written(labels)
  {
    if labels != [] {
      var n := |labels| - 1;
      assert PairTexts(labels)[..n] == PairTexts(labels[..n]);
      LabelsOfPairs(labels[..n]);
      assert labels[n] in labels;
      PairIsRead(labels[n]);
    }
  }

  /** Reading a printed line gives its name, its value and the labels read from between the braces. */
  lemma PrintedIsRead(s: Sample)
    requires Printable(s)
    ensures Parsed(Print(s)) == Some(MetricLine(s.name, ReadBack(s.labels), s.value))
  {
    if s.labels == [] {
      RoundTripBare(s);
    } else {
      TailIsRead(s);
      assert forall c :: c in " " + Tail(s) ==> c == ' ' || c in Tail(s);
      LineIsRead(s.name, Join(PairTexts(s.labels), ","), " " + Tail(s));
    }
  }

  lemma TailIsRead(s: Sample)
    requires Printable(s)
    ensures TrimSpace(" " + Tail(s)) == Tail(s) && Fields(Tail(s)) != [] && Fields(Tail(s))[0] == s.value
    ensures Tail(s) != "" && !IsSpace(Tail(s)[|Tail(s)| - 1]) && '\n' !in Tail(s) && '{' !in Tail(s) && '}' !in Tail(s)
  {
    TailEnds(s);
    FirstField(s.value, if s.stamp.None? then "" else " " + s.stamp.value);
    TrimPadded(" ", Tail(s), "", IsSpace);
    assert " " + Tail(s) + "" == " " + Tail(s);
  }

  lemma TailEnds(s: Sample)
    requires Printable(s)
    ensures Tail(s) != "" && !IsSpace(Tail(s)[0]) && !IsSpace(Tail(s)[|Tail(s)| - 1])
    ensures '\n' !in Tail(s) && '{' !in Tail(s) && '}' !in Tail(s)
  {
    assert s.value[0] in s.value && s.value[|s.value| - 1] in s.value;
    if s.stamp.Some? { assert s.stamp.value[|s.stamp.value| - 1] in s.stamp.value; }
    assert forall c :: c in Tail(s) ==> c in s.value || c == ' ' || (s.stamp.Some? && c in s.stamp.value);
  }

  /** Without double quotes each label value comes back as it is written: commas, equal signs, braces and spaces
      in it do no harm. */
  lemma RoundTrip(s: Sample)
    requires Printable(s) && QuoteFree(s.labels)
    ensures Parsed(Print(s)) == Some(MetricLine(s.name, Written(s.labels), s.value))
  {
    PrintedIsRead(s);
    if s.labels != [] { BodyIsRead(s.labels); }
  }

  lemma RoundTripBare(s: Sample)
    requires Printable(s) && s.labels == []
    ensures Parsed(Print(s)) == Some(MetricLine(s.name, map[], s.value))
  {
    BareFields(s);
    BareLineIsRead(Print(s));
  }

  lemma BareFields(s: Sample)
    requires Printable(s) && s.labels == []
    ensures '{' !in Print(s)
    ensures var fields := Fields(Print(s)); |fields| >= 2 && fields[0] == s.name && fields[1] == s.value
  {
    var line := s.name + (" " + Tail(s));
    assert Print(s) == line;
    TailIsRead(s);
    assert forall c :: c in line ==> c in s.name || c in Tail(s) || c == ' ';
    FirstField(s.name, " " + Tail(s));
    SpaceSkipped(Tail(s));
  }

  /** What any line with a brace is read as: the name up to the first brace, the labels up to the last, and the first
      field after it, if there is one. */
  lemma LineIsRead(name: string, body: string, tail: string)
    requires '{' !in name && '}' !in tail
    ensures var fields := Fields(TrimSpace(tail));
      Parsed(name + ("{" + body + "}") + tail)
      == Some(MetricLine(name, LabelsIn(body), if fields == [] then "" else fields[0]))
  {
    var line := name + ("{" + body + "}") + tail;
    SameLine(name, body, tail);
    OpeningBrace(name, body + ("}" + tail));
    ClosingBrace(name + ['{'] + body, tail);
    BetweenBraces(name + ['{'], body, "}" + tail);
    BracedLine(line, |name|, |name| + 1 + |body|, name, body, tail);
  }

  lemma BracedLine(line: string, b: nat, e: nat, name: string, body: string, tail: string)
    requires IndexOf(line, '{') == b && LastIndexOf(line, '}') == e && b < e
    requires line[..b] == name && line[b + 1..e] == body && line[e + 1..] == tail
    ensures var fields := Fields(TrimSpace(tail));
      Parsed(line) == Some(MetricLine(name, LabelsIn(body), if fields == [] then "" else fields[0]))
  {
  }

  /** And a line without one: its first two fields. */
  lemma BareLineIsRead(line: string)
    requires '{' !in line
    ensures var fields := Fields(line);
      Parsed(line) == Some(MetricLine(
        if fields == [] then "" else fields[0], map[], if |fields| < 2 then "" else fields[1]))
  {
    IndexNone(line, '{');
  }

  lemma SameLine(name: string, body: string, tail: string)
    ensures var line := name + ("{" + body + "}") + tail;
      && line == name + ['{'] + (body + ("}" + tail))
      && line == (name + ['{'] + body) + ['}'] + tail
  {
  }

  lemma BetweenBraces(before: string, body: string, after: string)
    ensures (before + (body + after))[|before|..|before| + |body|] == body
    ensures |before + body| == |before| + |body|
  {
  }

  lemma BodyIsRead(labels: seq<Label>)
    requires labels != [] && forall l :: l in labels ==> PlainToken(l.key) && '"' !in l.value
    ensures LabelsIn(Join(PairTexts(labels), ",")) == Written(labels)
  {
    var pieces := PairTexts(labels);
    forall p | p in pieces ensures Balanced(p, false) && TrimSpace(p) == p && p != "" {
      var i :| 0 <= i < |labels| && pieces[i] == p;
      assert labels[i] in labels;
      PairIsPiece(labels[i]);
    }
    assert pieces[|pieces| - 1] in pieces;
    SplitInvertsJoin(pieces);
    LabelsOfPairs(labels);
  }

  lemma OpeningBrace(name: string, rest: string)
    requires '{' !in name
    ensures var line := name + ['{'] + rest; IndexOf(line, '{') == |name| && line[..|name|] == name
  {
    IndexOfFirst(name, '{', rest);
  }

  lemma ClosingBrace(before: string, tail: string)
    requires '}' !in tail
    ensures var line := before + ['}'] + tail; LastIndexOf(line, '}') == |before| && line[|before| + 1..] == tail
  {
    LastIndexOfLast(before, '}', tail);
  }

  /** What is written has no backslash and no line feed to escape. */
  ghost predicate NoEscapes(labels: seq<Label>) {
    forall l :: l in labels ==> '\\' !in l.value && '\n' !in l.value
  }

  ghost function KeysOf(labels: seq<Label>): set<string> {
    set l | l in labels :: l.key
  }

  lemma NoEscapesOneMore(init: seq<Label>, last: Label)
    ensures NoEscapes(init + [last]) <==> NoEscapes(init) && '\\' !in last.value && '\n' !in last.value
  {
    assert forall l :: l in init + [last] <==> l in init || l == last;
  }

  ghost predicate DistinctKeys(labels: seq<Label>) {
    forall i, j :: 0 <= i < j < |labels| ==> labels[i].key != labels[j].key
  }

  lemma InitOf(labels: seq<Label>)
    requires labels != [] && QuoteFree(labels) && DistinctKeys(labels)
    ensures var n := |labels| - 1;
      && QuoteFree(labels[..n]) && DistinctKeys(labels[..n]) && '"' !in labels[n].value
      && labels == labels[..n] + [labels[n]]
      && forall i :: 0 <= i < n ==> labels[..n][i].key != labels[n].key
  {
    assert labels[|labels| - 1] in labels;
  }

  lemma {:induction false} WrittenAsMeant(labels: seq<Label>)
    requires QuoteFree(labels) && DistinctKeys(labels)
    ensures Written(labels).Keys == Meant(labels).Keys == KeysOf(labels)
    ensures Written(labels) == Meant(labels) <==> NoEscapes(labels)
  {
    if labels != [] {
      var n := |labels| - 1;
      InitOf(labels);
      WrittenAsMeant(labels[..n]);
      EscapeOf(labels[n].value);
      WrittenOneMore(labels[..n], labels[n], Escape(labels[n].value));
    }
  }

  lemma WrittenOneMore(init: seq<Label>, last: Label, e: string)
    requires Written(init).Keys == Meant(init).Keys == KeysOf(init)
    requires forall i :: 0 <= i < |init| ==> init[i].key != last.key
    requires Written(init) == Meant(init) <==> NoEscapes(init)
    requires e == last.value <==> '\\' !in last.value && '\n' !in last.value
    ensures var w, m := Written(init)[last.key := e], Meant(init)[last.key := last.value];
      && w.Keys == m.Keys == KeysOf(init + [last])
      && (w == m <==> NoEscapes(init + [last]))
  {
    NewKey(init, last);
    NoEscapesOneMore(init, last);
    MapsAgree(Written(init), Meant(init), last.key, e, last.value);
  }

  lemma MapsAgree(a: map<string, string>, b: map<string, string>, k: string, va: string, vb: string)
    requires k !in a && k !in b
    ensures a[k := va] == b[k := vb] <==> a == b && va == vb
  {
    assert a == a[k := va] - {k} && b == b[k := vb] - {k};
    assert a[k := va][k] == va && b[k := vb][k] == vb;
  }

  lemma NewKey(init: seq<Label>, last: Label)
    requires Written(init).Keys == Meant(init).Keys == KeysOf(init)
    requires forall i :: 0 <= i < |init| ==> init[i].key != last.key
    ensures last.key !in Written(init) && last.key !in Meant(init)
    ensures KeysOf(init + [last]) == KeysOf(init) + {last.key}
  {
    assert forall l :: l in init + [last] <==> l in init || l == last;
  }

  // --- Why a double quote always breaks the round trip ---
  //
  // A text with n - 1 commas outside its label values splits into at most n parts beside the commas the values
  // hold. So if the labels came back as meant, every part would be the one its key is read from; but the part of
  // the first label with a quote is read wrong.

  function Commas(s: string): nat {
    if s == "" then 0 else (if s[0] == ',' then 1 else 0) + Commas(s[1..])
  }

  lemma {:induction false} CommasAppend(a: string, b: string)
    ensures Commas(a + b) == Commas(a) + Commas(b)
  {
    if a == "" {
      assert a + b == b;
    } else {
      assert (a + b)[1..] == a[1..] + b;
      CommasAppend(a[1..], b);
    }
  }

  lemma {:induction false} CommasTrimLeft(s: string, cut: char -> bool)
    ensures Commas(TrimLeft(s, cut)) <= Commas(s)
  {
    if s != "" && cut(s[0]) { CommasTrimLeft(s[1..], cut); }
  }

  lemma {:induction false} CommasTrimRight(s: string, cut: char -> bool)
    ensures Commas(TrimRight(s, cut)) <= Commas(s)
  {
    if s != "" && cut(s[|s| - 1]) {
      CommasTrimRight(s[..|s| - 1], cut);
      CommasAppend(s[..|s| - 1], [s[|s| - 1]]);
      assert s == s[..|s| - 1] + [s[|s| - 1]];
    }
  }

  lemma CommasTrim(s: string, cut: char -> bool)
    ensures Commas(TrimRight(TrimLeft(s, cut), cut)) <= Commas(s)
  {
    CommasTrimLeft(s, cut);
    CommasTrimRight(TrimLeft(s, cut), cut);
  }

  lemma {:induction false} NoCommas(s: string)
    requires ',' !in s
    ensures Commas(s) == 0
  {
    if s != "" { NoCommas(s[1..]); }
  }

  /** Escaping keeps the commas. */
  lemma {:induction false} CommasEscape(v: string)
    ensures Commas(Escape(v)) == Commas(v)
  {
    if v != "" {
      CommasEscape(v[1..]);
      var one := if v[0] == '\\' then "\\\\" else if v[0] == '"' then "\\\"" else if v[0] == '\n' then "\\n" else [v[0]];
      CommasAppend(one, Escape(v[1..]));
      assert one[1..] == if |one| == 2 then [one[1]] else "";
    }
  }

  lemma CommasPair(l: Label)
    requires PlainToken(l.key)
    ensures Commas(PairText(l)) == Commas(l.value)
  {
    var e := Escape(l.value);
    CommasEscape(l.value);
    NoCommas(l.key + "=\"");
    NoCommas("\"");
    CommasAppend(l.key + "=\"", e);
    CommasAppend(l.key + "=\"" + e, "\"");
  }

  /** One for each part and one for each comma in it. */
  ghost function Cost(parts: seq<string>): nat {
    if parts == [] then 0
    else Cost(parts[..|parts| - 1]) + Size(parts[|parts| - 1])
  }

  lemma {:induction false} CostAppend(a: seq<string>, b: seq<string>)
    ensures Cost(a + b) == Cost(a) + Cost(b)
  {
    if b == [] {
      assert a + b == a;
    } else {
      assert (a + b)[..|a + b| - 1] == a + b[..|b| - 1];
      CostAppend(a, b[..|b| - 1]);
    }
  }

  lemma CostOne(p: string)
    ensures Cost([p]) == Size(p)
  {
    assert [p][..0] == [];
  }

  lemma {:induction false} SplitCost(s: string, current: string, inQuotes: bool)
    ensures Cost(SplitFrom(s, current, inQuotes)) <= Commas(s) + Commas(current) + 1
    decreases |s|
  {
    if s == "" {
      CommasTrim(current, IsSpace);
      CostOne(TrimSpace(current));
    } else {
      CommasAppend(current, [s[0]]);
      assert [s[0]][1..] == "";
      if s[0] == '"' {
        SplitCost(s[1..], current + [s[0]], !inQuotes);
      } else if s[0] == ',' && !inQuotes {
        SplitCost(s[1..], "", inQuotes);
        CommasTrim(current, IsSpace);
        CostOne(TrimSpace(current));
        CostAppend([TrimSpace(current)], SplitFrom(s[1..], "", inQuotes));
      } else {
        SplitCost(s[1..], current + [s[0]], inQuotes);
      }
    }
  }

  lemma {:induction false} JoinCost(pieces: seq<string>)
    requires pieces != []
    ensures Commas(Join(pieces, ",")) + 1 == Cost(pieces)
  {
    CostOne(pieces[0]);
    if |pieces| > 1 {
      JoinCost(pieces[1..]);
      CommasAppend(pieces[0] + ",", Join(pieces[1..], ","));
      CommasAppend(pieces[0], ",");
      assert ","[1..] == "";
      CostAppend([pieces[0]], pieces[1..]);
      assert pieces == [pieces[0]] + pieces[1..];
    } else {
      assert pieces == [pieces[0]];
    }
  }

  function Size(v: string): nat {
    1 + Commas(v)
  }

  /** One for each key and one for each comma in its value. */
  ghost function Weight(m: map<string, string>): nat {
    Sum(Measured(m, Size))
  }

  lemma WeightPut(m: map<string, string>, k: string, v: string)
    ensures Weight(m[k := v]) + (if k in m then Size(m[k]) else 0) == Weight(m) + Size(v)
  {
    MeasuredPut(m, k, v, Size);
  }

  /** A pair adds at most its own cost, and less when it overwrites a key. */
  lemma PairCost(m: map<string, string>, pair: string)
    ensures Weight(WithPair(m, pair)) <= Weight(m) + Size(pair)
    ensures IndexOf(pair, '=') != -1 && pair[..IndexOf(pair, '=')] in m ==> Weight(WithPair(m, pair)) < Weight(m) + Size(pair)
  {
    var e := IndexOf(pair, '=');
    if e != -1 {
      WeightPut(m, pair[..e], TrimQuotes(pair[e + 1..]));
      SizeOfValue(pair, e + 1);
    }
  }

  lemma SizeOfValue(pair: string, n: nat)
    requires n <= |pair|
    ensures Size(TrimQuotes(pair[n..])) <= Size(pair)
  {
    CommasTrim(pair[n..], IsQuote);
    CommasAppend(pair[..n], pair[n..]);
    assert pair == pair[..n] + pair[n..];
  }

  lemma {:induction false} LabelsCost(parts: seq<string>)
    ensures Weight(LabelsOf(parts)) <= Cost(parts)
  {
    if parts != [] {
      LabelsCost(parts[..|parts| - 1]);
      PairCost(LabelsOf(parts[..|parts| - 1]), parts[|parts| - 1]);
    }
  }

  /** The key of the pair has the pair's value. */
  ghost predicate ReadFrom(m: map<string, string>, pair: string) {
    var e := IndexOf(pair, '=');
    e != -1 ==> pair[..e] in m && m[pair[..e]] == TrimQuotes(pair[e + 1..])
  }

  /** A pair stays the one its key is read from until the key is overwritten. */
  lemma ReadStays(m: map<string, string>, pair: string, last: string)
    requires ReadFrom(m, pair)
    requires IndexOf(last, '=') != -1 ==> last[..IndexOf(last, '=')] !in m
    ensures ReadFrom(WithPair(m, last), pair)
  {
  }

  /** Unless the labels weigh less than the parts cost, every part is the one its key is read from. */
  lemma {:induction false} ReadFromEach(parts: seq<string>, i: nat)
    requires i < |parts| && Weight(LabelsOf(parts)) >= Cost(parts)
    ensures ReadFrom(LabelsOf(parts), parts[i])
  {
    var n := |parts| - 1;
    var m := LabelsOf(parts[..n]);
    LabelsCost(parts[..n]);
    PairCost(m, parts[n]);
    if i < n {
      ReadFromEach(parts[..n], i);
      ReadStays(m, parts[i], parts[n]);
    }
  }

  lemma {:induction false} MeantWeight(labels: seq<Label>)
    requires PlainLabels(labels)
    ensures Weight(Meant(labels)) == Cost(PairTexts(labels))
  {
    if labels != [] {
      var n := |labels| - 1;
      var init, last := labels[..n], labels[n];
      assert labels == init + [last] && PairTexts(labels)[..n] == PairTexts(init);
      MeantWeight(init);
      CommasPair(last);
      MeantKeys(init);
      assert forall i :: 0 <= i < n ==> init[i] == labels[i];
      WeightPut(Meant(init), last.key, last.value);
    } else {
      var none: map<string, string> := map[];
      assert Measured(none, Size) == map[];
    }
  }

  lemma {:induction false} MeantKeys(labels: seq<Label>)
    ensures forall k :: k in Meant(labels) <==> exists i :: 0 <= i < |labels| && labels[i].key == k
  {
    if labels != [] {
      var n := |labels| - 1;
      MeantKeys(labels[..n]);
      assert forall i :: 0 <= i < n ==> labels[..n][i] == labels[i];
    }
  }

  lemma {:induction false} MeantAt(labels: seq<Label>, i: nat)
    requires PlainLabels(labels) && i < |labels|
    ensures labels[i].key in Meant(labels) && Meant(labels)[labels[i].key] == labels[i].value
  {
    if i < |labels| - 1 { MeantAt(labels[..|labels| - 1], i); }
  }

  /** A text read back as meant leaves no part of it unread. */
  lemma MeantIsReadFromEach(labels: seq<Label>, i: nat)
    requires PlainLabels(labels) && labels != [] && ReadBack(labels) == Meant(labels)
    requires i < |Parts(Join(PairTexts(labels), ","))|
    ensures ReadFrom(Meant(labels), Parts(Join(PairTexts(labels), ","))[i])
  {
    var body := Join(PairTexts(labels), ",");
    SplitCost(body, "", false);
    JoinCost(PairTexts(labels));
    MeantWeight(labels);
    ReadFromEach(Parts(body), i);
  }

  /** A balanced piece with more behind it is split off whole. */
  lemma SplitOne(pieces: seq<string>)
    requires |pieces| > 1 && Balanced(pieces[0], false) && TrimSpace(pieces[0]) == pieces[0]
    ensures Parts(Join(pieces, ",")) == [pieces[0]] + Parts(Join(pieces[1..], ","))
  {
    var first, rest := pieces[0], Join(pieces[1..], ",");
    assert Join(pieces, ",") == first + ("," + rest);
    SwallowPiece(first, "," + rest, "", false);
    assert "" + first == first;
    CommaEnds(first, rest);
  }

  lemma CommaEnds(current: string, rest: string)
    ensures SplitFrom("," + rest, current, false) == [TrimSpace(current)] + Parts(rest)
  {
    assert ("," + rest)[1..] == rest;
  }

  lemma {:induction false} SplitPrefix(pieces: seq<string>, m: nat)
    requires m < |pieces| && forall i :: 0 <= i < m ==> Balanced(pieces[i], false) && TrimSpace(pieces[i]) == pieces[i]
    ensures Parts(Join(pieces, ",")) == pieces[..m] + Parts(Join(pieces[m..], ","))
    decreases m
  {
    if m > 0 {
      var more := pieces[1..];
      SplitOne(pieces);
      SplitPrefix(more, m - 1);
      assert more[m - 1..] == pieces[m..] && [pieces[0]] + more[..m - 1] == pieces[..m];
      var rest := Parts(Join(pieces[m..], ","));
      assert [pieces[0]] + (more[..m - 1] + rest) == ([pieces[0]] + more[..m - 1]) + rest;
    } else {
      assert pieces[0..] == pieces;
    }
  }

  /** The text has commas inside quotes only, wherever it ends. */
  ghost predicate Uncut(s: string, inQuotes: bool)
    decreases |s|
  {
    s == [] || (if s[0] == '"' then Uncut(s[1..], !inQuotes) else (s[0] == ',' ==> inQuotes) && Uncut(s[1..], inQuotes))
  }

  lemma {:induction false} UncutIsWhole(s: string, current: string, inQuotes: bool)
    requires Uncut(s, inQuotes)
    ensures SplitFrom(s, current, inQuotes) == if current + s == "" then [] else [TrimSpace(current + s)]
    decreases |s|
  {
    if s == [] {
      assert current + s == current;
    } else {
      assert s == [s[0]] + s[1..] && (current + [s[0]]) + s[1..] == current + s;
      UncutIsWhole(s[1..], current + [s[0]], if s[0] == '"' then !inQuotes else inQuotes);
    }
  }

  ghost function Trimmed(pieces: seq<string>): seq<string> {
    seq(|pieces|, i requires 0 <= i < |pieces| => TrimSpace(pieces[i]))
  }

  /** What splitting does: of pieces joined by commas, of which all but the last are balanced and the last is uncut,
      it gives back each piece trimmed, and the last one unless it is empty. */
  lemma {:induction false} SplitExact(pieces: seq<string>, last: string)
    requires (forall i :: 0 <= i < |pieces| ==> Balanced(pieces[i], false)) && Uncut(last, false)
    ensures Parts(Join(pieces + [last], ",")) == Trimmed(pieces) + if last == "" then [] else [TrimSpace(last)]
  {
    var all := pieces + [last];
    if pieces == [] {
      assert all == [last] && "" + last == last;
      UncutIsWhole(last, "", false);
    } else {
      var first, more := pieces[0], pieces[1..];
      assert all[1..] == more + [last];
      var rest := Join(more + [last], ",");
      assert Join(all, ",") == first + ("," + rest);
      SwallowPiece(first, "," + rest, "", false);
      assert "" + first == first;
      CommaEnds(first, rest);
      SplitExact(more, last);
      assert Trimmed(pieces) == [TrimSpace(first)] + Trimmed(more);
    }
  }

  /** Every text is such a join. */
  lemma {:induction false} EveryTextJoins(s: string, inQuotes: bool) returns (pieces: seq<string>, last: string)
    ensures s == Join(pieces + [last], ",")
    ensures pieces == [] ==> Uncut(last, inQuotes)
    ensures pieces != [] ==> Balanced(pieces[0], inQuotes) && Uncut(last, false)
    ensures forall i :: 1 <= i < |pieces| ==> Balanced(pieces[i], false)
  {
    if s == "" {
      pieces, last := [], "";
    } else if s[0] == ',' && !inQuotes {
      var more;
      more, last := EveryTextJoins(s[1..], false);
      pieces := [""] + more;
      assert pieces + [last] == [""] + (more + [last]) && (pieces + [last])[1..] == more + [last];
      assert s == "" + "," + Join(more + [last], ",");
    } else {
      var more, end := EveryTextJoins(s[1..], if s[0] == '"' then !inQuotes else inQuotes);
      pieces, last := OneMoreChar(s[0], more, end);
      assert s == [s[0]] + s[1..];
      if more == [] {
        assert last[1..] == end;
      } else {
        assert pieces[0][1..] == more[0];
      }
    }
  }

  lemma OneMoreChar(c: char, more: seq<string>, end: string) returns (pieces: seq<string>, last: string)
    ensures pieces == if more == [] then [] else [[c] + more[0]] + more[1..]
    ensures last == if more == [] then [c] + end else end
    ensures Join(pieces + [last], ",") == [c] + Join(more + [end], ",")
  {
    if more == [] {
      pieces, last := [], [c] + end;
    } else {
      pieces, last := [[c] + more[0]] + more[1..], end;
      assert (pieces + [last])[1..] == more[1..] + [end] == (more + [end])[1..];
      var rest := Join(more[1..] + [end], ",");
      assert ([c] + more[0]) + "," + rest == [c] + (more[0] + "," + rest);
    }
  }

  /** Text without quotes is swallowed, with its commas only inside quotes. */
  lemma {:induction false} Swallow(t: string, rest: string, current: string, inQuotes: bool)
    requires '"' !in t && (inQuotes || ',' !in t)
    ensures SplitFrom(t + rest, current, inQuotes) == SplitFrom(rest, current + t, inQuotes)
  {
    if t == "" {
      assert t + rest == rest && current + t == current;
    } else {
      assert (t + rest)[1..] == t[1..] + rest && t[0] in t;
      assert (current + [t[0]]) + t[1..] == current + t;
      Swallow(t[1..], rest, current + [t[0]], inQuotes);
    }
  }

  ghost predicate StartsAs(part: string, current: string) {
    exists x :: part == TrimSpace(current + x)
  }

  lemma {:induction false} FirstPart(s: string, current: string, inQuotes: bool)
    requires current != ""
    ensures SplitFrom(s, current, inQuotes) != [] && StartsAs(SplitFrom(s, current, inQuotes)[0], current)
    decreases |s|
  {
    if s == "" || (s[0] == ',' && !inQuotes) {
      assert current == current + "";
    } else {
      var longer := current + [s[0]];
      FirstPart(s[1..], longer, if s[0] == '"' then !inQuotes else inQuotes);
      var part := SplitFrom(s, current, inQuotes)[0];
      assert StartsAs(part, longer);
      var x :| part == TrimSpace(longer + x);
      assert longer + x == current + ([s[0]] + x);
    }
  }

  lemma {:induction false} TrimRightKeeps(a: string, x: string, cut: char -> bool)
    requires a != "" && !cut(a[|a| - 1])
    ensures |TrimRight(a + x, cut)| >= |a| && TrimRight(a + x, cut)[..|a|] == a
  {
    var s := a + x;
    if x != "" && cut(s[|s| - 1]) {
      assert s[..|s| - 1] == a + x[..|x| - 1];
      TrimRightKeeps(a, x[..|x| - 1], cut);
    } else {
      assert x == "" ==> s == a;
    }
  }

  lemma {:induction false} EscapeAppend(a: string, b: string)
    ensures Escape(a + b) == Escape(a) + Escape(b)
  {
    if a == "" {
      assert a + b == b;
    } else {
      assert (a + b)[1..] == a[1..] + b;
      EscapeAppend(a[1..], b);
    }
  }

  /** What the pair of a quoted value starts with: everything up to and with its first quote. */
  ghost function QuotedHead(key: string, before: string): string {
    key + "=" + "\"" + (Escape(before) + "\\") + "\""
  }

  lemma PairStarts(l: Label, q: nat) returns (rest: string)
    requires q < |l.value| && l.value[q] == '"'
    ensures PairText(l) == QuotedHead(l.key, l.value[..q]) + rest
  {
    var u, t := l.value[..q], l.value[q + 1..];
    assert l.value == u + (['"'] + t);
    EscapeAppend(u, ['"'] + t);
    assert (['"'] + t)[1..] == t;
    rest := Escape(t) + "\"";
  }

  lemma HeadIsSplitOff(key: string, before: string, rest: string)
    requires PlainToken(key) && '"' !in before
    ensures var head := QuotedHead(key, before); var parts := Parts(head + rest);
      parts != [] && |parts[0]| >= |head| && parts[0][..|head|] == head
  {
    var head := QuotedHead(key, before);
    EscapeOf(before);
    HeadIsSwallowed(key + "=", Escape(before) + "\\", rest);
    FirstPart(rest, head, false);
    HeadKept(key, head, Parts(head + rest)[0]);
  }

  lemma HeadIsSwallowed(open: string, inner: string, rest: string)
    requires '"' !in open && ',' !in open && '"' !in inner
    ensures var head := open + "\"" + inner + "\""; Parts(head + rest) == SplitFrom(rest, head, false)
  {
    var a, b := "\"" + (inner + ("\"" + rest)), "\"" + rest;
    assert open + "\"" + inner + "\"" + rest == open + a;
    Swallow(open, a, "", false);
    assert "" + open == open && a[1..] == inner + b && b[1..] == rest;
    Swallow(inner, b, open + ['"'], true);
  }

  lemma HeadKept(key: string, head: string, part: string)
    requires PlainToken(key) && |head| > |key| && head[..|key|] == key && head[|head| - 1] == '"' && StartsAs(part, head)
    ensures |part| >= |head| && part[..|head|] == head
  {
    var x :| part == TrimSpace(head + x);
    assert head[0] == key[0] && key[0] in key;
    assert TrimLeft(head + x, IsSpace) == head + x;
    TrimRightKeeps(head, x, IsSpace);
  }

  /** Read from its own part, a value with a quote has a character before its first quote too many. */
  lemma QuotedIsMisread(key: string, v: string, q: nat, part: string)
    requires PlainToken(key) && q < |v| && v[q] == '"' && '"' !in v[..q]
    requires var head := QuotedHead(key, v[..q]); |part| >= |head| && part[..|head|] == head
    ensures IndexOf(part, '=') == |key| && part[..|key|] == key && TrimQuotes(part[|key| + 1..]) != v
  {
    var head, t := QuotedHead(key, v[..q]), Escape(v[..q]) + "\\";
    EscapeOf(v[..q]);
    var z := "\"" + part[|head|..];
    PartShape(key, t, part, z);
    TrimmedValue(t, z);
    DiffersAt(TrimQuotes("\"" + (t + z)), t, v, q);
  }

  lemma PartShape(key: string, t: string, part: string, z: string)
    requires PlainToken(key)
    requires var head := key + "=" + "\"" + t + "\""; |part| >= |head| && part[..|head|] == head && z == "\"" + part[|head|..]
    ensures IndexOf(part, '=') == |key| && part[..|key|] == key && part[|key| + 1..] == "\"" + (t + z)
  {
    SameText(key, t, part, z);
    IndexOfFirst(key, '=', "\"" + (t + z));
  }

  lemma SameText(key: string, t: string, part: string, z: string)
    requires var head := key + "=" + "\"" + t + "\""; |part| >= |head| && part[..|head|] == head && z == "\"" + part[|head|..]
    ensures part == key + ['='] + ("\"" + (t + z))
  {
    var head := key + "=" + "\"" + t + "\"";
    assert part == head + part[|head|..];
  }

  lemma DiffersAt(r: string, t: string, v: string, q: nat)
    requires |r| >= |t| > q && r[..|t|] == t && '"' !in t && q < |v| && v[q] == '"'
    ensures r != v
  {
    assert r[q] == t[q] && t[q] in t;
  }

  lemma TrimmedValue(t: string, z: string)
    requires t != "" && '"' !in t
    ensures var r := TrimQuotes("\"" + (t + z)); |r| >= |t| && r[..|t|] == t
  {
    assert ("\"" + (t + z))[1..] == t + z && (t + z)[0] == t[0];
    assert t[0] in t && t[|t| - 1] in t;
    assert TrimLeft("\"" + (t + z), IsQuote) == t + z;
    TrimRightKeeps(t, z, IsQuote);
  }

  /** The first quote of the first value that has one. */
  lemma {:induction false} FirstQuote(labels: seq<Label>) returns (m: nat, q: nat)
    requires !QuoteFree(labels)
    ensures m < |labels| && q < |labels[m].value| && labels[m].value[q] == '"' && '"' !in labels[m].value[..q]
    ensures forall i :: 0 <= i < m ==> '"' !in labels[i].value
  {
    if '"' in labels[0].value {
      IndexBefore(labels[0].value, '"');
      m, q := 0, IndexOf(labels[0].value, '"');
    } else {
      assert labels == [labels[0]] + labels[1..];
      m, q := FirstQuote(labels[1..]);
      m := m + 1;
      assert forall i :: 0 < i < m ==> labels[i] == labels[1..][i - 1];
    }
  }

  lemma QuotedPart(labels: seq<Label>, m: nat, q: nat)
    requires PlainLabels(labels) && m < |labels| && q < |labels[m].value|
    requires labels[m].value[q] == '"' && '"' !in labels[m].value[..q]
    requires forall i :: 0 <= i < m ==> '"' !in labels[i].value
    ensures var parts := Parts(Join(PairTexts(labels), ","));
      var head := QuotedHead(labels[m].key, labels[m].value[..q]);
      m < |parts| && |parts[m]| >= |head| && parts[m][..|head|] == head
  {
    var pieces, l := PairTexts(labels), labels[m];
    PiecesBefore(labels, m);
    SplitPrefix(pieces, m);
    assert l in labels;
    var rest := PairStarts(l, q);
    var after := JoinStarts(pieces[m..]);
    assert pieces[m] + after == QuotedHead(l.key, l.value[..q]) + (rest + after);
    HeadIsSplitOff(l.key, l.value[..q], rest + after);
  }

  lemma PiecesBefore(labels: seq<Label>, m: nat)
    requires PlainLabels(labels) && m <= |labels| && forall i :: 0 <= i < m ==> '"' !in labels[i].value
    ensures var pieces := PairTexts(labels);
      forall i :: 0 <= i < m ==> Balanced(pieces[i], false) && TrimSpace(pieces[i]) == pieces[i]
  {
    forall i | 0 <= i < m ensures Balanced(PairText(labels[i]), false) && TrimSpace(PairText(labels[i])) == PairText(labels[i]) {
      assert labels[i] in labels;
      PairIsPiece(labels[i]);
    }
  }

  lemma JoinStarts(pieces: seq<string>) returns (after: string)
    requires pieces != []
    ensures Join(pieces, ",") == pieces[0] + after
  {
    after := if |pieces| == 1 then "" else "," + Join(pieces[1..], ",");
    assert |pieces| == 1 ==> pieces[0] + "" == pieces[0];
  }

  /** Labels with a double quote in some value are never read back as meant. */
  lemma QuoteBreaks(labels: seq<Label>)
    requires PlainLabels(labels) && !QuoteFree(labels)
    ensures ReadBack(labels) != Meant(labels)
  {
    var m, q := FirstQuote(labels);
    QuotedPart(labels, m, q);
    if ReadBack(labels) == Meant(labels) {
      var part := Parts(Join(PairTexts(labels), ","))[m];
      MeantIsReadFromEach(labels, m);
      assert labels[m] in labels;
      QuotedIsMisread(labels[m].key, labels[m].value, q, part);
      MeantAt(labels, m);
      assert false;
    }
  }

  lemma ReadBackIff(labels: seq<Label>)
    requires PlainLabels(labels)
    ensures ReadBack(labels) == Meant(labels) <==> NothingEscaped(labels)
  {
    if QuoteFree(labels) {
      if labels != [] { BodyIsRead(labels); }
      WrittenAsMeant(labels);
    } else {
      QuoteBreaks(labels);
    }
  }

  /** The round trip is exact precisely when no label value needs escaping: neither a backslash nor a line feed
      nor a double quote survives it. */
  lemma RoundTripIff(s: Sample)
    requires Printable(s)
    ensures Parsed(Print(s)) == Some(MetricLine(s.name, Meant(s.labels), s.value)) <==> NothingEscaped(s.labels)
  {
    PrintedIsRead(s);
    ReadBackIff(s.labels);
  }

  lemma {:induction false} NoCommaNoSplit(s: string, current: string, inQuotes: bool)
    requires ',' !in s && current + s != ""
    ensures SplitFrom(s, current, inQuotes) == [TrimSpace(current + s)]
    decreases |s|
  {
    if s == [] {
      assert current + s == current;
    } else {
      assert s == [s[0]] + s[1..] && (current + [s[0]]) + s[1..] == current + s;
      NoCommaNoSplit(s[1..], current + [s[0]], if s[0] == '"' then !inQuotes else inQuotes);
    }
  }

  lemma QuotePair()
    ensures Parts("k=\"\\\"\"") == ["k=\"\\\"\""]
  {
    NoCommaNoSplit("k=\"\\\"\"", "", false);
    assert "" + "k=\"\\\"\"" == "k=\"\\\"\"";
    Untrimmed("k=\"\\\"\"", IsSpace);
  }

  lemma QuoteValue()
    ensures LabelsOf(["k=\"\\\"\""]) == map["k" := "\\"]
  {
    var pair := "k=\"\\\"\"";
    IndexOfFirst("k", '=', "\"\\\"\"");
    assert pair == "k" + ['='] + "\"\\\"\"";
    assert pair[..1] == "k" && pair[2..] == "\"\\\"\"";
    assert TrimLeft("\"\\\"\"", IsQuote) == "\\\"\"";
    assert TrimRight("\\\"\"", IsQuote) == TrimRight("\\\"", IsQuote) == "\\";
    assert LabelsOf([]) == map[];
    assert [pair][0] == pair;
  }

  /** A double quote in a value is outside the round trip: read back, it has become the backslash that escapes it. */
  lemma QuoteIsLost()
    ensures var s := Sample("m", [Label("k", "\"")], "1", None);
      Parsed(Print(s)).Some? && Parsed(Print(s)).value.labels == map["k" := "\\"] != Meant(s.labels)
  {
    var s := Sample("m", [Label("k", "\"")], "1", None);
    assert Escape("\"") == "\\\"";
    assert PairText(s.labels[0]) == "k=\"\\\"\"";
    assert PairTexts(s.labels) == ["k=\"\\\"\""];
    PrintedIsRead(s);
    QuotePair();
    QuoteValue();
    assert Meant(s.labels)["k"] == "\"";
  }

  // --- A whole exposition ---

  /** A line of an exposition; there may be space around what it says. */
  datatype OutputLine =
    | Empty(lead: string)
    | Comment(lead: string, text: string)
    | SampleLine(lead: string, sample: Sample, trail: string)

  function LineText(l: OutputLine): string {
    match l
    case Empty(lead) => lead
    case Comment(lead, text) => lead + ("#" + text)
    case SampleLine(lead, sample, trail) => lead + Print(sample) + trail
  }

  /** Spaces that stay on the line. */
  ghost predicate Padding(t: string) {
    forall c :: c in t ==> IsSpace(c) && c != '\n'
  }

  ghost predicate LineOk(l: OutputLine) {
    match l
    case Empty(lead) => Padding(lead)
    case Comment(lead, text) => Padding(lead) && '\n' !in text
    case SampleLine(lead, sample, trail) => Padding(lead) && Padding(trail) && Printable(sample) && sample.name[0] != '#'
  }

  function Output(lines: seq<OutputLine>): string {
    Join(seq(|lines|, i requires 0 <= i < |lines| => LineText(lines[i])), "\n")
  }

  /** The samples of that name, in the order they were written. */
  ghost function SamplesOf(lines: seq<OutputLine>, name: string): seq<MetricLine> {
    if lines == [] then []
    else
      var n := |lines| - 1;
      SamplesOf(lines[..n], name) +
      (if lines[n].SampleLine? && lines[n].sample.name == name
       then [MetricLine(name, ReadBack(lines[n].sample.labels), lines[n].sample.value)] else [])
  }

  /** The same with the labels as they are meant. */
  ghost function MeantSamplesOf(lines: seq<OutputLine>, name: string): seq<MetricLine> {
    if lines == [] then []
    else
      var n := |lines| - 1;
      MeantSamplesOf(lines[..n], name) +
      (if lines[n].SampleLine? && lines[n].sample.name == name
       then [MetricLine(name, Meant(lines[n].sample.labels), lines[n].sample.value)] else [])
  }

  lemma {:induction false} JoinHas(pieces: seq<string>, sep: string, c: char)
    requires c in Join(pieces, sep)
    ensures c in sep || exists p :: p in pieces && c in p
  {
    if |pieces| == 1 {
      assert pieces[0] in pieces;
    } else if |pieces| > 1 {
      assert pieces[0] in pieces;
      if c !in pieces[0] && c !in sep {
        JoinHas(pieces[1..], sep, c);
      }
    }
  }

  lemma PrintedLine(s: Sample)
    requires Printable(s)
    ensures '\n' !in Print(s) && Print(s) != "" && Print(s)[0] == s.name[0] && !IsSpace(Print(s)[|Print(s)| - 1])
  {
    var line := Print(s);
    TailIsRead(s);
    assert s.name[0] in s.name;
    assert line[0] == s.name[0] && line[|line| - 1] == Tail(s)[|Tail(s)| - 1];
    if '\n' in line {
      var body := Join(PairTexts(s.labels), ",");
      assert '\n' in body;
      JoinHas(PairTexts(s.labels), ",", '\n');
      var p :| p in PairTexts(s.labels) && '\n' in p;
      var i :| 0 <= i < |s.labels| && p == PairText(s.labels[i]);
      assert s.labels[i] in s.labels;
      EscapeOneLine(s.labels[i].value);
    }
  }

  lemma CommentLine(lead: string, text: string)
    requires Padding(lead)
    ensures Blank(lead + ("#" + text))
  {
    var line := "#" + text;
    LeadTrimmed(lead, line, IsSpace);
    assert TrimLeft(line, IsSpace) == line;
    HashStays(text);
  }

  lemma SampleTrimmed(lead: string, sample: Sample, trail: string)
    requires Padding(lead) && Padding(trail) && Printable(sample)
    ensures TrimSpace(lead + Print(sample) + trail) == Print(sample)
  {
    PrintedLine(sample);
    assert sample.name[0] in sample.name;
    TrimPadded(lead, Print(sample), trail, IsSpace);
  }

  lemma EmptyLine(lead: string)
    requires Padding(lead)
    ensures Blank(lead)
  {
    TrimPadded(lead, "", "", IsSpace);
    assert lead + "" + "" == lead;
  }

  lemma {:induction false} HashStays(text: string)
    ensures TrimRight("#" + text, IsSpace) != "" && TrimRight("#" + text, IsSpace)[0] == '#'
  {
    var line := "#" + text;
    if text != "" && IsSpace(line[|line| - 1]) {
      assert line[..|line| - 1] == "#" + text[..|text| - 1];
      HashStays(text[..|text| - 1]);
    }
  }

  lemma {:induction false} FoundIn(lines: seq<OutputLine>, texts: seq<string>, name: string)
    requires |texts| == |lines| && forall i :: 0 <= i < |lines| ==> texts[i] == LineText(lines[i]) && LineOk(lines[i])
    ensures Found(texts, name) == Some(SamplesOf(lines, name))
  {
    if lines != [] {
      var n := |lines| - 1;
      FoundIn(lines[..n], texts[..n], name);
      LineIsFound(lines[n], Some(SamplesOf(lines[..n], name)), name);
    }
  }

  lemma LineIsFound(l: OutputLine, before: Option<seq<MetricLine>>, name: string)
    requires LineOk(l) && before.Some?
    ensures Search(before, LineText(l), name) ==
      Some(before.value + (if l.SampleLine? && l.sample.name == name
                           then [MetricLine(name, ReadBack(l.sample.labels), l.sample.value)] else []))
  {
    match l
    case Empty(lead) =>
      EmptyLine(lead);
      assert before.value + [] == before.value;
    case Comment(lead, text) =>
      CommentLine(lead, text);
      assert before.value + [] == before.value;
    case SampleLine(lead, sample, trail) =>
      PrintedLine(sample);
      PrintedIsRead(sample);
      SampleTrimmed(lead, sample, trail);
      assert before.value + [] == before.value;
  }

  /** Searching a whole exposition finds every sample of the name, each once, in order, and nothing else. */
  lemma FindMetricFindsAll(lines: seq<OutputLine>, name: string)
    requires forall l :: l in lines ==> LineOk(l)
    ensures Found(SplitAt(Output(lines), '\n'), name) == Some(SamplesOf(lines, name))
  {
    if lines == [] {
      assert SplitAt("", '\n') == [""] && Blank("");
      assert [""][..0] == [];
      return;
    }
    var texts := seq(|lines|, i requires 0 <= i < |lines| => LineText(lines[i]));
    forall i | 0 <= i < |lines| ensures '\n' !in texts[i] && LineOk(lines[i]) {
      assert lines[i] in lines;
      if lines[i].SampleLine? { PrintedLine(lines[i].sample); }
    }
    SplitOfJoin(texts, '\n');
    FoundIn(lines, texts, name);
  }

  ghost predicate Named(l: OutputLine, name: string) {
    l.SampleLine? && l.sample.name == name
  }

  lemma {:induction false} SamplesMeantIff(lines: seq<OutputLine>, name: string)
    requires forall l :: l in lines ==> LineOk(l)
    ensures |SamplesOf(lines, name)| == |MeantSamplesOf(lines, name)|
    ensures SamplesOf(lines, name) == MeantSamplesOf(lines, name) <==> AllPlain(lines, name)
  {
    if lines != [] {
      var n := |lines| - 1;
      SamplesMeantIff(lines[..n], name);
      LastPlain(lines, name);
      var last := lines[n];
      if Named(last, name) {
        ReadBackIff(last.sample.labels);
        SameEnds(SamplesOf(lines[..n], name), MetricLine(name, ReadBack(last.sample.labels), last.sample.value),
          MeantSamplesOf(lines[..n], name), MetricLine(name, Meant(last.sample.labels), last.sample.value));
      } else {
        assert SamplesOf(lines, name) == SamplesOf(lines[..n], name);
        assert MeantSamplesOf(lines, name) == MeantSamplesOf(lines[..n], name);
      }
    }
  }

  /** No label value of a sample of the name needs escaping. */
  ghost predicate AllPlain(lines: seq<OutputLine>, name: string) {
    forall l :: l in lines && Named(l, name) ==> NothingEscaped(l.sample.labels)
  }

  lemma LastPlain(lines: seq<OutputLine>, name: string)
    requires lines != []
    ensures var n := |lines| - 1;
      && lines[n] in lines
      && (AllPlain(lines, name) <==>
            AllPlain(lines[..n], name) && (Named(lines[n], name) ==> NothingEscaped(lines[n].sample.labels)))
  {
    var n := |lines| - 1;
    assert lines == lines[..n] + [lines[n]];
  }

  lemma SameEnds<T>(a: seq<T>, x: T, b: seq<T>, y: T)
    requires |a| == |b|
    ensures a + [x] == b + [y] <==> a == b && x == y
  {
    if a + [x] == b + [y] {
      assert a == (a + [x])[..|a|] && b == (b + [y])[..|b|];
      assert (a + [x])[|a|] == x && (b + [y])[|b|] == y;
    }
  }

  /** And it finds them as they are meant exactly when no label value of a sample of the name needs escaping. */
  lemma FindMetricExactIff(lines: seq<OutputLine>, name: string)
    requires forall l :: l in lines ==> LineOk(l)
    ensures Found(SplitAt(Output(lines), '\n'), name) == Some(MeantSamplesOf(lines, name)) <==> AllPlain(lines, name)
  {
    FindMetricFindsAll(lines, name);
    SamplesMeantIff(lines, name);
  }
}
