/** The exposition-line parser of the end-to-end tests. */
module Exposition {
  import opened Collections
  import opened GoStrings

  datatype MetricLine = MetricLine(name: string, labels: map<string, string>, value: string)

  // --- The parser ---

  /** What `SplitLabels` has still to produce in a given state of its loop. */
  function SplitFrom(s: string, current: string, inQuotes: bool): seq<string>
    decreases |s|
  {
    if s == [] then (if current == "" then [] else [TrimSpace(current)])
    else if s[0] == '"' then SplitFrom(s[1..], current + [s[0]], !inQuotes)
    else if s[0] == ',' && !inQuotes then [TrimSpace(current)] + SplitFrom(s[1..], "", inQuotes)
    else SplitFrom(s[1..], current + [s[0]], inQuotes)
  }

  /** The parts a text splits into at the commas outside quotes. */
  function Parts(text: string): seq<string> {
    SplitFrom(text, "", false)
  }

  method SplitLabels(s: string) returns (parts: seq<string>)
    ensures parts == Parts(s)
  {
    parts := [];
    var current := "";
    var inQuotes := false;
    for i := 0 to |s|
      invariant parts + SplitFrom(s[i..], current, inQuotes) == SplitFrom(s, "", false)
    {
      var c := s[i];
      assert s[i..][1..] == s[i + 1..];
      if c == '"' {
        inQuotes := !inQuotes;
        current := current + [c];
      } else if c == ',' && !inQuotes {
        ghost var rest := SplitFrom(s[i + 1..], "", inQuotes);
        assert (parts + [TrimSpace(current)]) + rest == parts + ([TrimSpace(current)] + rest);
        parts := parts + [TrimSpace(current)];
        current := "";
      } else {
        current := current + [c];
      }
    }
    if |current| > 0 {
      parts := parts + [TrimSpace(current)];
    }
  }

  function WithPair(labels: map<string, string>, pair: string): map<string, string> {
    var eqIdx := IndexOf(pair, '=');
    if eqIdx == -1 then labels else labels[pair[..eqIdx] := TrimQuotes(pair[eqIdx + 1..])]
  }

  function LabelsOf(pairs: seq<string>): map<string, string> {
    if pairs == [] then map[]
    else
      var n := |pairs| - 1;
      WithPair(LabelsOf(pairs[..n]), pairs[n])
  }

  /** The pair has an equal sign, and the text before the first one is the key. */
  ghost predicate HasKey(pair: string, key: string) {
    exists e :: 0 <= e < |pair| && pair[e] == '=' && '=' !in pair[..e] && pair[..e] == key
  }

  /** And the text behind it, without the quotes around it, is the value. */
  ghost predicate HasKeyValue(pair: string, key: string, value: string) {
    exists e :: 0 <= e < |pair| && pair[e] == '=' && '=' !in pair[..e] && pair[..e] == key && value == TrimQuotes(pair[e + 1..])
  }

  ghost predicate LastWithKey(pairs: seq<string>, i: nat, key: string, value: string)
    requires i < |pairs|
  {
    HasKeyValue(pairs[i], key, value) && forall j :: i < j < |pairs| ==> !HasKey(pairs[j], key)
  }

  /** The labels read from pairs: exactly the keys of pairs with an equal sign, each with the value of its last pair. */
  lemma {:induction false} LabelsExact(pairs: seq<string>, key: string)
    ensures key in LabelsOf(pairs) <==> exists i :: 0 <= i < |pairs| && HasKey(pairs[i], key)
    ensures key in LabelsOf(pairs) ==> exists i :: 0 <= i < |pairs| && LastWithKey(pairs, i, key, LabelsOf(pairs)[key])
  {
    if pairs != [] {
      var n := |pairs| - 1;
      LabelsExact(pairs[..n], key);
      PairKey(pairs[n], key);
      assert forall i :: 0 <= i < n ==> pairs[..n][i] == pairs[i];
      if HasKey(pairs[n], key) {
        assert LastWithKey(pairs, n, key, LabelsOf(pairs)[key]);
      } else if key in LabelsOf(pairs) {
        var v := LabelsOf(pairs[..n])[key];
        assert LabelsOf(pairs)[key] == v;
        var i :| 0 <= i < n && LastWithKey(pairs[..n], i, key, v);
        StillLast(pairs, i, key, v);
      }
    }
  }

  lemma StillLast(pairs: seq<string>, i: nat, key: string, value: string)
    requires i < |pairs| - 1 && LastWithKey(pairs[..|pairs| - 1], i, key, value) && !HasKey(pairs[|pairs| - 1], key)
    ensures LastWithKey(pairs, i, key, value)
  {
    assert forall j :: 0 <= j < |pairs| - 1 ==> pairs[..|pairs| - 1][j] == pairs[j];
  }

  lemma PairKey(pair: string, key: string)
    ensures HasKey(pair, key) <==> IndexOf(pair, '=') != -1 && pair[..IndexOf(pair, '=')] == key
    ensures HasKey(pair, key) ==> HasKeyValue(pair, key, TrimQuotes(pair[IndexOf(pair, '=') + 1..]))
  {
    IndexNone(pair, '=');
    if '=' in pair { IndexBefore(pair, '='); }
    if e :| 0 <= e < |pair| && pair[e] == '=' && '=' !in pair[..e] && pair[..e] == key {
      FirstPlace(pair, e, '=');
    }
  }

  lemma FirstPlace(s: string, i: nat, c: char)
    requires i < |s| && s[i] == c && c !in s[..i]
    ensures IndexOf(s, c) == i
  {
    IndexOfFirst(s[..i], c, s[i + 1..]);
    assert s == s[..i] + [c] + s[i + 1..];
  }

  /** The labels read from the text between the braces. */
  function LabelsIn(text: string): map<string, string> {
    LabelsOf(Parts(text))
  }

  /** The field, or the empty string when there are not as many. */
  function FieldAt(fields: seq<string>, i: nat): string {
    if i < |fields| then fields[i] else ""
  }

  /** The line read with its braces at the given places; `None` is a run-time panic: the slice between the
      braces has its end before its start. */
  function ParsedAt(line: string, braceStart: int, braceEnd: int): Option<MetricLine>
    requires -1 <= braceStart < |line| && -1 <= braceEnd < |line|
  {
    if braceStart == -1 then
      var parts := Fields(line);
      Some(MetricLine(FieldAt(parts, 0), map[], FieldAt(parts, 1)))
    else if braceEnd < braceStart + 1 then None
    else
      var remainder := Fields(TrimSpace(line[braceEnd + 1..]));
      Some(MetricLine(
        line[..braceStart],
        LabelsIn(line[braceStart + 1..braceEnd]),
        FieldAt(remainder, 0)))
  }

  function Parsed(line: string): Option<MetricLine> {
    ParsedAt(line, IndexOf(line, '{'), LastIndexOf(line, '}'))
  }

  method ParsePairs(pairs: seq<string>) returns (labels: map<string, string>)
    ensures labels == LabelsOf(pairs)
  {
    labels := map[];
    for i := 0 to |pairs|
      invariant labels == LabelsOf(pairs[..i])
    {
      assert pairs[..i + 1][..i] == pairs[..i];
      var pair := pairs[i];
      var eqIdx := IndexOf(pair, '=');
      if eqIdx == -1 {
        continue;
      }
      labels := labels[pair[..eqIdx] := TrimQuotes(pair[eqIdx + 1..])];
    }
    assert pairs[..|pairs|] == pairs;
  }

  method ParseLine(line: string) returns (r: Option<MetricLine>)
    ensures r == Parsed(line)
  {
    var braceStart := IndexOf(line, '{');
    var braceEnd := LastIndexOf(line, '}');
    if braceStart == -1 {
      r := ParseBare(line, braceEnd);
    } else if braceEnd < braceStart + 1 {
      r := None;
    } else {
      r := ParseBraced(line, braceStart, braceEnd);
    }
  }

  method ParseBare(line: string, braceEnd: int) returns (r: Option<MetricLine>)
    requires -1 <= braceEnd < |line|
    ensures r == ParsedAt(line, -1, braceEnd)
  {
    var name, value := "", "";
    var parts := Fields(line);
    if |parts| >= 1 {
      name := parts[0];
    }
    if |parts| >= 2 {
      value := parts[1];
    }
    r := Some(MetricLine(name, map[], value));
  }

  method ParseBraced(line: string, braceStart: nat, braceEnd: nat) returns (r: Option<MetricLine>)
    requires braceStart < braceEnd < |line|
    ensures r == ParsedAt(line, braceStart, braceEnd)
  {
    var pairs := SplitLabels(line[braceStart + 1..braceEnd]);
    var labels := ParsePairs(pairs);
    var value := "";
    var remainder := TrimSpace(line[braceEnd + 1..]);
    NoFields(remainder, line[braceEnd + 1..]);
    if remainder != "" {
      value := Fields(remainder)[0];
    }
    r := Some(MetricLine(line[..braceStart], labels, value));
  }

  /** A trimmed text has a field unless it is empty. */
  lemma NoFields(remainder: string, text: string)
    requires remainder == TrimSpace(text)
    ensures remainder != "" <==> Fields(remainder) != []
  {
    TrimLeftShortens(text, IsSpace);
    TrimRightKeepsHead(TrimLeft(text, IsSpace), IsSpace);
  }

  lemma {:induction false} TrimRightKeepsHead(s: string, cut: char -> bool)
    ensures TrimRight(s, cut) != "" ==> s != "" && TrimRight(s, cut)[0] == s[0]
  {
    if s != [] && cut(s[|s| - 1]) { TrimRightKeepsHead(s[..|s| - 1], cut); }
  }

  /** Exactly when a line makes the parser panic: it has an opening brace and no closing brace after the first one. */
  lemma PanicsIff(line: string)
    ensures Parsed(line).None? <==> '{' in line && '}' !in line[IndexOf(line, '{') + 1..]
  {
    IndexNone(line, '{');
    LastIndexBelow(line, '}', IndexOf(line, '{') + 1);
  }

  /** An input: the shortest such line. */
  lemma LoneBracePanics(line: string)
    requires line == "{"
    ensures Parsed(line).None?
  {
    PanicsIff(line);
    assert line[0] == '{' && line[IndexOf(line, '{') + 1..] == [];
  }

  /** A line of the output that is no sample. */
  predicate Blank(line: string) {
    TrimSpace(line) == "" || TrimSpace(line)[0] == '#'
  }

  /** One more line searched; `None` when the parser panics. */
  function Search(before: Option<seq<MetricLine>>, line: string, name: string): Option<seq<MetricLine>> {
    if before.None? || Blank(line) then before
    else
      match Parsed(TrimSpace(line))
      case None => None
      case Some(ml) => Some(if ml.name == name then before.value + [ml] else before.value)
  }

  /** The samples of the name among the lines, in order. */
  function Found(lines: seq<string>, name: string): Option<seq<MetricLine>> {
    if lines == [] then Some([])
    else Search(Found(lines[..|lines| - 1], name), lines[|lines| - 1], name)
  }

  lemma FoundNext(lines: seq<string>, n: nat, name: string)
    requires n < |lines|
    ensures Found(lines[..n + 1], name) == Search(Found(lines[..n], name), lines[n], name)
  {
    assert lines[..n + 1][..n] == lines[..n];
  }

  lemma {:induction false} PanicStays(lines: seq<string>, n: nat, name: string)
    requires n <= |lines| && Found(lines[..n], name).None?
    ensures Found(lines, name).None?
    decreases |lines| - n
  {
    if n < |lines| {
      FoundNext(lines, n, name);
      PanicStays(lines, n + 1, name);
    } else {
      assert lines[..n] == lines;
    }
  }

  method FindMetric(output: string, name: string) returns (r: Option<seq<MetricLine>>)
    ensures r == Found(SplitAt(output, '\n'), name)
  {
    var lines := SplitAt(output, '\n');
    var results: seq<MetricLine> := [];
    for i := 0 to |lines|
      invariant Found(lines[..i], name) == Some(results)
    {
      FoundNext(lines, i, name);
      var line := TrimSpace(lines[i]);
      if line == "" || line[0] == '#' {
        continue;
      }
      var ml := ParseLine(line);
      if ml.None? {
        PanicStays(lines, i + 1, name);
        return None;
      }
      if ml.value.name == name {
        results := results + [ml.value];
      }
    }
    assert lines[..|lines|] == lines;
    return Some(results);
  }
}
