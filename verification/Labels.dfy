/** Label names: the two sanitizers, and the rewriting of a label map under new names,
    whose result can depend on the order a Go map is ranged over in. */
module Labels {
  import opened Collections

  const LABEL_PREFIX := "kubernetes_vmi_label_"

  predicate IsLabelStart(c: char) {
    'a' <= c <= 'z' || 'A' <= c <= 'Z' || c == '_'
  }

  predicate IsLabelChar(c: char) {
    IsLabelStart(c) || '0' <= c <= '9'
  }

  /** The label-name rule of the Prometheus data model. */
  ghost predicate ValidLabelName(s: string) {
    s != "" && IsLabelStart(s[0]) && forall i :: 0 <= i < |s| ==> IsLabelChar(s[i])
  }

  /** The characters Kubernetes admits in a label key. */
  ghost predicate IsKubeKeyChar(c: char) {
    IsLabelChar(c) || c == '.' || c == '/' || c == '-'
  }

  ghost predicate LabelKey(key: string) {
    forall i :: 0 <= i < |key| ==> IsKubeKeyChar(key[i])
  }

  /** The rule spelled out. */
  lemma ValidSpelledOut(s: string)
    ensures ValidLabelName(s) <==>
      && s != ""
      && !('0' <= s[0] <= '9')
      && forall i :: 0 <= i < |s| ==> 'a' <= s[i] <= 'z' || 'A' <= s[i] <= 'Z' || '0' <= s[i] <= '9' || s[i] == '_'
  {
    if s != "" { assert IsLabelChar(s[0]) <==> IsLabelStart(s[0]) || '0' <= s[0] <= '9'; }
    forall i | 0 <= i < |s|
      ensures IsLabelChar(s[i]) <==> 'a' <= s[i] <= 'z' || 'A' <= s[i] <= 'Z' || '0' <= s[i] <= '9' || s[i] == '_'
    {
    }
  }

  lemma LabelKeySpelledOut(key: string)
    ensures LabelKey(key) <==> forall i :: 0 <= i < |key| ==>
      'a' <= key[i] <= 'z' || 'A' <= key[i] <= 'Z' || '0' <= key[i] <= '9' || key[i] in {'_', '.', '/', '-'}
  {
    forall i | 0 <= i < |key|
      ensures IsKubeKeyChar(key[i]) <==>
        'a' <= key[i] <= 'z' || 'A' <= key[i] <= 'Z' || '0' <= key[i] <= '9' || key[i] in {'_', '.', '/', '-'}
    {
    }
  }

  function ReplaceInvalid(name: string): (r: string)
    ensures |r| == |name|
    ensures forall i :: 0 <= i < |r| ==> r[i] == if IsLabelChar(name[i]) then name[i] else '_'
  {
    seq(|name|, i requires 0 <= i < |name| => if IsLabelChar(name[i]) then name[i] else '_')
  }

  /** The sanitized name is valid, and it is the given name exactly when that is valid already. */
  function SanitizeLabelName(name: string): (r: string)
    ensures ValidLabelName(r)
    ensures r == name <==> ValidLabelName(name)
  {
    var sanitized := ReplaceInvalid(name);
    if sanitized == "" || !IsLabelStart(sanitized[0]) then "_" + sanitized else sanitized
  }

  /** Every character but the letters, the digits and the underscore is replaced by an underscore, and one goes in
      front exactly when the name is empty or starts with a digit. */
  lemma SanitizeSpelledOut(name: string)
    ensures var r, pre := SanitizeLabelName(name), if name == "" || '0' <= name[0] <= '9' then 1 else 0;
      && |r| == pre + |name|
      && (pre == 1 ==> r[0] == '_')
      && forall i :: 0 <= i < |name| ==>
           r[pre + i] == if 'a' <= name[i] <= 'z' || 'A' <= name[i] <= 'Z' || '0' <= name[i] <= '9' || name[i] == '_'
                         then name[i] else '_'
  {
    FrontIs(name);
    forall i | 0 <= i < |name|
      ensures ReplaceInvalid(name)[i] ==
        if 'a' <= name[i] <= 'z' || 'A' <= name[i] <= 'Z' || '0' <= name[i] <= '9' || name[i] == '_' then name[i] else '_'
    {
      assert IsLabelChar(name[i]) <==> 'a' <= name[i] <= 'z' || 'A' <= name[i] <= 'Z' || '0' <= name[i] <= '9' || name[i] == '_';
    }
  }

  lemma FrontIs(name: string)
    ensures SanitizeLabelName(name) == (if name == "" || '0' <= name[0] <= '9' then "_" else "") + ReplaceInvalid(name)
  {
    if name != "" {
      assert ReplaceInvalid(name)[0] == if IsLabelChar(name[0]) then name[0] else '_';
    }
  }

  lemma SanitizeIdempotent(name: string)
    ensures SanitizeLabelName(SanitizeLabelName(name)) == SanitizeLabelName(name)
  {
    assert ValidLabelName(SanitizeLabelName(name));
  }

  /** The string replacer of the VMI label names. */
  function LabelFormat(key: string): (r: string)
    ensures |r| == |key|
    ensures forall i :: 0 <= i < |r| ==> r[i] == if key[i] in {'.', '/', '-'} then '_' else key[i]
  {
    seq(|key|, i requires 0 <= i < |key| => if key[i] in {'.', '/', '-'} then '_' else key[i])
  }

  lemma AgreeOnLabelKeys(key: string)
    ensures LabelKey(key) <==>
      SanitizeLabelName(key) == (if key == "" || '0' <= key[0] <= '9' then "_" else "") + LabelFormat(key)
  {
    FrontIs(key);
    SameSuffix(if key == "" || '0' <= key[0] <= '9' then "_" else "", ReplaceInvalid(key), LabelFormat(key));
    FormatsAgree(key, ReplaceInvalid(key), LabelFormat(key));
  }

  lemma CharAgrees(c: char)
    ensures (if IsLabelChar(c) then c else '_') == (if c in {'.', '/', '-'} then '_' else c) <==> IsKubeKeyChar(c)
  {
  }

  lemma FormatsAgree(key: string, s: string, f: string)
    requires s == ReplaceInvalid(key) && f == LabelFormat(key)
    ensures LabelKey(key) <==> s == f
  {
    forall i | 0 <= i < |key| ensures s[i] == f[i] <==> IsKubeKeyChar(key[i]) {
      CharAgrees(key[i]);
    }
    if LabelKey(key) {
      assert forall i :: 0 <= i < |key| ==> s[i] == f[i];
    } else {
      var i :| 0 <= i < |key| && !IsKubeKeyChar(key[i]);
      assert s[i] != f[i];
    }
  }

  /** The two sanitizers give the same text, up to the underscore the first puts in front of an empty key and of a
      digit, on label keys and on nothing else. */
  lemma SanitizersAgree(key: string)
    ensures (forall i :: 0 <= i < |key| ==>
               'a' <= key[i] <= 'z' || 'A' <= key[i] <= 'Z' || '0' <= key[i] <= '9' || key[i] in {'_', '.', '/', '-'}) <==>
      SanitizeLabelName(key) == (if key == "" || '0' <= key[0] <= '9' then "_" else "") + LabelFormat(key)
  {
    LabelKeySpelledOut(key);
    AgreeOnLabelKeys(key);
  }

  lemma SameSuffix(pre: string, a: string, b: string)
    ensures pre + a == pre + b <==> a == b
  {
    assert a == (pre + a)[|pre|..] && b == (pre + b)[|pre|..];
  }

  lemma PrefixedLabelKeys(key: string)
    ensures LabelKey(key) <==> ValidLabelName(LABEL_PREFIX + LabelFormat(key))
  {
    var f, full := LabelFormat(key), LABEL_PREFIX + LabelFormat(key);
    assert forall i :: 0 <= i < |LABEL_PREFIX| ==> IsLabelChar(LABEL_PREFIX[i]);
    assert forall i :: 0 <= i < |f| ==> full[|LABEL_PREFIX| + i] == f[i];
    assert forall i :: 0 <= i < |key| ==> (IsLabelChar(f[i]) <==> IsKubeKeyChar(key[i]));
  }

  /** With its prefix, a formatted label is a valid label name exactly when it was a label key. */
  lemma PrefixedFormatValid(key: string)
    ensures (forall i :: 0 <= i < |key| ==>
               'a' <= key[i] <= 'z' || 'A' <= key[i] <= 'Z' || '0' <= key[i] <= '9' || key[i] in {'_', '.', '/', '-'}) <==>
      ValidLabelName("kubernetes_vmi_label_" + LabelFormat(key))
  {
    LabelKeySpelledOut(key);
    PrefixedLabelKeys(key);
  }

  // --- Rewriting a label map ---

  /** An order a Go map with these keys can be ranged over in. */
  ghost predicate IsOrder(m: map<string, string>, order: seq<string>) {
    Distinct(order) && forall k :: k in order <==> k in m
  }

  /** The map built by writing each value under its key's new name, in this order. */
  ghost function Relabel(m: map<string, string>, order: seq<string>, rename: string -> string): map<string, string>
    requires forall k :: k in order ==> k in m
  {
    if order == [] then map[]
    else
      var last := order[|order| - 1];
      Relabel(m, order[..|order| - 1], rename)[rename(last) := m[last]]
  }

  /** The new names are exactly those of the raw keys, and a name's value is that of the raw key ranged
      over last among those it names. */
  lemma {:induction false} RelabelExact(m: map<string, string>, order: seq<string>, rename: string -> string, name: string)
    requires forall k :: k in order ==> k in m
    ensures name in Relabel(m, order, rename) <==> exists i :: 0 <= i < |order| && rename(order[i]) == name
    ensures name in Relabel(m, order, rename) ==>
      exists i :: 0 <= i < |order| && IsLastNamed(order, rename, i, name) && Relabel(m, order, rename)[name] == m[order[i]]
  {
    if order != [] {
      var n := |order| - 1;
      var init, last := order[..n], order[n];
      assert forall i :: 0 <= i < n ==> order[i] == init[i];
      RelabelExact(m, init, rename, name);
      if rename(last) == name {
        assert IsLastNamed(order, rename, n, name);
      } else if name in Relabel(m, init, rename) {
        var i :| 0 <= i < n && IsLastNamed(init, rename, i, name) && Relabel(m, init, rename)[name] == m[init[i]];
        assert IsLastNamed(order, rename, i, name);
      }
    }
  }

  ghost predicate IsLastNamed(order: seq<string>, rename: string -> string, i: nat, name: string)
    requires i < |order|
  {
    rename(order[i]) == name && forall j :: i < j < |order| ==> rename(order[j]) != name
  }

  /** Raw keys that come out alike carry equal values. */
  ghost predicate Harmless(m: map<string, string>, rename: string -> string) {
    forall k, k' :: k in m && k' in m && rename(k) == rename(k') ==> m[k] == m[k']
  }

  lemma {:induction false} SomeOrder(keys: set<string>) returns (order: seq<string>)
    ensures Distinct(order) && forall k :: k in order <==> k in keys
    decreases keys
  {
    if keys == {} {
      order := [];
    } else {
      var k :| k in keys;
      var rest := SomeOrder(keys - {k});
      order := rest + [k];
    }
  }

  /** The label map is the same for every order exactly when colliding raw keys carry equal values. */
  lemma OrderIndependentIff(m: map<string, string>, rename: string -> string)
    ensures Harmless(m, rename) <==>
      forall o, o' :: IsOrder(m, o) && IsOrder(m, o') ==> Relabel(m, o, rename) == Relabel(m, o', rename)
  {
    if Harmless(m, rename) {
      forall o, o' | IsOrder(m, o) && IsOrder(m, o') ensures Relabel(m, o, rename) == Relabel(m, o', rename) {
        SameForOrders(m, o, o', rename);
      }
    } else {
      var k, k' :| k in m && k' in m && rename(k) == rename(k') && m[k] != m[k'];
      var o, v := OrderEndingWith(m, k, rename);
      var o', v' := OrderEndingWith(m, k', rename);
    }
  }

  lemma OrderEndingWith(m: map<string, string>, k: string, rename: string -> string) returns (order: seq<string>, value: string)
    requires k in m
    ensures IsOrder(m, order)
    ensures rename(k) in Relabel(m, order, rename) && Relabel(m, order, rename)[rename(k)] == value == m[k]
  {
    var before := SomeOrder(m.Keys - {k});
    order, value := before + [k], m[k];
    assert order[..|before|] == before;
  }

  lemma SameForOrders(m: map<string, string>, o: seq<string>, o': seq<string>, rename: string -> string)
    requires Harmless(m, rename) && IsOrder(m, o) && IsOrder(m, o')
    ensures Relabel(m, o, rename) == Relabel(m, o', rename)
  {
    var r, r' := Relabel(m, o, rename), Relabel(m, o', rename);
    forall name ensures (name in r <==> name in r') && (name in r ==> r[name] == r'[name]) {
      RelabelExact(m, o, rename, name);
      RelabelExact(m, o', rename, name);
      if name in r {
        var i :| 0 <= i < |o| && rename(o[i]) == name;
        assert o[i] in o';
      }
      if name in r' {
        var i :| 0 <= i < |o'| && rename(o'[i]) == name;
        assert o'[i] in o;
      }
    }
  }

  /** One more key ranged over. */
  lemma RelabelStep(m: map<string, string>, order: seq<string>, rename: string -> string, k: string)
    requires (forall x :: x in order ==> x in m) && k in m
    ensures Relabel(m, order + [k], rename) == Relabel(m, order, rename)[rename(k) := m[k]]
  {
    assert (order + [k])[..|order|] == order;
  }
}
