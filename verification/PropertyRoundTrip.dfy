/** What is written in the reader's own syntax is read back. */
module PropertyRoundTrip {
  import opened Common
  import opened PropertyText
  import opened PropertyLine
  import opened PropertyReader

  /** The environment of a real reader. */
  ghost predicate Real(env: Env) {
    forall s :: env.read(s) == ReadLine(s)
  }

  /** The lines `key=value` for the given keys of m, in that order. */
  function Render(keys: seq<string>, m: Properties): seq<string>
    requires forall i :: 0 <= i < |keys| ==> keys[i] in m
  {
    seq(|keys|, i requires 0 <= i < |keys| => keys[i] + "=" + m[keys[i]])
  }

  ghost predicate Renderable(keys: seq<string>, m: Properties) {
    forall i :: 0 <= i < |keys| ==> keys[i] in m && LegalKey(keys[i]) && CleanValue(m[keys[i]])
  }

  lemma ReadRendered(env: Env, k: string, v: string, plus: bool)
    requires Real(env) && LegalKey(k) && CleanValue(v)
    ensures env.read(k + Operator(plus) + v) == if plus then Append(k, v) else Assign(k, v)
  {
    RenderedLine(k, v, plus);
  }

  /** One rendered line is one setting. */
  lemma ParseRendered(env: Env, rank: map<string, nat>, r: nat, k: string, v: string, plus: bool,
                      n: nat, props: Properties)
    requires Real(env) && Acyclic(env, rank) && LegalKey(k) && CleanValue(v)
    ensures IncludedFile(env, k + Operator(plus) + v).None?
    ensures ParseRaw(env, rank, r, k + Operator(plus) + v, n, props)
         == Outcome(if plus then Appended(props, k, v) else props[k := v], None)
  {
    ReadRendered(env, k, v, plus);
  }

  /** The properties with those of m for the given keys put in, one after the other. */
  ghost function PutAll(props: Properties, keys: seq<string>, m: Properties): Properties
    requires forall i :: 0 <= i < |keys| ==> keys[i] in m
    decreases |keys|
  {
    if keys == [] then props else PutAll(props[keys[0] := m[keys[0]]], keys[1..], m)
  }

  lemma {:induction false} PutAllMeaning(props: Properties, keys: seq<string>, m: Properties)
    requires forall i :: 0 <= i < |keys| ==> keys[i] in m
    ensures forall k :: k in PutAll(props, keys, m) <==> k in props || k in keys
    ensures forall k :: k in keys ==> PutAll(props, keys, m)[k] == m[k]
    ensures forall k :: k in props && k !in keys ==> PutAll(props, keys, m)[k] == props[k]
    decreases |keys|
  {
    if keys != [] {
      PutAllMeaning(props[keys[0] := m[keys[0]]], keys[1..], m);
      assert keys == [keys[0]] + keys[1..];
    }
  }

  lemma {:induction false} ParseRenderedAll(env: Env, rank: map<string, nat>, r: nat, keys: seq<string>, m: Properties,
                                            n: nat, props: Properties)
    requires Real(env) && Acyclic(env, rank) && Renderable(keys, m)
    ensures RanksBelow(env, rank, Render(keys, m), r)
    ensures ParseLines(env, rank, r, Render(keys, m), n, props) == Outcome(PutAll(props, keys, m), None)
    decreases |keys|
  {
    hide CleanValue, LegalKey, Real, ReadLine;
    if keys != [] {
      var k := keys[0];
      var lines := Render(keys, m);
      assert lines[0] == k + Operator(false) + m[k] && lines[1..] == Render(keys[1..], m);
      ParseRendered(env, rank, r, k, m[k], false, n + 1, props);
      ParseRenderedAll(env, rank, r, keys[1..], m, n + 1, props[k := m[k]]);
      assert lines == [lines[0]] + lines[1..];
    }
  }

  /** Rendering a map with legal keys and clean values, in any order, and parsing it gives the map back. */
  lemma RoundTrip(env: Env, rank: map<string, nat>, r: nat, keys: seq<string>, m: Properties)
    requires Real(env) && Acyclic(env, rank) && Renderable(keys, m)
    requires forall k :: k in m <==> k in keys
    ensures RanksBelow(env, rank, Render(keys, m), r)
    ensures ParseLines(env, rank, r, Render(keys, m), 0, map[]) == Outcome(m, None)
  {
    hide Real, LegalKey, CleanValue, ReadLine, Acyclic;
    ParseRenderedAll(env, rank, r, keys, m, 0, map[]);
    PutAllMeaning(map[], keys, m);
    assert PutAll(map[], keys, m) == m;
  }

  // ----- appending -----

  /** The lines `k+=v` for one key, in order. */
  function AppendLines(k: string, vs: seq<string>): seq<string> {
    seq(|vs|, i requires 0 <= i < |vs| => k + "+=" + vs[i])
  }

  /** The texts one after the other, each with one space before it. */
  function Spaced(vs: seq<string>): string {
    if vs == [] then "" else " " + vs[0] + Spaced(vs[1..])
  }

  function ValueOr(props: Properties, k: string, default: string): string {
    if k in props then props[k] else default
  }

  /** Lines `k+=v` for one key, set before or not, leave it with its old value, or the empty text, followed by
      each v in order with one space before it; all other keys keep their values. */
  lemma {:induction false} AppendsInOrder(env: Env, rank: map<string, nat>, r: nat, k: string, vs: seq<string>,
                                          n: nat, props: Properties)
    requires Real(env) && Acyclic(env, rank) && LegalKey(k) && forall i :: 0 <= i < |vs| ==> CleanValue(vs[i])
    ensures RanksBelow(env, rank, AppendLines(k, vs), r)
    ensures ParseLines(env, rank, r, AppendLines(k, vs), n, props)
         == Outcome(if vs == [] then props else props[k := ValueOr(props, k, "") + Spaced(vs)], None)
    decreases |vs|
  {
    hide Real, LegalKey, CleanValue, ReadLine;
    if vs != [] {
      var lines, v := AppendLines(k, vs), vs[0];
      var next := props[k := ValueOr(props, k, "") + (" " + v)];
      assert lines[0] == k + "+=" + v && lines[1..] == AppendLines(k, vs[1..]);
      assert lines == [lines[0]] + lines[1..];
      ParseRendered(env, rank, r, k, v, true, n + 1, props);
      CleanIsNotEmpty(v);
      AppendsInOrder(env, rank, r, k, vs[1..], n + 1, next);
      SpacedValue(props, k, vs, next);
    }
  }

  lemma CleanIsNotEmpty(v: string)
    requires CleanValue(v)
    ensures v != ""
  {
  }

  lemma SpacedValue(props: Properties, k: string, vs: seq<string>, next: Properties)
    requires vs != [] && next == props[k := ValueOr(props, k, "") + (" " + vs[0])]
    ensures (if vs[1..] == [] then next else next[k := ValueOr(next, k, "") + Spaced(vs[1..])])
         == props[k := ValueOr(props, k, "") + Spaced(vs)]
  {
    var old', rest := ValueOr(props, k, ""), Spaced(vs[1..]);
    assert old' + (" " + vs[0]) + rest == old' + (" " + vs[0] + rest);
    if vs[1..] == [] {
      assert Spaced(vs) == " " + vs[0];
    }
  }

  /** In particular an append to a key that is not set sets it. */
  lemma AppendSets(env: Env, rank: map<string, nat>, r: nat, k: string, v: string, props: Properties)
    requires Real(env) && Acyclic(env, rank) && LegalKey(k) && CleanValue(v) && k !in props
    ensures RanksBelow(env, rank, [k + "+=" + v], r)
    ensures ParseLines(env, rank, r, [k + "+=" + v], 0, props) == Outcome(props[k := " " + v], None)
  {
    hide Real, LegalKey, CleanValue, ReadLine;
    AppendsInOrder(env, rank, r, k, [v], 0, props);
    assert AppendLines(k, [v]) == [k + "+=" + v];
    assert Spaced([v][1..]) == "";
    assert "" + (" " + v + "") == " " + v;
  }

  // ----- when exactly a map survives -----

  ghost predicate PlainSettings(keys: seq<string>, m: Properties) {
    forall i :: 0 <= i < |keys| ==> keys[i] in m && LegalKey(keys[i]) && Plain(m[keys[i]])
  }

  /** The values as the reader makes them: without comments, trimmed. */
  function Normalised(m: Properties): Properties {
    map k | k in m :: Uncommented(m[k])
  }

  /** One rendered line with any plain value. */
  lemma ParsePlain(env: Env, rank: map<string, nat>, r: nat, k: string, v: string, n: nat, props: Properties)
    requires Real(env) && Acyclic(env, rank) && LegalKey(k) && Plain(v)
    ensures IncludedFile(env, k + Operator(false) + v).None?
    ensures ParseRaw(env, rank, r, k + Operator(false) + v, n, props)
         == if Uncommented(v) == "" then Outcome(props, Some(BadFormat(n)))
            else Outcome(props[k := Uncommented(v)], None)
  {
    hide ReadLine, Uncommented;
    SettingRead(k, v, false);
    assert env.read(k + Operator(false) + v) == ReadLine(k + Operator(false) + v);
  }

  lemma {:induction false} ParsePlainAll(env: Env, rank: map<string, nat>, r: nat, keys: seq<string>, m: Properties,
                                         n: nat, props: Properties)
    requires Real(env) && Acyclic(env, rank) && PlainSettings(keys, m)
    ensures RanksBelow(env, rank, Render(keys, m), r)
    ensures var o := ParseLines(env, rank, r, Render(keys, m), n, props);
      && (o.error.None? <==> forall i :: 0 <= i < |keys| ==> Uncommented(m[keys[i]]) != "")
      && (o.error.None? ==> o.props == PutAll(props, keys, Normalised(m)))
    decreases |keys|
  {
    hide Uncommented, ReadLine, Real;
    if keys != [] {
      var k, lines := keys[0], Render(keys, m);
      assert lines[0] == k + Operator(false) + m[k] && lines[1..] == Render(keys[1..], m);
      assert lines == [lines[0]] + lines[1..];
      ParsePlain(env, rank, r, k, m[k], n + 1, props);
      ParsePlainAll(env, rank, r, keys[1..], m, n + 1, props[k := Uncommented(m[k])]);
      assert forall i :: 0 < i < |keys| ==> keys[i] == keys[1..][i - 1];
    }
  }

  /** Let the keys of m be legal and the only white space in its values tabs and spaces.  Rendering m, in any
      order, and parsing it gives m back if and only if every value is clean. */
  lemma RoundTripExactly(env: Env, rank: map<string, nat>, r: nat, keys: seq<string>, m: Properties)
    requires Real(env) && Acyclic(env, rank) && PlainSettings(keys, m)
    requires forall k :: k in m <==> k in keys
    ensures RanksBelow(env, rank, Render(keys, m), r)
    ensures ParseLines(env, rank, r, Render(keys, m), 0, map[]) == Outcome(m, None)
       <==> forall k :: k in m ==> CleanValue(m[k])
  {
    hide Uncommented, CleanValue, Real, Plain;
    ParsePlainAll(env, rank, r, keys, m, 0, map[]);
    PutAllMeaning(map[], keys, Normalised(m));
    assert PutAll(map[], keys, Normalised(m)) == Normalised(m);
    forall k | k in m ensures Uncommented(m[k]) == m[k] != "" <==> CleanValue(m[k]) {
      var i :| 0 <= i < |keys| && keys[i] == k;
      CleanExactly(m[k]);
    }
    NormalFixed(keys, m);
  }

  lemma NormalFixed(keys: seq<string>, m: Properties)
    requires forall k :: k in m <==> k in keys
    ensures (Normalised(m) == m && forall i :: 0 <= i < |keys| ==> Uncommented(m[keys[i]]) != "")
       <==> forall k :: k in m ==> Uncommented(m[k]) == m[k] != ""
  {
    hide Uncommented;
    if forall k :: k in m ==> Uncommented(m[k]) == m[k] != "" {
      assert Normalised(m) == m;
    } else {
      var k :| k in m && !(Uncommented(m[k]) == m[k] != "");
      var i :| 0 <= i < |keys| && keys[i] == k;
      assert Normalised(m) == m ==> Normalised(m)[k] == m[k];
    }
  }

  // ----- lists in values -----

  /** `get_values`. */
  function GetValues(props: Properties, key: string, delims: string): seq<string> {
    if key in props then SplitOf(props[key], delims, true) else []
  }

  /** A key that is not set has no values, and so has one set to the empty text. */
  lemma NoValues(props: Properties, key: string, delims: string)
    ensures key !in props || props[key] == "" ==> GetValues(props, key, delims) == []
  {
    SplitNothing(delims);
  }

  lemma SplitNothing(delims: string)
    ensures SplitOf("", delims, true) == []
  {
    TrimmedTight("");
    assert TrimAll([""], true) == [""];
    assert NonEmpty([""][1..]) == [];
  }

  /** A space more or less beside a delimiter does not matter. */
  lemma SplitAfterSpace(s: string, delims: string)
    ensures SplitOf(" " + s, delims, true) == SplitOf(s, delims, true)
  {
    if ' ' in delims {
      assert " " + s == "" + [' '] + s;
      SplitAtDelimiter("", ' ', s, delims, true);
      SplitNothing(delims);
    } else {
      assert " " + s == " " + s + "";
      SplitPadded(" ", s, "", delims);
    }
  }

  lemma SplitBeforeSpace(s: string, delims: string)
    ensures SplitOf(s + " ", delims, true) == SplitOf(s, delims, true)
  {
    if ' ' in delims {
      assert s + " " == s + [' '] + "";
      SplitAtDelimiter(s, ' ', "", delims, true);
      SplitNothing(delims);
    } else {
      assert s + " " == "" + s + " ";
      SplitPadded("", s, " ", delims);
    }
  }

  /** A list extended by `+=` with a leading delimiter is the concatenation of the two lists. */
  lemma AppendedList(a: string, c: char, b: string, delims: string)
    requires c in delims
    ensures SplitOf(a + (" " + ([c] + " " + b)), delims, true) == SplitOf(a, delims, true) + SplitOf(b, delims, true)
  {
    assert a + (" " + ([c] + " " + b)) == (a + " ") + [c] + (" " + b);
    SplitAtDelimiter(a + " ", c, " " + b, delims, true);
    SplitBeforeSpace(a, delims);
    SplitAfterSpace(b, delims);
  }

  /** The two lines `k=a` and `k+=, b`. */
  function ListLines(k: string, a: string, b: string): seq<string> {
    [k + Operator(false) + a, k + Operator(true) + (", " + b)]
  }

  /** Two lines that include nothing are parsed one after the other. */
  lemma TwoLines(env: Env, rank: map<string, nat>, r: nat, la: string, lb: string, props: Properties)
    requires Acyclic(env, rank) && IncludedFile(env, la).None? && IncludedFile(env, lb).None?
    ensures RanksBelow(env, rank, [la, lb], r)
    ensures var o := ParseRaw(env, rank, r, la, 1, props);
      o.error.None? ==> ParseLines(env, rank, r, [la, lb], 0, props) == ParseRaw(env, rank, r, lb, 2, o.props)
  {
    var o := ParseRaw(env, rank, r, la, 1, props);
    assert [la, lb][1..] == [lb] && [lb][1..] == [];
    var o2 := ParseRaw(env, rank, r, lb, 2, o.props);
    assert ParseLines(env, rank, r, [], 2, o2.props) == Outcome(o2.props, None);
    assert ParseLines(env, rank, r, [lb], 1, o.props) == o2;
  }

  function Put(props: Properties, k: string, v: string, plus: bool): Properties {
    if plus then Appended(props, k, v) else props[k := v]
  }

  lemma ParseTwo(env: Env, rank: map<string, nat>, r: nat, k: string, a: string, pa: bool, b: string, pb: bool,
                 props: Properties)
    requires Real(env) && Acyclic(env, rank) && LegalKey(k) && CleanValue(a) && CleanValue(b)
    ensures var lines := [k + Operator(pa) + a, k + Operator(pb) + b];
      && RanksBelow(env, rank, lines, r)
      && ParseLines(env, rank, r, lines, 0, props) == Outcome(Put(Put(props, k, a, pa), k, b, pb), None)
  {
    ParseRendered(env, rank, r, k, a, pa, 1, props);
    ParseRendered(env, rank, r, k, b, pb, 2, Put(props, k, a, pa));
    TwoLines(env, rank, r, k + Operator(pa) + a, k + Operator(pb) + b, props);
  }

  lemma CleanTail(b: string)
    requires CleanValue(b)
    ensures CleanValue(", " + b) && [','] + " " + b == ", " + b
  {
    var tail := ", " + b;
    assert tail[0] == ',' && tail[|tail| - 1] == b[|b| - 1];
    assert forall i :: 2 <= i < |tail| ==> tail[i] == b[i - 2];
  }

  /** Reading `k=a` and then `k+=, b` makes the list of values the concatenation of both lists. */
  lemma ListsConcatenate(env: Env, rank: map<string, nat>, r: nat, k: string, a: string, b: string, props: Properties)
    requires Real(env) && Acyclic(env, rank) && LegalKey(k) && CleanValue(a) && CleanValue(b)
    ensures RanksBelow(env, rank, ListLines(k, a, b), r)
    ensures var o := ParseLines(env, rank, r, ListLines(k, a, b), 0, props);
      && o.error == None
      && GetValues(o.props, k, ",") == SplitOf(a, ",", true) + SplitOf(b, ",", true)
  {
    CleanTail(b);
    ParseTwo(env, rank, r, k, a, false, ", " + b, true, props);
    AppendedList(a, ',', b, ",");
    ListValue(props, k, a, ", " + b);
  }

  lemma ListValue(props: Properties, k: string, a: string, tail: string)
    requires tail != ""
    ensures GetValues(Put(Put(props, k, a, false), k, tail, true), k, ",") == SplitOf(a + (" " + tail), ",", true)
  {
  }

  /** The order of `=` and `+=` matters: assigning last forgets what was appended before. */
  lemma OrderMatters(env: Env, rank: map<string, nat>, r: nat, k: string, a: string, b: string)
    requires Real(env) && Acyclic(env, rank) && LegalKey(k) && CleanValue(a) && CleanValue(b)
    ensures RanksBelow(env, rank, [k + Operator(false) + a, k + Operator(true) + b], r)
    ensures RanksBelow(env, rank, [k + Operator(true) + b, k + Operator(false) + a], r)
    ensures ParseLines(env, rank, r, [k + Operator(false) + a, k + Operator(true) + b], 0, map[])
         == Outcome(map[k := a + (" " + b)], None)
    ensures ParseLines(env, rank, r, [k + Operator(true) + b, k + Operator(false) + a], 0, map[])
         == Outcome(map[k := a], None)
  {
    ParseTwo(env, rank, r, k, a, false, b, true, map[]);
    ParseTwo(env, rank, r, k, b, true, a, false, map[]);
    assert Appended(map[], k, b)[k := a] == map[k := a];
  }
}
