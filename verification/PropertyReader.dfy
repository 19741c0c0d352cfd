/** Parsing of sources/property_reader/property_reader.cpp: lines, settings and included files.  A file
    is its sequence of lines, and the file system a map from paths to files.  What a single line says is
    a parameter here, `read`; the reader's own is ReadLine of module PropertyLine. */
module PropertyReader {
  import opened Common
  import PropertyLine

  /** A file that exists: its lines, or None if it cannot be opened. */
  type File = Option<seq<string>>

  type Line = PropertyLine.Line

  /** The files that exist, the reader's default path, and the meaning of a line. */
  datatype Env = Env(files: map<string, File>, base: string, read: string -> Line)

  type Properties = map<string, string>

  /** The exceptions a parse can end with. */
  datatype Error = BadFormat(line: nat) | NotFound(name: string) | NotOpened(name: string)

  /** The settings when the parse ends, and the exception it ends with, if any. */
  datatype Outcome = Outcome(props: Properties, error: Option<Error>)

  /** `read_sub_property_file`: the name as it is, otherwise below the default path. */
  function Resolve(env: Env, name: string): Option<string> {
    if name in env.files then Some(name)
    else if env.base + name in env.files then Some(env.base + name)
    else None
  }

  function Appended(props: Properties, key: string, value: string): Properties {
    if value == "" then props
    else props[key := (if key in props then props[key] else "") + (" " + value)]
  }

  /** The file a raw line includes, if it is an include line of a readable file. */
  function IncludedFile(env: Env, raw: string): (p: Option<string>)
    ensures p.Some? ==> p.value in env.files && env.files[p.value].Some?
  {
    var line := env.read(raw);
    if !line.Include? then None
    else
      var p := Resolve(env, line.name);
      if p.Some? && env.files[p.value].Some? then p else None
  }

  // ----- include graphs without cycles -----

  /** Everything these lines include has a rank below r. */
  ghost predicate RanksBelow(env: Env, rank: map<string, nat>, lines: seq<string>, r: nat) {
    forall i :: 0 <= i < |lines| ==>
      var p := IncludedFile(env, lines[i]);
      p.Some? ==> p.value in rank && rank[p.value] < r
  }

  /** The include graph has no cycle among the ranked files: ranks fall along every include.  Only files the
      lines at hand reach need a rank; RanksBelow requires it of those they include, and this of the files
      included there, and so on. */
  ghost predicate Acyclic(env: Env, rank: map<string, nat>) {
    forall p :: p in rank && p in env.files && env.files[p].Some? ==>
      RanksBelow(env, rank, env.files[p].value, rank[p])
  }

  // ----- the parser -----

  /** `parse_istream` on the remaining lines, `n` lines having been counted. */
  ghost function ParseLines(env: Env, rank: map<string, nat>, r: nat, lines: seq<string>, n: nat, props: Properties)
    : Outcome
    requires Acyclic(env, rank) && RanksBelow(env, rank, lines, r)
    decreases r, |lines|
  {
    if lines == [] then Outcome(props, None)
    else
      var o := ParseRaw(env, rank, r, lines[0], n + 1, props);
      if o.error.Some? then o else ParseLines(env, rank, r, lines[1..], n + 1, o.props)
  }

  /** One line of `parse_istream`, the `lineNumber`-th. */
  ghost function ParseRaw(env: Env, rank: map<string, nat>, r: nat, raw: string, lineNumber: nat, props: Properties)
    : Outcome
    requires Acyclic(env, rank)
    requires IncludedFile(env, raw).Some? ==>
      IncludedFile(env, raw).value in rank && rank[IncludedFile(env, raw).value] < r
    decreases r, 0
  {
    match env.read(raw)
      case Blank => Outcome(props, None)
      case Include(name) =>
        (match Resolve(env, name)
         case None => Outcome(props, Some(NotFound(name)))
         case Some(p) =>
           match env.files[p]
           case None => Outcome(props, Some(NotOpened(name)))
           case Some(lines) => ParseLines(env, rank, rank[p], lines, 0, props))
      case Assign(k, v) => Outcome(props[k := v], None)
      case Append(k, v) => Outcome(Appended(props, k, v), None)
      case Malformed => Outcome(props, Some(BadFormat(lineNumber)))
  }

  // ----- what the outcome of a line is -----

  /** A file that lines include is the one of that name, or else the one of that name below the default path.  Its lines
      are read where the include line stands, counted from one again; a file that is not there, or cannot be
      opened, ends the parse with the settings so far. */
  lemma IncludeFindsFile(env: Env, rank: map<string, nat>, r: nat, raw: string, name: string, props: Properties)
    requires Acyclic(env, rank) && RanksBelow(env, rank, [raw], r) && env.read(raw) == PropertyLine.Include(name)
    ensures var o := ParseLines(env, rank, r, [raw], 0, props);
      if name !in env.files && env.base + name !in env.files then o == Outcome(props, Some(NotFound(name)))
      else
        var p := if name in env.files then name else env.base + name;
        if env.files[p].None? then o == Outcome(props, Some(NotOpened(name)))
        else p in rank && rank[p] < r && o == ParseLines(env, rank, rank[p], env.files[p].value, 0, props)
  {
    assert [raw][0] == raw && [raw][1..] == [];
    var o := ParseRaw(env, rank, r, raw, 1, props);
    assert ParseLines(env, rank, r, [], 1, o.props) == Outcome(o.props, None);
  }

  lemma RanksOfParts(env: Env, rank: map<string, nat>, a: seq<string>, b: seq<string>, r: nat)
    requires RanksBelow(env, rank, a + b, r)
    ensures RanksBelow(env, rank, a, r) && RanksBelow(env, rank, b, r)
  {
    assert forall i :: 0 <= i < |a| ==> (a + b)[i] == a[i];
    assert forall i :: 0 <= i < |b| ==> (a + b)[|a| + i] == b[i];
  }

  /** Lines are read in order, each with the settings left by those before it, up to the first that fails. */
  lemma {:induction false} ParseConcat(env: Env, rank: map<string, nat>, r: nat, a: seq<string>, b: seq<string>,
                                       n: nat, props: Properties)
    requires Acyclic(env, rank) && RanksBelow(env, rank, a + b, r)
    ensures RanksBelow(env, rank, a, r) && RanksBelow(env, rank, b, r)
    ensures var o := ParseLines(env, rank, r, a, n, props);
      ParseLines(env, rank, r, a + b, n, props)
        == if o.error.Some? then o else ParseLines(env, rank, r, b, n + |a|, o.props)
    decreases |a|
  {
    hide ParseRaw, RanksBelow, Resolve;
    RanksOfParts(env, rank, a, b, r);
    if a == [] {
      assert a + b == b;
    } else {
      assert (a + b)[0] == a[0] && (a + b)[1..] == a[1..] + b;
      var o := ParseRaw(env, rank, r, a[0], n + 1, props);
      RanksOfParts(env, rank, [a[0]], a[1..] + b, r);
      ParseConcat(env, rank, r, a[1..], b, n + 1, o.props);
    }
  }

  /** The first malformed line ends the parse with its number, counted from one. */
  lemma MalformedLine(env: Env, rank: map<string, nat>, r: nat, pre: seq<string>, raw: string, post: seq<string>,
                      props: Properties)
    requires Acyclic(env, rank) && RanksBelow(env, rank, pre + ([raw] + post), r) && env.read(raw).Malformed?
    ensures RanksBelow(env, rank, pre, r)
    ensures var o := ParseLines(env, rank, r, pre, 0, props);
      ParseLines(env, rank, r, pre + ([raw] + post), 0, props)
        == if o.error.Some? then o else Outcome(o.props, Some(BadFormat(|pre| + 1)))
  {
    ParseConcat(env, rank, r, pre, [raw] + post, 0, props);
    assert ([raw] + post)[0] == raw;
  }

  /** Blank lines are counted and otherwise ignored. */
  lemma BlankLine(env: Env, rank: map<string, nat>, r: nat, raw: string, post: seq<string>, n: nat, props: Properties)
    requires Acyclic(env, rank) && RanksBelow(env, rank, [raw] + post, r) && env.read(raw).Blank?
    ensures RanksBelow(env, rank, post, r)
    ensures ParseLines(env, rank, r, [raw] + post, n, props) == ParseLines(env, rank, r, post, n + 1, props)
  {
    RanksOfParts(env, rank, [raw], post, r);
    assert ([raw] + post)[0] == raw && ([raw] + post)[1..] == post;
  }

  /** A setting replaces what was there; an addition of nothing changes nothing, not even an unset key. */
  lemma SettingLine(env: Env, rank: map<string, nat>, r: nat, raw: string, props: Properties)
    requires Acyclic(env, rank) && RanksBelow(env, rank, [raw], r)
    ensures var l, o := env.read(raw), ParseLines(env, rank, r, [raw], 0, props);
      && (l.Assign? ==> o == Outcome(props[l.key := l.value], None))
      && (l.Append? && l.value == "" ==> o == Outcome(props, None))
  {
    assert [raw][0] == raw && [raw][1..] == [];
    var o := ParseRaw(env, rank, r, raw, 1, props);
    assert ParseLines(env, rank, r, [], 1, o.props) == Outcome(o.props, None);
  }

  // ----- include is textual substitution -----

  /** The lines with every include line of a readable file replaced by that file's lines, all the way down. */
  ghost function Flatten(env: Env, rank: map<string, nat>, r: nat, lines: seq<string>): seq<string>
    requires Acyclic(env, rank) && RanksBelow(env, rank, lines, r)
    decreases r, |lines|
  {
    if lines == [] then []
    else
      (match IncludedFile(env, lines[0])
       case Some(p) => Flatten(env, rank, rank[p], env.files[p].value)
       case None => [lines[0]])
      + Flatten(env, rank, r, lines[1..])
  }

  /** A parser that never opens a file: include lines are errors. */
  function ParseFlat(env: Env, lines: seq<string>, n: nat, props: Properties): Outcome
    decreases |lines|
  {
    if lines == [] then Outcome(props, None)
    else
      var o := ParseFlatLine(env, lines[0], n + 1, props);
      if o.error.Some? then o else ParseFlat(env, lines[1..], n + 1, o.props)
  }

  function ParseFlatLine(env: Env, raw: string, lineNumber: nat, props: Properties): Outcome {
    match env.read(raw)
      case Blank => Outcome(props, None)
      case Include(name) =>
        Outcome(props, Some(if Resolve(env, name).None? then NotFound(name) else NotOpened(name)))
      case Assign(k, v) => Outcome(props[k := v], None)
      case Append(k, v) => Outcome(Appended(props, k, v), None)
      case Malformed => Outcome(props, Some(BadFormat(lineNumber)))
  }

  /** The same settings, and both fail in the same way or neither, line numbers aside. */
  predicate Same(a: Outcome, b: Outcome) {
    && a.props == b.props
    && (a.error.Some? <==> b.error.Some?)
    && (a.error.Some? ==>
          a.error.value == b.error.value || (a.error.value.BadFormat? && b.error.value.BadFormat?))
  }

  lemma {:induction false} FlatConcat(env: Env, a: seq<string>, b: seq<string>, n: nat, props: Properties)
    ensures var o := ParseFlat(env, a, n, props);
      ParseFlat(env, a + b, n, props) == if o.error.Some? then o else ParseFlat(env, b, n + |a|, o.props)
    decreases |a|
  {
    if a == [] {
      assert a + b == b;
    } else {
      assert (a + b)[0] == a[0] && (a + b)[1..] == a[1..] + b;
      var o := ParseFlatLine(env, a[0], n + 1, props);
      FlatConcat(env, a[1..], b, n + 1, o.props);
    }
  }

  lemma {:induction false} FlatCounter(env: Env, lines: seq<string>, n: nat, m: nat, props: Properties)
    ensures Same(ParseFlat(env, lines, n, props), ParseFlat(env, lines, m, props))
    decreases |lines|
  {
    if lines != [] {
      var o := ParseFlatLine(env, lines[0], n + 1, props);
      FlatCounter(env, lines[1..], n + 1, m + 1, o.props);
    }
  }

  /** Parsing with includes gives the same settings, and fails in the same cases, as parsing the
      flattened lines without opening any file. */
  lemma {:induction false} IncludeIsSubstitution(env: Env, rank: map<string, nat>, r: nat, lines: seq<string>,
                                                 n: nat, m: nat, props: Properties)
    requires Acyclic(env, rank) && RanksBelow(env, rank, lines, r)
    ensures Same(ParseLines(env, rank, r, lines, n, props), ParseFlat(env, Flatten(env, rank, r, lines), m, props))
    decreases r, |lines|
  {
    if lines != [] {
      var first, rest := lines[0], lines[1..];
      var flatRest := Flatten(env, rank, r, rest);
      var o := ParseRaw(env, rank, r, first, n + 1, props);
      match IncludedFile(env, first) {
        case Some(p) =>
          var flat := Flatten(env, rank, rank[p], env.files[p].value);
          IncludeIsSubstitution(env, rank, rank[p], env.files[p].value, 0, m, props);
          FlatConcat(env, flat, flatRest, m, props);
          IncludeIsSubstitution(env, rank, r, rest, n + 1, m + |flat|, o.props);
        case None =>
          FlatConcat(env, [first], flatRest, m, props);
          FlatSingle(env, first, m, props);
          LineAgrees(env, rank, r, first, n + 1, m + 1, props);
          IncludeIsSubstitution(env, rank, r, rest, n + 1, m + 1, o.props);
      }
    }
  }

  lemma FlatSingle(env: Env, line: string, m: nat, props: Properties)
    ensures ParseFlat(env, [line], m, props) == ParseFlatLine(env, line, m + 1, props)
  {
    assert [line][1..] == [];
  }

  /** On a line that includes no readable file the two parsers agree. */
  lemma LineAgrees(env: Env, rank: map<string, nat>, r: nat, raw: string, n: nat, m: nat, props: Properties)
    requires Acyclic(env, rank) && IncludedFile(env, raw).None?
    ensures Same(ParseRaw(env, rank, r, raw, n, props), ParseFlatLine(env, raw, m, props))
  {
  }

  /** The outcome does not depend on how the include graph is ranked. */
  lemma {:induction false} RankIrrelevant(env: Env, rank1: map<string, nat>, r1: nat, rank2: map<string, nat>, r2: nat,
                                          lines: seq<string>, n: nat, props: Properties)
    requires Acyclic(env, rank1) && RanksBelow(env, rank1, lines, r1)
    requires Acyclic(env, rank2) && RanksBelow(env, rank2, lines, r2)
    ensures ParseLines(env, rank1, r1, lines, n, props) == ParseLines(env, rank2, r2, lines, n, props)
    decreases r1, |lines|
  {
    if lines != [] {
      var p := IncludedFile(env, lines[0]);
      if p.Some? {
        RankIrrelevant(env, rank1, rank1[p.value], rank2, rank2[p.value], env.files[p.value].value, 0, props);
      }
      var o := ParseRaw(env, rank1, r1, lines[0], n + 1, props);
      RankIrrelevant(env, rank1, r1, rank2, r2, lines[1..], n + 1, o.props);
    }
  }

  /** Nothing is left to include in flattened lines. */
  lemma {:induction false} FlattenIsFlat(env: Env, rank: map<string, nat>, r: nat, lines: seq<string>)
    requires Acyclic(env, rank) && RanksBelow(env, rank, lines, r)
    ensures RanksBelow(env, rank, Flatten(env, rank, r, lines), 0)
    decreases r, |lines|
  {
    if lines != [] {
      var p := IncludedFile(env, lines[0]);
      if p.Some? {
        FlattenIsFlat(env, rank, rank[p.value], env.files[p.value].value);
      }
      FlattenIsFlat(env, rank, r, lines[1..]);
    }
  }

  /** On lines that include nothing the parser is the one that never opens a file. */
  lemma {:induction false} FlatIsParse(env: Env, rank: map<string, nat>, lines: seq<string>, n: nat, props: Properties)
    requires Acyclic(env, rank) && RanksBelow(env, rank, lines, 0)
    ensures ParseLines(env, rank, 0, lines, n, props) == ParseFlat(env, lines, n, props)
    decreases |lines|
  {
    if lines != [] {
      assert IncludedFile(env, lines[0]).None?;
      var o := ParseFlatLine(env, lines[0], n + 1, props);
      assert ParseRaw(env, rank, 0, lines[0], n + 1, props) == o;
      FlatIsParse(env, rank, lines[1..], n + 1, o.props);
    }
  }

  /** Hence flattening first and parsing then is the same as parsing with includes. */
  lemma FlattenFirst(env: Env, rank: map<string, nat>, r: nat, lines: seq<string>, props: Properties)
    requires Acyclic(env, rank) && RanksBelow(env, rank, lines, r)
    ensures var flat := Flatten(env, rank, r, lines);
      && RanksBelow(env, rank, flat, 0)
      && Same(ParseLines(env, rank, r, lines, 0, props), ParseLines(env, rank, 0, flat, 0, props))
  {
    var flat := Flatten(env, rank, r, lines);
    FlattenIsFlat(env, rank, r, lines);
    FlatIsParse(env, rank, flat, 0, props);
    IncludeIsSubstitution(env, rank, r, lines, 0, 0, props);
  }
}
