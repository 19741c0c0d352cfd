/** The three line forms of sources/property_reader/property_reader.cpp.  A regular expression matches a
    line if some split of the line fits it; the matcher's own choice among the splits (greedy, giving
    back one character where `(.+)` would be left empty) is what the functions below compute. */
module PropertyLine {
  import opened Common
  import opened PropertyText

  /** What `\s` matches: more than `trim` strips. */
  predicate IsSpace(c: char) {
    c == ' ' || c == '\t' || c == '\n' || c == '\r' || c == '\U{0B}' || c == '\U{0C}'
  }

  predicate IsName(c: char) {
    ('a' <= c <= 'z') || ('A' <= c <= 'Z') || ('0' <= c <= '9') || c == '.' || c == '_'
  }

  ghost predicate AllSpace(s: string) {
    forall i :: 0 <= i < |s| ==> IsSpace(s[i])
  }

  ghost predicate AllName(s: string) {
    forall i :: 0 <= i < |s| ==> IsName(s[i])
  }

  /** The only white space in s is what `trim` strips too. */
  ghost predicate Plain(s: string) {
    forall i :: 0 <= i < |s| && IsSpace(s[i]) ==> IsBlank(s[i])
  }

  function SpaceRun(s: string): (n: nat)
    ensures n <= |s| && (forall i :: 0 <= i < n ==> IsSpace(s[i])) && (n < |s| ==> !IsSpace(s[n]))
  {
    if s == "" || !IsSpace(s[0]) then 0 else 1 + SpaceRun(s[1..])
  }

  function NameRun(s: string): (n: nat)
    ensures n <= |s| && (forall i :: 0 <= i < n ==> IsName(s[i])) && (n < |s| ==> !IsName(s[n]))
  {
    if s == "" || !IsName(s[0]) then 0 else 1 + NameRun(s[1..])
  }

  lemma {:induction false} SpaceRunIs(w: string, s: string)
    requires AllSpace(w) && (s != "" ==> !IsSpace(s[0]))
    ensures SpaceRun(w + s) == |w| && (w + s)[|w|..] == s
  {
    if w == "" {
      assert w + s == s;
    } else {
      assert (w + s)[1..] == w[1..] + s;
      SpaceRunIs(w[1..], s);
    }
  }

  lemma {:induction false} NameRunIs(k: string, s: string)
    requires AllName(k) && (s != "" ==> !IsName(s[0]))
    ensures NameRun(k + s) == |k| && (k + s)[|k|..] == s && (k + s)[..|k|] == k
  {
    if k == "" {
      assert k + s == s;
    } else {
      assert (k + s)[1..] == k[1..] + s;
      NameRunIs(k[1..], s);
    }
  }

  lemma PlainRight(a: string, b: string)
    requires Plain(a + b)
    ensures Plain(b)
  {
    assert forall i :: 0 <= i < |b| ==> (a + b)[|a| + i] == b[i];
  }

  /** A text is what is left of a cut followed by what is right of it. */
  lemma Cut(s: string, n: nat)
    requires n <= |s|
    ensures s == s[..n] + s[n..]
  {
  }

  lemma Regroup(a: string, b: string, c: string)
    ensures a + b + c == a + (b + c) && "" + a == a && a + "" == a
  {
  }

  lemma Uncut(a: string, b: string)
    ensures (a + b)[|a|..] == b && (a + b)[..|a|] == a
  {
  }

  /** What `\s*(.+)\s*` captures of a rest of line. */
  function Captured(rest: string): (v: string)
    requires rest != ""
    ensures v != "" && |v| <= |rest| && v == rest[|rest| - |v|..] && AllSpace(rest[..|rest| - |v|])
  {
    var m := SpaceRun(rest);
    if m < |rest| then rest[m..] else rest[|rest| - 1..]
  }

  /** The white space at the beginning and at the end of s is blank. */
  ghost predicate BlankEnds(s: string) {
    && (forall i :: 0 <= i < |s| && AllSpace(s[..i + 1]) ==> IsBlank(s[i]))
    && (forall i :: 0 <= i < |s| && AllSpace(s[i..]) ==> IsBlank(s[i]))
  }

  lemma PlainBlankEnds(s: string)
    requires Plain(s)
    ensures BlankEnds(s)
  {
    forall i | 0 <= i < |s| && AllSpace(s[..i + 1]) ensures IsBlank(s[i]) {
      assert s[..i + 1][i] == s[i];
    }
    forall i | 0 <= i < |s| && AllSpace(s[i..]) ensures IsBlank(s[i]) {
      assert s[i..][0] == s[i];
    }
  }

  lemma BlankFrame(w: string, v: string, u: string)
    requires AllSpace(w) && AllSpace(u) && BlankEnds(w + v + u)
    ensures AllBlank(w) && AllBlank(u)
  {
    var rest := w + v + u;
    forall i | 0 <= i < |w| ensures IsBlank(w[i]) {
      assert rest[..i + 1] == w[..i + 1] && rest[i] == w[i];
    }
    forall i | 0 <= i < |u| ensures IsBlank(u[i]) {
      var k := |w| + |v| + i;
      assert rest[k..] == u[i..] && rest[k] == u[i];
    }
  }

  /** If the white space at both ends is blank, every way of splitting it off gives the same trimmed capture. */
  lemma CaptureUnique(w: string, v: string, u: string)
    requires AllSpace(w) && AllSpace(u) && v != "" && BlankEnds(w + v + u)
    ensures Trimmed(Captured(w + v + u)) == Trimmed(v)
  {
    hide BlankEnds;
    var rest := w + v + u;
    var c := Captured(rest);
    var l := rest[..|rest| - |c|];
    assert rest == l + c + "";
    BlankFrame(w, v, u);
    BlankFrame(l, c, "");
    TrimmedPadded(w, v, u);
    TrimmedPadded(l, c, "");
  }

  // ----- `name = value` and `name += value` -----

  function Operator(plus: bool): string {
    if plus then "+=" else "="
  }

  /** A way the setting pattern (with `=` or `+=`) can match the whole line. */
  ghost predicate AssignSplit(line: string, plus: bool,
                              w1: string, key: string, w2: string, w3: string, v: string, w4: string) {
    && AllSpace(w1) && AllSpace(w2) && AllSpace(w3) && AllSpace(w4)
    && key != "" && AllName(key) && v != ""
    && line == w1 + (key + (w2 + (Operator(plus) + (w3 + v + w4))))
  }

  datatype Setting = Setting(key: string, value: string)

  /** The name at the start of a line, after white space, and what follows the white space after it. */
  function NameAndRest(line: string): (string, string) {
    var s1 := line[SpaceRun(line)..];
    var n := NameRun(s1);
    var s2 := s1[n..];
    (s1[..n], s2[SpaceRun(s2)..])
  }

  /** What the matcher returns: the name and the captured value. */
  function ParseAssign(line: string, plus: bool): Option<Setting> {
    var (key, rest) := NameAndRest(line);
    var op := Operator(plus);
    if key != "" && |rest| > |op| && rest[..|op|] == op then Some(Setting(key, Captured(rest[|op|..]))) else None
  }

  lemma NameAndRestOf(w1: string, key: string, w2: string, rest: string)
    requires AllSpace(w1) && AllSpace(w2) && AllName(key) && key != ""
    requires rest != "" && !IsSpace(rest[0]) && !IsName(rest[0])
    ensures NameAndRest(w1 + (key + (w2 + rest))) == (key, rest)
  {
    var tail := w2 + rest;
    assert IsName(key[0]) && tail[0] == if w2 != "" then w2[0] else rest[0];
    SpaceRunIs(w1, key + tail);
    NameRunIs(key, tail);
    SpaceRunIs(w2, rest);
  }

  /** Every split has the same name, and its value comes from the same rest of the line. */
  lemma AssignSplitFound(line: string, plus: bool,
                         w1: string, key: string, w2: string, w3: string, v: string, w4: string)
    requires AssignSplit(line, plus, w1, key, w2, w3, v, w4)
    ensures ParseAssign(line, plus) == Some(Setting(key, Captured(w3 + v + w4)))
    ensures NameAndRest(line) == (key, Operator(plus) + (w3 + v + w4))
  {
    var op := Operator(plus);
    var rest := w3 + v + w4;
    NameAndRestOf(w1, key, w2, op + rest);
    assert (op + rest)[|op|..] == rest && (op + rest)[..|op|] == op;
  }

  lemma NameAndRestParts(line: string) returns (w1: string, w2: string)
    ensures AllSpace(w1) && AllSpace(w2) && AllName(NameAndRest(line).0)
    ensures line == w1 + (NameAndRest(line).0 + (w2 + NameAndRest(line).1))
  {
    hide SpaceRun, NameRun;
    var s1 := line[SpaceRun(line)..];
    var s2 := s1[NameRun(s1)..];
    w1, w2 := line[..SpaceRun(line)], s2[..SpaceRun(s2)];
    Cut(line, SpaceRun(line));
    Cut(s1, NameRun(s1));
    Cut(s2, SpaceRun(s2));
  }

  /** What the matcher returns is one of the splits. */
  lemma AssignParsedSplit(line: string, plus: bool) returns (w1: string, w2: string, w3: string)
    requires ParseAssign(line, plus).Some?
    ensures var m := ParseAssign(line, plus).value; AssignSplit(line, plus, w1, m.key, w2, w3, m.value, "")
  {
    hide SpaceRun, NameRun, NameAndRest, Captured;
    w1, w2 := NameAndRestParts(line);
    var op := Operator(plus);
    var tail := NameAndRest(line).1;
    var rest := tail[|op|..];
    var v := Captured(rest);
    w3 := rest[..|rest| - |v|];
    Cut(tail, |op|);
    Cut(rest, |rest| - |v|);
    assert w3 + v + "" == w3 + v;
  }

  /** The name and the trimmed value are the same for every way the pattern can match. */
  lemma AssignUnique(line: string, plus: bool, w1: string, key: string, w2: string, w3: string, v: string, w4: string)
    requires AssignSplit(line, plus, w1, key, w2, w3, v, w4) && Plain(line)
    ensures ParseAssign(line, plus).Some?
    ensures ParseAssign(line, plus).value.key == key
    ensures Trimmed(ParseAssign(line, plus).value.value) == Trimmed(v)
  {
    AssignSplitFound(line, plus, w1, key, w2, w3, v, w4);
    var r4 := Operator(plus) + (w3 + v + w4);
    PlainRight(w1, key + (w2 + r4));
    PlainRight(key, w2 + r4);
    PlainRight(w2, r4);
    PlainRight(Operator(plus), w3 + v + w4);
    PlainBlankEnds(w3 + v + w4);
    CaptureUnique(w3, v, w4);
  }

  /** `name = value` and `name += value` never both match. */
  lemma AssignFormsDisjoint(line: string)
    ensures !(ParseAssign(line, false).Some? && ParseAssign(line, true).Some?)
  {
    var rest := NameAndRest(line).1;
    assert |rest| >= 2 ==> rest[..1][0] == rest[0] && rest[..2][0] == rest[0];
  }

  /** With white space that `trim` does not strip the split matters: the value of "a=\rx" is "x" in one
      split and "\rx" in another. */
  lemma CarriageReturnMatters()
    ensures AssignSplit("a=\rx", false, "", "a", "", "\r", "x", "")
    ensures AssignSplit("a=\rx", false, "", "a", "", "", "\rx", "")
    ensures Trimmed("x") != Trimmed("\rx")
  {
    TrimmedTight("x");
    TrimmedTight("\rx");
    assert "a=\rx" == "" + ("a" + ("" + ("=" + ("\r" + "x" + ""))));
    assert "a=\rx" == "" + ("a" + ("" + ("=" + ("" + "\rx" + ""))));
  }

  // ----- `include file` -----

  const INCLUDE_WORD := "include"

  ghost predicate IncludeSplit(line: string, w1: string, w2: string, v: string, w3: string) {
    && AllSpace(w1) && AllSpace(w2) && AllSpace(w3) && w2 != "" && v != ""
    && line == w1 + (INCLUDE_WORD + (w2 + v + w3))
  }

  /** What the include pattern captures; its `\s+` keeps at least one character. */
  function ParseInclude(line: string): Option<string> {
    var s1 := line[SpaceRun(line)..];
    if |s1| < |INCLUDE_WORD| + 2 || s1[..|INCLUDE_WORD|] != INCLUDE_WORD || !IsSpace(s1[|INCLUDE_WORD|]) then None
    else Some(Captured(s1[|INCLUDE_WORD| + 1..]))
  }

  lemma IncludeSplitFound(line: string, w1: string, w2: string, v: string, w3: string)
    requires IncludeSplit(line, w1, w2, v, w3)
    ensures ParseInclude(line) == Some(Captured(w2[1..] + v + w3))
  {
    var s1 := INCLUDE_WORD + (w2 + v + w3);
    SpaceRunIs(w1, s1);
    assert s1[|INCLUDE_WORD|] == w2[0] && s1[..|INCLUDE_WORD|] == INCLUDE_WORD;
    assert s1[|INCLUDE_WORD| + 1..] == w2[1..] + v + w3;
  }

  lemma IncludeParsedSplit(line: string) returns (w1: string, w2: string)
    requires ParseInclude(line).Some?
    ensures IncludeSplit(line, w1, w2, ParseInclude(line).value, "")
  {
    hide SpaceRun, Captured;
    var a := SpaceRun(line);
    var s1 := line[a..];
    var rest := s1[|INCLUDE_WORD| + 1..];
    var v := Captured(rest);
    var w := rest[..|rest| - |v|];
    w1, w2 := line[..a], [s1[|INCLUDE_WORD|]] + w;
    assert s1 == INCLUDE_WORD + (w2 + v + "");
  }

  /** The trimmed file name is the same for every way the pattern can match. */
  lemma IncludeUnique(line: string, w1: string, w2: string, v: string, w3: string)
    requires IncludeSplit(line, w1, w2, v, w3) && Plain(line)
    ensures ParseInclude(line).Some? && Trimmed(ParseInclude(line).value) == Trimmed(v)
  {
    IncludeSplitFound(line, w1, w2, v, w3);
    PlainRight(w1, INCLUDE_WORD + (w2 + v + w3));
    PlainRight(INCLUDE_WORD, w2 + v + w3);
    Cut(w2, 1);
    Regroup(w2[..1], w2[1..], v);
    Regroup(w2[..1], w2[1..] + v, w3);
    PlainRight(w2[..1], w2[1..] + v + w3);
    PlainBlankEnds(w2[1..] + v + w3);
    CaptureUnique(w2[1..], v, w3);
  }

  // ----- a line -----

  /** What `parse_line` takes a line for, trying the include form first. */
  datatype Line =
    | Blank
    | Include(name: string)
    | Assign(key: string, value: string)
    | Append(key: string, value: string)
    | Malformed

  function Classify(line: string): Line {
    match ParseInclude(line)
    case Some(name) => Include(Trimmed(name))
    case None =>
      match ParseAssign(line, false)
      case Some(s) => Assign(s.key, Trimmed(s.value))
      case None =>
        match ParseAssign(line, true)
        case Some(s) => Append(s.key, Trimmed(s.value))
        case None => Malformed
  }

  /** A line with nothing left after its comment is cut off is skipped, as is one starting with NUL. */
  predicate Skipped(line: string) {
    line == "" || line[0] == '\0'
  }

  /** What `parse_istream` makes of a raw line. */
  function ReadLine(raw: string): Line {
    var line := Uncommented(raw);
    if Skipped(line) then Blank else Classify(line)
  }

  // ----- rendering -----

  predicate LegalKey(k: string) {
    k != "" && forall i :: 0 <= i < |k| ==> IsName(k[i])
  }

  /** Trimmed, not empty, without comment characters and line breaks, not starting with white space. */
  predicate CleanValue(v: string) {
    && v != "" && Tight(v) && !IsSpace(v[0])
    && forall i :: 0 <= i < |v| ==> !IsCommentStart(v[i]) && v[i] != '\n'
  }

  lemma UncommentedClean(s: string)
    requires Tight(s) && forall i :: 0 <= i < |s| ==> !IsCommentStart(s[i])
    ensures Uncommented(s) == s
  {
    assert BeforeComment(s) == s;
    TrimmedTight(s);
  }

  lemma CapturedWhole(v: string)
    requires v != "" && !IsSpace(v[0])
    ensures Captured(v) == v
  {
    SpaceRunIs("", v);
    assert "" + v == v;
  }

  lemma RenderedAssign(k: string, v: string, plus: bool)
    requires LegalKey(k) && CleanValue(v)
    ensures ParseAssign(k + Operator(plus) + v, plus) == Some(Setting(k, v))
  {
    hide SpaceRun, NameRun, NameAndRest, Captured;
    var op := Operator(plus);
    NameAndRestOf("", k, "", op + v);
    assert "" + (k + ("" + (op + v))) == k + op + v;
    assert (op + v)[..|op|] == op && (op + v)[|op|..] == v;
    CapturedWhole(v);
  }

  /** The include word at the start of a name and its continuation lies within the name. */
  lemma IncludeInName(k: string, tail: string)
    requires tail != "" && !IsName(tail[0])
    requires |INCLUDE_WORD| <= |k + tail| && (k + tail)[..|INCLUDE_WORD|] == INCLUDE_WORD
    ensures |INCLUDE_WORD| <= |k| && k[..|INCLUDE_WORD|] == INCLUDE_WORD
  {
    var n := |INCLUDE_WORD|;
    assert forall i :: 0 <= i < n ==> IsName(INCLUDE_WORD[i]) && (k + tail)[..n][i] == (k + tail)[i];
    assert (k + tail)[|k|] == tail[0];
    assert (k + tail)[..n] == k[..n];
  }

  /** A line starting with a name starts with no white space. */
  lemma NoLeadingSpace(k: string, tail: string)
    requires LegalKey(k)
    ensures SpaceRun(k + tail) == 0 && (k + tail)[0..] == k + tail
  {
    assert (k + tail)[0] == k[0] && IsName(k[0]);
  }

  /** A name that is not `include`, or not followed by white space, makes no include line. */
  lemma NotInclude(k: string, tail: string)
    requires LegalKey(k) && tail != "" && !IsName(tail[0]) && (k != INCLUDE_WORD || !IsSpace(tail[0]))
    ensures ParseInclude(k + tail).None?
  {
    var line, n := k + tail, |INCLUDE_WORD|;
    NoLeadingSpace(k, tail);
    if |line| >= n + 2 && line[..n] == INCLUDE_WORD {
      IncludeInName(k, tail);
      if |k| == n {
        assert k[..n] == k && line[n] == tail[0];
      } else {
        assert line[n] == k[n] && IsName(k[n]);
      }
    }
  }

  lemma ClassifyAssign(line: string, plus: bool, k: string, v: string)
    requires ParseInclude(line).None? && ParseAssign(line, plus) == Some(Setting(k, v)) && Trimmed(v) == v
    ensures Classify(line) == if plus then Append(k, v) else Assign(k, v)
  {
    AssignFormsDisjoint(line);
  }

  /** A line rendered as `key=value` or `key+=value` is read back as that setting. */
  lemma RenderedLine(k: string, v: string, plus: bool)
    requires LegalKey(k) && CleanValue(v)
    ensures Uncommented(k + Operator(plus) + v) == k + Operator(plus) + v
    ensures (k + Operator(plus) + v)[0] != '\0'
    ensures Classify(k + Operator(plus) + v) == if plus then Append(k, v) else Assign(k, v)
  {
    hide ParseAssign, ParseInclude, Uncommented;
    var line := k + Operator(plus) + v;
    TightLine(k, Operator(plus), v);
    Regroup(k, Operator(plus), v);
    RenderedAssign(k, v, plus);
    NotInclude(k, Operator(plus) + v);
    TrimmedTight(v);
    ClassifyAssign(line, plus, k, v);
  }

  /** A rendered line has no comment and nothing to trim. */
  lemma TightLine(k: string, op: string, v: string)
    requires LegalKey(k) && CleanValue(v) && forall i :: 0 <= i < |op| ==> !IsCommentStart(op[i])
    ensures Uncommented(k + op + v) == k + op + v && (k + op + v)[0] != '\0'
  {
    var line := k + op + v;
    assert line[0] == k[0] && IsName(k[0]) && line[|line| - 1] == v[|v| - 1];
    forall i | 0 <= i < |line| ensures !IsCommentStart(line[i]) {
      if i < |k| {
        assert line[i] == k[i] && IsName(k[i]);
      } else if i < |k| + |op| {
        assert line[i] == op[i - |k|];
      } else {
        assert line[i] == v[i - |k| - |op|];
      }
    }
    UncommentedClean(line);
  }

  // ----- any value at all -----

  lemma {:induction false} BeforeCommentSkips(a: string, s: string)
    requires forall i :: 0 <= i < |a| ==> !IsCommentStart(a[i])
    ensures BeforeComment(a + s) == a + BeforeComment(s)
  {
    if a == "" {
      assert a + s == s && a + BeforeComment(s) == BeforeComment(s);
    } else {
      assert (a + s)[1..] == a[1..] + s;
      BeforeCommentSkips(a[1..], s);
      assert [a[0]] + (a[1..] + BeforeComment(s)) == a + BeforeComment(s);
    }
  }

  lemma HeadHasNoComment(k: string, plus: bool)
    requires LegalKey(k)
    ensures forall i :: 0 <= i < |k + Operator(plus)| ==> !IsCommentStart((k + Operator(plus))[i])
    ensures k + Operator(plus) != "" && Tight(k + Operator(plus))
  {
    var head := k + Operator(plus);
    assert forall i :: 0 <= i < |k| ==> IsName(k[i]);
    assert forall i :: 0 <= i < |head| ==> head[i] == if i < |k| then k[i] else Operator(plus)[i - |k|];
  }

  /** Trimming a text in front of which something tight stands. */
  lemma TrimmedAfter(head: string, l: string, t: string, r: string)
    requires head != "" && Tight(head) && AllBlank(l) && AllBlank(r) && Tight(t)
    ensures Trimmed(head + (l + t + r)) == if t == "" then head else head + (l + t)
  {
    if t == "" {
      assert head + (l + t + r) == "" + head + (l + r);
      TrimmedUnique("", head, l + r);
    } else {
      var tight := head + (l + t);
      assert head + (l + t + r) == "" + tight + r;
      assert tight[0] == head[0] && tight[|tight| - 1] == t[|t| - 1];
      TrimmedUnique("", tight, r);
    }
  }

  /** What is left of `key=value` when its comment is cut off: the value loses its own comment and the
      blanks at its end, and with them all of it if nothing else is left. */
  lemma UncommentedSetting(k: string, plus: bool, v: string) returns (l: string, r: string)
    requires LegalKey(k)
    ensures AllBlank(l) && AllBlank(r) && BeforeComment(v) == l + Uncommented(v) + r
    ensures Uncommented(k + Operator(plus) + v)
         == if Uncommented(v) == "" then k + Operator(plus) else k + Operator(plus) + (l + Uncommented(v))
  {
    hide BeforeComment, Trimmed, Operator, LegalKey, IsCommentStart;
    var head := k + Operator(plus);
    HeadHasNoComment(k, plus);
    BeforeCommentSkips(head, v);
    TrimmedParts(BeforeComment(v));
    l, r :| AllBlank(l) && AllBlank(r) && BeforeComment(v) == l + Uncommented(v) + r;
    TrimmedAfter(head, l, Uncommented(v), r);
  }

  lemma ParsePadded(k: string, plus: bool, l: string, t: string)
    requires LegalKey(k) && AllBlank(l) && t != "" && Tight(t) && Plain(l + t)
    ensures ParseAssign(k + Operator(plus) + (l + t), plus).Some?
    ensures ParseAssign(k + Operator(plus) + (l + t), plus).value.key == k
    ensures Trimmed(ParseAssign(k + Operator(plus) + (l + t), plus).value.value) == t
  {
    hide ParseAssign, Captured, Trimmed, Plain, BlankEnds, NameAndRest;
    var line := k + Operator(plus) + (l + t);
    assert l + t + "" == l + t;
    assert line == "" + (k + ("" + (Operator(plus) + (l + t + ""))));
    AssignSplitFound(line, plus, "", k, "", l, t, "");
    PlainBlankEnds(l + t + "");
    CaptureUnique(l, t, "");
    TrimmedTight(t);
  }

  /** A name and an operator alone are no setting. */
  lemma ParseNothing(k: string, plus: bool, other: bool)
    requires LegalKey(k)
    ensures ParseAssign(k + Operator(plus), other).None?
  {
    hide SpaceRun, NameRun, Captured, NameAndRest;
    NameAndRestOf("", k, "", Operator(plus));
    assert "" + (k + ("" + Operator(plus))) == k + Operator(plus);
    assert Operator(plus)[..1][0] == Operator(plus)[0];
  }

  lemma ClassifyPadded(line: string, plus: bool, k: string, t: string)
    requires ParseInclude(line).None? && ParseAssign(line, plus).Some?
    requires ParseAssign(line, plus).value.key == k && Trimmed(ParseAssign(line, plus).value.value) == t
    ensures Classify(line) == if plus then Append(k, t) else Assign(k, t)
  {
    hide ParseInclude, ParseAssign, Trimmed;
    AssignFormsDisjoint(line);
  }

  lemma PlainParts(v: string, l: string, t: string, r: string)
    requires Plain(v) && BeforeComment(v) == l + t + r
    ensures Plain(l + t)
  {
    var n := |l + t|;
    assert forall i :: 0 <= i < n ==> (l + t)[i] == (l + t + r)[i] == v[i];
  }

  /** What the reader makes of `key=value` or `key+=value` for every value whose white space is plain: the value
      without its comment, trimmed, or a format error if nothing is left of it. */
  lemma SettingRead(k: string, v: string, plus: bool)
    requires LegalKey(k) && Plain(v)
    ensures ReadLine(k + Operator(plus) + v) ==
      if Uncommented(v) == "" then Malformed
      else if plus then Append(k, Uncommented(v)) else Assign(k, Uncommented(v))
  {
    hide ParseInclude, ParseAssign, Classify, Uncommented;
    var l, r := UncommentedSetting(k, plus, v);
    var t := Uncommented(v);
    var tail := if t == "" then "" else l + t;
    var line := k + Operator(plus) + tail;
    assert line[0] == k[0] && IsName(k[0]);
    Regroup(k, Operator(plus), tail);
    NotInclude(k, Operator(plus) + tail);
    if t == "" {
      assert line == k + Operator(plus);
      NothingSet(k, plus);
    } else {
      PlainParts(v, l, t, r);
      UncommentedTight(v);
      ParsePadded(k, plus, l, t);
      ClassifyPadded(line, plus, k, t);
    }
  }

  lemma UncommentedTight(v: string)
    ensures Tight(Uncommented(v))
  {
    TrimmedParts(BeforeComment(v));
  }

  lemma NothingSet(k: string, plus: bool)
    requires LegalKey(k) && ParseInclude(k + Operator(plus)).None?
    ensures Classify(k + Operator(plus)) == Malformed
  {
    hide ParseInclude, ParseAssign;
    ParseNothing(k, plus, false);
    ParseNothing(k, plus, true);
  }

  lemma NothingCut(v: string)
    requires Uncommented(v) == v
    ensures BeforeComment(v) == v && Tight(v)
  {
    hide Trimmed;
    TrimmedParts(BeforeComment(v));
  }

  lemma UncommentedIsClean(v: string)
    requires Plain(v) && Uncommented(v) == v && v != ""
    ensures CleanValue(v)
  {
    hide Uncommented;
    NothingCut(v);
    assert forall i :: 0 <= i < |BeforeComment(v)| ==> !IsCommentStart(v[i]);
  }

  /** A value is its own uncommented form exactly if it is clean. */
  lemma CleanExactly(v: string)
    requires Plain(v)
    ensures Uncommented(v) == v != "" <==> CleanValue(v)
  {
    if CleanValue(v) {
      UncommentedClean(v);
    } else {
      assert !(Uncommented(v) == v && v != "") by {
        if Uncommented(v) == v && v != "" {
          UncommentedIsClean(v);
        }
      }
    }
  }

  /** With spaces around the operator, as in all the shipped configuration files, the same holds of
      every key but one: a line setting `include` is taken for an include line. */
  lemma SpacedLine(k: string, v: string)
    requires LegalKey(k) && CleanValue(v)
    ensures Uncommented(k + " = " + v) == k + " = " + v
    ensures Classify(k + " = " + v) == if k == INCLUDE_WORD then Include("= " + v) else Assign(k, v)
  {
    TightLine(k, " = ", v);
    if k == INCLUDE_WORD {
      SpacedGroups(INCLUDE_WORD, v);
      SpacedInclude(k + " = " + v, "= " + v);
    } else {
      Regroup(k, " = ", v);
      NotInclude(k, " = " + v);
      SpacedAssign(k, v);
      TrimmedTight(v);
      ClassifyAssign(k + " = " + v, false, k, v);
    }
  }

  lemma SpacedAssign(k: string, v: string)
    requires LegalKey(k) && CleanValue(v)
    ensures ParseAssign(k + " = " + v, false) == Some(Setting(k, v))
  {
    var rest := "=" + (" " + v);
    NameAndRestOf("", k, " ", rest);
    SpacedGroups(k, v);
    Uncut("=", " " + v);
    CapturedAfterSpace(v);
  }

  lemma SpacedGroups(k: string, v: string)
    ensures k + " = " + v == "" + (k + (" " + ("=" + (" " + v))))
    ensures k + " = " + v == "" + (k + (" " + ("= " + v) + ""))
  {
  }

  lemma CapturedAfterSpace(v: string)
    requires v != "" && !IsSpace(v[0])
    ensures Captured(" " + v) == v
  {
    SpaceRunIs(" ", v);
  }

  lemma SpacedIncludeSplit(line: string, name: string)
    requires line == "" + (INCLUDE_WORD + (" " + name + "")) && name != "" && !IsSpace(name[0])
    ensures ParseInclude(line) == Some(name)
  {
    hide SpaceRun, Captured, ParseInclude;
    IncludeSplitFound(line, "", " ", name, "");
    assert " "[1..] + name + "" == name;
    CapturedWhole(name);
  }

  lemma SpacedInclude(line: string, name: string)
    requires line == "" + (INCLUDE_WORD + (" " + name + "")) && name != "" && !IsSpace(name[0]) && Tight(name)
    ensures Classify(line) == Include(name)
  {
    SpacedIncludeSplit(line, name);
    TrimmedTight(name);
    ClassifyInclude(line, name);
  }

  lemma ClassifyInclude(line: string, name: string)
    requires ParseInclude(line) == Some(name) && Trimmed(name) == name
    ensures Classify(line) == Include(name)
  {
  }
}
