/** Exactly when a setting does not depend on how the matcher of sources/property_reader/property_reader.cpp
    splits the line.  `trim` strips only some of the white space that `\s` matches, so it can. */
module PropertySplits {
  import opened PropertyText
  import opened PropertyLine

  /** A way `\s*(.+)\s*` can match rest, capturing v. */
  ghost predicate CaptureSplit(rest: string, w: string, v: string, u: string) {
    AllSpace(w) && AllSpace(u) && v != "" && rest == w + v + u
  }

  /** All ways give the same trimmed capture. */
  ghost predicate SplitIrrelevant(rest: string)
    requires rest != ""
  {
    forall w, v, u :: CaptureSplit(rest, w, v, u) ==> Trimmed(v) == Trimmed(Captured(rest))
  }

  /** A character that is no blank at one end makes the trimmed text longer. */
  lemma TrimmedLonger(c: char, s: string)
    requires !IsBlank(c)
    ensures |Trimmed([c] + s)| > |Trimmed(s)| && |Trimmed(s + [c])| > |Trimmed(s)|
  {
    TrimmedParts(s);
    var t := Trimmed(s);
    var a, b :| AllBlank(a) && AllBlank(b) && s == a + t + b;
    if t == "" {
      assert [c] + s == "" + [c] + (a + b) && s + [c] == (a + b) + [c] + "";
      TrimmedUnique("", [c], a + b);
      TrimmedUnique(a + b, [c], "");
    } else {
      assert [c] + s == "" + ([c] + (a + t)) + b && s + [c] == a + (t + (b + [c])) + "";
      TrimmedUnique("", [c] + (a + t), b);
      TrimmedUnique(a, t + (b + [c]), "");
    }
  }

  lemma AllSpaceWithin(s: string, i: nat, j: nat)
    requires AllSpace(s) && i <= j <= |s|
    ensures AllSpace(s[i..j])
  {
  }

  lemma CapturesDiffer(rest: string, w: string, v: string, u: string, w': string, v': string, u': string)
    requires CaptureSplit(rest, w, v, u) && CaptureSplit(rest, w', v', u') && Trimmed(v) != Trimmed(v')
    ensures rest != "" && !SplitIrrelevant(rest)
  {
    hide Trimmed, Captured;
  }

  /** Where white space in front is no blank two captures differ after trimming. */
  lemma LeadingMatters(rest: string, i: nat)
    requires i + 1 < |rest| && AllSpace(rest[..i + 1]) && !IsBlank(rest[i])
    ensures !SplitIrrelevant(rest)
  {
    hide SplitIrrelevant, Trimmed;
    var v, v' := rest[i..], rest[i + 1..];
    AllSpaceWithin(rest[..i + 1], 0, i);
    assert rest[..i + 1][..i] == rest[..i];
    assert rest == rest[..i] + v + "" && rest == rest[..i + 1] + v' + "";
    assert v == [rest[i]] + v';
    TrimmedLonger(rest[i], v');
    CapturesDiffer(rest, rest[..i], v, "", rest[..i + 1], v', "");
  }

  lemma TrailingMatters(rest: string, i: nat)
    requires 0 < i < |rest| && AllSpace(rest[i..]) && !IsBlank(rest[i])
    ensures !SplitIrrelevant(rest)
  {
    hide SplitIrrelevant, Trimmed;
    var v, v' := rest[..i + 1], rest[..i];
    AllSpaceWithin(rest[i..], 1, |rest| - i);
    assert rest[i..][1..] == rest[i + 1..];
    assert rest == "" + v + rest[i + 1..] && rest == "" + v' + rest[i..];
    assert v == v' + [rest[i]];
    TrimmedLonger(rest[i], v');
    CapturesDiffer(rest, "", v, rest[i + 1..], "", v', rest[i..]);
  }

  /** A single character can be captured in one way only; of a longer text the trimmed capture is the same for
      every split if and only if the white space at both ends is blank. */
  lemma CaptureUniqueExactly(rest: string)
    requires rest != ""
    ensures SplitIrrelevant(rest) <==> BlankEnds(rest) || |rest| == 1
  {
    if BlankEnds(rest) || |rest| == 1 {
      forall w, v, u | CaptureSplit(rest, w, v, u) ensures Trimmed(v) == Trimmed(Captured(rest)) {
        if |rest| == 1 {
          assert w + v + u == v;
        } else {
          CaptureUnique(w, v, u);
        }
      }
    } else if i :| 0 <= i < |rest| && AllSpace(rest[..i + 1]) && !IsBlank(rest[i]) {
      if i + 1 < |rest| {
        LeadingMatters(rest, i);
      } else {
        AllSpaceWithin(rest[..i + 1], i, i + 1);
        assert rest[..i + 1][i..] == rest[i..];
        TrailingMatters(rest, i);
      }
    } else {
      var i :| 0 <= i < |rest| && AllSpace(rest[i..]) && !IsBlank(rest[i]);
      assert rest[..1][0] == rest[0] == rest[0..][0];
      TrailingMatters(rest, i);
    }
  }

  /** What follows the operator of a line that is a setting. */
  function AfterOperator(line: string, plus: bool): (rest: string)
    requires ParseAssign(line, plus).Some?
    ensures rest != "" && ParseAssign(line, plus).value.value == Captured(rest)
  {
    NameAndRest(line).1[|Operator(plus)|..]
  }

  /** The splits of the line are those of what follows the operator. */
  lemma LineSplits(line: string, plus: bool, w3: string, v: string, w4: string)
    requires ParseAssign(line, plus).Some?
    ensures CaptureSplit(AfterOperator(line, plus), w3, v, w4) <==>
            exists w1, key, w2 :: AssignSplit(line, plus, w1, key, w2, w3, v, w4)
  {
    hide ParseAssign, NameAndRest, Captured;
    var rest := AfterOperator(line, plus);
    if CaptureSplit(rest, w3, v, w4) {
      var w1, w2 := OperatorParts(line, plus);
      assert AssignSplit(line, plus, w1, NameOf(line), w2, w3, v, w4);
    }
    if w1, key, w2 :| AssignSplit(line, plus, w1, key, w2, w3, v, w4) {
      AssignSplitFound(line, plus, w1, key, w2, w3, v, w4);
      AfterFound(line, plus, key, w3 + v + w4);
    }
  }

  function NameOf(line: string): string {
    NameAndRest(line).0
  }

  lemma AfterFound(line: string, plus: bool, key: string, rest: string)
    requires ParseAssign(line, plus).Some? && NameAndRest(line) == (key, Operator(plus) + rest)
    ensures AfterOperator(line, plus) == rest
  {
    Uncut(Operator(plus), rest);
  }

  lemma OperatorParts(line: string, plus: bool) returns (w1: string, w2: string)
    requires ParseAssign(line, plus).Some?
    ensures AllSpace(w1) && AllSpace(w2) && AllName(NameOf(line)) && NameOf(line) != ""
    ensures line == w1 + (NameOf(line) + (w2 + (Operator(plus) + AfterOperator(line, plus))))
  {
    hide NameAndRest, Captured;
    w1, w2 := NameAndRestParts(line);
    Cut(NameAndRest(line).1, |Operator(plus)|);
  }

  /** The trimmed value of a setting is the same for every way the pattern can match the line if and only if the
      white space at both ends of what follows the operator is blank, or that is a single character. */
  lemma AssignUniqueExactly(line: string, plus: bool)
    requires ParseAssign(line, plus).Some?
    ensures (forall w1, key, w2, w3, v, w4 :: AssignSplit(line, plus, w1, key, w2, w3, v, w4) ==>
               Trimmed(v) == Trimmed(ParseAssign(line, plus).value.value))
       <==> BlankEnds(AfterOperator(line, plus)) || |AfterOperator(line, plus)| == 1
  {
    hide ParseAssign, AssignSplit, CaptureSplit, BlankEnds, Trimmed, Captured;
    var rest := AfterOperator(line, plus);
    CaptureUniqueExactly(rest);
    if SplitIrrelevant(rest) {
      forall w1, key, w2, w3, v, w4 | AssignSplit(line, plus, w1, key, w2, w3, v, w4)
        ensures Trimmed(v) == Trimmed(ParseAssign(line, plus).value.value)
      {
        LineSplits(line, plus, w3, v, w4);
      }
    } else {
      var w3, v, w4 :| CaptureSplit(rest, w3, v, w4) && Trimmed(v) != Trimmed(Captured(rest));
      LineSplits(line, plus, w3, v, w4);
      var w1, key, w2 :| AssignSplit(line, plus, w1, key, w2, w3, v, w4);
    }
  }

  // ----- the same for include lines -----

  /** What follows the first white space after the include word. */
  function AfterInclude(line: string): (rest: string)
    requires ParseInclude(line).Some?
    ensures rest != "" && ParseInclude(line).value == Captured(rest)
  {
    line[SpaceRun(line)..][|INCLUDE_WORD| + 1..]
  }

  lemma IncludeLineSplit(line: string, w1: string, w2: string, v: string, w3: string) returns (w: string)
    requires IncludeSplit(line, w1, w2, v, w3)
    ensures ParseInclude(line).Some? && CaptureSplit(AfterInclude(line), w, v, w3)
  {
    hide Captured, SpaceRun;
    w := w2[1..];
    IncludeSplitFound(line, w1, w2, v, w3);
    var s1 := INCLUDE_WORD + (w2 + v + w3);
    SpaceRunIs(w1, s1);
    assert s1[|INCLUDE_WORD| + 1..] == w2[1..] + v + w3;
  }

  lemma CaptureOfInclude(line: string, w: string, v: string, u: string) returns (w1: string, w2: string)
    requires ParseInclude(line).Some? && CaptureSplit(AfterInclude(line), w, v, u)
    ensures IncludeSplit(line, w1, w2, v, u)
  {
    hide SpaceRun, Captured;
    var a, n := SpaceRun(line), |INCLUDE_WORD|;
    var s1 := line[a..];
    w1, w2 := line[..a], [s1[n]] + w;
    Cut(line, a);
    Cut(s1, n);
    assert s1[n..] == [s1[n]] + s1[n + 1..];
    assert [s1[n]] + (w + v + u) == w2 + v + u;
  }

  /** And the trimmed file name of an include line. */
  lemma IncludeUniqueExactly(line: string)
    requires ParseInclude(line).Some?
    ensures (forall w1, w2, v, w3 :: IncludeSplit(line, w1, w2, v, w3) ==>
               Trimmed(v) == Trimmed(ParseInclude(line).value))
       <==> BlankEnds(AfterInclude(line)) || |AfterInclude(line)| == 1
  {
    hide ParseInclude, IncludeSplit, CaptureSplit, BlankEnds, Trimmed, Captured;
    var rest := AfterInclude(line);
    CaptureUniqueExactly(rest);
    if SplitIrrelevant(rest) {
      forall w1, w2, v, w3 | IncludeSplit(line, w1, w2, v, w3)
        ensures Trimmed(v) == Trimmed(ParseInclude(line).value)
      {
        var w := IncludeLineSplit(line, w1, w2, v, w3);
      }
    } else {
      var w, v, u :| CaptureSplit(rest, w, v, u) && Trimmed(v) != Trimmed(Captured(rest));
      var w1, w2 := CaptureOfInclude(line, w, v, u);
    }
  }
}
