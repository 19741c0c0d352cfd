/** What sources/property_reader/property_reader.cpp takes a line for, in terms of its characters: the three regular
    expressions written out, each matching a line if some split of the line fits it. */
module PropertyGrammar {
  import opened Common
  import opened PropertyText
  import opened PropertyLine

  const SPACES := " \t\n\r\U{0B}\U{0C}"

  ghost predicate Spaces(s: string) {
    forall i :: 0 <= i < |s| ==> s[i] in SPACES
  }

  /** A text of letters, digits, dots and underscores. */
  ghost predicate Name(s: string) {
    forall i :: 0 <= i < |s| ==>
      'a' <= s[i] <= 'z' || 'A' <= s[i] <= 'Z' || '0' <= s[i] <= '9' || s[i] == '.' || s[i] == '_'
  }

  /** `\s*([a-zA-Z0-9._]+)\s*OP\s*(.+)\s*` matches the line, capturing key and v. */
  ghost predicate SettingText(line: string, op: string, key: string, v: string) {
    exists w1, w2, w3, w4 ::
      && Spaces(w1) && Spaces(w2) && Spaces(w3) && Spaces(w4)
      && key != "" && Name(key) && v != ""
      && line == w1 + (key + (w2 + (op + (w3 + v + w4))))
  }

  /** `\s*include\s+(.+)\s*` matches the line, capturing v. */
  ghost predicate IncludeText(line: string, v: string) {
    exists w1, w2, w3 ::
      && Spaces(w1) && Spaces(w2) && Spaces(w3) && w2 != "" && v != ""
      && line == w1 + ("include" + (w2 + v + w3))
  }

  function Op(plus: bool): string {
    if plus then "+=" else "="
  }

  lemma SplitIsText(line: string, plus: bool,
                    w1: string, key: string, w2: string, w3: string, v: string, w4: string)
    requires AssignSplit(line, plus, w1, key, w2, w3, v, w4)
    ensures SettingText(line, Op(plus), key, v)
  {
    assert Spaces(w1) && Spaces(w2) && Spaces(w3) && Spaces(w4) && Name(key);
  }

  lemma TextIsSplit(line: string, plus: bool, key: string, v: string)
    returns (w1: string, w2: string, w3: string, w4: string)
    requires SettingText(line, Op(plus), key, v)
    ensures AssignSplit(line, plus, w1, key, w2, w3, v, w4)
  {
    hide Spaces, AllSpace, Name, AllName;
    w1, w2, w3, w4 :|
      && Spaces(w1) && Spaces(w2) && Spaces(w3) && Spaces(w4)
      && key != "" && Name(key) && v != ""
      && line == w1 + (key + (w2 + (Op(plus) + (w3 + v + w4))));
    AreSpaces(w1);
    AreSpaces(w2);
    AreSpaces(w3);
    AreSpaces(w4);
    IsKey(key);
  }

  lemma AreSpaces(s: string)
    requires Spaces(s)
    ensures AllSpace(s)
  {
  }

  lemma IsKey(s: string)
    requires Name(s)
    ensures AllName(s)
  {
  }

  /** The matcher for settings succeeds exactly on the lines the pattern matches, with the one key it can capture and
      one of the values. */
  lemma SettingMatches(line: string, plus: bool)
    ensures var m := ParseAssign(line, plus);
      m.Some? ==> SettingText(line, Op(plus), m.value.key, m.value.value)
    ensures forall key, v :: SettingText(line, Op(plus), key, v) ==>
              ParseAssign(line, plus).Some? && ParseAssign(line, plus).value.key == key
  {
    hide ParseAssign, SettingText, AssignSplit;
    forall key, v | SettingText(line, Op(plus), key, v)
      ensures ParseAssign(line, plus).Some? && ParseAssign(line, plus).value.key == key
    {
      var w1, w2, w3, w4 := TextIsSplit(line, plus, key, v);
      AssignSplitFound(line, plus, w1, key, w2, w3, v, w4);
    }
    if ParseAssign(line, plus).Some? {
      var w1, w2, w3 := AssignParsedSplit(line, plus);
      var m := ParseAssign(line, plus).value;
      SplitIsText(line, plus, w1, m.key, w2, w3, m.value, "");
    }
  }

  /** And so does the matcher for include lines. */
  lemma IncludeMatches(line: string)
    ensures ParseInclude(line).Some? ==> IncludeText(line, ParseInclude(line).value)
    ensures forall v :: IncludeText(line, v) ==> ParseInclude(line).Some?
  {
    hide ParseInclude;
    forall v | IncludeText(line, v) ensures ParseInclude(line).Some? {
      var w1, w2, w3 :|
        && Spaces(w1) && Spaces(w2) && Spaces(w3) && w2 != "" && v != ""
        && line == w1 + ("include" + (w2 + v + w3));
      assert AllSpace(w1) && AllSpace(w2) && AllSpace(w3);
      IncludeSplitFound(line, w1, w2, v, w3);
    }
    if ParseInclude(line).Some? {
      var w1, w2 := IncludeParsedSplit(line);
      assert Spaces(w1) && Spaces(w2) && Spaces("");
    }
  }

  /** Of the values the pattern can capture the matcher takes the greedy one: it ends where the text ends and starts
      at the first character that is not white space, or, if there is none, is the last character alone. */
  lemma GreedyCapture(rest: string)
    requires rest != ""
    ensures var v := Captured(rest);
      && v != "" && |v| <= |rest| && v == rest[|rest| - |v|..] && Spaces(rest[..|rest| - |v|])
      && (if Spaces(rest) then |v| == 1 else v[0] !in SPACES)
  {
    var m := SpaceRun(rest);
    if m < |rest| {
      assert !IsSpace(rest[m]) && rest[m] !in SPACES;
    }
  }

  /** What the reader takes a raw line for: nothing, if nothing but a comment is on it; else an include line, if it has
      that form; else a setting, if it has that form; else an addition to a setting; else it is malformed.  The file
      name or value is one the form captures, trimmed. */
  lemma LineForms(raw: string)
    ensures var t, l := Uncommented(raw), ReadLine(raw);
      var skipped := t == "" || t[0] == '\0';
      && (l.Blank? <==> skipped)
      && (l.Include? <==> !skipped && exists v :: IncludeText(t, v))
      && (l.Assign? <==> !skipped && !(exists v :: IncludeText(t, v)) && exists k, v :: SettingText(t, "=", k, v))
      && (l.Append? <==> !skipped && !(exists v :: IncludeText(t, v)) && exists k, v :: SettingText(t, "+=", k, v))
    ensures var t := Uncommented(raw);
      match ReadLine(raw)
      case Include(name) => exists v :: IncludeText(t, v) && name == Trimmed(v)
      case Assign(key, value) => exists v :: SettingText(t, "=", key, v) && value == Trimmed(v)
      case Append(key, value) => exists v :: SettingText(t, "+=", key, v) && value == Trimmed(v)
      case _ => true
  {
    hide ParseInclude, ParseAssign, Uncommented, IncludeText, SettingText, Trimmed;
    var t := Uncommented(raw);
    IncludeMatches(t);
    SettingMatches(t, false);
    SettingMatches(t, true);
    AssignFormsDisjoint(t);
    assert Op(false) == "=" && Op(true) == "+=";
  }
}
