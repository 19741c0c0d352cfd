/** The reader object of sources/property_reader/property_reader.cpp: its methods with their loops and
    updates of `properties_`, proved to compute what the parser of module PropertyReader describes.
    `rank` and `r` are ghost: they witness that the include graph has no cycle. */
module PropertyReaderObject {
  import opened Common
  import opened PropertyText
  import opened PropertyLine
  import opened PropertyReader
  import PropertyRoundTrip

  class Reader {
    const files: map<string, File>
    const base: string
    var properties: Properties

    ghost function Environment(): (env: Env)
      ensures PropertyRoundTrip.Real(env) && env.files == files && env.base == base
    {
      Env(files, base, ReadLine)
    }

    constructor (files: map<string, File>, base: string)
      ensures properties == map[] && this.files == files && this.base == base
    {
      this.files, this.base, properties := files, base, map[];
    }

    /** `parse_istream`. */
    method ParseIstream(lines: seq<string>, ghost rank: map<string, nat>, ghost r: nat) returns (error: Option<Error>)
      requires Acyclic(Environment(), rank) && RanksBelow(Environment(), rank, lines, r)
      modifies this
      ensures Outcome(properties, error) == ParseLines(Environment(), rank, r, lines, 0, old(properties))
      decreases r, |lines|, 2
    {
      hide Classify, Resolve, Trimmed, BeforeComment;
      ghost var env := Environment();
      var counter := 0;
      while counter < |lines|
        invariant counter <= |lines|
        invariant ParseLines(env, rank, r, lines, 0, old(properties))
               == ParseLines(env, rank, r, lines[counter..], counter, properties)
      {
        ghost var rest := lines[counter..];
        assert rest[0] == lines[counter] && rest[1..] == lines[counter + 1..];
        counter := counter + 1;
        var line := DeleteComment(lines[counter - 1]);
        if |line| == 0 || line[0] == '\0' {
          assert env.read(rest[0]) == Blank;
          continue;
        }
        assert env.read(rest[0]) == Classify(line);
        var parsed, thrown := ParseLine(line, rank, r);
        if thrown.Some? {
          return thrown;
        }
        if !parsed {
          return Some(BadFormat(counter));
        }
      }
      return None;
    }

    /** What `parse_line` does for one classified line. */
    ghost function LineOutcome(line: Line, rank: map<string, nat>, props: Properties): Outcome
      requires Acyclic(Environment(), rank) && TargetRanked(line, rank)
    {
      match line
      case Blank => Outcome(props, None)
      case Include(name) =>
        (match Resolve(Environment(), name)
         case None => Outcome(props, Some(NotFound(name)))
         case Some(p) =>
           match files[p]
           case None => Outcome(props, Some(NotOpened(name)))
           case Some(lines) => ParseLines(Environment(), rank, rank[p], lines, 0, props))
      case Assign(k, v) => Outcome(props[k := v], None)
      case Append(k, v) => Outcome(Appended(props, k, v), None)
      case Malformed => Outcome(props, None)
    }

    /** The file an include line names is ranked. */
    ghost predicate TargetRanked(line: Line, rank: map<string, nat>) {
      line.Include? ==>
        var p := Resolve(Environment(), line.name);
        p.Some? && files[p.value].Some? ==> p.value in rank
    }

    /** And ranked below r. */
    ghost predicate TargetBelow(line: Line, rank: map<string, nat>, r: nat) {
      line.Include? ==>
        var p := Resolve(Environment(), line.name);
        p.Some? && files[p.value].Some? ==> p.value in rank && rank[p.value] < r
    }

    /** `parse_line`: the three forms in turn; false if none matches. */
    method ParseLine(line: string, ghost rank: map<string, nat>, ghost r: nat)
      returns (parsed: bool, thrown: Option<Error>)
      requires Acyclic(Environment(), rank) && TargetBelow(Classify(line), rank, r)
      modifies this
      ensures Outcome(properties, thrown) == LineOutcome(Classify(line), rank, old(properties))
      ensures parsed <==> thrown.None? && !Classify(line).Malformed?
      decreases r, 0, 1
    {
      hide ParseInclude, ParseAssign;
      parsed, thrown := IncludeLine(line, rank, r);
      if parsed || thrown.Some? {
        return;
      }
      parsed := StringWithSetting(line);
      if parsed {
        return;
      }
      parsed := AdditionalStringWithSetting(line);
    }

    /** `include_line` with `test_on_include`. */
    method IncludeLine(line: string, ghost rank: map<string, nat>, ghost r: nat)
      returns (parsed: bool, thrown: Option<Error>)
      requires Acyclic(Environment(), rank) && TargetBelow(Classify(line), rank, r)
      modifies this
      ensures Classify(line).Include? ==>
                Outcome(properties, thrown) == LineOutcome(Classify(line), rank, old(properties))
      ensures !Classify(line).Include? ==> properties == old(properties) && thrown == None
      ensures parsed <==> thrown.None? && Classify(line).Include?
      decreases r, 0, 0
    {
      var matched := ParseInclude(line);
      if matched == None {
        return false, None;
      }
      var name := Trim(matched.value);
      thrown := ReadSubPropertyFile(name, rank, r);
      parsed := thrown.None?;
    }

    /** `read_sub_property_file`. */
    method ReadSubPropertyFile(name: string, ghost rank: map<string, nat>, ghost r: nat) returns (thrown: Option<Error>)
      requires Acyclic(Environment(), rank) && TargetBelow(Include(name), rank, r)
      modifies this
      ensures Outcome(properties, thrown) == LineOutcome(Include(name), rank, old(properties))
      decreases r, 0, 0, 0
    {
      var path := name;
      if path !in files {
        path := base + name;
        if path !in files {
          return Some(NotFound(name));
        }
      }
      if files[path] == None {
        return Some(NotOpened(name));
      }
      thrown := ParseIstream(files[path].value, rank, rank[path]);
    }

    /** The settings after a line of one of the two setting forms, `m` being what its pattern captured. */
    static function WithSetting(props: Properties, m: Option<Setting>, plus: bool): Properties {
      match m
      case None => props
      case Some(s) => if plus then Appended(props, s.key, Trimmed(s.value)) else props[s.key := Trimmed(s.value)]
    }

    /** `string_with_setting`. */
    method StringWithSetting(line: string) returns (matched: bool)
      modifies this
      ensures matched <==> ParseAssign(line, false).Some?
      ensures properties == WithSetting(old(properties), ParseAssign(line, false), false)
    {
      var m := ParseAssign(line, false);
      if m == None {
        return false;
      }
      AssignCaptured(m.value);
      return true;
    }

    method AssignCaptured(setting: Setting)
      modifies this
      ensures properties == WithSetting(old(properties), Some(setting), false)
    {
      var value := Trim(setting.value);
      properties := properties[setting.key := value];
    }

    /** `additional_string_with_setting`. */
    method AdditionalStringWithSetting(line: string) returns (matched: bool)
      modifies this
      ensures matched <==> ParseAssign(line, true).Some?
      ensures properties == WithSetting(old(properties), ParseAssign(line, true), true)
    {
      var m := ParseAssign(line, true);
      if m == None {
        return false;
      }
      AppendCaptured(m.value);
      return true;
    }

    /** Nothing happens for an empty value; a new key starts from the empty string. */
    method AppendCaptured(setting: Setting)
      modifies this
      ensures properties == WithSetting(old(properties), Some(setting), true)
    {
      var value := Trim(setting.value);
      if value != "" {
        var before := if setting.key in properties then properties[setting.key] else "";
        properties := properties[setting.key := before + (" " + value)];
      }
    }

    /** `get_values`. */
    method GetValues(key: string, delims: string) returns (result: seq<string>)
      ensures result == PropertyRoundTrip.GetValues(properties, key, delims)
    {
      if key in properties {
        result := Split(properties[key], delims, true);
      } else {
        result := [];
      }
    }
  }
}
