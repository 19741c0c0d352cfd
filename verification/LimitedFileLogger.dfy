/** The rotating log of sources/limited_file_logger/limited_file_logger.h.  A file is the text in it; a
    file that does not exist yet is as good as an empty one, since opening the log creates it. */
module LimitedFileLogger {
  import opened Common
  import opened LoggerWrite

  /** The limit in bytes is a multiple of 1024 * 1024 in the source; nothing depends on that. */
  datatype Config = Config(format: Format, limit: nat)

  /** `file`, the file ".old" beside it (`archive`) if there is one, and `current_file_size_`. */
  datatype State = State(file: string, archive: Option<string>, size: nat)

  /** Opening the log (`append` or truncating), and a message written to it. */
  datatype Event = Open(append: bool) | Write(level: Level, stamp: string, message: string)

  /** Before anything has been logged. */
  const FRESH := State("", None, 0)

  function Rotate(s: State): State {
    State("", Some(s.file), 0)
  }

  /** `fill_file_size_on_open_`. */
  function OpenStep(c: Config, s: State, append: bool): State {
    var begun := s.(file := if append then s.file else "", size := if append then |s.file| else 0);
    if begun.size >= c.limit then Rotate(begun) else begun
  }

  predicate Rotates(c: Config, s: State, e: Event) {
    e.Write? && s.size + CountedSize(c.format, e.level, e.message) >= c.limit
  }

  /** `write`. */
  function WriteStep(c: Config, s: State, e: Event): State
    requires e.Write?
  {
    var ready := if Rotates(c, s, e) then Rotate(s) else s;
    ready.(size := ready.size + CountedSize(c.format, e.level, e.message), file := ready.file + Text(c, e))
  }

  function Step(c: Config, s: State, e: Event): State {
    match e
    case Open(append) => OpenStep(c, s, append)
    case Write(_, _, _) => WriteStep(c, s, e)
  }

  /** The bytes an event logs. */
  function Text(c: Config, e: Event): string {
    match e
    case Open(_) => ""
    case Write(level, stamp, message) => Line(c.format, level, stamp, message)
  }

  ghost function After(c: Config, s: State, run: seq<Event>): State
    decreases |run|
  {
    if run == [] then s else After(c, Step(c, s, run[0]), run[1..])
  }

  /** Everything logged. */
  ghost function Logged(c: Config, run: seq<Event>): string
    decreases |run|
  {
    if run == [] then "" else Text(c, run[0]) + Logged(c, run[1..])
  }

  // ----- what is kept is a recent suffix -----

  /** What is on disk, oldest first. */
  function Kept(s: State): string {
    (if s.archive.Some? then s.archive.value else "") + s.file
  }

  ghost predicate Suffix(a: string, b: string) {
    |a| <= |b| && a == b[|b| - |a|..]
  }

  lemma SuffixOfSum(a: string, x: string, b: string)
    requires b == x + a
    ensures Suffix(a, b)
  {
  }

  lemma SuffixAppend(a: string, b: string, x: string)
    requires Suffix(a, b)
    ensures Suffix(a + x, b + x)
  {
    SuffixOfSum(a + x, b[..|b| - |a|], b + x);
  }

  lemma SuffixTrans(a: string, b: string, c: string)
    requires Suffix(a, b) && Suffix(b, c)
    ensures Suffix(a, c)
  {
  }

  /** The log is never opened truncating. */
  ghost predicate Appending(run: seq<Event>) {
    forall i :: 0 <= i < |run| && run[i].Open? ==> run[i].append
  }

  /** What a step drops from the old end of what is on disk. */
  function Dropped(c: Config, s: State, e: Event): string {
    var full := match e
      case Open(append) => |s.file| >= c.limit
      case Write(_, _, _) => Rotates(c, s, e);
    if full && s.archive.Some? then s.archive.value else ""
  }

  lemma StepDrops(c: Config, s: State, e: Event)
    requires e.Open? ==> e.append
    ensures Kept(s) + Text(c, e) == Dropped(c, s, e) + Kept(Step(c, s, e))
  {
    if e.Write? {
      WriteDrops(c, s, e);
    } else {
      assert Kept(s) + "" == Kept(s) == "" + Kept(s);
      assert s.file + "" == s.file;
    }
  }

  lemma WriteDrops(c: Config, s: State, e: Event)
    requires e.Write?
    ensures Kept(s) + Text(c, e) == Dropped(c, s, e) + Kept(WriteStep(c, s, e))
  {
    hide Text, Rotates;
    var o, f, t := if s.archive.Some? then s.archive.value else "", s.file, Text(c, e);
    assert o + f + t == o + (f + t);
    if Rotates(c, s, e) {
      assert Kept(WriteStep(c, s, e)) == f + ("" + t);
      assert "" + t == t;
    } else {
      assert Kept(WriteStep(c, s, e)) == o + (f + t);
      assert "" + (o + (f + t)) == o + (f + t);
    }
  }

  lemma StepKeepsSuffix(c: Config, s: State, e: Event)
    requires e.Open? ==> e.append
    ensures Suffix(Kept(Step(c, s, e)), Kept(s) + Text(c, e))
  {
    StepDrops(c, s, e);
    SuffixOfSum(Kept(Step(c, s, e)), Dropped(c, s, e), Kept(s) + Text(c, e));
  }

  lemma {:induction false} RunKeepsSuffix(c: Config, s: State, run: seq<Event>)
    requires Appending(run)
    ensures Suffix(Kept(After(c, s, run)), Kept(s) + Logged(c, run))
    decreases |run|
  {
    hide Step, Text, Kept, Suffix;
    if run == [] {
      assert Kept(s) + "" == "" + Kept(s) == Kept(s);
      SuffixOfSum(Kept(s), "", Kept(s));
    } else {
      var e, s' := run[0], Step(c, s, run[0]);
      StepKeepsSuffix(c, s, e);
      RunKeepsSuffix(c, s', run[1..]);
      var rest := Logged(c, run[1..]);
      SuffixAppend(Kept(s'), Kept(s) + Text(c, e), rest);
      assert Kept(s) + Text(c, e) + rest == Kept(s) + Logged(c, run);
      SuffixTrans(Kept(After(c, s', run[1..])), Kept(s') + rest, Kept(s) + Logged(c, run));
    }
  }

  /** From a fresh start, and appending whenever the log is opened again, ".old" followed by the current
      file is always a suffix of everything logged. */
  lemma KeepsRecent(c: Config, run: seq<Event>)
    requires Appending(run)
    ensures Suffix(Kept(After(c, FRESH, run)), Logged(c, run))
  {
    RunKeepsSuffix(c, FRESH, run);
    assert Kept(FRESH) + Logged(c, run) == Logged(c, run);
  }

  // ----- the counter against the bytes written -----

  function SurplusOf(c: Config, e: Event): int
    requires e.Write?
  {
    Surplus(c.format, e.level, e.stamp)
  }

  /** The sum of the surpluses of the messages since the log was last opened or rotated, d being that of the
      messages before the run. */
  ghost function Drift(c: Config, s: State, run: seq<Event>, d: int): int
    decreases |run|
  {
    if run == [] then d
    else
      Drift(c, Step(c, s, run[0]), run[1..],
            if run[0].Open? then 0
            else if Rotates(c, s, run[0]) then SurplusOf(c, run[0])
            else d + SurplusOf(c, run[0]))
  }

  /** How many messages that are. */
  ghost function Count(c: Config, s: State, run: seq<Event>, n: nat): nat
    decreases |run|
  {
    if run == [] then n
    else
      Count(c, Step(c, s, run[0]), run[1..],
            if run[0].Open? then 0 else if Rotates(c, s, run[0]) then 1 else n + 1)
  }

  /** The counter exceeds the current file's size by exactly the surpluses of the messages since then. */
  lemma {:induction false} CounterDrift(c: Config, s: State, run: seq<Event>, d: int)
    requires s.size == |s.file| + d
    ensures After(c, s, run).size == |After(c, s, run).file| + Drift(c, s, run, d)
    decreases |run|
  {
    if run != [] {
      var e, s' := run[0], Step(c, s, run[0]);
      var d' := if e.Open? then 0 else if Rotates(c, s, e) then SurplusOf(c, e) else d + SurplusOf(c, e);
      if e.Write? {
        SurplusOfMessage(c.format, e.level, e.stamp, e.message);
      }
      assert s'.size == |s'.file| + d';
      CounterDrift(c, s', run[1..], d');
    }
  }

  /** Every message of the run has the same surplus d. */
  ghost predicate Uniform(c: Config, run: seq<Event>, d: int) {
    forall i :: 0 <= i < |run| && run[i].Write? ==> SurplusOf(c, run[i]) == d
  }

  lemma {:induction false} UniformDrift(c: Config, s: State, run: seq<Event>, n: nat, d: int)
    requires Uniform(c, run, d)
    ensures Drift(c, s, run, d * n) == d * Count(c, s, run, n)
    decreases |run|
  {
    if run != [] {
      var e, s' := run[0], Step(c, s, run[0]);
      var n' := if e.Open? then 0 else if Rotates(c, s, e) then 1 else n + 1;
      assert d * (n + 1) == d * n + d;
      UniformDrift(c, s', run[1..], n', d);
    }
  }

  /** A logger as shipped: level strings initialised, line ends of one byte. */
  ghost predicate Ordinary(f: Format) {
    && (forall l: Level :: f.own(l) == Initialised(l) && f.counted(l) == Initialised(l))
    && |f.newline| == 1
  }

  ghost predicate FixedStamps(c: Config, run: seq<Event>) {
    forall i :: 0 <= i < |run| && run[i].Write? ==> |run[i].stamp| == c.format.stampSize
  }

  /** Hence, for an ordinary logger with stamps of fixed width, the counter exceeds the file by exactly one
      byte per message since opening or rotation if there is a prefix, and is exact if there is none. */
  lemma CounterExact(c: Config, run: seq<Event>)
    requires Ordinary(c.format) && c.format.turnOn && FixedStamps(c, run)
    ensures var s := After(c, FRESH, run);
      s.size == |s.file| + (if c.format.prefix then Count(c, FRESH, run, 0) else 0)
  {
    var d := if c.format.prefix then 1 else 0;
    forall i | 0 <= i < |run| && run[i].Write? ensures Surplus(c.format, run[i].level, run[i].stamp) == d {
      UniformSurplus(c.format, run[i].level, run[i].stamp);
    }
    CounterDrift(c, FRESH, run, 0);
    assert d * 0 == 0;
    UniformDrift(c, FRESH, run, 0, d);
  }

  // ----- the bound on disk space -----

  ghost predicate Bounded(c: Config, s: State) {
    && s.size < c.limit && |s.file| <= s.size
    && (s.archive.Some? ==> |s.archive.value| < c.limit)
  }

  /** Every message is counted below the limit, and none for less than it takes. */
  ghost predicate Fits(c: Config, run: seq<Event>) {
    forall i :: 0 <= i < |run| && run[i].Write? ==>
      && CountedSize(c.format, run[i].level, run[i].message) < c.limit
      && Surplus(c.format, run[i].level, run[i].stamp) >= 0
  }

  lemma {:induction false} RunKeepsBounded(c: Config, s: State, run: seq<Event>)
    requires Bounded(c, s) && Fits(c, run)
    ensures Bounded(c, After(c, s, run))
    decreases |run|
  {
    if run != [] {
      var e := run[0];
      if e.Write? {
        SurplusOfMessage(c.format, e.level, e.stamp, e.message);
      }
      RunKeepsBounded(c, Step(c, s, e), run[1..]);
    }
  }

  /** From a fresh start both files stay below the limit, so the log never takes twice the limit. */
  lemma DiskBound(c: Config, run: seq<Event>)
    requires c.limit > 0 && Fits(c, run)
    ensures var s := After(c, FRESH, run);
      && |s.file| < c.limit
      && (s.archive.Some? ==> |s.archive.value| < c.limit)
      && |Kept(s)| < 2 * c.limit
  {
    RunKeepsBounded(c, FRESH, run);
  }

  /** All messages of a run have this level and stamp and are counted below the limit. */
  ghost predicate Alike(c: Config, run: seq<Event>, level: Level, stamp: string) {
    forall i :: 0 <= i < |run| ==>
      && run[i].Write? && run[i].level == level && run[i].stamp == stamp
      && CountedSize(c.format, level, run[i].message) < c.limit
  }

  function Filler(n: nat): (s: string)
    ensures |s| == n
  {
    seq(n, _ => 'x')
  }

  /** If messages of a level are counted for less than they take, one message breaks the bound. */
  lemma ShortfallBreaks(c: Config, level: Level, stamp: string)
    requires c.format.turnOn && CountedSize(c.format, level, "") < c.limit && Surplus(c.format, level, stamp) < 0
    ensures exists run :: Alike(c, run, level, stamp) && |After(c, FRESH, run).file| >= c.limit
  {
    var message := Filler(c.limit - 1 - CountedSize(c.format, level, ""));
    var e := Write(level, stamp, message);
    SurplusOfMessage(c.format, level, stamp, message);
    assert Alike(c, [e], level, stamp);
    assert [e][1..] == [];
    assert After(c, FRESH, [e]) == Step(c, FRESH, e);
  }

  /** The bound holds for all runs of messages of one level and stamp, each counted below the limit, if and
      only if such messages are not counted for less than they take. */
  lemma DiskBoundExactly(c: Config, level: Level, stamp: string)
    requires c.format.turnOn && CountedSize(c.format, level, "") < c.limit
    ensures Surplus(c.format, level, stamp) >= 0 <==>
      forall run :: Alike(c, run, level, stamp) ==>
        var s := After(c, FRESH, run);
        |s.file| < c.limit && (s.archive.Some? ==> |s.archive.value| < c.limit)
  {
    if Surplus(c.format, level, stamp) >= 0 {
      forall run | Alike(c, run, level, stamp)
        ensures var s := After(c, FRESH, run);
          |s.file| < c.limit && (s.archive.Some? ==> |s.archive.value| < c.limit)
      {
        assert Fits(c, run);
        DiskBound(c, run);
      }
    } else {
      ShortfallBreaks(c, level, stamp);
    }
  }

  // ----- how much a rotation keeps -----

  lemma {:induction false} AfterConcat(c: Config, s: State, a: seq<Event>, b: seq<Event>)
    ensures After(c, s, a + b) == After(c, After(c, s, a), b)
    decreases |a|
  {
    if a == [] {
      assert a + b == b;
    } else {
      assert (a + b)[0] == a[0] && (a + b)[1..] == a[1..] + b;
      AfterConcat(c, Step(c, s, a[0]), a[1..], b);
    }
  }

  /** A run of messages none of which rotates the log. */
  ghost predicate Quiet(c: Config, s: State, run: seq<Event>)
    decreases |run|
  {
    run == [] || (run[0].Write? && !Rotates(c, s, run[0]) && Quiet(c, Step(c, s, run[0]), run[1..]))
  }

  lemma {:induction false} QuietAppends(c: Config, s: State, run: seq<Event>)
    requires Quiet(c, s, run)
    ensures After(c, s, run).archive == s.archive && After(c, s, run).file == s.file + Logged(c, run)
    decreases |run|
  {
    if run == [] {
      assert s.file + "" == s.file;
    } else {
      QuietAppends(c, Step(c, s, run[0]), run[1..]);
      assert s.file + Text(c, run[0]) + Logged(c, run[1..]) == s.file + Logged(c, run);
    }
  }

  /** A log is archived only when it is full: let the message e rotate it, and no message after e.  Then
      ".old" is the whole log before e, the current file is e and what follows it, and the counted sizes of
      ".old" and e reach the limit; in bytes, they fall short of it by at most the surpluses of their messages. */
  lemma ArchivedWhenFull(c: Config, pre: seq<Event>, e: Event, post: seq<Event>)
    requires Rotates(c, After(c, FRESH, pre), e) && Quiet(c, Step(c, After(c, FRESH, pre), e), post)
    ensures var before, s := After(c, FRESH, pre), After(c, FRESH, pre + [e] + post);
      && s.archive == Some(before.file)
      && s.file == Text(c, e) + Logged(c, post)
      && before.size + CountedSize(c.format, e.level, e.message) >= c.limit
      && |before.file| + |Text(c, e)| + Drift(c, FRESH, pre, 0) + SurplusOf(c, e) >= c.limit
  {
    var before := After(c, FRESH, pre);
    AfterConcat(c, FRESH, pre, [e]);
    AfterConcat(c, FRESH, pre + [e], post);
    assert [e][1..] == [] && After(c, before, [e]) == Step(c, before, e);
    QuietAppends(c, Step(c, before, e), post);
    CounterDrift(c, FRESH, pre, 0);
    SurplusOfMessage(c.format, e.level, e.stamp, e.message);
    assert "" + Text(c, e) == Text(c, e);
  }

  // ----- opening on files of any size -----

  /** A session that opens the log on whatever files earlier ones left, and writes without rotating again.  The text
      to begin with is the file's, or none if it is truncated.  Below the limit it is kept and extended, the
      archive staying as it was; otherwise it becomes the archive, and the file holds what is written. */
  lemma SessionText(c: Config, s: State, append: bool, run: seq<Event>)
    requires Quiet(c, Step(c, s, Open(append)), run)
    ensures var begun, e := if append then s.file else "", After(c, Step(c, s, Open(append)), run);
      if |begun| < c.limit then e.file == begun + Logged(c, run) && e.archive == s.archive
      else e.file == Logged(c, run) && e.archive == Some(begun)
  {
    QuietAppends(c, Step(c, s, Open(append)), run);
    assert "" + Logged(c, run) == Logged(c, run);
  }

  /** Whatever files it is opened on, the current file stays below the limit, and so does every archive but the one
      that was there and the text the session began with. */
  lemma BoundAfterOpen(c: Config, s: State, append: bool, run: seq<Event>)
    requires c.limit > 0 && Fits(c, run) && forall i :: 0 <= i < |run| ==> run[i].Write?
    ensures var e := After(c, Step(c, s, Open(append)), run);
      && |e.file| < c.limit
      && (e.archive.Some? ==>
            |e.archive.value| < c.limit || e.archive == s.archive || (append && e.archive == Some(s.file)))
  {
    RunKeepsFileBound(c, Step(c, s, Open(append)), run, Step(c, s, Open(append)).archive);
  }

  lemma {:induction false} RunKeepsFileBound(c: Config, s: State, run: seq<Event>, archive: Option<string>)
    requires Fits(c, run) && (forall i :: 0 <= i < |run| ==> run[i].Write?)
    requires s.size < c.limit && |s.file| <= s.size
    requires s.archive == archive || (s.archive.Some? && |s.archive.value| < c.limit)
    ensures var e := After(c, s, run);
      && |e.file| < c.limit
      && (e.archive == archive || (e.archive.Some? && |e.archive.value| < c.limit))
    decreases |run|
  {
    if run != [] {
      var e := run[0];
      SurplusOfMessage(c.format, e.level, e.stamp, e.message);
      RunKeepsFileBound(c, Step(c, s, e), run[1..], archive);
    }
  }

  // ----- the object -----

  /** The logger: its methods in the order of the source's statements.  The two files outlive it. */
  class LimitedLogger {
    const config: Config
    var file: string
    var archive: Option<string>
    var currentFileSize: nat

    ghost function Abs(): State
      reads this
    {
      State(file, archive, currentFileSize)
    }

    /** Opens the log on files left by earlier sessions. */
    constructor (config: Config, file: string, archive: Option<string>, append: bool)
      ensures this.config == config
      ensures Abs() == Step(config, State(file, archive, 0), Open(append))
    {
      this.config := config;
      this.file := if append then file else "";
      this.archive := archive;
      currentFileSize := 0;
      new;
      FillFileSizeOnOpen();
    }

    method FillFileSizeOnOpen()
      modifies this
      ensures Abs() == OpenStep(config, old(Abs()), true)
    {
      currentFileSize := |file|;
      if currentFileSize >= config.limit {
        Rename();
      }
    }

    /** `rename_`. */
    method Rename()
      modifies this
      ensures Abs() == Rotate(old(Abs()))
    {
      archive := None;
      archive := Some(file);
      file := "";
      currentFileSize := 0;
    }

    method WriteMessage(level: Level, stamp: string, message: string)
      modifies this
      ensures Abs() == Step(config, old(Abs()), Write(level, stamp, message))
    {
      var newMessageSize := CountedSize(config.format, level, message);
      if currentFileSize + newMessageSize >= config.limit {
        Rename();
      }
      currentFileSize := currentFileSize + newMessageSize;
      file := file + Line(config.format, level, stamp, message);
    }
  }
}
