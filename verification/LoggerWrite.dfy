/** What sources/logger/logger.cpp writes for a message, and what sources/limited_file_logger/limited_file_logger.cpp
    counts for it.  The time stamps, the level strings and the bytes of a line end are parameters. */
module LoggerWrite {
  import opened Common

  type Level = n: nat | n < 5

  /** The level strings of one instantiation of `logger`. */
  type LevelTable = Level -> string

  /** `turnOn` and `prefix` are the template parameters.  `own` are the level strings of the logger that
      writes, `counted` those of `logger<>`, which the counter uses; `stampSize` is the length of the
      time stamp the counter took once and for all; `newline` is what "\n" becomes in the file. */
  datatype Format = Format(
    turnOn: bool,
    prefix: bool,
    own: LevelTable,
    counted: LevelTable,
    stampSize: nat,
    newline: string)

  /** `init_message_levels`. */
  function Initialised(level: Level): (s: string)
    ensures |s| == 11
  {
    match level
    case 0 => ":NOTE   ]: "
    case 1 => ":WARNING]: "
    case 2 => ":ERROR  ]: "
    case 3 => ":DEBUG  ]: "
    case 4 => ":FATAL  ]: "
  }

  /** The strings of an instantiation no logger of which has been constructed yet. */
  function Uninitialised(level: Level): string {
    ""
  }

  /** `logger::write`: the bytes of one message. */
  function Line(f: Format, level: Level, stamp: string, message: string): string {
    if !f.turnOn then ""
    else if !f.prefix then message + f.newline
    else "[" + stamp + f.own(level) + message + f.newline
  }

  /** `message_size_counter::message_size`. */
  function CountedSize(f: Format, level: Level, message: string): nat {
    if !f.turnOn then 0
    else if !f.prefix then |message| + 1
    else 1 + f.stampSize + |f.counted(level)| + |message| + 2
  }

  /** By how much the counter exceeds the bytes written. */
  function Surplus(f: Format, level: Level, stamp: string): int {
    CountedSize(f, level, "") - |Line(f, level, stamp, "")|
  }

  /** The message itself is always counted exactly. */
  lemma SurplusOfMessage(f: Format, level: Level, stamp: string, message: string)
    ensures CountedSize(f, level, message) == |Line(f, level, stamp, message)| + Surplus(f, level, stamp)
    ensures CountedSize(f, level, message) == CountedSize(f, level, "") + (if f.turnOn then |message| else 0)
  {
  }

  /** With level strings initialised and time stamps as long as the one measured, the surplus depends on
      the line end only: one byte per prefixed message if it is one byte, none without prefix. */
  lemma UniformSurplus(f: Format, level: Level, stamp: string)
    requires |f.own(level)| == |f.counted(level)| && |stamp| == f.stampSize
    ensures Surplus(f, level, stamp) == if !f.turnOn then 0 else (if f.prefix then 2 else 1) - |f.newline|
  {
  }

  /** Two ways the counter falls short.  If no `logger<>` has been constructed, each level string is
      missing; and if the measured stamp had no fraction of a second, that fraction is. */
  lemma Shortfalls(f: Format, level: Level, stamp: string)
    requires f.turnOn && f.prefix && |f.own(level)| == 11 && |f.newline| == 1
    ensures f.counted(level) == Uninitialised(level) && |stamp| == f.stampSize ==> Surplus(f, level, stamp) == -10
    ensures f.counted(level) == Initialised(level) && f.stampSize == 20 && |stamp| == 27 ==>
              Surplus(f, level, stamp) == -6
  {
  }

  // ----- reading a line back -----

  datatype Entry = Entry(level: Level, stamp: string, message: string)

  /** The level a level string names. */
  function LevelNamed(mark: string): Option<Level> {
    if mark == ":NOTE   ]: " then Some(0)
    else if mark == ":WARNING]: " then Some(1)
    else if mark == ":ERROR  ]: " then Some(2)
    else if mark == ":DEBUG  ]: " then Some(3)
    else if mark == ":FATAL  ]: " then Some(4)
    else None
  }

  /** Reads a prefixed line: an opening bracket, the time stamp, the level, the message, and the line end. */
  function ReadEntry(line: string, stampSize: nat, newline: string): Option<Entry> {
    var body := 1 + stampSize + 11;
    if |line| < body + |newline| || line[0] != '[' || line[|line| - |newline|..] != newline then None
    else
      match LevelNamed(line[1 + stampSize..body])
      case None => None
      case Some(level) => Some(Entry(level, line[1..1 + stampSize], line[body..|line| - |newline|]))
  }

  /** Whatever is written with a prefix is read back: level, time stamp and message. */
  lemma LineReadBack(f: Format, level: Level, stamp: string, message: string)
    requires f.turnOn && f.prefix && f.own(level) == Initialised(level)
    ensures ReadEntry(Line(f, level, stamp, message), |stamp|, f.newline) == Some(Entry(level, stamp, message))
  {
    var line, mark := Line(f, level, stamp, message), f.own(level);
    var body := 1 + |stamp| + 11;
    assert line == "[" + (stamp + (mark + (message + f.newline)));
    assert line[1..1 + |stamp|] == stamp;
    assert line[1 + |stamp|..body] == mark;
    assert line[body..|line| - |f.newline|] == message;
    assert line[|line| - |f.newline|..] == f.newline;
  }

  /** Without prefix the line is the message and the line end; a logger that is turned off writes nothing. */
  lemma PlainLine(f: Format, level: Level, stamp: string, message: string)
    ensures f.turnOn && !f.prefix ==>
              var line := Line(f, level, stamp, message);
              |line| == |message| + |f.newline| && line[..|message|] == message && line[|message|..] == f.newline
    ensures !f.turnOn ==> Line(f, level, stamp, message) == "" && CountedSize(f, level, message) == 0
  {
  }
}
