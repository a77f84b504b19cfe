/** Formatter resolution and evaluation: MessageFormatter.replaceMatchPlaceholder
    maps each token of a pattern to one of six formatter kinds, and each kind's
    `call` renders its part of a log line from the event. */
module Formatters {
  import opened Text

  /** The log levels in rank order. */
  datatype Level = Debug | Info | Warn | Error | Off
  {
    function Rank(): nat
    {
      match this
      case Debug => 0
      case Info => 1
      case Warn => 2
      case Error => 3
      case Off => 4
    }

    /** Enum.name() */
    function Name(): string
    {
      match this
      case Debug => "DEBUG"
      case Info => "INFO"
      case Warn => "WARN"
      case Error => "ERROR"
      case Off => "OFF"
    }
  }

  /** The colour table: one escape sequence per level, and the fixed markers. */
  datatype Palette = Palette(
    debug: string, info: string, warn: string, error: string, off: string,
    reset: string, purple: string, cyan: string)
  {
    /** Level.getColor() */
    function Color(level: Level): string
    {
      match level
      case Debug => debug
      case Info => info
      case Warn => warn
      case Error => error
      case Off => off
    }
  }

  /** Process-wide values a formatter reads: the colour table, the current
      time already rendered with the configured date-time format, the process
      id, the current thread's name and the platform line separator. */
  datatype Env = Env(palette: Palette, dateTime: string, pid: string, threadName: string, lineSeparator: string)

  /** The call site, as captured upstream from the stack. */
  datatype Location = Location(className: string, methodName: string, fileName: string, lineNumber: int)

  /** The five placeholder strings a pattern recognises (LogFormatter.MessagePattern). */
  datatype Tags = Tags(dateTime: string, level: string, thread: string, newLine: string, message: string)
  {
    predicate IsTag(token: string)
    {
      token in {dateTime, level, thread, newLine, message}
    }

    /** The switch over them compiles only when they are pairwise different. */
    predicate Distinct()
    {
      && dateTime !in {level, thread, newLine, message}
      && level !in {thread, newLine, message}
      && thread !in {newLine, message}
      && newLine != message
    }
  }

  /** The six MessageFormatter subclasses; Mime carries its literal text. */
  datatype Formatter = DateTime | LevelName | Thread | LineSeparator | Message | Mime(text: string)

  /** One case of the switch in replaceMatchPlaceholder: exact string equality,
      anything else becomes a literal. */
  function Resolve(tags: Tags, token: string): Formatter
  {
    if token == tags.dateTime then DateTime
    else if token == tags.level then LevelName
    else if token == tags.thread then Thread
    else if token == tags.newLine then LineSeparator
    else if token == tags.message then Message
    else Mime(token)
  }

  /** The token a formatter stands for: the partner of Resolve. */
  function Source(tags: Tags, f: Formatter): string
  {
    match f
    case DateTime => tags.dateTime
    case LevelName => tags.level
    case Thread => tags.thread
    case LineSeparator => tags.newLine
    case Message => tags.message
    case Mime(text) => text
  }

  /** Resolution forgets nothing: the token can be read back from its formatter. */
  lemma ResolveSource(tags: Tags, token: string)
    ensures Source(tags, Resolve(tags, token)) == token
  {
  }

  /** With distinct tags, every formatter that is not a literal copy of a tag is
      what its own token resolves to. */
  lemma SourceResolve(tags: Tags, f: Formatter)
    requires tags.Distinct()
    requires f.Mime? ==> !tags.IsTag(f.text)
    ensures Resolve(tags, Source(tags, f)) == f
  {
  }

  /** A class name cut at every '.', keeping empty segments (String.split on
      "\\." for a name without trailing dots). */
  function SplitDots(c: string): (segs: seq<string>)
    ensures |segs| >= 1
    ensures JoinDots(segs) == c
    ensures forall k :: 0 <= k < |segs| ==> '.' !in segs[k]
    decreases |c|
  {
    if c == [] then [[]]
    else
      var rest := SplitDots(c[1..]);
      if c[0] == '.' then
        assert c == "." + c[1..];
        [[]] + rest
      else
        assert JoinDots(rest) == rest[0] + JoinDots(rest)[|rest[0]|..];
        [[c[0]] + rest[0]] + rest[1..]
  }

  /** The segments joined back with '.'. */
  function JoinDots(segs: seq<string>): string
    requires |segs| >= 1
  {
    if |segs| == 1 then segs[0] else segs[0] + "." + JoinDots(segs[1..])
  }

  /** The class names Thread.call renders without failing and on which
      String.split keeps every segment: the empty name, which splits into one
      empty segment, or a name whose segments are all non-empty. An empty inner
      or leading segment makes charAt(0) fail; trailing empty segments are
      dropped by String.split. */
  predicate WellFormedClassName(c: string)
  {
    c == [] || forall k :: 0 <= k < |SplitDots(c)| ==> SplitDots(c)[k] != []
  }

  /** Each package segment abbreviated to its first character and a '.'. */
  function Initials(packages: seq<string>): string
    requires forall k :: 0 <= k < |packages| ==> packages[k] != []
  {
    if packages == [] then []
    else Initials(packages[..|packages| - 1]) + [packages[|packages| - 1][0], '.']
  }

  /** The abbreviation is two characters per package: its initial, then '.'. */
  lemma {:induction false} InitialsShape(packages: seq<string>)
    requires forall k :: 0 <= k < |packages| ==> packages[k] != []
    ensures var r := Initials(packages);
      && |r| == 2 * |packages|
      && forall k :: 0 <= k < |packages| ==> r[2 * k] == packages[k][0] && r[2 * k + 1] == '.'
  {
    if packages != [] {
      var init := packages[..|packages| - 1];
      InitialsShape(init);
      forall k | 0 <= k < |init| ensures Initials(packages)[2 * k] == packages[k][0] {
        assert init[k] == packages[k];
      }
    }
  }

  /** `a.b.Cls.method(File.java:12)`, with packages abbreviated. */
  function CallSite(loc: Location): string
    requires WellFormedClassName(loc.className)
  {
    var segs := SplitDots(loc.className);
    Initials(segs[..|segs| - 1]) + Frame(segs[|segs| - 1], loc)
  }

  /** `Cls.method(File.java:12)`: the simple class name and the rest of the frame. */
  function Frame(simpleName: string, loc: Location): string
  {
    simpleName + "." + loc.methodName + "(" + loc.fileName + ":" + IntText(loc.lineNumber) + ")"
  }

  /** Thread.call: the PID in purple, the thread name in cyan, then the call site. */
  function ThreadText(env: Env, loc: Location): string
    requires WellFormedClassName(loc.className)
  {
    ThreadHeader(env) + CallSite(loc)
  }

  function ThreadHeader(env: Env): string
  {
    env.palette.purple + "[PID:" + env.pid + "] " + env.palette.reset
      + env.palette.cyan + env.threadName + env.palette.reset + " "
  }

  /** What one formatter contributes to the line for an event. */
  function Eval(f: Formatter, env: Env, level: Level, loc: Location, args: seq<string>): string
    requires f.Thread? ==> WellFormedClassName(loc.className)
  {
    match f
    case DateTime => env.dateTime
    case LevelName => env.palette.Color(level) + PadLeft(level.Name(), 5) + env.palette.reset
    case Thread => ThreadText(env, loc)
    case LineSeparator => env.lineSeparator
    case Message => env.palette.Color(level) + Concat(args) + env.palette.Color(Off)
    case Mime(text) => text
  }

  /** A token equal to no tag is copied verbatim, whatever the event. */
  lemma UnknownTokenVerbatim(tags: Tags, token: string, env: Env, level: Level, loc: Location, args: seq<string>)
    requires !tags.IsTag(token)
    ensures Resolve(tags, token) == Mime(token)
    ensures Eval(Resolve(tags, token), env, level, loc, args) == token
  {
  }

  /** The level field is exactly five characters wide for every level: the
      name right-justified with spaces. */
  lemma LevelField(env: Env, level: Level, loc: Location, args: seq<string>)
    ensures var color, reset := env.palette.Color(level), env.palette.reset;
      var out := Eval(LevelName, env, level, loc, args);
      && |out| == |color| + 5 + |reset|
      && out[..|color|] == color
      && out[|color| + 5..] == reset
      && out[|color| + 5 - |level.Name()|..|color| + 5] == level.Name()
      && forall k :: |color| <= k < |color| + 5 - |level.Name()| ==> out[k] == ' '
  {
  }

  /** One more package segment appends its initial and a '.'. */
  lemma InitialsStep(segs: seq<string>, i: nat)
    requires i < |segs| && forall k :: 0 <= k <= i ==> segs[k] != []
    ensures Initials(segs[..i + 1]) == Initials(segs[..i]) + [segs[i][0], '.']
  {
    assert segs[..i + 1][..i] == segs[..i];
  }

  /** Thread.call: a StringBuilder appending the header, each package initial
      and '.', then the class, method, file and line. */
  method ThreadCall(env: Env, loc: Location) returns (r: string)
    requires WellFormedClassName(loc.className)
    ensures r == ThreadText(env, loc)
  {
    var text := ThreadHeader(env);
    var split := SplitDots(loc.className);
    var i := 0;
    while i < |split| - 1
      invariant 0 <= i <= |split| - 1
      invariant text == ThreadHeader(env) + Initials(split[..i])
    {
      InitialsStep(split, i);
      text := text + [split[i][0], '.'];
      i := i + 1;
    }
    assert split[..i] == split[..|split| - 1];
    r := text + Frame(split[i], loc);
  }

  /** The empty class name has no package and an empty simple name: the
      call site is just `.method(File:line)`. */
  lemma EmptyClassName(env: Env, loc: Location)
    requires loc.className == []
    ensures WellFormedClassName(loc.className)
    ensures ThreadText(env, loc) == ThreadHeader(env) + "." + loc.methodName + "(" + loc.fileName + ":" + IntText(loc.lineNumber) + ")"
  {
    assert SplitDots(loc.className) == [[]];
  }

  /** Message.call: the level's colour, every argument's text in order, and
      then the colour of Level.OFF (not RESET). */
  method MessageCall(env: Env, level: Level, args: seq<string>) returns (r: string)
    ensures r == env.palette.Color(level) + Concat(args) + env.palette.Color(Off)
  {
    var message := "";
    for i := 0 to |args|
      invariant message == Concat(args[..i])
    {
      assert args[..i + 1] == args[..i] + [args[i]];
      ConcatSnoc(args[..i], args[i]);
      message := message + args[i];
    }
    assert args[..|args|] == args;
    r := env.palette.Color(level) + message + env.palette.Color(Off);
  }

  /** MessageFormatter.call, dispatched on the formatter's kind. */
  method Call(f: Formatter, env: Env, level: Level, loc: Location, args: seq<string>) returns (r: string)
    requires f.Thread? ==> WellFormedClassName(loc.className)
    ensures r == Eval(f, env, level, loc, args)
  {
    match f
    case DateTime => r := env.dateTime;
    case LevelName => r := env.palette.Color(level) + PadLeft(level.Name(), 5) + env.palette.reset;
    case Thread => r := ThreadCall(env, loc);
    case LineSeparator => r := env.lineSeparator;
    case Message => r := MessageCall(env, level, args);
    case Mime(text) => r := text;
  }

  /** replaceMatchPlaceholder: a new array with one formatter per token. */
  method ReplaceMatchPlaceholder(tags: Tags, placeholder: seq<string>) returns (formatters: array<Formatter>)
    ensures fresh(formatters)
    ensures formatters.Length == |placeholder|
    ensures forall i :: 0 <= i < |placeholder| ==> formatters[i] == Resolve(tags, placeholder[i])
    ensures formatters[..] == ResolveAll(tags, placeholder)
  {
    formatters := new Formatter[|placeholder|];
    for i := 0 to |placeholder|
      invariant forall j :: 0 <= j < i ==> formatters[j] == Resolve(tags, placeholder[j])
    {
      formatters[i] := Resolve(tags, placeholder[i]);
    }
  }

  /** The formatter chain as a value: element i is resolved from token i alone. */
  function ResolveAll(tags: Tags, tokens: seq<string>): (chain: seq<Formatter>)
    ensures |chain| == |tokens|
    ensures forall i :: 0 <= i < |tokens| ==> chain[i] == Resolve(tags, tokens[i])
  {
    seq(|tokens|, i requires 0 <= i < |tokens| => Resolve(tags, tokens[i]))
  }
}
