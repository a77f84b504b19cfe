/** Log.write and Log.LogFactory: the level and argument gates, the in-order
    rendering of the formatter chain, and the two sinks. The console is the
    sequence of texts written to standard output; the file system is a value
    holding directories and files, and each file has content and a
    last-modified time. */
module Logging {
  import opened Text
  import opened Tokenizer
  import opened Formatters

  /** FileRecorder: the directory (None for null), the file-name pattern,
      the DATE tag it may embed, and its date format applied to a time. */
  datatype FileRecorder = FileRecorder(
    directory: Option<string>, placeholder: string, dateTag: string, dateFormat: int -> string)

  /** The process-wide configuration: the minimum level, whether a log
      formatter is set, the formatter chain, and the optional file recorder.
      The chain is taken as given; LiteralPatternVerbatim relates a chain
      compiled from a pattern to that pattern. */
  datatype Config = Config(minLevel: Level, hasLogFormatter: bool, chain: seq<Formatter>, fileRecorder: Option<FileRecorder>)

  /** The user.dir property, File.separator and the clock at the file write. */
  datatype Host = Host(userDir: string, separator: char, now: int)

  /** Whether mkdirs, createNewFile, renameTo and the appending
      FileOutputStream succeed on this call. */
  datatype IoOutcome = IoOutcome(mkdirsOk: bool, createOk: bool, renameOk: bool, writeOk: bool)

  datatype FileEntry = FileEntry(content: string, lastModified: int)

  datatype Disk = Disk(dirs: set<string>, files: map<string, FileEntry>)

  /** Level.compareTo(minimum) >= 0 */
  predicate ShouldLog(minLevel: Level, level: Level)
  {
    level.Rank() >= minLevel.Rank()
  }

  /** The three early returns of `write` all pass: the level reaches the
      minimum, there is at least one argument and a log formatter is set. */
  predicate PassesGates(cfg: Config, level: Level, messages: Option<seq<string>>)
  {
    ShouldLog(cfg.minLevel, level) && messages.Some? && messages.value != [] && cfg.hasLogFormatter
  }

  /** Each formatter's output for the event, in chain order. */
  function Outputs(chain: seq<Formatter>, env: Env, level: Level, loc: Location, args: seq<string>): (outs: seq<string>)
    requires Thread in chain ==> WellFormedClassName(loc.className)
    ensures |outs| == |chain|
    ensures forall i :: 0 <= i < |chain| ==> outs[i] == Eval(chain[i], env, level, loc, args)
  {
    seq(|chain|, i requires 0 <= i < |chain| => Eval(chain[i], env, level, loc, args))
  }

  /** The log line: all formatter outputs concatenated in order. */
  function Render(chain: seq<Formatter>, env: Env, level: Level, loc: Location, args: seq<string>): string
    requires Thread in chain ==> WellFormedClassName(loc.className)
  {
    Concat(Outputs(chain, env, level, loc, args))
  }

  /** Rendering a chain split in two renders the parts one after the other. */
  lemma RenderAppend(a: seq<Formatter>, b: seq<Formatter>, env: Env, level: Level, loc: Location, args: seq<string>)
    requires Thread in a + b ==> WellFormedClassName(loc.className)
    ensures Render(a + b, env, level, loc, args) == Render(a, env, level, loc, args) + Render(b, env, level, loc, args)
  {
    assert Outputs(a + b, env, level, loc, args) == Outputs(a, env, level, loc, args) + Outputs(b, env, level, loc, args);
    ConcatAppend(Outputs(a, env, level, loc, args), Outputs(b, env, level, loc, args));
  }

  /** The text `write` hands to the sinks, or None when it returns early. */
  function Emitted(cfg: Config, env: Env, level: Level, loc: Location, messages: Option<seq<string>>): Option<string>
    requires Thread in cfg.chain && PassesGates(cfg, level, messages) ==> WellFormedClassName(loc.className)
  {
    if !ShouldLog(cfg.minLevel, level) then None
    else if messages.None? || messages.value == [] then None
    else if !cfg.hasLogFormatter then None
    else Some(Render(cfg.chain, env, level, loc, messages.value))
  }

  /** Output happens exactly when the level reaches the minimum, there is at
      least one argument and a log formatter is configured; the text is then
      the rendered chain. */
  lemma EmittedGates(cfg: Config, env: Env, level: Level, loc: Location, messages: Option<seq<string>>)
    requires Thread in cfg.chain && PassesGates(cfg, level, messages) ==> WellFormedClassName(loc.className)
    ensures Emitted(cfg, env, level, loc, messages).Some? <==>
      level.Rank() >= cfg.minLevel.Rank() && messages.Some? && messages.value != [] && cfg.hasLogFormatter
    ensures Emitted(cfg, env, level, loc, messages).Some? ==>
      Emitted(cfg, env, level, loc, messages).value == Render(cfg.chain, env, level, loc, messages.value)
  {
  }

  /** A pattern none of whose tokens is a tag renders to itself, whatever the
      event: tokenizing loses nothing and literals are copied verbatim. */
  lemma LiteralPatternVerbatim(tags: Tags, pattern: string, env: Env, level: Level, loc: Location, args: seq<string>)
    requires forall t :: t in Split(pattern) ==> !tags.IsTag(t)
    ensures Thread !in ResolveAll(tags, Split(pattern))
    ensures Render(ResolveAll(tags, Split(pattern)), env, level, loc, args) == pattern
  {
    var tokens := Split(pattern);
    var chain := ResolveAll(tags, tokens);
    forall i | 0 <= i < |tokens| ensures chain[i] == Mime(tokens[i]) {
      assert tokens[i] in tokens;
    }
    assert Thread !in chain;
    assert Outputs(chain, env, level, loc, args) == tokens;
    SplitConcat(pattern);
  }

  /** The log directory made absolute against user.dir unless it starts with
      a separator or '/', and terminated by a separator. */
  function NormalizeDir(dir: string, host: Host): string
    requires dir != []
  {
    var rooted := if dir[0] != host.separator && dir[0] != '/' then host.userDir + [host.separator] + dir else dir;
    if rooted[|rooted| - 1] != host.separator && rooted[|rooted| - 1] != '/' then rooted + [host.separator] else rooted
  }

  predicate IsSeparator(c: char, host: Host)
  {
    c == host.separator || c == '/'
  }

  /** The normalized directory ends with a separator; it is prefixed with
      user.dir and a separator exactly when it does not start with one; an
      absolute, separator-terminated directory is left unchanged. */
  lemma NormalizeDirShape(dir: string, host: Host)
    requires dir != []
    ensures var d := NormalizeDir(dir, host);
      && d != [] && IsSeparator(d[|d| - 1], host)
      && (IsSeparator(dir[0], host) ==> dir <= d && |d| <= |dir| + 1)
      && (!IsSeparator(dir[0], host) ==> host.userDir + [host.separator] + dir <= d)
      && (IsSeparator(dir[0], host) && IsSeparator(dir[|dir| - 1], host) ==> d == dir)
  {
  }

  /** With an absolute (or empty) user.dir, normalizing twice is normalizing once. */
  lemma NormalizeDirIdempotent(dir: string, host: Host)
    requires dir != []
    requires host.userDir == [] || IsSeparator(host.userDir[0], host)
    ensures NormalizeDir(NormalizeDir(dir, host), host) == NormalizeDir(dir, host)
  {
  }

  /** The active file name: the pattern with every DATE tag removed. */
  function ActiveName(rec: FileRecorder): string
  {
    ReplaceAll(rec.placeholder, rec.dateTag, "")
  }

  /** The pattern with every DATE tag replaced by the given time's date. */
  function DatedName(rec: FileRecorder, time: int): string
  {
    ReplaceAll(rec.placeholder, rec.dateTag, rec.dateFormat(time))
  }

  /** The rotation rule: the existing file is archived when its last-modified
      date names a different file than the current date does. */
  predicate ShouldRotate(rec: FileRecorder, now: int, lastModified: int)
  {
    DatedName(rec, now) != DatedName(rec, lastModified)
  }

  /** Without a DATE tag in the pattern the active name is the pattern and no
      write ever rotates. */
  lemma NoDateTagNeverRotates(rec: FileRecorder, now: int, lastModified: int)
    requires rec.dateTag != [] && !Contains(rec.placeholder, rec.dateTag)
    ensures ActiveName(rec) == rec.placeholder
    ensures !ShouldRotate(rec, now, lastModified)
  {
    ReplaceAbsent(rec.placeholder, rec.dateTag, "");
    ReplaceAbsent(rec.placeholder, rec.dateTag, rec.dateFormat(now));
    ReplaceAbsent(rec.placeholder, rec.dateTag, rec.dateFormat(lastModified));
  }

  /** With a DATE tag in the pattern, a write rotates exactly when the file's
      last-modified date renders differently from the current date. */
  lemma RotateIffDatesDiffer(rec: FileRecorder, now: int, lastModified: int)
    requires rec.dateTag != [] && Contains(rec.placeholder, rec.dateTag)
    ensures ShouldRotate(rec, now, lastModified) <==> rec.dateFormat(now) != rec.dateFormat(lastModified)
  {
    ReplaceInjective(rec.placeholder, rec.dateTag, rec.dateFormat(now), rec.dateFormat(lastModified));
  }

  /** The active file's path: the normalized directory, which already ends
      with a separator, then File.separator again, then the active name. */
  function ActivePath(dir: string, rec: FileRecorder, host: Host): string
  {
    dir + [host.separator] + ActiveName(rec)
  }

  /** The name an existing active file is renamed to. */
  function ArchivePath(dir: string, rec: FileRecorder, host: Host, lastModified: int): string
  {
    dir + [host.separator] + DatedName(rec, lastModified)
  }

  /** FileOutputStream(file, true): append to the file, creating it if absent;
      a directory at that path, or a failing stream, leaves the disk as it was. */
  function Append(d: Disk, path: string, msg: string, host: Host, io: IoOutcome): Disk
  {
    if path in d.dirs || !io.writeOk then d
    else
      var before := if path in d.files then d.files[path].content else [];
      d.(files := d.files[path := FileEntry(before + msg, host.now)])
  }

  /** createNewFile: an empty file stamped with the current time. */
  function Create(d: Disk, path: string, host: Host): Disk
  {
    d.(files := d.files[path := FileEntry([], host.now)])
  }

  /** renameTo: the entry moves to the new path, which it replaces. */
  function Rename(d: Disk, from: string, to: string): Disk
    requires from in d.files
  {
    d.(files := (d.files - {from})[to := d.files[from]])
  }

  /** LogFactory.file on a disk: normalize the directory, create it if
      missing, then continue inside it. A failing step stops the call and
      keeps what the earlier steps did; nothing is raised. */
  function FileStep(disk: Disk, msg: string, rec: FileRecorder, host: Host, io: IoOutcome): Disk
  {
    if rec.directory.None? || rec.directory.value == [] then disk
    else
      var dir := NormalizeDir(rec.directory.value, host);
      if dir in disk.dirs || dir in disk.files then FileInDir(disk, dir, msg, rec, host, io)
      else if io.mkdirsOk then FileInDir(disk.(dirs := disk.dirs + {dir}), dir, msg, rec, host, io)
      else disk
  }

  /** The part of LogFactory.file after the directory exists: create the
      active file if missing, or archive it when its date is stale, then append. */
  function FileInDir(d: Disk, dir: string, msg: string, rec: FileRecorder, host: Host, io: IoOutcome): Disk
  {
    var path := ActivePath(dir, rec, host);
    if path !in d.files && path !in d.dirs then
      if io.createOk then Append(Create(d, path, host), path, msg, host, io) else d
    else if path in d.files && ShouldRotate(rec, host.now, d.files[path].lastModified) then
      if io.renameOk then Append(Rename(d, path, ArchivePath(dir, rec, host, d.files[path].lastModified)), path, msg, host, io)
      else d
    else Append(d, path, msg, host, io)
  }

  /** Without a directory configured, the file step does nothing. */
  lemma FileStepNeedsDirectory(disk: Disk, msg: string, rec: FileRecorder, host: Host, io: IoOutcome)
    requires rec.directory.None? || rec.directory.value == []
    ensures FileStep(disk, msg, rec, host, io) == disk
  {
  }

  /** Nothing else changes: only the normalized directory may be added, and
      every file other than the active one and its archive keeps its entry. */
  lemma FileStepFrame(disk: Disk, msg: string, rec: FileRecorder, host: Host, io: IoOutcome)
    requires rec.directory.Some? && rec.directory.value != []
    ensures var dir := NormalizeDir(rec.directory.value, host);
      var path := ActivePath(dir, rec, host);
      var archive := if path in disk.files then ArchivePath(dir, rec, host, disk.files[path].lastModified) else path;
      var after := FileStep(disk, msg, rec, host, io);
      && (after.dirs == disk.dirs || after.dirs == disk.dirs + {dir})
      && (forall p :: p in after.files ==> p in disk.files || p == path || p == archive)
      && (forall p :: p in disk.files && p != path && p != archive ==> p in after.files && after.files[p] == disk.files[p])
  {
  }

  /** A write on the same date appends to the active file and keeps what it held. */
  lemma FileStepAppends(disk: Disk, msg: string, rec: FileRecorder, host: Host, io: IoOutcome)
    requires rec.directory.Some? && rec.directory.value != []
    requires io.writeOk && (io.mkdirsOk || NormalizeDir(rec.directory.value, host) in disk.dirs)
    requires var path := ActivePath(NormalizeDir(rec.directory.value, host), rec, host);
      && path in disk.files && path !in disk.dirs
      && !ShouldRotate(rec, host.now, disk.files[path].lastModified)
    ensures var path := ActivePath(NormalizeDir(rec.directory.value, host), rec, host);
      var after := FileStep(disk, msg, rec, host, io);
      after.files == disk.files[path := FileEntry(disk.files[path].content + msg, host.now)]
  {
  }

  /** A write on a new date archives the old file under its own date and
      starts the active file afresh with the message. */
  lemma FileStepRotates(disk: Disk, msg: string, rec: FileRecorder, host: Host, io: IoOutcome)
    requires rec.directory.Some? && rec.directory.value != []
    requires io.renameOk && io.writeOk && (io.mkdirsOk || NormalizeDir(rec.directory.value, host) in disk.dirs)
    requires var dir := NormalizeDir(rec.directory.value, host);
      var path := ActivePath(dir, rec, host);
      && path in disk.files && path !in disk.dirs
      && ShouldRotate(rec, host.now, disk.files[path].lastModified)
      && ArchivePath(dir, rec, host, disk.files[path].lastModified) != path
    ensures var dir := NormalizeDir(rec.directory.value, host);
      var path := ActivePath(dir, rec, host);
      var archive := ArchivePath(dir, rec, host, disk.files[path].lastModified);
      var after := FileStep(disk, msg, rec, host, io);
      && archive in after.files && after.files[archive] == disk.files[path]
      && path in after.files && after.files[path] == FileEntry(msg, host.now)
      && after.files == disk.files[archive := disk.files[path]][path := FileEntry(msg, host.now)]
  {
    var dir := NormalizeDir(rec.directory.value, host);
    var path := ActivePath(dir, rec, host);
    var archive := ArchivePath(dir, rec, host, disk.files[path].lastModified);
    var entry := FileEntry(msg, host.now);
    assert (disk.files - {path})[archive := disk.files[path]][path := entry]
        == disk.files[archive := disk.files[path]][path := entry];
  }

  /** A first write creates the active file holding just the message. */
  lemma FileStepCreates(disk: Disk, msg: string, rec: FileRecorder, host: Host, io: IoOutcome)
    requires rec.directory.Some? && rec.directory.value != []
    requires io.createOk && io.writeOk && (io.mkdirsOk || NormalizeDir(rec.directory.value, host) in disk.dirs)
    requires var path := ActivePath(NormalizeDir(rec.directory.value, host), rec, host);
      path !in disk.files && path !in disk.dirs
    ensures var path := ActivePath(NormalizeDir(rec.directory.value, host), rec, host);
      var after := FileStep(disk, msg, rec, host, io);
      after.files == disk.files[path := FileEntry(msg, host.now)]
  {
    assert [] + msg == msg;
  }

  /** A directory that cannot be created stops the call: nothing changes. */
  lemma FileStepMkdirsFails(disk: Disk, msg: string, rec: FileRecorder, host: Host, io: IoOutcome)
    requires rec.directory.Some? && rec.directory.value != []
    requires var dir := NormalizeDir(rec.directory.value, host);
      dir !in disk.dirs && dir !in disk.files && !io.mkdirsOk
    ensures FileStep(disk, msg, rec, host, io) == disk
  {
  }

  /** A failed create or rename stops the call before the write: no file
      changes, and at most the directory has been added. */
  lemma FileStepCreateOrRenameFails(disk: Disk, msg: string, rec: FileRecorder, host: Host, io: IoOutcome)
    requires rec.directory.Some? && rec.directory.value != []
    requires var path := ActivePath(NormalizeDir(rec.directory.value, host), rec, host);
      || (path !in disk.files && path !in disk.dirs && !io.createOk)
      || (path in disk.files && ShouldRotate(rec, host.now, disk.files[path].lastModified) && !io.renameOk)
    ensures FileStep(disk, msg, rec, host, io).files == disk.files
  {
  }

  /** The process's standard output and file system, which the sinks change. */
  class Sinks {
    var console: seq<string>
    var disk: Disk

    constructor (disk: Disk)
      ensures console == [] && this.disk == disk
    {
      console := [];
      this.disk := disk;
    }

    /** LogFactory.console: one whole text per call. */
    method Console(msg: string)
      modifies this
      ensures console == old(console) + [msg]
      ensures disk == old(disk)
    {
      console := console + [msg];
    }

    /** LogFactory.file */
    method File(msg: string, rec: FileRecorder, host: Host, io: IoOutcome)
      modifies this
      ensures console == old(console)
      ensures disk == FileStep(old(disk), msg, rec, host, io)
    {
      if rec.directory.None? || rec.directory.value == [] {
        return;
      }
      var dir := rec.directory.value;
      if dir[0] != host.separator && dir[0] != '/' {
        dir := host.userDir + [host.separator] + dir;
      }
      if dir[|dir| - 1] != host.separator && dir[|dir| - 1] != '/' {
        dir := dir + [host.separator];
      }
      assert dir == NormalizeDir(rec.directory.value, host);
      if dir !in disk.dirs && dir !in disk.files {
        if !io.mkdirsOk {
          return;
        }
        disk := disk.(dirs := disk.dirs + {dir});
      }
      WriteInDir(dir, msg, rec, host, io);
    }

    /** The rest of LogFactory.file, once the directory exists. */
    method WriteInDir(dir: string, msg: string, rec: FileRecorder, host: Host, io: IoOutcome)
      modifies this
      ensures console == old(console)
      ensures disk == FileInDir(old(disk), dir, msg, rec, host, io)
    {
      var path := dir + [host.separator] + ActiveName(rec);
      if path !in disk.files && path !in disk.dirs {
        if !io.createOk {
          return;
        }
        disk := Create(disk, path, host);
      } else if path in disk.files {
        var currentName := DatedName(rec, host.now);
        var existedName := DatedName(rec, disk.files[path].lastModified);
        if currentName != existedName {
          if !io.renameOk {
            return;
          }
          disk := Rename(disk, path, dir + [host.separator] + existedName);
        }
      }
      if path in disk.dirs || !io.writeOk {
        return;
      }
      var before := if path in disk.files then disk.files[path].content else [];
      disk := disk.(files := disk.files[path := FileEntry(before + msg, host.now)]);
    }
  }

  /** Log.write: the three gates, the formatter loop, then the console and,
      when a file recorder is configured, the file. */
  method Write(sinks: Sinks, cfg: Config, env: Env, level: Level, loc: Location, messages: Option<seq<string>>,
               host: Host, io: IoOutcome)
    requires Thread in cfg.chain && PassesGates(cfg, level, messages) ==> WellFormedClassName(loc.className)
    modifies sinks
    ensures match Emitted(cfg, env, level, loc, messages)
      case None =>
        sinks.console == old(sinks.console) && sinks.disk == old(sinks.disk)
      case Some(text) =>
        && sinks.console == old(sinks.console) + [text]
        && sinks.disk == if cfg.fileRecorder.Some? then FileStep(old(sinks.disk), text, cfg.fileRecorder.value, host, io)
                         else old(sinks.disk)
  {
    if level.Rank() < cfg.minLevel.Rank() {
      return;
    }
    if messages.None? || |messages.value| == 0 {
      return;
    }
    if !cfg.hasLogFormatter {
      return;
    }
    var logMessage := "";
    for i := 0 to |cfg.chain|
      invariant logMessage == Render(cfg.chain[..i], env, level, loc, messages.value)
      invariant unchanged(sinks)
    {
      var part := Call(cfg.chain[i], env, level, loc, messages.value);
      RenderAppend(cfg.chain[..i], [cfg.chain[i]], env, level, loc, messages.value);
      assert cfg.chain[..i + 1] == cfg.chain[..i] + [cfg.chain[i]];
      assert Outputs([cfg.chain[i]], env, level, loc, messages.value) == [part];
      assert Concat([part]) == part + Concat([]);
      logMessage := logMessage + part;
    }
    assert cfg.chain[..|cfg.chain|] == cfg.chain;
    assert Emitted(cfg, env, level, loc, messages) == Some(logMessage);
    sinks.Console(logMessage);
    if cfg.fileRecorder.Some? {
      sinks.File(logMessage, cfg.fileRecorder.value, host, io);
    }
  }
}
