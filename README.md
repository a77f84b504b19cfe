# korLogger core in Dafny

This project models the formatting and output pipeline of korLogger, a small Java logging library:

- **Compiling a log pattern.** `MessageFormatter.splitWithDelimiter` cuts the configured pattern into literal runs and placeholders. The placeholders match the regular expression `\{\w+}|\{new-line}`, found leftmost first as `Matcher.find` does. `replaceMatchPlaceholder` then turns each token into one of six formatters: date-time, level, thread, line separator, message, or a literal ("mime") copied verbatim.
- **Rendering one event.** `Log.write` drops the event when its level is below the configured minimum, when it has no arguments, or when no log formatter is configured. Otherwise it concatenates every formatter's output in chain order, writes the line to the console and, when a file recorder is configured, to the log file.
- **The file sink.** `LogFactory.file` normalises the log directory:
  - it is made absolute against `user.dir` unless it starts with a separator;
  - a trailing separator is added.

  It then creates the directory if needed and names the active file by removing the date tag from the file-name pattern. It creates that file if it is missing. Otherwise it archives the file under its last-modified date, when the pattern rendered with that date differs from the pattern rendered with today's date. Then it appends the line.

Modules:

- `Text` (text.dfy): string helpers.
  - `Concat`;
  - Java's literal `String.replace` (`ReplaceAll`);
  - `%5s` padding (`PadLeft`);
  - the decimal rendering of an `int` (`IntText`), with its reading `ParseInt`.
- `Tokenizer` (tokenizer.dfy): the placeholder grammar and `splitWithDelimiter`.
- `Formatters` (formatters.dfy): levels, colours, token resolution and the six `call`s.
- `Logging` (logging.dfy): `write`, the console and the file sink. The file system is a value, `Disk`: a set of directories and a map from path to content and last-modified time. The sinks are the fields of class `Sinks`.

Values the core reads from its environment are parameters of the model:

- From `Env`: the colour escape codes, the current date-time already rendered, the process id, the current thread's name and `System.lineSeparator()`.
- From `Host`: `user.dir`, `File.separator` and the clock.
- The formatter chain in `Config` is a free parameter. Nothing forces it to be compiled from a pattern; `LiteralPatternVerbatim` states what happens when it is.
- The pattern constants of `LogFormatter.MessagePattern` (`Tags`) and `FileRecorder.FilePattern.DATE`.
- The file recorder's date format, as a function from a time to a string.
- Whether each file-system call succeeds (`IoOutcome`). A failed call stops `file` without raising and keeps what earlier steps did. This is the effect of the source's `catch (IOException e)`, which only prints a stack trace.

## Model

| member | source | states |
|---|---|---|
| Tokenizer.MatchEndSpec | src/main/java/com/forestfull/log/up/util/MessageFormatter.java:18 | A match of `\{\w+}\|\{new-line}` starting at a position is unique. `s[i..j]` is a placeholder exactly when `j` is `MatchEnd(s, i)`. |
| Tokenizer.MatchEndComplete | src/main/java/com/forestfull/log/up/util/MessageFormatter.java:18 | Every placeholder starting at `i` ends where `MatchEnd` says. |
| Tokenizer.MatchEndSound | src/main/java/com/forestfull/log/up/util/MessageFormatter.java:18 | What `MatchEnd` finds beyond `i` is a placeholder. |
| Tokenizer.WordRunSpec | src/main/java/com/forestfull/log/up/util/MessageFormatter.java:18 | The `\w+` run is all word characters and stops at a non-word character or at the end. |
| Tokenizer.NextMatch | src/main/java/com/forestfull/log/up/util/MessageFormatter.java:23 | `Matcher.find` from `from`. A found start is at or after `from` with a non-empty match there, and no match starts between `from` and it. |
| Tokenizer.SplitWithDelimiter | src/main/java/com/forestfull/log/up/util/MessageFormatter.java:17-37 | The loop's result is `Split(placeholder)`. Concatenated, it gives back the pattern. Every token is non-empty and is either a whole placeholder or a literal containing no placeholder. |
| Tokenizer.ScanStep | src/main/java/com/forestfull/log/up/util/MessageFormatter.java:23-29 | Proof step. One loop iteration: the literal before the match (only when `lastEnd != start`), then the match, then the rest of the split. |
| Tokenizer.SplitFromStep | src/main/java/com/forestfull/log/up/util/MessageFormatter.java:24-28 | Proof step. The split from `lastEnd` unfolds into the literal gap, the match and the split after it. |
| Tokenizer.SplitConcat | src/main/java/com/forestfull/log/up/util/MessageFormatter.java:17-37 | Round trip: the tokens concatenate back to the pattern. |
| Tokenizer.SplitFromConcat | src/main/java/com/forestfull/log/up/util/MessageFormatter.java:22-33 | The tokens emitted from `lastEnd` on concatenate to `s[lastEnd..]`. |
| Tokenizer.SplitElements | src/main/java/com/forestfull/log/up/util/MessageFormatter.java:24-33 | Every token is non-empty. A token is a placeholder exactly when it is not a literal. No two literals are adjacent. |
| Tokenizer.SplitFromElements | src/main/java/com/forestfull/log/up/util/MessageFormatter.java:24-33 | Tokens from `lastEnd` on are non-empty, and each is a placeholder or a literal. |
| Tokenizer.SplitFromAlternates | src/main/java/com/forestfull/log/up/util/MessageFormatter.java:24-28 | Of any two adjacent tokens emitted from `lastEnd` on, at least one is a placeholder. |
| Tokenizer.LiteralRun | src/main/java/com/forestfull/log/up/util/MessageFormatter.java:24-25 | A gap in which no match starts contains no placeholder. |
| Tokenizer.PlaceholderOrLiteral | src/main/java/com/forestfull/log/up/util/MessageFormatter.java:27 | A placeholder is not a literal. |
| Tokenizer.SplitLiteral | src/main/java/com/forestfull/log/up/util/MessageFormatter.java:31-33 | A pattern without placeholders splits into itself alone, or into nothing when empty. |
| Text.ConcatAppend | src/main/java/com/forestfull/log/up/util/Log.java:97-101 | Concatenating two lists of parts is concatenating each list. |
| Text.ConcatSnoc | src/main/java/com/forestfull/log/up/util/MessageFormatter.java:129-130 | Appending one more part appends its text, which is one builder step. |
| Text.SliceOfSlice | src/main/java/com/forestfull/log/up/util/MessageFormatter.java:25 | Proof step. A substring of a substring is the substring at the shifted bounds. |
| Text.ReplaceAbsent | src/main/java/com/forestfull/log/up/util/Log.java:177 | `String.replace` with a non-empty target that does not occur leaves the string unchanged. |
| Text.ReplaceLengthMonotone | src/main/java/com/forestfull/log/up/util/Log.java:182-183 | A longer replacement never gives a shorter result. It gives a strictly longer one when the target occurs. |
| Text.ReplaceInjective | src/main/java/com/forestfull/log/up/util/Log.java:182-184 | Once the target occurs, two replacements give equal results exactly when they are equal. |
| Text.ReplaceSameLength | src/main/java/com/forestfull/log/up/util/Log.java:182-184 | Equal-length replacements that give equal results are equal. |
| Text.PadLeft | src/main/java/com/forestfull/log/up/util/MessageFormatter.java:85 | `%5s`: the length is the larger of the text's length and the width. The text is a suffix, preceded only by spaces, and is never truncated. |
| Text.Spaces | src/main/java/com/forestfull/log/up/util/MessageFormatter.java:85 | The padding is exactly `n` spaces. |
| Text.NatText | src/main/java/com/forestfull/log/up/util/MessageFormatter.java:109 | The decimal digits of the line number: non-empty, all digits, and no leading zero. |
| Text.NatTextRoundTrip | src/main/java/com/forestfull/log/up/util/MessageFormatter.java:109 | Reading the digits back gives the number. |
| Text.IntTextRoundTrip | src/main/java/com/forestfull/log/up/util/MessageFormatter.java:109 | The appended `int` line number, negative ones included, reads back to itself. |
| Formatters.ResolveSource | src/main/java/com/forestfull/log/up/util/MessageFormatter.java:43-67 | Resolution forgets nothing: the token is recovered from its formatter. |
| Formatters.SourceResolve | src/main/java/com/forestfull/log/up/util/MessageFormatter.java:43-67 | With distinct tags, a formatter that is not a literal copy of a tag is what its token resolves to. |
| Formatters.ReplaceMatchPlaceholder | src/main/java/com/forestfull/log/up/util/MessageFormatter.java:39-71 | A fresh array with one formatter per token. Element `i` is resolved from token `i` alone: a tag gives its kind, anything else gives a literal. The array's contents are the chain value `ResolveAll`. |
| Formatters.ResolveAll | src/main/java/com/forestfull/log/up/util/MessageFormatter.java:39-71 | The chain as a value has the same length as the tokens, and element `i` is resolved from token `i`. |
| Formatters.UnknownTokenVerbatim | src/main/java/com/forestfull/log/up/util/MessageFormatter.java:64-65 | A token equal to no tag becomes a literal, which renders as that token for every event. |
| Formatters.Call | src/main/java/com/forestfull/log/up/util/MessageFormatter.java:15 | Dispatch: each formatter kind renders as `Eval` defines it. |
| Formatters.LevelField | src/main/java/com/forestfull/log/up/util/MessageFormatter.java:84-86 | The level field is the level colour, exactly five characters with the name right-justified, then RESET. |
| Formatters.SplitDots | src/main/java/com/forestfull/log/up/util/MessageFormatter.java:102 | The class name cut at dots: at least one segment, no dots inside a segment, and joined back it is the name. |
| Formatters.InitialsShape | src/main/java/com/forestfull/log/up/util/MessageFormatter.java:103-105 | Each package contributes two characters: its initial, then `.`. |
| Formatters.InitialsStep | src/main/java/com/forestfull/log/up/util/MessageFormatter.java:104 | Proof step. One more package appends its initial and a `.`. |
| Formatters.EmptyClassName | src/main/java/com/forestfull/log/up/util/MessageFormatter.java:102-110 | The empty class name is accepted. It splits into one empty segment, so the call site is just `.method(File:line)`. |
| Formatters.ThreadCall | src/main/java/com/forestfull/log/up/util/MessageFormatter.java:92-113 | The builder loop produces the PID header, the thread name, the abbreviated packages, then `Class.method(File:line)`. |
| Formatters.MessageCall | src/main/java/com/forestfull/log/up/util/MessageFormatter.java:127-133 | The level colour, every argument in order, then the colour of `Level.OFF`, not RESET. |
| Logging.Outputs | src/main/java/com/forestfull/log/up/util/Log.java:99-101 | One output per formatter, in chain order. |
| Logging.RenderAppend | src/main/java/com/forestfull/log/up/util/Log.java:97-101 | Rendering a chain split in two renders the two parts one after the other. |
| Logging.EmittedGates | src/main/java/com/forestfull/log/up/util/Log.java:92-106 | A line is produced exactly when the level reaches the minimum, there is at least one argument and a log formatter is set. The line is then the rendered chain. A call that the gates drop needs no condition on the class name. |
| Logging.LiteralPatternVerbatim | src/main/java/com/forestfull/log/up/util/Log.java:99-101 | A pattern without tag tokens renders to itself, whatever the event. |
| Logging.NormalizeDirShape | src/main/java/com/forestfull/log/up/util/Log.java:162-167 | The directory ends with a separator. It is prefixed by `user.dir` and a separator exactly when it does not start with a separator. An absolute, separator-terminated directory is unchanged. |
| Logging.NormalizeDirIdempotent | src/main/java/com/forestfull/log/up/util/Log.java:162-167 | With an absolute `user.dir`, normalising twice is normalising once. |
| Logging.NoDateTagNeverRotates | src/main/java/com/forestfull/log/up/util/Log.java:177-188 | Without the date tag in the pattern, the active name is the pattern and no write rotates. |
| Logging.RotateIffDatesDiffer | src/main/java/com/forestfull/log/up/util/Log.java:182-184 | With the date tag in the pattern, the two rendered names differ exactly when the last-modified date and today's date render differently. So a write rotates exactly then. |
| Logging.FileStepNeedsDirectory | src/main/java/com/forestfull/log/up/util/Log.java:160 | Without a directory, the file sink changes nothing. |
| Logging.FileStepFrame | src/main/java/com/forestfull/log/up/util/Log.java:169-197 | Only the normalised directory may be added. No file appears except the active file and its archive, and every other file keeps its entry. |
| Logging.FileStepAppends | src/main/java/com/forestfull/log/up/util/Log.java:191-194 | On the same date, the line is appended to the active file after its old content, and the file stamp becomes the current time. Every other file is unchanged: the whole file map equals the old map with only the active entry replaced. |
| Logging.FileStepRotates | src/main/java/com/forestfull/log/up/util/Log.java:181-194 | On a new date, the archive holds the old file and the active file holds just the line. The whole file map equals the old map with only these two entries set. |
| Logging.FileStepCreates | src/main/java/com/forestfull/log/up/util/Log.java:178-180 | A first write creates the active file holding just the line. The whole file map equals the old map with only that entry added. |
| Logging.FileStepMkdirsFails | src/main/java/com/forestfull/log/up/util/Log.java:171-174 | When nothing exists at the directory's path and `mkdirs` fails, the `IOException` is caught (lines 195-196) and the disk is left exactly as it was. |
| Logging.FileStepCreateOrRenameFails | src/main/java/com/forestfull/log/up/util/Log.java:178-186 | When the active file is missing and `createNewFile` fails, or the date changed and `renameTo` fails, the `IOException` is caught (lines 195-196) and no file changes. |
| Logging.Sinks.Console | src/main/java/com/forestfull/log/up/util/Log.java:138-147 | The whole text is added to the console. The disk does not change. |
| Logging.Sinks.File | src/main/java/com/forestfull/log/up/util/Log.java:155-198 | The disk becomes `FileStep` of the old disk. The console does not change. |
| Logging.Sinks.WriteInDir | src/main/java/com/forestfull/log/up/util/Log.java:177-194 | After the directory step, the disk becomes `FileInDir` of the old disk. |
| Logging.Write | src/main/java/com/forestfull/log/up/util/Log.java:92-106 | The class-name condition applies only to calls that pass the three gates. When `Emitted` is None, nothing changes. Otherwise the console gains exactly the rendered line. The disk gets the file step when a recorder is configured and is otherwise unchanged. |
| Tokenizer.IsPlaceholder | src/main/java/com/forestfull/log/up/util/MessageFormatter.java:18 | Definition: a whole match of `\{\w+}\|\{new-line}`. Either `{new-line}`, or `{`, one or more ASCII word characters, then `}`. |
| Tokenizer.MatchEnd | src/main/java/com/forestfull/log/up/util/MessageFormatter.java:18-19 | Definition: the end of the match starting at a position, with the alternatives tried in the expression's order. It is the position itself when no match starts there. Characterised by `MatchEndSpec`. |
| Tokenizer.SplitFrom | src/main/java/com/forestfull/log/up/util/MessageFormatter.java:22-33 | Definition: what the scan emits from `lastEnd` on. That is the non-empty gap before the next match, the match, and the rest; or the non-empty remainder when no match is left. |
| Tokenizer.Split | src/main/java/com/forestfull/log/up/util/MessageFormatter.java:17-37 | Definition: the split of a whole pattern, which is `SplitFrom` from 0. |
| Text.Concat | src/main/java/com/forestfull/log/up/util/Log.java:97-101 | Definition: the parts appended in order, as a `StringBuilder` does. |
| Text.ReplaceAll | src/main/java/com/forestfull/log/up/util/Log.java:177 | Definition: literal `String.replace`, which replaces every non-overlapping occurrence from left to right. An empty target inserts the replacement before every character and at the end. Lines 182-183 use it too. |
| Text.IntText | src/main/java/com/forestfull/log/up/util/MessageFormatter.java:109 | Definition: an `int` appended to a `StringBuilder`, with a `-` sign for negative values. Its reading is `ParseInt` (`IntTextRoundTrip`). |
| Formatters.Resolve | src/main/java/com/forestfull/log/up/util/MessageFormatter.java:43-67 | Definition: one case of the switch, in case order by exact string equality. Anything else becomes a literal. |
| Formatters.Eval | src/main/java/com/forestfull/log/up/util/MessageFormatter.java:73-148 | Definition: the six `call`s. They give the rendered date-time, the level field, the thread text, the line separator, the message, or the literal text. |
| Formatters.ThreadHeader | src/main/java/com/forestfull/log/up/util/MessageFormatter.java:94-101 | Definition: the PID in purple, RESET, then the thread name in cyan, RESET and a space. |
| Formatters.Initials | src/main/java/com/forestfull/log/up/util/MessageFormatter.java:103-105 | Definition: each package segment's first character followed by `.`. Characterised by `InitialsShape`. |
| Formatters.Frame | src/main/java/com/forestfull/log/up/util/MessageFormatter.java:106-110 | Definition: `Class.method(File:line)`. |
| Formatters.CallSite | src/main/java/com/forestfull/log/up/util/MessageFormatter.java:102-110 | Definition: the abbreviated packages, then the frame of the last segment. |
| Formatters.ThreadText | src/main/java/com/forestfull/log/up/util/MessageFormatter.java:94-112 | Definition: the header, then the call site. |
| Logging.ShouldLog | src/main/java/com/forestfull/log/up/util/Log.java:93 | Definition: the level is at or above the configured minimum in declaration order. |
| Logging.PassesGates | src/main/java/com/forestfull/log/up/util/Log.java:93-95 | Definition: none of the three early returns is taken. |
| Logging.Render | src/main/java/com/forestfull/log/up/util/Log.java:97-101 | Definition: the formatter outputs concatenated in chain order. |
| Logging.Emitted | src/main/java/com/forestfull/log/up/util/Log.java:92-106 | Definition: the text `write` hands to the sinks, or None after an early return. Characterised by `EmittedGates`. |
| Logging.NormalizeDir | src/main/java/com/forestfull/log/up/util/Log.java:162-167 | Definition: made absolute against `user.dir` unless it starts with `File.separator` or `/`, then terminated with `File.separator`. Characterised by `NormalizeDirShape`. |
| Logging.ActiveName | src/main/java/com/forestfull/log/up/util/Log.java:177 | Definition: the file-name pattern with every DATE tag removed. |
| Logging.DatedName | src/main/java/com/forestfull/log/up/util/Log.java:182-183 | Definition: the file-name pattern with every DATE tag replaced by the given time's date. |
| Logging.ShouldRotate | src/main/java/com/forestfull/log/up/util/Log.java:184 | Definition: the names rendered for now and for the last-modified time differ. |
| Logging.ActivePath | src/main/java/com/forestfull/log/up/util/Log.java:177 | Definition: the normalised directory, `File.separator`, then the active name. |
| Logging.ArchivePath | src/main/java/com/forestfull/log/up/util/Log.java:185 | Definition: the normalised directory, `File.separator`, then the name rendered for the last-modified time. |
| Logging.FileStep | src/main/java/com/forestfull/log/up/util/Log.java:158-175 | Definition: no directory means no change. Otherwise the directory is created when nothing exists at its path; a failed `mkdirs` stops the call. Then `FileInDir` runs. |
| Logging.FileInDir | src/main/java/com/forestfull/log/up/util/Log.java:177-194 | Definition: create the active file if nothing exists at its path. If it is a file with a stale date, rename it to the archive path. Then append. A failed create or rename stops the call. |
| Logging.Create | src/main/java/com/forestfull/log/up/util/Log.java:179 | Definition: `createNewFile` gives an empty file stamped with the current time. |
| Logging.Rename | src/main/java/com/forestfull/log/up/util/Log.java:185 | Definition: `renameTo` moves the entry to the archive path. |
| Logging.Append | src/main/java/com/forestfull/log/up/util/Log.java:191-194 | Definition: the appending `FileOutputStream` adds the line after the old content, or creates the file. A directory at the path, or a failed write, leaves the disk unchanged. |

## Left out

- The second `write` overload (Log.java:108-124) is not modelled. It applies `replaceAll` with the tag constants as regular expressions, and those constants are not part of this model.
- The level entry points `debug`, `info`, `warn` and `error` (Log.java:30-82) are not modelled. Each captures the call site by throwing and catching `LogUpStackTrace`, then calls `write` with its level. `LogLocationInfo` is not part of this model; the call site is a `Location` parameter of `Write`.
- `initConsole` (Log.java:200-205) only prints the banner and is not modelled.
- `Sinks.Console` always succeeds. The source's `IOException` on standard output only prints a stack trace.
- `synchronized` is not modelled: each call is one atomic step on `Sinks`.
- `deleteOnExit` only matters at JVM exit and is not modelled.
- The UTF-8 encoding of the appended line is not modelled: files hold characters, not bytes.
- `java.io.File` path normalisation is not modelled. Paths are the strings as built, so the doubled separator between the directory and the file name is kept.
- `Rename` replaces an entry already at the archive path, as POSIX `rename` does. A platform where `renameTo` fails instead is an `IoOutcome` with `renameOk` false.
- `Level` is a fixed datatype with the enum's names, in declaration order DEBUG < INFO < WARN < ERROR < OFF, which `compareTo` follows. Its colours (`Palette`) and the pattern constants (`Tags`) are parameters.
- The clock, `SimpleDateFormat`, the PID lookup, the thread name and `System.lineSeparator()` are parameters.
- Arguments are given as their `toString` texts, with `null` as the text `"null"`. A null argument array is `None`.
- Formatters.ThreadCall: requires the class name to be empty or to have only non-empty dot-separated segments. On a name with an empty leading or inner segment the source throws from `charAt(0)`. On a name with trailing dots, `String.split` drops the trailing empty segments. A name made only of dots splits into nothing, and indexing it throws. These cases are not modelled.
- Formatters.Call: has the same class-name requirement as ThreadCall, for the thread formatter only.
- Logging.Write: has the same class-name requirement, and only when the chain contains the thread formatter and the call passes the three gates.
- Formatters.Eval: every date-time token of one line renders the same `Env.dateTime`. The source reads the clock again for each date-time formatter, so two such tokens on one line can differ across a tick.
- Formatters.Initials: a package's initial is its first character. `charAt(0)` takes one UTF-16 unit, which is only half of a character outside the Basic Multilingual Plane.
- Formatters.ReplaceMatchPlaceholder: `Tags.Distinct` is not required. Tags that are not distinct would not compile as Java `case` labels, so only `SourceResolve` requires distinct tags.
