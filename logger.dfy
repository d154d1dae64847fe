/**
 * The structured logger of utils/logger.py: one JSON line per entry appended to a
 * daily file `{YYYY-MM-DD}.log` in the log directory; a file that has reached 100 MiB
 * is first renamed to the first free `{stem}_part{N}{ext}`. Loggers are memoised by
 * name.
 *
 * The log directory is a map from path to the lines written to that file. json.dumps
 * escapes every non-ASCII character, so a line's length in characters is its length
 * in bytes. The clock, thread and process ids, the node number, the host name, the
 * JSON encoder and whether a rename succeeds are parameters.
 */
module Logger {

  import opened Common
  import TextUtil

  /** self.max_file_size: 100 MiB. */
  const MaxFileSize: nat := 100 * 1024 * 1024

  datatype LogLevel = Debug | Info | Warn | Error | Fatal {
    function Name(): string {
      match this
      case Debug => "DEBUG"
      case Info => "INFO"
      case Warn => "WARN"
      case Error => "ERROR"
      case Fatal => "FATAL"
    }
  }

  // ---------------------------------------------------------------------------
  // The system id: the node number's six low bytes, most significant first.

  function Pow256(k: nat): (r: nat)
    ensures r > 0
  {
    if k == 0 then 1 else 256 * Pow256(k - 1)
  }

  /** The low `count` bytes of n, most significant first. */
  function Bytes(n: nat, count: nat): (r: seq<byte>)
    ensures |r| == count
  {
    if count == 0 then [] else Bytes(n / 256, count - 1) + [n % 256]
  }

  /** The number whose bytes, most significant first, these are. */
  function ValueOf(bs: seq<byte>): nat {
    if bs == [] then 0 else ValueOf(bs[..|bs| - 1]) * 256 + bs[|bs| - 1]
  }

  /** Division and remainder are determined by the bounds of the remainder. */
  lemma DivModUnique(n: int, m: int, q: int, r: int)
    requires m > 0 && n == m * q + r && 0 <= r < m
    ensures n / m == q && n % m == r
  {
    var d := q - n / m;
    assert m * d == n % m - r;
  }

  /** Splitting off the lowest byte first and then p more: the two-stage division. */
  lemma Nested(n: nat, p: nat)
    requires p > 0
    ensures (n / 256) / p == n / (256 * p)
    ensures ((n / 256) % p) * 256 + n % 256 == n % (256 * p)
  {
    var q, r := n / 256, n % 256;
    var a, b := q / p, q % p;
    assert n == 256 * q + r;
    assert q == p * a + b;
    assert n == (256 * p) * a + (256 * b + r);
    assert 256 * b + r < 256 * p;
    DivModUnique(n, 256 * p, a, 256 * b + r);
  }

  /** The bytes read back as a number give the node number's low bytes. */
  lemma {:induction false} BytesValue(n: nat, count: nat)
    ensures ValueOf(Bytes(n, count)) == n % Pow256(count)
  {
    if count > 0 {
      BytesValue(n / 256, count - 1);
      var bs := Bytes(n, count);
      assert bs[..|bs| - 1] == Bytes(n / 256, count - 1);
      Nested(n, Pow256(count - 1));
    }
  }

  /** Byte k from the end is (n >> 8k) & 0xff, as the id is formed in the source. */
  lemma {:induction false} ByteAt(n: nat, count: nat, k: nat)
    requires k < count
    ensures Bytes(n, count)[count - 1 - k] == (n / Pow256(k)) % 256
  {
    if k > 0 {
      ByteAt(n / 256, count - 1, k - 1);
      Nested(n, Pow256(k - 1));
    }
  }

  /** The bytes as two-digit lower-case hexadecimal, joined by ':'. */
  function HexJoin(bs: seq<byte>): string {
    if bs == [] then ""
    else if |bs| == 1 then TextUtil.Hex2(bs[0])
    else TextUtil.Hex2(bs[0]) + ":" + HexJoin(bs[1..])
  }

  /** _get_system_id: the hexadecimal node number, or "unknown" when it cannot be read. */
  function SystemId(node: Option<nat>): string {
    match node
    case None => "unknown"
    case Some(n) => HexJoin(Bytes(n, 6))
  }

  function HexByte(s: string): Option<byte>
    requires |s| == 2
  {
    match (TextUtil.HexValue(s[0]), TextUtil.HexValue(s[1]))
    case (Some(hi), Some(lo)) => Some(16 * hi + lo)
    case _ => None
  }

  /** Reads a ':'-separated list of two-digit hexadecimal bytes. */
  function ParseId(s: string): Option<seq<byte>>
    decreases |s|
  {
    if |s| < 2 then None
    else match HexByte(s[..2])
      case None => None
      case Some(b) =>
        if |s| == 2 then Some([b])
        else if s[2] != ':' then None
        else match ParseId(s[3..])
          case None => None
          case Some(rest) => Some([b] + rest)
  }

  lemma Hex2Parses(b: byte)
    ensures HexByte(TextUtil.Hex2(b)) == Some(b)
  {
    TextUtil.HexDigitValue(b / 16);
    TextUtil.HexDigitValue(b % 16);
  }

  lemma {:induction false} HexJoinParses(bs: seq<byte>)
    requires bs != []
    ensures |HexJoin(bs)| == 3 * |bs| - 1
    ensures ParseId(HexJoin(bs)) == Some(bs)
  {
    var s := HexJoin(bs);
    Hex2Parses(bs[0]);
    if |bs| > 1 {
      HexJoinParses(bs[1..]);
      assert s[..2] == TextUtil.Hex2(bs[0]);
      assert s[3..] == HexJoin(bs[1..]);
      assert [bs[0]] + bs[1..] == bs;
    } else {
      assert s[..2] == s;
      assert HexByte(s[..2]) == Some(bs[0]);
      assert [bs[0]] == bs;
    }
  }

  /**
   * The system id is 17 characters, "xx:xx:xx:xx:xx:xx", and reading it back gives the
   * node number's six low bytes, that is the node number modulo 2^48.
   */
  lemma SystemIdRoundTrip(n: nat)
    ensures |SystemId(Some(n))| == 17
    ensures ParseId(SystemId(Some(n))) == Some(Bytes(n, 6))
    ensures ValueOf(Bytes(n, 6)) == n % Pow256(6)
  {
    HexJoinParses(Bytes(n, 6));
    BytesValue(n, 6);
  }

  // ---------------------------------------------------------------------------
  // Dates and file names.

  /** A date as datetime holds it. */
  datatype Date = Date(year: nat, month: nat, day: nat) {
    predicate Valid() {
      1 <= year <= 9999 && 1 <= month <= 12 && 1 <= day <= 31
    }
  }

  function Pow10(k: nat): (r: nat)
    ensures r > 0
  {
    if k == 0 then 1 else 10 * Pow10(k - 1)
  }

  /** n in decimal with exactly `width` digits: zero-padded, or its low digits. */
  function Digits(n: nat, width: nat): (r: string)
    ensures |r| == width
  {
    if width == 0 then [] else Digits(n / 10, width - 1) + [TextUtil.DigitChar(n % 10)]
  }

  /** The value of a decimal digit; anything else reads as 0. */
  function DigitValue(c: char): nat {
    if '0' <= c <= '9' then c as int - '0' as int else 0
  }

  /** The decimal value of a string of digits. */
  function DigitsValue(s: string): nat {
    if s == [] then 0 else DigitsValue(s[..|s| - 1]) * 10 + DigitValue(s[|s| - 1])
  }

  lemma {:induction false} DigitsRoundTrip(n: nat, width: nat)
    requires n < Pow10(width)
    ensures DigitsValue(Digits(n, width)) == n
  {
    if width > 0 {
      var s := Digits(n, width);
      assert s[..|s| - 1] == Digits(n / 10, width - 1);
      DigitsRoundTrip(n / 10, width - 1);
    }
  }

  /** strftime("%Y-%m-%d") */
  function DateText(d: Date): string {
    Digits(d.year, 4) + "-" + Digits(d.month, 2) + "-" + Digits(d.day, 2)
  }

  function ParseDate(s: string): Date
    requires |s| == 10
  {
    Date(DigitsValue(s[..4]), DigitsValue(s[5..7]), DigitsValue(s[8..10]))
  }

  /** The date in a file name is ten characters and reads back as the date. */
  lemma DateRoundTrip(d: Date)
    requires d.Valid()
    ensures |DateText(d)| == 10 && ParseDate(DateText(d)) == d
  {
    var s := DateText(d);
    assert s[..4] == Digits(d.year, 4);
    assert s[5..7] == Digits(d.month, 2);
    assert s[8..10] == Digits(d.day, 2);
    DigitsRoundTrip(d.year, 4);
    DigitsRoundTrip(d.month, 2);
    DigitsRoundTrip(d.day, 2);
  }

  /** os.path.join(dir, name) for a relative name. */
  function PathJoin(dir: string, name: string): string {
    if dir == [] || dir[|dir| - 1] == '/' then dir + name else dir + "/" + name
  }

  /** The index of the last occurrence of c in s. */
  function LastIndex(s: string, c: char): (r: Option<nat>)
    ensures r.Some? ==> r.value < |s| && s[r.value] == c && c !in s[r.value + 1..]
    ensures r.None? ==> c !in s
  {
    if s == [] then None
    else if s[|s| - 1] == c then Some(|s| - 1)
    else
      var r := LastIndex(s[..|s| - 1], c);
      assert s == s[..|s| - 1] + [s[|s| - 1]];
      r
  }

  /** os.path.basename: what follows the last '/'. */
  function Basename(path: string): string {
    match LastIndex(path, '/')
    case None => path
    case Some(i) => path[i + 1..]
  }

  /** Some character before index i is not a dot. */
  predicate HasStem(s: string, i: nat)
    requires i <= |s|
  {
    exists k :: 0 <= k < i && s[k] != '.'
  }

  /**
   * os.path.splitext on a name without '/': the extension starts at the last dot,
   * unless only dots precede it (a leading-dot name has no extension).
   */
  function SplitExt(name: string): (string, string) {
    match LastIndex(name, '.')
    case Some(i) => if HasStem(name, i) then (name[..i], name[i..]) else (name, "")
    case None => (name, "")
  }

  /** Splitting off the extension loses nothing. */
  lemma SplitExtJoins(name: string)
    ensures SplitExt(name).0 + SplitExt(name).1 == name
  {
    match LastIndex(name, '.')
    case Some(i) =>
      if HasStem(name, i) {
        assert name[..i] + name[i..] == name;
      } else {
        assert name + "" == name;
      }
    case None =>
      assert name + "" == name;
  }

  /** _get_log_filename: today's file in the log directory. */
  function LogFileName(logDir: string, d: Date): string {
    PathJoin(logDir, DateText(d) + ".log")
  }

  /** The name the rotation tries for part N. */
  function PartName(logDir: string, stem: string, part: nat, ext: string): string {
    PathJoin(logDir, stem + "_part" + TextUtil.NatToString(part) + ext)
  }

  lemma DateTextPlain(d: Date)
    ensures '/' !in DateText(d) && '.' !in DateText(d)
    ensures DateText(d)[0] != '.'
  {
    DigitsPlain(d.year, 4);
    DigitsPlain(d.month, 2);
    DigitsPlain(d.day, 2);
  }

  lemma {:induction false} DigitsPlain(n: nat, width: nat)
    ensures forall k :: 0 <= k < width ==> '0' <= Digits(n, width)[k] <= '9'
  {
    if width > 0 {
      DigitsPlain(n / 10, width - 1);
    }
  }

  lemma BasenameJoin(dir: string, name: string)
    requires '/' !in name
    ensures Basename(PathJoin(dir, name)) == name
  {
    var p := PathJoin(dir, name);
    var i := |p| - |name| - 1;
    if dir == [] {
      assert p == name;
    } else {
      assert p[i] == '/' && p[i + 1..] == name;
      assert LastIndex(p, '/') == Some(i) by {
        LastIndexFrom(p, '/', i);
      }
    }
  }

  /** The last occurrence is the one with no occurrence after it. */
  lemma LastIndexFrom(s: string, c: char, i: nat)
    requires i < |s| && s[i] == c && c !in s[i + 1..]
    ensures LastIndex(s, c) == Some(i)
  {
  }

  /** Today's file is named by the date plus ".log", directly in the log directory. */
  lemma DailyBasename(logDir: string, d: Date)
    ensures Basename(LogFileName(logDir, d)) == DateText(d) + ".log"
  {
    var name := DateText(d) + ".log";
    DateTextPlain(d);
    assert name[|DateText(d)|..] == ".log";
    BasenameJoin(logDir, name);
  }

  /**
   * Rotating today's file looks for `{YYYY-MM-DD}_part{N}.log`: its base name splits
   * into the date and ".log".
   */
  lemma DailySplitExt(d: Date)
    ensures SplitExt(DateText(d) + ".log") == (DateText(d), ".log")
  {
    var name := DateText(d) + ".log";
    DateTextPlain(d);
    var i := |DateText(d)|;
    assert name[i] == '.' && name[i + 1..] == "log";
    LastIndexFrom(name, '.', i);
    assert name[0] != '.';
    assert HasStem(name, i);
    assert name[..i] == DateText(d) && name[i..] == ".log";
  }

  /** Different part numbers give different names, so the search never revisits a name. */
  lemma PartNameInjective(logDir: string, stem: string, p: nat, q: nat, ext: string)
    requires PartName(logDir, stem, p, ext) == PartName(logDir, stem, q, ext)
    ensures p == q
  {
    var np, nq := TextUtil.NatToString(p), TextUtil.NatToString(q);
    var prefix := if logDir == [] || logDir[|logDir| - 1] == '/' then logDir else logDir + "/";
    var head := prefix + stem + "_part";
    assert PartName(logDir, stem, p, ext) == head + (np + ext);
    assert PartName(logDir, stem, q, ext) == head + (nq + ext);
    CancelPrefix(head, np + ext, nq + ext);
    CancelSuffix(np, nq, ext);
    TextUtil.NatToStringInjective(p, q);
  }

  lemma CancelPrefix(head: string, a: string, b: string)
    requires head + a == head + b
    ensures a == b
  {
    assert a == (head + a)[|head|..];
    assert b == (head + b)[|head|..];
  }

  lemma CancelSuffix(a: string, b: string, tail: string)
    requires a + tail == b + tail
    ensures a == b
  {
    assert a == (a + tail)[..|a|];
    assert b == (b + tail)[..|b|];
  }

  // ---------------------------------------------------------------------------
  // Files and rotation.

  /** A file's size in bytes: each line and its newline. */
  function Size(lines: seq<string>): nat {
    if lines == [] then 0 else |lines[0]| + 1 + Size(lines[1..])
  }

  /** Appending a line grows the file by the line and its newline. */
  lemma {:induction false} SizeAppend(lines: seq<string>, line: string)
    ensures Size(lines + [line]) == Size(lines) + |line| + 1
  {
    if lines != [] {
      assert (lines + [line])[1..] == lines[1..] + [line];
      SizeAppend(lines[1..], line);
    } else {
      assert [] + [line] == [line];
    }
  }

  /** The rotation trigger in log: today's file exists and has reached the maximum size. */
  predicate NeedsRotation(files: map<string, seq<string>>, filename: string) {
    filename in files && Size(files[filename]) >= MaxFileSize
  }

  /** The directory after the rename: moved when it succeeded, unchanged when it failed. */
  function Renamed(files: map<string, seq<string>>, current: string, target: string, ok: bool): map<string, seq<string>> {
    if ok && current in files then (files - {current})[target := files[current]] else files
  }

  /** Opening in append mode: the file is created if missing, and the line is added at its end. */
  function Appended(files: map<string, seq<string>>, filename: string, line: string): map<string, seq<string>> {
    files[filename := (if filename in files then files[filename] else []) + [line]]
  }

  /** No part name before `part` is free, and the name for `part` is. */
  predicate FirstFree(files: map<string, seq<string>>, logDir: string, stem: string, ext: string, part: nat) {
    part >= 1 && PartName(logDir, stem, part, ext) !in files &&
    forall p :: 1 <= p < part ==> PartName(logDir, stem, p, ext) in files
  }

  /**
   * After a successful rotation today's file starts again with the new line, and the
   * old content is kept whole under the part name; no other file changes.
   */
  lemma RotationStartsFresh(files: map<string, seq<string>>, current: string, target: string, line: string)
    requires current in files && target !in files
    ensures var after := Appended(Renamed(files, current, target, true), current, line);
      after[current] == [line] && target in after && after[target] == files[current] &&
      forall f :: f in files && f != current ==> f in after && after[f] == files[f]
  {
    assert current != target;
  }

  /** A failed rename keeps writing to the full file. */
  lemma FailedRotationAppends(files: map<string, seq<string>>, current: string, target: string, line: string)
    requires current in files
    ensures var after := Appended(Renamed(files, current, target, false), current, line);
      after[current] == files[current] + [line] && after.Keys == files.Keys &&
      Size(after[current]) == Size(files[current]) + |line| + 1
  {
    SizeAppend(files[current], line);
  }

  /** The set of part names below `part`. */
  function Taken(logDir: string, stem: string, ext: string, part: nat): set<string> {
    set p | 1 <= p < part :: PartName(logDir, stem, p, ext)
  }

  lemma TakenGrows(logDir: string, stem: string, ext: string, part: nat)
    requires part >= 1
    ensures Taken(logDir, stem, ext, part + 1) == Taken(logDir, stem, ext, part) + {PartName(logDir, stem, part, ext)}
    ensures PartName(logDir, stem, part, ext) !in Taken(logDir, stem, ext, part)
  {
    var name := PartName(logDir, stem, part, ext);
    if name in Taken(logDir, stem, ext, part) {
      var p :| 1 <= p < part && PartName(logDir, stem, p, ext) == name;
      PartNameInjective(logDir, stem, p, part, ext);
    }
  }

  /** A taken part name grows the taken set inside the directory, and leaves fewer names to try. */
  lemma NextPart(files: map<string, seq<string>>, logDir: string, stem: string, ext: string, part: nat)
    requires part >= 1 && Taken(logDir, stem, ext, part) <= files.Keys
    requires PartName(logDir, stem, part, ext) in files
    ensures Taken(logDir, stem, ext, part + 1) <= files.Keys
    ensures |files.Keys - Taken(logDir, stem, ext, part + 1)| < |files.Keys - Taken(logDir, stem, ext, part)|
  {
    TakenGrows(logDir, stem, ext, part);
    FewerUntaken(files.Keys, Taken(logDir, stem, ext, part), PartName(logDir, stem, part, ext));
  }

  lemma FewerUntaken(keys: set<string>, taken: set<string>, name: string)
    requires name in keys && name !in taken
    ensures |keys - (taken + {name})| < |keys - taken|
  {
    assert keys - (taken + {name}) == (keys - taken) - {name};
  }

  // ---------------------------------------------------------------------------
  // Entries.

  /** One log record, the fields of the JSON object in order. */
  datatype Entry = Entry(timestamp: string, systemId: string, level: LogLevel, loggerName: string,
                         host: string, message: string, tid: int, pid: int, stackTrace: Option<string>)

  /** What the process and clock supply to one call of log. */
  datatype Context = Context(date: Date, timestamp: string, tid: int, pid: int, renameOk: bool)

  /** The record built by log: a stack trace is included only when one was given and is non-empty. */
  function MakeEntry(ctx: Context, systemId: string, level: LogLevel, loggerName: string, host: string,
                     message: string, stackTrace: Option<string>): (e: Entry)
    ensures e.stackTrace.Some? <==> stackTrace.Some? && stackTrace.value != ""
    ensures e.stackTrace.Some? ==> e.stackTrace == stackTrace
    ensures e.level == level && e.message == message && e.systemId == systemId && e.loggerName == loggerName
  {
    Entry(ctx.timestamp, systemId, level, loggerName, host, message, ctx.tid, ctx.pid,
          if stackTrace.Some? && stackTrace.value != "" then stackTrace else None)
  }

  /** error and fatal: the formatted traceback is passed only when exc_info is set. */
  function StackFor(excInfo: bool, trace: string): (r: Option<string>)
    ensures r.Some? <==> excInfo
  {
    if excInfo then Some(trace) else None
  }

  /** The shared log directory. */
  class LogDirectory {
    var present: bool
    var files: map<string, seq<string>>

    constructor (found: bool, initial: map<string, seq<string>>)
      requires found || initial == map[]
      ensures present == found && files == initial
    {
      present, files := found, initial;
    }
  }

  class Logger {
    const loggerName: string
    const logDir: string
    const systemId: string
    const host: string
    const dir: LogDirectory

    /** __init__: the id and host are read once, and the log directory is created if missing. */
    constructor (name: string, path: string, node: Option<nat>, hostname: string, d: LogDirectory)
      modifies d
      ensures loggerName == name && logDir == path && systemId == SystemId(node) && host == hostname && dir == d
      ensures d.present && d.files == old(d.files)
    {
      loggerName, logDir, systemId, host, dir := name, path, SystemId(node), hostname, d;
      new;
      if !d.present {
        d.present := true;
      }
    }

    /**
     * _rotate_log: tries part 1, 2, ... until the name is free, then renames the file
     * to it; a failed rename is ignored.
     */
    method RotateLog(current: string, renameOk: bool) returns (part: nat)
      modifies dir
      ensures var (stem, ext) := SplitExt(Basename(current));
        FirstFree(old(dir.files), logDir, stem, ext, part) &&
        dir.files == Renamed(old(dir.files), current, PartName(logDir, stem, part, ext), renameOk)
      ensures dir.present == old(dir.present)
    {
      var baseName := Basename(current);
      var (stem, ext) := SplitExt(baseName);
      var files := dir.files;
      part := 1;
      while true
        invariant part >= 1
        invariant forall p :: 1 <= p < part ==> PartName(logDir, stem, p, ext) in files
        invariant Taken(logDir, stem, ext, part) <= files.Keys
        invariant dir.files == files == old(dir.files) && dir.present == old(dir.present)
        decreases |files.Keys - Taken(logDir, stem, ext, part)|
      {
        var newName := PartName(logDir, stem, part, ext);
        if newName !in files {
          if renameOk && current in files {
            dir.files := (files - {current})[newName := files[current]];
          }
          break;
        }
        NextPart(files, logDir, stem, ext, part);
        part := part + 1;
      }
    }

    /**
     * What one call of log does to the files of the directory: today's file is rotated
     * to the first free part name exactly when it has reached the maximum size (the
     * rename may fail), and the entry's line is appended to today's file when the
     * directory exists.
     */
    predicate Wrote(before: map<string, seq<string>>, after: map<string, seq<string>>, present: bool,
                    level: LogLevel, message: string, stackTrace: Option<string>, ctx: Context,
                    encode: Entry -> string, rotatedTo: Option<nat>)
    {
      var filename := LogFileName(logDir, ctx.date);
      var line := encode(MakeEntry(ctx, systemId, level, loggerName, host, message, stackTrace));
      (rotatedTo.Some? <==> NeedsRotation(before, filename)) &&
      (rotatedTo.None? ==> after == (if present then Appended(before, filename, line) else before)) &&
      (rotatedTo.Some? ==>
        var (stem, ext) := SplitExt(Basename(filename));
        FirstFree(before, logDir, stem, ext, rotatedTo.value) &&
        var renamed := Renamed(before, filename, PartName(logDir, stem, rotatedTo.value, ext), ctx.renameOk);
        after == (if present then Appended(renamed, filename, line) else renamed))
    }

    /**
     * log: builds the entry, rotates today's file if it has reached the maximum size,
     * and appends the entry's JSON line. Without the directory the write fails and the
     * failure is swallowed.
     */
    method Log(level: LogLevel, message: string, stackTrace: Option<string>, ctx: Context,
               encode: Entry -> string) returns (rotatedTo: Option<nat>)
      modifies dir
      ensures Wrote(old(dir.files), dir.files, dir.present, level, message, stackTrace, ctx, encode, rotatedTo)
      ensures dir.present == old(dir.present)
    {
      var entry := MakeEntry(ctx, systemId, level, loggerName, host, message, stackTrace);
      var jsonEntry := encode(entry);
      var filename := LogFileName(logDir, ctx.date);
      rotatedTo := None;
      if filename in dir.files {
        if Size(dir.files[filename]) >= MaxFileSize {
          var part := RotateLog(filename, ctx.renameOk);
          rotatedTo := Some(part);
        }
      }
      if dir.present {
        dir.files := Appended(dir.files, filename, jsonEntry);
      }
    }

    method Debug(msg: string, ctx: Context, encode: Entry -> string) returns (rotatedTo: Option<nat>)
      modifies dir
      ensures Wrote(old(dir.files), dir.files, dir.present, LogLevel.Debug, msg, None, ctx, encode, rotatedTo)
      ensures dir.present == old(dir.present)
    {
      rotatedTo := Log(LogLevel.Debug, msg, None, ctx, encode);
    }

    method Info(msg: string, ctx: Context, encode: Entry -> string) returns (rotatedTo: Option<nat>)
      modifies dir
      ensures Wrote(old(dir.files), dir.files, dir.present, LogLevel.Info, msg, None, ctx, encode, rotatedTo)
      ensures dir.present == old(dir.present)
    {
      rotatedTo := Log(LogLevel.Info, msg, None, ctx, encode);
    }

    /** warn and its alias warning. */
    method Warn(msg: string, ctx: Context, encode: Entry -> string) returns (rotatedTo: Option<nat>)
      modifies dir
      ensures Wrote(old(dir.files), dir.files, dir.present, LogLevel.Warn, msg, None, ctx, encode, rotatedTo)
      ensures dir.present == old(dir.present)
    {
      rotatedTo := Log(LogLevel.Warn, msg, None, ctx, encode);
    }

    /** error: exc_info defaults to false. */
    method Error(msg: string, excInfo: bool, trace: string, ctx: Context, encode: Entry -> string) returns (rotatedTo: Option<nat>)
      modifies dir
      ensures Wrote(old(dir.files), dir.files, dir.present, LogLevel.Error, msg, StackFor(excInfo, trace), ctx, encode, rotatedTo)
      ensures dir.present == old(dir.present)
    {
      rotatedTo := Log(LogLevel.Error, msg, StackFor(excInfo, trace), ctx, encode);
    }

    /** fatal: exc_info defaults to true. */
    method Fatal(msg: string, excInfo: bool, trace: string, ctx: Context, encode: Entry -> string) returns (rotatedTo: Option<nat>)
      modifies dir
      ensures Wrote(old(dir.files), dir.files, dir.present, LogLevel.Fatal, msg, StackFor(excInfo, trace), ctx, encode, rotatedTo)
      ensures dir.present == old(dir.present)
    {
      rotatedTo := Log(LogLevel.Fatal, msg, StackFor(excInfo, trace), ctx, encode);
    }
  }

  /** The module-level _loggers table behind get_logger. */
  class Registry {
    var loggers: map<string, Logger>

    constructor ()
      ensures loggers == map[]
    {
      loggers := map[];
    }

    /** get_logger: one logger per name, created on first request and returned ever after. */
    method GetLogger(name: string, logDir: string, node: Option<nat>, host: string, d: LogDirectory) returns (l: Logger)
      modifies this, d
      ensures name in old(loggers) ==> l == old(loggers)[name] && loggers == old(loggers) && d.present == old(d.present)
      ensures name !in old(loggers) ==> fresh(l) && l.loggerName == name && l.dir == d && loggers == old(loggers)[name := l] && d.present
      ensures d.files == old(d.files)
    {
      if name !in loggers {
        var created := new Logger(name, logDir, node, host, d);
        loggers := loggers[name := created];
      }
      l := loggers[name];
    }
  }
}
