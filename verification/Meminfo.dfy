/** The two readers of /proc/meminfo: src/advanced_memory_monitor.cpp and src/memory_monitor.cpp. */
module Meminfo {
  import opened Wrappers
  import opened Sequences
  import opened TextLines
  import Decimal

  const KIB: nat := 1024

  // ---- Words of a line, as `istringstream >>` takes them ----

  datatype Class = Blank | Graphic | Digit | Trimmed {
    predicate Has(c: char) {
      match this
      case Blank => Decimal.IsSpace(c)
      case Graphic => !Decimal.IsSpace(c)
      case Digit => Decimal.IsDigit(c)
      case Trimmed => c <= ' '
    }
  }

  /** How many characters at the start of `s` belong to `k`. */
  function Leading(s: string, k: Class): (n: nat)
    ensures n <= |s|
  {
    if s == "" || !k.Has(s[0]) then 0 else 1 + Leading(s[1..], k)
  }

  function Run(s: string, k: Class): string {
    s[..Leading(s, k)]
  }

  function Skip(s: string, k: Class): string {
    s[Leading(s, k)..]
  }

  /** `trim`: control characters count as blank here, unlike in `>>`. */
  function Trim(s: string): string {
    TrimEnd(Skip(s, Trimmed))
  }

  function TrimEnd(s: string): string {
    if s == "" || s[|s| - 1] > ' ' then s else TrimEnd(s[..|s| - 1])
  }

  // ---- The field table ----

  datatype Status = Malformed | Zero | Present

  datatype Value = Value(status: Status, raw: nat, unit: string, bytes: nat, unitUnknown: bool, converted: bool)

  type Table = map<string, Value>

  function Factor(unit: string): Option<nat> {
    if unit in ["B", "bytes", "byte"] then Some(1)
    else if unit in ["kB", "KB", "KiB", "kb"] then Some(KIB)
    else if unit in ["MB", "MiB"] then Some(KIB * KIB)
    else if unit in ["GB", "GiB"] then Some(KIB * KIB * KIB)
    else None
  }

  const MALFORMED: Value := Value(Malformed, 0, "", 0, false, false)

  /** A number with the unit behind it; an overflowing conversion makes the field malformed. */
  function Classify(raw: nat, unit: string): Value {
    var status := if raw == 0 then Zero else Present;
    if unit == "" then Value(status, raw, unit, 0, false, false)
    else
      match Factor(unit)
      case None => Value(status, raw, unit, 0, true, false)
      case Some(factor) =>
        if factor != 0 && raw > Decimal.MAX_U64 / factor then Value(Malformed, raw, unit, 0, false, false)
        else Value(status, raw, unit, raw * factor, false, true)
  }

  /** What stands behind the colon. */
  function ParseValue(text: string): Value {
    var rest := Trim(text);
    var word := Skip(rest, Blank);
    match Decimal.ParseToken(Run(word, Graphic))
    case None => MALFORMED
    case Some(raw) => Classify(raw, Run(Skip(Skip(word, Graphic), Blank), Graphic))
  }

  function ParseLine(table: Table, line: string): Table {
    var colon := Find(line, ':');
    if colon == |line| then table
    else
      var key := Trim(line[..colon]);
      if key == "" then table else table[key := ParseValue(line[colon + 1..])]
  }

  function ParseTable(lines: seq<string>): Table {
    if lines == [] then map[] else ParseLine(ParseTable(lines[..|lines| - 1]), lines[|lines| - 1])
  }

  lemma TableOneMore(lines: seq<string>, line: string)
    ensures ParseTable(lines + [line]) == ParseLine(ParseTable(lines), line)
  {
    assert (lines + [line])[..|lines|] == lines;
  }

  /** The body of the line loop. */
  method AddLine(table: Table, line: string) returns (out: Table)
    ensures out == ParseLine(table, line)
  {
    var colon := Find(line, ':');
    if colon == |line| {
      return table;
    }
    var key := Trim(line[..colon]);
    if key == "" {
      return table;
    }
    out := table[key := ParseValue(line[colon + 1..])];
  }

  /** `parseMeminfo`: one pass over the lines, the last occurrence of a key wins. */
  method ParseMeminfo(text: string) returns (out: Table)
    ensures out == ParseTable(Lines(text))
  {
    var lines := Lines(text);
    out := map[];
    for i := 0 to |lines|
      invariant out == ParseTable(lines[..i])
    {
      TableOneMore(lines[..i], lines[i]);
      assert lines[..i + 1] == lines[..i] + [lines[i]];
      out := AddLine(out, lines[i]);
    }
    assert lines[..|lines|] == lines;
  }

  // ---- The snapshot and its old view ----

  /** The fields of `AdvancedMemorySnapshot` that `MemoryInfo` is built from, in bytes. */
  datatype Snapshot = Snapshot(
    total: Option<nat>, free: Option<nat>, available: Option<nat>, buffers: Option<nat>,
    cached: Option<nat>, swapTotal: Option<nat>, swapFree: Option<nat>)

  /** Kibibytes, as printed by the kernel. */
  datatype MemoryInfo = MemoryInfo(
    total: nat, available: nat, free: nat, cached: nat, buffers: nat, swapTotal: nat, swapFree: nat)

  function TableBytes(table: Table, key: string): Option<nat> {
    if key !in table || table[key].status == Malformed || !table[key].converted then None
    else Some(table[key].bytes)
  }

  function BuildMemorySnapshot(table: Table): Snapshot {
    Snapshot(
      TableBytes(table, "MemTotal"), TableBytes(table, "MemFree"), TableBytes(table, "MemAvailable"),
      TableBytes(table, "Buffers"), TableBytes(table, "Cached"), TableBytes(table, "SwapTotal"),
      TableBytes(table, "SwapFree"))
  }

  function SatAddBytes(a: Option<nat>, b: Option<nat>): Option<nat> {
    if a.None? && b.None? then None
    else
      var x, y := a.ValueOr(0), b.ValueOr(0);
      if x > Decimal.MAX_U64 - y then Some(Decimal.MAX_U64) else Some(x + y)
  }

  function AvailableBytes(s: Snapshot): Option<nat> {
    if s.available.Some? then s.available else SatAddBytes(SatAddBytes(s.free, s.buffers), s.cached)
  }

  /** The fallback that both readers end with; the sum is taken in 64 bits. */
  function FillAvailable(info: MemoryInfo): MemoryInfo {
    if info.available == 0 && info.total != 0
    then info.(available := (info.free + info.buffers + info.cached) % (Decimal.MAX_U64 + 1))
    else info
  }

  function ToMemoryInfo(s: Snapshot): MemoryInfo {
    FillAvailable(MemoryInfo(
      s.total.ValueOr(0) / KIB, AvailableBytes(s).ValueOr(0) / KIB, s.free.ValueOr(0) / KIB,
      s.cached.ValueOr(0) / KIB, s.buffers.ValueOr(0) / KIB, s.swapTotal.ValueOr(0) / KIB,
      s.swapFree.ValueOr(0) / KIB))
  }

  // ---- The simple reader ----

  const EMPTY_INFO: MemoryInfo := MemoryInfo(0, 0, 0, 0, 0, 0, 0)

  function Assign(info: MemoryInfo, key: string, value: nat): MemoryInfo {
    if key == "MemTotal:" then info.(total := value)
    else if key == "MemAvailable:" then info.(available := value)
    else if key == "MemFree:" then info.(free := value)
    else if key == "Buffers:" then info.(buffers := value)
    else if key == "Cached:" then info.(cached := value)
    else if key == "SwapTotal:" then info.(swapTotal := value)
    else if key == "SwapFree:" then info.(swapFree := value)
    else info
  }

  /** `>> value`: an optional sign and the digits behind it; also what is left of the line. */
  function ReadNumber(s: string): Option<(nat, string)> {
    var number := s[|Decimal.SignOf(s)|..];
    match Decimal.Signed(Decimal.SignOf(s), Decimal.ParseBounded(Run(number, Digit), Decimal.MAX_U64))
    case None => None
    case Some(value) => Some((value, Skip(number, Digit)))
  }

  /** `parser >> key >> value >> unit`; the number may be followed by anything that is no digit. */
  function ReadLine(line: string): Option<(string, nat, string)> {
    var first := Skip(line, Blank);
    match ReadNumber(Skip(Skip(first, Graphic), Blank))
    case None => None
    case Some((value, rest)) =>
      var unit := Run(Skip(rest, Blank), Graphic);
      if first == "" || unit == "" then None else Some((Run(first, Graphic), value, unit))
  }

  function Observe(info: MemoryInfo, line: string): MemoryInfo {
    match ReadLine(line)
    case None => info
    case Some((key, value, unit)) => if unit != "kB" then info else Assign(info, key, value)
  }

  function ObserveAll(lines: seq<string>): MemoryInfo {
    if lines == [] then EMPTY_INFO else Observe(ObserveAll(lines[..|lines| - 1]), lines[|lines| - 1])
  }

  lemma ObserveOneMore(lines: seq<string>, line: string)
    ensures ObserveAll(lines + [line]) == Observe(ObserveAll(lines), line)
  {
    assert (lines + [line])[..|lines|] == lines;
  }

  /** The body of the line loop. */
  method ObserveLine(before: MemoryInfo, line: string) returns (info: MemoryInfo)
    ensures info == Observe(before, line)
  {
    var read := ReadLine(line);
    if read.None? || read.value.2 != "kB" {
      return before;
    }
    info := Assign(before, read.value.0, read.value.1);
  }

  /** One round of the line loop, after `done`. */
  method ObserveNext(before: MemoryInfo, line: string, ghost done: seq<string>) returns (info: MemoryInfo)
    requires ObservedSoFar(before, done)
    ensures ObservedSoFar(info, done + [line])
  {
    ObserveOneMore(done, line);
    info := ObserveLine(before, line);
  }

  ghost predicate ObservedSoFar(info: MemoryInfo, done: seq<string>) {
    info == ObserveAll(done)
  }

  method ObserveLines(lines: seq<string>) returns (info: MemoryInfo)
    ensures ObservedSoFar(info, lines)
  {
    info := EMPTY_INFO;
    for i := 0 to |lines|
      invariant ObservedSoFar(info, lines[..i])
    {
      info := ObserveNext(info, lines[i], lines[..i]);
      assert lines[..i + 1] == lines[..i] + [lines[i]];
    }
    assert lines[..|lines|] == lines;
  }

  method FillIn(before: MemoryInfo) returns (info: MemoryInfo)
    ensures info == FillAvailable(before)
  {
    info := before;
    if info.available == 0 && info.total != 0 {
      info := info.(available := (info.free + info.buffers + info.cached) % (Decimal.MAX_U64 + 1));
    }
  }

  /** `readMemoryInfo`; there is no text when the file cannot be opened. */
  method ReadMemoryInfo(file: Option<string>) returns (result: Option<MemoryInfo>)
    ensures result == if file.None? then None else Some(FillAvailable(ObserveAll(Lines(file.value))))
  {
    if file.None? {
      return None;
    }
    var read := ObserveLines(Lines(file.value));
    var info := FillIn(read);
    result := Some(info);
  }
}
