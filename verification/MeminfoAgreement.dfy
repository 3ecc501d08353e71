/** When the two meminfo readers give the same `MemoryInfo` for a text. */
module MeminfoAgreement {
  import opened Wrappers
  import opened Sequences
  import opened TextLines
  import opened Meminfo
  import Decimal

  // ---- Well-formed texts ----

  /** One line, `Key:   digits unit`; page counts have no unit. */
  datatype Field = Field(key: string, pad: string, digits: string, unit: string)

  predicate IsWord(s: string) {
    forall i | 0 <= i < |s| :: s[i] > ' ' && s[i] != ':'
  }

  const WANTED: set<string> :=
    {"MemTotal", "MemFree", "MemAvailable", "Buffers", "Cached", "SwapTotal", "SwapFree"}

  /** A line of the format: a key, a number and perhaps a unit. */
  predicate IsField(f: Field) {
    && f.key != "" && IsWord(f.key) && IsWord(f.unit) && f.pad != "" && IsPad(f.pad)
    && Decimal.ParseBounded(f.digits, Decimal.MAX_U64).Some?
  }

  /** As the kernel writes it: the seven fields are in kB. */
  predicate WellFormed(f: Field) {
    IsField(f) && (f.key in WANTED ==> f.unit == "kB")
  }

  function Number(f: Field): nat
    requires IsField(f)
  {
    Decimal.Value(f.digits)
  }

  /** Blanks within a line. */
  predicate IsPad(s: string) {
    forall i | 0 <= i < |s| :: s[i] == ' ' || s[i] == '\t' || s[i] == '\r' || s[i] as int == 11 || s[i] as int == 12
  }

  /** The part behind the number. */
  function Tail(f: Field): string {
    if f.unit == "" then "" else " " + f.unit
  }

  function PrintValue(f: Field): string {
    f.pad + (f.digits + Tail(f))
  }

  function PrintField(f: Field): string {
    f.key + [':'] + PrintValue(f)
  }

  function PrintFields(fields: seq<Field>): seq<string> {
    if fields == [] then [] else PrintFields(fields[..|fields| - 1]) + [PrintField(fields[|fields| - 1])]
  }

  predicate AllFields(fields: seq<Field>) {
    forall i | 0 <= i < |fields| :: IsField(fields[i])
  }

  predicate AllWellFormed(fields: seq<Field>) {
    forall i | 0 <= i < |fields| :: WellFormed(fields[i])
  }

  // ---- What each reader takes from one line ----

  lemma {:induction false} LeadingStops(a: string, b: string, k: Class)
    requires forall i | 0 <= i < |a| :: k.Has(a[i])
    requires b == "" || !k.Has(b[0])
    ensures Run(a + b, k) == a && Skip(a + b, k) == b
  {
    if a == "" {
      assert a + b == b;
    } else {
      LeadingStops(a[1..], b, k);
      assert (a + b)[1..] == a[1..] + b;
      assert Leading(a + b, k) == |a|;
    }
  }

  lemma TrimOfWord(s: string)
    requires s != "" ==> s[0] > ' ' && s[|s| - 1] > ' '
    ensures Trim(s) == s
  {
  }

  /** Number and unit as both readers cut them. */
  lemma CutValue(f: Field, k: Class)
    requires IsField(f) && (k == Graphic || k == Digit)
    ensures var body := f.digits + Tail(f);
            && Run(body, k) == f.digits
            && Skip(Skip(body, k), Blank) == f.unit
            && Run(f.unit, Graphic) == f.unit
  {
    var tail := Tail(f);
    LeadingStops(f.digits, tail, k);
    if f.unit != "" { LeadingStops(" ", f.unit, Blank); }
    LeadingStops(f.unit, "", Graphic);
    assert f.unit + "" == f.unit;
  }

  lemma TableReadsValue(f: Field)
    requires IsField(f)
    ensures ParseValue(PrintValue(f)) == Classify(Number(f), f.unit)
  {
    var body := f.digits + Tail(f);
    assert Decimal.IsDigit(body[0]);
    LeadingStops(f.pad, body, Trimmed);
    TrimOfWord(body);
    assert Skip(body, Blank) == body;
    CutValue(f, Graphic);
    Decimal.PlainToken(f.digits);
  }

  lemma TableSplitsLine(table: Table, key: string, rest: string)
    requires key != "" && IsWord(key)
    ensures ParseLine(table, key + [':'] + rest) == table[key := ParseValue(rest)]
  {
    var line := key + [':'] + rest;
    FindInMiddle(key, ':', rest);
    TrimOfWord(key);
    assert line[..|key|] == key && line[|key| + 1..] == rest;
  }

  lemma TableReadsLine(table: Table, f: Field)
    requires IsField(f)
    ensures ParseLine(table, PrintField(f)) == table[f.key := Classify(Number(f), f.unit)]
  {
    TableSplitsLine(table, f.key, PrintValue(f));
    TableReadsValue(f);
  }

  lemma SimpleReadsNumber(f: Field)
    requires IsField(f)
    ensures ReadNumber(f.digits + Tail(f)) == Some((Number(f), Tail(f)))
  {
    var body := f.digits + Tail(f);
    assert Decimal.IsDigit(body[0]);
    assert Decimal.SignOf(body) == "" && body[0..] == body;
    LeadingStops(f.digits, Tail(f), Digit);
  }

  lemma SimpleReadsUnit(f: Field)
    requires IsField(f)
    ensures Run(Skip(Tail(f), Blank), Graphic) == f.unit
  {
    CutValue(f, Digit);
    LeadingStops(f.digits, Tail(f), Digit);
  }

  lemma SimpleSplitsLine(key: string, pad: string, body: string)
    requires key != "" && IsWord(key) && pad != "" && IsPad(pad)
    requires body != "" && body[0] > ' '
    ensures var line := key + [':'] + (pad + body);
            && line != "" && Skip(line, Blank) == line && Run(line, Graphic) == key + [':']
            && Skip(Skip(line, Graphic), Blank) == body
  {
    var name := key + [':'];
    assert (name + (pad + body))[0] > ' ';
    LeadingStops(name, pad + body, Graphic);
    LeadingStops(pad, body, Blank);
  }

  lemma SimpleReadsLine(f: Field)
    requires IsField(f)
    ensures ReadLine(PrintField(f)) ==
            if f.unit == "" then None else Some((f.key + [':'], Number(f), f.unit))
  {
    var body := f.digits + Tail(f);
    assert Decimal.IsDigit(body[0]);
    SimpleSplitsLine(f.key, f.pad, body);
    SimpleReadsNumber(f);
    SimpleReadsUnit(f);
  }

  // ---- What each reader takes from a text ----

  /** The value of the last line with this key. */
  function Last(fields: seq<Field>, key: string): Option<nat>
    requires AllWellFormed(fields)
  {
    if fields == [] then None
    else if fields[|fields| - 1].key == key then Some(Number(fields[|fields| - 1]))
    else Last(fields[..|fields| - 1], key)
  }

  /** 2^54 kB is the first amount that does not fit in 64 bits of bytes. */
  const LIMIT: nat := 0x40_0000_0000_0000

  function Bytes(kb: Option<nat>): Option<nat> {
    match kb
    case None => None
    case Some(n) => if n < LIMIT then Some(n * KIB) else None
  }

  lemma ClassifyKib(table: Table, key: string, raw: nat)
    ensures TableBytes(table[key := Classify(raw, "kB")], key) == Bytes(Some(raw))
  {
  }

  lemma {:induction false} TableHoldsLast(fields: seq<Field>, key: string)
    requires AllWellFormed(fields) && key in WANTED
    ensures TableBytes(ParseTable(PrintFields(fields)), key) == Bytes(Last(fields, key))
  {
    if fields != [] {
      var n := |fields| - 1;
      var before := ParseTable(PrintFields(fields[..n]));
      TableHoldsLast(fields[..n], key);
      TableReadsLine(before, fields[n]);
      ClassifyKib(before, fields[n].key, Number(fields[n]));
      TableOneMore(PrintFields(fields[..n]), PrintField(fields[n]));
      var value := Classify(Number(fields[n]), fields[n].unit);
      assert TableBytes(ParseTable(PrintFields(fields)), key) == TableBytes(before[fields[n].key := value], key);
    }
  }

  lemma {:induction false} PrintLength(fields: seq<Field>)
    ensures |PrintFields(fields)| == |fields|
  {
    if fields != [] { PrintLength(fields[..|fields| - 1]); }
  }

  function Named(info: MemoryInfo, key: string): nat {
    if key == "MemTotal" then info.total
    else if key == "MemAvailable" then info.available
    else if key == "MemFree" then info.free
    else if key == "Buffers" then info.buffers
    else if key == "Cached" then info.cached
    else if key == "SwapTotal" then info.swapTotal
    else info.swapFree
  }

  lemma SameName(a: string, b: string, text: string)
    requires text == b + [':']
    ensures a + [':'] == text <==> a == b
  {
    assert (a + [':'])[..|a|] == a && text[..|b|] == b;
  }

  lemma AssignSetsNamed(info: MemoryInfo, name: string, value: nat, key: string)
    requires key in WANTED
    ensures Named(Assign(info, name + [':'], value), key) == if name == key then value else Named(info, key)
  {
    SameName(name, "MemTotal", "MemTotal:");
    SameName(name, "MemAvailable", "MemAvailable:");
    SameName(name, "MemFree", "MemFree:");
    SameName(name, "Buffers", "Buffers:");
    SameName(name, "Cached", "Cached:");
    SameName(name, "SwapTotal", "SwapTotal:");
    SameName(name, "SwapFree", "SwapFree:");
  }

  lemma ObserveField(info: MemoryInfo, f: Field, key: string)
    requires WellFormed(f) && key in WANTED
    ensures Named(Observe(info, PrintField(f)), key) == if f.key == key then Number(f) else Named(info, key)
  {
    SimpleReadsLine(f);
    AssignSetsNamed(info, f.key, Number(f), key);
  }

  lemma {:induction false} SimpleHoldsLast(fields: seq<Field>, key: string)
    requires AllWellFormed(fields) && key in WANTED
    ensures Named(ObserveAll(PrintFields(fields)), key) == Last(fields, key).ValueOr(0)
  {
    if fields != [] {
      var n := |fields| - 1;
      SimpleHoldsLast(fields[..n], key);
      ObserveField(ObserveAll(PrintFields(fields[..n])), fields[n], key);
      ObserveOneMore(PrintFields(fields[..n]), PrintField(fields[n]));
    }
  }

  // ---- Agreement ----

  /** The last values of the seven fields, in kibibytes. */
  function LastValues(fields: seq<Field>): Snapshot
    requires AllWellFormed(fields)
  {
    Snapshot(
      Last(fields, "MemTotal"), Last(fields, "MemFree"), Last(fields, "MemAvailable"),
      Last(fields, "Buffers"), Last(fields, "Cached"), Last(fields, "SwapTotal"),
      Last(fields, "SwapFree"))
  }

  function ViaTable(kb: Snapshot): MemoryInfo {
    ToMemoryInfo(Snapshot(
      Bytes(kb.total), Bytes(kb.free), Bytes(kb.available), Bytes(kb.buffers),
      Bytes(kb.cached), Bytes(kb.swapTotal), Bytes(kb.swapFree)))
  }

  function Directly(kb: Snapshot): MemoryInfo {
    FillAvailable(MemoryInfo(
      kb.total.ValueOr(0), kb.available.ValueOr(0), kb.free.ValueOr(0), kb.cached.ValueOr(0),
      kb.buffers.ValueOr(0), kb.swapTotal.ValueOr(0), kb.swapFree.ValueOr(0)))
  }

  predicate Fits(kb: Option<nat>) {
    kb.ValueOr(0) < LIMIT
  }

  predicate AllFit(kb: Snapshot) {
    && Fits(kb.total) && Fits(kb.free) && Fits(kb.available) && Fits(kb.buffers)
    && Fits(kb.cached) && Fits(kb.swapTotal) && Fits(kb.swapFree)
  }

  function Estimate(kb: Snapshot): nat {
    kb.free.ValueOr(0) + kb.buffers.ValueOr(0) + kb.cached.ValueOr(0)
  }

  /** The amount available is known, or the two ways to estimate it coincide. */
  predicate SameEstimate(kb: Snapshot) {
    || kb.available.Some?
    || Estimate(kb) == 0
    || (Estimate(kb) < LIMIT && kb.total.ValueOr(0) != 0)
  }

  lemma KibibytesBack(kb: Option<nat>)
    ensures Bytes(kb).ValueOr(0) / KIB == if Fits(kb) then kb.ValueOr(0) else 0
    ensures Bytes(kb).ValueOr(0) / KIB < LIMIT
  {
  }

  /** What the table pipeline estimates, saturating in bytes, read in kibibytes. */
  lemma EstimateInKibibytes(free: Option<nat>, buffers: Option<nat>, cached: Option<nat>)
    requires Fits(free) && Fits(buffers) && Fits(cached)
    ensures var sum := free.ValueOr(0) + buffers.ValueOr(0) + cached.ValueOr(0);
            SatAddBytes(SatAddBytes(Bytes(free), Bytes(buffers)), Bytes(cached)).ValueOr(0) / KIB
            == if sum < LIMIT then sum else LIMIT - 1
  {
  }

  lemma SameWhenFit(kb: Snapshot)
    requires AllFit(kb)
    ensures ViaTable(kb) == Directly(kb) <==> SameEstimate(kb)
  {
    KibibytesBack(kb.total);
    KibibytesBack(kb.free);
    KibibytesBack(kb.available);
    KibibytesBack(kb.buffers);
    KibibytesBack(kb.cached);
    KibibytesBack(kb.swapTotal);
    KibibytesBack(kb.swapFree);
    EstimateInKibibytes(kb.free, kb.buffers, kb.cached);
  }

  lemma DifferWhenTooBig(kb: Snapshot)
    requires !AllFit(kb)
    ensures ViaTable(kb) != Directly(kb)
  {
    KibibytesBack(kb.total);
    KibibytesBack(kb.free);
    KibibytesBack(kb.buffers);
    KibibytesBack(kb.cached);
    KibibytesBack(kb.swapTotal);
    KibibytesBack(kb.swapFree);
    if Fits(kb.free) && Fits(kb.buffers) && Fits(kb.cached) {
      EstimateInKibibytes(kb.free, kb.buffers, kb.cached);
    }
  }

  lemma SameNumbers(kb: Snapshot)
    ensures ViaTable(kb) == Directly(kb) <==> AllFit(kb) && SameEstimate(kb)
  {
    if AllFit(kb) { SameWhenFit(kb); } else { DifferWhenTooBig(kb); }
  }

  lemma PrintedLines(fields: seq<Field>)
    requires AllFields(fields)
    ensures Lines(JoinLines(PrintFields(fields))) == PrintFields(fields)
  {
    PrintedLinesHaveNoEnd(fields);
    LinesOfJoin(PrintFields(fields));
  }

  lemma FieldHasNoEnd(f: Field)
    requires IsField(f)
    ensures '\n' !in PrintField(f)
  {
    assert forall i | 0 <= i < |f.digits| :: Decimal.IsDigit(f.digits[i]);
  }

  lemma {:induction false} PrintedLinesHaveNoEnd(fields: seq<Field>)
    requires AllFields(fields)
    ensures forall i | 0 <= i < |PrintFields(fields)| :: '\n' !in PrintFields(fields)[i]
  {
    if fields != [] {
      PrintedLinesHaveNoEnd(fields[..|fields| - 1]);
      FieldHasNoEnd(fields[|fields| - 1]);
    }
  }

  function TableInfo(text: string): MemoryInfo {
    ToMemoryInfo(BuildMemorySnapshot(ParseTable(Lines(text))))
  }

  function SimpleInfo(text: string): MemoryInfo {
    FillAvailable(ObserveAll(Lines(text)))
  }

  lemma BothReadLastValues(fields: seq<Field>)
    requires AllWellFormed(fields)
    ensures var text := JoinLines(PrintFields(fields));
            TableInfo(text) == ViaTable(LastValues(fields)) && SimpleInfo(text) == Directly(LastValues(fields))
  {
    PrintedLines(fields);
    forall key | key in WANTED
      ensures TableBytes(ParseTable(PrintFields(fields)), key) == Bytes(Last(fields, key))
      ensures Named(ObserveAll(PrintFields(fields)), key) == Last(fields, key).ValueOr(0)
    {
      TableHoldsLast(fields, key);
      SimpleHoldsLast(fields, key);
    }
  }

  /**
   * For every well-formed text the readers agree exactly when no amount overflows in bytes and
   * the available memory is either reported or estimated alike by both.
   */
  lemma ReadersAgree(fields: seq<Field>)
    requires AllWellFormed(fields)
    ensures var text := JoinLines(PrintFields(fields));
            TableInfo(text) == SimpleInfo(text)
            <==> AllFit(LastValues(fields)) && SameEstimate(LastValues(fields))
  {
    BothReadLastValues(fields);
    SameNumbers(LastValues(fields));
  }

  /** Without MemTotal and MemAvailable one reader reports an estimate and the other one zero. */
  lemma EstimateNeedsTotalInOneReaderOnly(fields: seq<Field>)
    requires AllWellFormed(fields) && AllFit(LastValues(fields))
    requires Last(fields, "MemAvailable").None? && Last(fields, "MemTotal").None?
    requires Estimate(LastValues(fields)) < LIMIT
    ensures var text := JoinLines(PrintFields(fields));
            TableInfo(text).available == Estimate(LastValues(fields)) && SimpleInfo(text).available == 0
  {
    BothReadLastValues(fields);
    var kb := LastValues(fields);
    EstimateInKibibytes(kb.free, kb.buffers, kb.cached);
    KibibytesBack(kb.total);
  }

  // ---- All units ----

  /** The last line with this key. */
  function LastField(fields: seq<Field>, key: string): Option<Field> {
    if fields == [] then None
    else if fields[|fields| - 1].key == key then Some(fields[|fields| - 1])
    else LastField(fields[..|fields| - 1], key)
  }

  /** An amount of `n` in a unit of `factor` bytes; what 64 bits do not hold is malformed. */
  ghost predicate IsAmount(v: Meminfo.Value, n: nat, factor: nat) {
    && !v.unitUnknown
    && (n * factor < 0x1_0000_0000_0000_0000 ==>
          v.converted && v.bytes == n * factor && (v.status == Zero <==> n == 0) && (v.status == Present <==> n > 0))
    && (n * factor >= 0x1_0000_0000_0000_0000 ==> !v.converted && v.bytes == 0 && v.status == Malformed)
  }

  /** An entry of the table, unit by unit. */
  ghost predicate EntryTells(v: Meminfo.Value, n: nat, unit: string) {
    && v.raw == n && v.unit == unit
    && (unit == "B" || unit == "bytes" || unit == "byte" ==> IsAmount(v, n, 1))
    && (unit == "kB" || unit == "KB" || unit == "KiB" || unit == "kb" ==> IsAmount(v, n, 1024))
    && (unit == "MB" || unit == "MiB" ==> IsAmount(v, n, 1024 * 1024))
    && (unit == "GB" || unit == "GiB" ==> IsAmount(v, n, 1024 * 1024 * 1024))
    && (unit !in {"", "B", "bytes", "byte", "kB", "KB", "KiB", "kb", "MB", "MiB", "GB", "GiB"} ==>
          v.unitUnknown && !v.converted && v.bytes == 0 && v.status == if n == 0 then Zero else Present)
    && (unit == "" ==>
          !v.unitUnknown && !v.converted && v.bytes == 0 && v.status == if n == 0 then Zero else Present)
  }

  lemma FactorOf(n: nat, unit: string, factor: nat)
    requires Factor(unit) == Some(factor) && factor > 0 && unit != ""
    ensures IsAmount(Classify(n, unit), n, factor)
  {
    assert n > Decimal.MAX_U64 / factor <==> n * factor > Decimal.MAX_U64;
  }

  lemma ClassifyTells(n: nat, unit: string)
    ensures EntryTells(Classify(n, unit), n, unit)
  {
    if Factor(unit).Some? { FactorOf(n, unit, Factor(unit).value); }
  }

  lemma {:induction false} TableHoldsLastField(fields: seq<Field>, key: string)
    requires AllFields(fields)
    ensures var table := ParseTable(PrintFields(fields));
            && (key in table <==> LastField(fields, key).Some?)
            && (LastField(fields, key).Some? ==>
                  var f := LastField(fields, key).value;
                  IsField(f) && table[key] == Classify(Number(f), f.unit))
  {
    if fields != [] {
      var n := |fields| - 1;
      TableHoldsLastField(fields[..n], key);
      TableReadsLine(ParseTable(PrintFields(fields[..n])), fields[n]);
      TableOneMore(PrintFields(fields[..n]), PrintField(fields[n]));
    }
  }

  /**
   * For every text of such lines the table has an entry for exactly the keys that occur, and it tells
   * number, unit, bytes and status of the last line with that key, whatever the unit.
   */
  lemma TableTellsUnits(fields: seq<Field>, key: string)
    requires AllFields(fields)
    ensures var table := ParseTable(Lines(JoinLines(PrintFields(fields))));
            && (key in table <==> LastField(fields, key).Some?)
            && (LastField(fields, key).Some? ==>
                  var f := LastField(fields, key).value;
                  IsField(f) && EntryTells(table[key], Number(f), f.unit))
  {
    PrintedLines(fields);
    TableHoldsLastField(fields, key);
    if LastField(fields, key).Some? {
      ClassifyTells(Number(LastField(fields, key).value), LastField(fields, key).value.unit);
    }
  }

  lemma TrimOfPadded(pad: string, word: string)
    requires IsPad(pad) && IsWord(word)
    ensures Trim(pad + word) == word && Skip(word, Blank) == word && Run(word, Graphic) == word
  {
    LeadingStops(pad, word, Trimmed);
    TrimOfWord(word);
    LeadingStops(word, "", Graphic);
    assert word + "" == word;
  }

  lemma ValueWithoutNumber(pad: string, word: string)
    requires IsPad(pad) && IsWord(word) && Decimal.ParseToken(word).None?
    ensures ParseValue(pad + word) == Value(Malformed, 0, "", 0, false, false)
  {
    TrimOfPadded(pad, word);
  }

  /** A line with a key and no number behind it makes the field malformed. */
  lemma FieldWithoutNumber(table: Table, key: string, pad: string, word: string)
    requires IsPad(pad) && key != "" && IsWord(key) && IsWord(word) && Decimal.ParseToken(word).None?
    ensures ParseLine(table, key + [':'] + (pad + word)) == table[key := Value(Malformed, 0, "", 0, false, false)]
  {
    TableSplitsLine(table, key, pad + word);
    ValueWithoutNumber(pad, word);
  }

  /** The simple reader takes a number in kB and ignores a line in any other unit or in none. */
  lemma SimpleTakesKib(info: MemoryInfo, f: Field, key: string)
    requires IsField(f) && key in WANTED
    ensures f.unit != "kB" ==> Observe(info, PrintField(f)) == info
    ensures f.unit == "kB" ==>
              Named(Observe(info, PrintField(f)), key) == if f.key == key then Number(f) else Named(info, key)
  {
    SimpleReadsLine(f);
    AssignSetsNamed(info, f.key, Number(f), key);
  }
}
