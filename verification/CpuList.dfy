/** The sysfs CPU list format, "0-3,8-11" (`parseCpuList`, src/advanced_cpu_monitor.cpp). */
module CpuList {
  import opened Wrappers
  import opened Sequences
  import opened SortedSets
  import Decimal

  const MAX_ID: nat := 0x7fff_ffff

  datatype Range = Range(first: nat, last: nat)

  predicate Within(r: Range, id: int) {
    r.first <= id <= r.last
  }

  /** One item of the list: an id, or two ids around a dash. */
  function ParseRange(token: string): Option<Range> {
    var dash := Find(token, '-');
    if dash == |token| then
      match Decimal.ParseToken(token)
      case Some(id) => if id > MAX_ID then None else Some(Range(id, id))
      case None => None
    else
      match (Decimal.ParseToken(token[..dash]), Decimal.ParseToken(token[dash + 1..]))
      case (Some(first), Some(last)) => if first > last || last > MAX_ID then None else Some(Range(first, last))
      case _ => None
  }

  /** Puts parsed items before the result for the text behind them. */
  function After(done: seq<Range>, rest: Option<seq<Range>>): Option<seq<Range>> {
    match rest
    case None => None
    case Some(more) => Some(done + more)
  }

  /** The items of a text; a comma at the very end is let pass, an empty item elsewhere is not. */
  function ParseRanges(text: string): Option<seq<Range>>
    decreases |text|
  {
    if text == "" then Some([])
    else
      match ParseRange(FirstItem(text))
      case None => None
      case Some(r) => After([r], ParseRanges(Remainder(text)))
  }

  function FirstItem(text: string): string {
    text[..Find(text, ',')]
  }

  /** What stands behind the first comma. */
  function Remainder(text: string): (rest: string)
    ensures text != "" ==> |rest| < |text|
  {
    var end := Find(text, ',');
    if end == |text| then "" else text[end + 1..]
  }

  function Ids(first: int, last: int): seq<int>
    decreases last - first
  {
    if first > last then [] else Ids(first, last - 1) + [last]
  }

  function Expand(ranges: seq<Range>): seq<int> {
    if ranges == [] then []
    else Expand(ranges[..|ranges| - 1]) + Ids(ranges[|ranges| - 1].first, ranges[|ranges| - 1].last)
  }

  function ParseCpuList(text: string): Option<seq<int>> {
    if text == "" then None
    else
      match ParseRanges(text)
      case None => None
      case Some(ranges) => Some(SortUnique(LESS_INT, Expand(ranges)))
  }

  method ParseRangeToken(token: string) returns (r: Option<Range>)
    ensures r == ParseRange(token)
  {
    if token == "" {
      return None;
    }
    var dash := Find(token, '-');
    if dash == |token| {
      var id := Decimal.ParseToken(token);
      if id.None? || id.value > MAX_ID {
        return None;
      }
      return Some(Range(id.value, id.value));
    }
    var first := Decimal.ParseToken(token[..dash]);
    if first.None? {
      return None;
    }
    var last := Decimal.ParseToken(token[dash + 1..]);
    if last.None? || first.value > last.value || last.value > MAX_ID {
      return None;
    }
    return Some(Range(first.value, last.value));
  }

  lemma AfterTwice(done: seq<Range>, r: Range, rest: Option<seq<Range>>)
    ensures After(done, After([r], rest)) == After(done + [r], rest)
  {
    if rest.Some? { assert done + ([r] + rest.value) == (done + [r]) + rest.value; }
  }

  lemma AfterNothing(rest: Option<seq<Range>>)
    ensures After([], rest) == rest
  {
    if rest.Some? { assert [] + rest.value == rest.value; }
  }

  /** Pushes the ids of one item. */
  method PushIds(out: seq<int>, range: Range) returns (longer: seq<int>)
    requires range.first <= range.last
    ensures longer == out + Ids(range.first, range.last)
  {
    longer := out;
    var id: int := range.first;
    while id <= range.last
      invariant range.first <= id <= range.last + 1
      invariant longer == out + Ids(range.first, id - 1)
    {
      longer := longer + [id];
      id := id + 1;
    }
  }

  lemma ExpandOneMore(done: seq<Range>, range: Range)
    ensures Expand(done + [range]) == Expand(done) + Ids(range.first, range.last)
  {
    assert (done + [range])[..|done|] == done;
  }

  /** `done` has been parsed into `out`, and `rest` is what remains of the text. */
  ghost predicate ItemsSoFar(text: string, done: seq<Range>, rest: string, out: seq<int>) {
    ParseRanges(text) == After(done, ParseRanges(rest)) && out == Expand(done)
  }

  /** One round of the loop over the items. */
  method ParseNext(rest: string, out: seq<int>, ghost text: string, ghost done: seq<Range>)
    returns (more: Option<seq<int>>, ghost longer: seq<Range>)
    requires rest != "" && ItemsSoFar(text, done, rest, out)
    ensures more.None? ==> ParseRanges(text).None?
    ensures more.Some? ==> ItemsSoFar(text, longer, Remainder(rest), more.value)
  {
    var range := ParseRangeToken(FirstItem(rest));
    longer := done;
    if range.None? {
      return None, longer;
    }
    var pushed := PushIds(out, range.value);
    more := Some(pushed);
    ExpandOneMore(done, range.value);
    AfterTwice(done, range.value, ParseRanges(Remainder(rest)));
    longer := done + [range.value];
  }

  /** Finds the items comma by comma and pushes their ids. */
  method ParseItems(text: string) returns (result: Option<seq<int>>)
    ensures result == match ParseRanges(text) case None => None case Some(ranges) => Some(Expand(ranges))
  {
    var out: seq<int> := [];
    ghost var done: seq<Range> := [];
    var rest := text;
    AfterNothing(ParseRanges(text));
    while rest != ""
      invariant ItemsSoFar(text, done, rest, out)
      decreases |rest|
    {
      var more;
      more, done := ParseNext(rest, out, text, done);
      if more.None? {
        return None;
      }
      out := more.value;
      rest := Remainder(rest);
    }
    assert done + [] == done;
    return Some(out);
  }

  /** The whole parser: the ids of all items, sorted, without duplicates. */
  method ParseCpuListText(text: string) returns (result: Option<seq<int>>)
    ensures result == ParseCpuList(text)
  {
    if text == "" {
      return None;
    }
    var out := ParseItems(text);
    match out
    case None => result := None;
    case Some(ids) => result := Some(SortUnique(LESS_INT, ids));
  }

  // ---- What is parsed ----

  lemma {:induction false} IdsIsInterval(first: int, last: int)
    ensures forall id :: id in Ids(first, last) <==> first <= id <= last
    decreases last - first
  {
    if first <= last { IdsIsInterval(first, last - 1); }
  }

  ghost predicate Listed(ranges: seq<Range>, id: int) {
    exists i :: 0 <= i < |ranges| && Within(ranges[i], id)
  }

  lemma ListedSplits(ranges: seq<Range>, id: int)
    requires ranges != []
    ensures Listed(ranges, id) <==> Listed(ranges[..|ranges| - 1], id) || Within(ranges[|ranges| - 1], id)
  {
    var n := |ranges| - 1;
    if Listed(ranges[..n], id) {
      var i :| 0 <= i < n && Within(ranges[..n][i], id);
      assert Within(ranges[i], id);
    }
    if Listed(ranges, id) {
      var i :| 0 <= i < |ranges| && Within(ranges[i], id);
      assert i < n ==> Within(ranges[..n][i], id);
    }
  }

  lemma {:induction false} ExpandIsUnion(ranges: seq<Range>)
    ensures forall id :: id in Expand(ranges) <==> Listed(ranges, id)
  {
    if ranges != [] {
      var n := |ranges| - 1;
      ExpandIsUnion(ranges[..n]);
      IdsIsInterval(ranges[n].first, ranges[n].last);
      forall id ensures Listed(ranges, id) <==> Listed(ranges[..n], id) || Within(ranges[n], id) {
        ListedSplits(ranges, id);
      }
    }
  }

  /** A list that parses gives exactly the ids in its items, each once, in strict order. */
  lemma ParsedIsSortedUnion(text: string)
    requires ParseCpuList(text).Some?
    ensures Increasing(LESS_INT, ParseCpuList(text).value)
    ensures forall id :: id in ParseCpuList(text).value <==> Listed(ParseRanges(text).value, id)
  {
    var ranges := ParseRanges(text).value;
    LessIntIsTotal();
    SortUniqueSorts(LESS_INT, Expand(ranges));
    ExpandIsUnion(ranges);
  }

  // ---- The kernel's way to print a set ----

  function PrintRange(r: Range): string {
    if r.first == r.last then Decimal.Print(r.first)
    else Decimal.Print(r.first) + ['-'] + Decimal.Print(r.last)
  }

  function PrintRanges(ranges: seq<Range>): string {
    if ranges == [] then ""
    else if |ranges| == 1 then PrintRange(ranges[0])
    else PrintRange(ranges[0]) + [','] + PrintRanges(ranges[1..])
  }

  /** Lengthens the last run by `id` if that is the next one, else starts a run. */
  function AddToRuns(runs: seq<Range>, id: nat): seq<Range> {
    if runs != [] && runs[|runs| - 1].last + 1 == id
    then runs[..|runs| - 1] + [Range(runs[|runs| - 1].first, id)]
    else runs + [Range(id, id)]
  }

  /** The maximal runs of consecutive ids. */
  function Runs(ids: seq<nat>): seq<Range> {
    if ids == [] then [] else AddToRuns(Runs(ids[..|ids| - 1]), ids[|ids| - 1])
  }

  predicate Printable(r: Range) {
    r.first <= r.last <= MAX_ID
  }

  predicate AllPrintable(ranges: seq<Range>) {
    forall i | 0 <= i < |ranges| :: Printable(ranges[i])
  }

  lemma NumbersHaveNoSigns(n: nat)
    ensures Decimal.ParseToken(Decimal.Print(n)) == if n <= Decimal.MAX_U64 then Some(n) else None
    ensures '-' !in Decimal.Print(n) && ',' !in Decimal.Print(n)
  {
    var s := Decimal.Print(n);
    Decimal.PlainToken(s);
    assert forall i | 0 <= i < |s| :: Decimal.IsDigit(s[i]);
  }

  lemma ParsePair(first: string, last: string)
    requires '-' !in first
    ensures var text := first + ['-'] + last;
            var dash := Find(text, '-');
            dash < |text| && text[..dash] == first && text[dash + 1..] == last
  {
    FindInMiddle(first, '-', last);
  }

  lemma ParseRangeUndoesPrint(r: Range)
    requires Printable(r)
    ensures ParseRange(PrintRange(r)) == Some(r) && ',' !in PrintRange(r) && PrintRange(r) != ""
  {
    NumbersHaveNoSigns(r.first);
    NumbersHaveNoSigns(r.last);
    if r.first != r.last { ParsePair(Decimal.Print(r.first), Decimal.Print(r.last)); }
  }

  lemma FirstOf(head: string, rest: string)
    requires ',' !in head
    ensures FirstItem(head) == head && Remainder(head) == ""
    ensures FirstItem(head + [','] + rest) == head && Remainder(head + [','] + rest) == rest
  {
    assert head[..|head|] == head;
    FindInMiddle(head, ',', rest);
  }

  lemma ParseFirst(r: Range, text: string)
    requires Printable(r)
    ensures ParseRanges(PrintRange(r)) == Some([r])
    ensures ParseRanges(PrintRange(r) + [','] + text) == After([r], ParseRanges(text))
  {
    ParseRangeUndoesPrint(r);
    FirstOf(PrintRange(r), text);
    assert ParseRanges("") == Some([]);
    assert [r] + [] == [r];
  }

  lemma ParseMore(r: Range, rest: seq<Range>, text: string)
    requires Printable(r) && ParseRanges(text) == Some(rest)
    ensures ParseRanges(PrintRange(r) + [','] + text) == Some([r] + rest)
  {
    ParseFirst(r, text);
  }

  lemma {:induction false} ParseRangesUndoesPrint(ranges: seq<Range>)
    requires ranges != [] && AllPrintable(ranges)
    ensures ParseRanges(PrintRanges(ranges)) == Some(ranges)
  {
    if |ranges| == 1 {
      ParseFirst(ranges[0], "");
      assert ranges == [ranges[0]];
    } else {
      ParseRangesUndoesPrint(ranges[1..]);
      ParseMore(ranges[0], ranges[1..], PrintRanges(ranges[1..]));
      assert ranges == [ranges[0]] + ranges[1..];
    }
  }

  lemma {:induction false} IdsOfOne(id: int)
    ensures Ids(id, id) == [id]
  {
    assert Ids(id, id - 1) == [];
  }

  lemma LastRunGrows(front: seq<Range>, run: Range, id: nat)
    requires Printable(run)
    ensures run.last + 1 == id ==> Expand(front + [Range(run.first, id)]) == Expand(front + [run]) + [id]
  {
    ExpandOneMore(front, run);
    ExpandOneMore(front, Range(run.first, id));
  }

  lemma RunGrows(runs: seq<Range>, id: nat)
    requires AllPrintable(runs) && id <= MAX_ID
    ensures AllPrintable(AddToRuns(runs, id)) && Expand(AddToRuns(runs, id)) == Expand(runs) + [id]
  {
    if runs != [] {
      LastRunGrows(runs[..|runs| - 1], runs[|runs| - 1], id);
      assert runs == runs[..|runs| - 1] + [runs[|runs| - 1]];
    }
    ExpandOneMore(runs, Range(id, id));
    IdsOfOne(id);
  }

  lemma {:induction false} RunsExpandBack(ids: seq<nat>)
    requires forall i | 0 <= i < |ids| :: ids[i] <= MAX_ID
    ensures Expand(Runs(ids)) == ids && AllPrintable(Runs(ids))
  {
    if ids != [] {
      var n := |ids| - 1;
      RunsExpandBack(ids[..n]);
      RunGrows(Runs(ids[..n]), ids[n]);
      assert ids == ids[..n] + [ids[n]];
    }
  }

  /** Sorting a list that is in strict order already changes nothing. */
  lemma SortedStays(ids: seq<int>)
    requires Increasing(LESS_INT, ids)
    ensures SortUnique(LESS_INT, ids) == ids
  {
    LessIntIsTotal();
    SortUniqueSorts(LESS_INT, ids);
    IncreasingIsCanonical(LESS_INT, SortUnique(LESS_INT, ids), ids);
  }

  /** Every non-empty set of ids below 2^31, in order, is read back from its own list. */
  lemma ParseUndoesPrint(ids: seq<nat>)
    requires ids != [] && Increasing(LESS_INT, ids) && forall i | 0 <= i < |ids| :: ids[i] <= MAX_ID
    ensures ParseCpuList(PrintRanges(Runs(ids))) == Some(ids)
  {
    RunsExpandBack(ids);
    ParseRangesUndoesPrint(Runs(ids));
    assert PrintRanges(Runs(ids)) != "";
    SortedStays(ids);
  }

  // ---- What is refused ----

  /** An item is one id, or two ids around its first dash that are in order; none exceeds 2^31 - 1. */
  lemma ItemsAreRanges(text: string, low: string, high: string, r: Range)
    requires '-' !in text && '-' !in low
    ensures ParseRange(text) == Some(r) <==>
              Decimal.ParseToken(text) == Some(r.first) && r.last == r.first && r.first < 0x8000_0000
    ensures ParseRange(low + ['-'] + high) == Some(r) <==>
              && Decimal.ParseToken(low) == Some(r.first) && Decimal.ParseToken(high) == Some(r.last)
              && r.first <= r.last < 0x8000_0000
  {
    ParsePair(low, high);
    assert Find(text, '-') == |text|;
  }

  /** The items with a comma between each two, and perhaps one at the end. */
  function JoinItems(items: seq<string>, trailing: bool): string
    requires items != []
  {
    if |items| == 1 then (if trailing then items[0] + [','] + "" else items[0])
    else items[0] + [','] + JoinItems(items[1..], trailing)
  }

  /** The results of parsing each item, if all have one. */
  function EachParsed(items: seq<string>): Option<seq<Range>> {
    if items == [] then Some([])
    else
      match ParseRange(items[0])
      case None => None
      case Some(r) => After([r], EachParsed(items[1..]))
  }

  lemma FirstItemDecides(item: string, rest: string, parsed: Option<seq<Range>>)
    requires ',' !in item && parsed == ParseRanges(rest)
    ensures var expected := match ParseRange(item) case None => None case Some(r) => After([r], parsed);
            && ParseRanges(item + [','] + rest) == expected
            && (rest == "" && item != "" ==> ParseRanges(item) == expected)
  {
    FirstOf(item, rest);
  }

  lemma {:induction false} ListParsesItems(items: seq<string>, trailing: bool)
    requires items != [] && forall i | 0 <= i < |items| :: ',' !in items[i] && items[i] != ""
    ensures ParseRanges(JoinItems(items, trailing)) == EachParsed(items)
  {
    if |items| == 1 {
      FirstItemDecides(items[0], "", Some([]));
      assert items[1..] == [];
    } else {
      ListParsesItems(items[1..], trailing);
      FirstItemDecides(items[0], JoinItems(items[1..], trailing), EachParsed(items[1..]));
    }
  }

  ghost predicate AllParse(items: seq<string>) {
    forall i | 0 <= i < |items| :: ParseRange(items[i]).Some?
  }

  lemma {:induction false} EachParsedIs(items: seq<string>)
    ensures EachParsed(items).Some? <==> AllParse(items)
    ensures AllParse(items) ==>
              var ranges := EachParsed(items).value;
              |ranges| == |items| && forall i | 0 <= i < |items| :: Some(ranges[i]) == ParseRange(items[i])
  {
    if items != [] {
      EachParsedIs(items[1..]);
      assert forall i | 0 < i < |items| :: items[1..][i - 1] == items[i];
      assert AllParse(items) <==> ParseRange(items[0]).Some? && AllParse(items[1..]);
    }
  }

  /**
   * A list of non-empty items parses exactly when every item does, with or without a final comma, and
   * then into their ranges in order.
   */
  lemma EveryItemDecides(items: seq<string>, trailing: bool)
    requires items != [] && forall i | 0 <= i < |items| :: ',' !in items[i] && items[i] != ""
    ensures ParseRanges(JoinItems(items, trailing)).Some? <==> AllParse(items)
    ensures AllParse(items) ==>
              var ranges := ParseRanges(JoinItems(items, trailing)).value;
              |ranges| == |items| && forall i | 0 <= i < |items| :: Some(ranges[i]) == ParseRange(items[i])
  {
    ListParsesItems(items, trailing);
    EachParsedIs(items);
  }

  /** An empty item refuses the list, unless it is what the final comma leaves. */
  lemma EmptyItemRefuses(rest: string)
    ensures ParseRanges([','] + rest) == None
  {
    FirstItemDecides("", rest, ParseRanges(rest));
    assert [] + [','] + rest == [','] + rest;
  }
}
