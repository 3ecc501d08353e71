/** `std::getline` over a whole text. */
module TextLines {
  import opened Sequences

  /** The lines that a `getline` loop sees: an end of line closes a line, it does not open one. */
  function Lines(text: string): seq<string>
    decreases |text|
  {
    if text == "" then []
    else
      var n := Find(text, '\n');
      if n == |text| then [text] else [text[..n]] + Lines(text[n + 1..])
  }

  function JoinLines(lines: seq<string>): string {
    if lines == [] then "" else lines[0] + "\n" + JoinLines(lines[1..])
  }

  /** Writing lines and reading them back is the identity. */
  lemma {:induction false} LinesOfJoin(lines: seq<string>)
    requires forall i | 0 <= i < |lines| :: '\n' !in lines[i]
    ensures Lines(JoinLines(lines)) == lines
  {
    if lines != [] {
      var rest := JoinLines(lines[1..]);
      LinesOfJoin(lines[1..]);
      FindInMiddle(lines[0], '\n', rest);
      assert JoinLines(lines) == lines[0] + ['\n'] + rest;
      assert lines == [lines[0]] + lines[1..];
    }
  }
}
