/** Reading a mountinfo line undoes printing it, and every line that is accepted is so printed. */
module MountInfoRoundTrip {
  import opened Wrappers
  import opened Sequences
  import opened MountInfo
  import Decimal
  import TextLines

  // ---- The printer: what the kernel writes ----

  /** The bytes that a printer escapes; besides these four it may escape any others. */
  ghost predicate Escaper(special: set<char>) {
    {' ', '\t', '\n', '\\'} <= special && forall c | c in special :: c as int < 256
  }

  function OctalDigit(n: nat): char
    requires n < 8
  {
    ('0' as int + n) as char
  }

  /** A byte as a backslash and three octal digits. */
  function Octal(c: char): string
    requires c as int < 256
  {
    ['\\', OctalDigit(c as int / 64), OctalDigit(c as int / 8 % 8), OctalDigit(c as int % 8)]
  }

  function EscapeChar(special: set<char>, c: char): string {
    if c in special && c as int < 256 then Octal(c) else [c]
  }

  function Escape(special: set<char>, s: string): string {
    if s == "" then "" else EscapeChar(special, s[0]) + Escape(special, s[1..])
  }

  predicate IsToken(s: string) {
    s != "" && forall i | 0 <= i < |s| :: s[i] != ' ' && s[i] != '\t'
  }

  function Join(tokens: seq<string>): string {
    if tokens == [] then "" else tokens[0] + " " + Join(tokens[1..])
  }

  function PrintTokens(special: set<char>, m: Mount): seq<string> {
    [Decimal.Print(m.mountId), Decimal.Print(m.parentId),
     Decimal.Print(m.major) + ":" + Decimal.Print(m.minor),
     Escape(special, m.root), Escape(special, m.mountPoint), m.mountOptions]
    + m.optionalFields
    + ["-", m.filesystemType, Escape(special, m.mountSource), m.superOptions]
  }

  function PrintLine(special: set<char>, m: Mount): string {
    Join(PrintTokens(special, m))
  }

  /** What a record read from a line can be: any path bytes, any number of optional fields but `-`. */
  predicate WellFormed(m: Mount) {
    && m.mountId < 0x8000_0000_0000_0000 && m.parentId < 0x8000_0000_0000_0000
    && m.major < 0x1_0000_0000 && m.minor < 0x1_0000_0000
    && m.root != "" && m.mountPoint != "" && m.mountSource != ""
    && IsToken(m.mountOptions) && IsToken(m.filesystemType) && IsToken(m.superOptions)
    && forall i | 0 <= i < |m.optionalFields| :: IsToken(m.optionalFields[i]) && m.optionalFields[i] != "-"
  }

  // ---- Each layer undone ----

  lemma OctalUndone(c: char, rest: string)
    requires c as int < 256
    ensures StartsEscape(Octal(c) + rest) && EscapedByte(Octal(c) + rest) == c
    ensures (Octal(c) + rest)[4..] == rest
  {
    var n := c as int;
    assert n / 64 * 64 + n / 8 % 8 * 8 + n % 8 == n;
  }

  lemma EscapeCharUndone(special: set<char>, c: char, rest: string)
    requires Escaper(special)
    ensures Unescape(EscapeChar(special, c) + rest) == [c] + Unescape(rest)
    ensures IsToken(EscapeChar(special, c)) && '\n' !in EscapeChar(special, c)
  {
    if c in special {
      OctalUndone(c, rest);
    } else {
      assert ([c] + rest)[1..] == rest;
      assert !StartsEscape([c] + rest);
    }
  }

  /** Unescaping undoes every such escaping, of any text. */
  lemma {:induction false} UnescapeUndoesEscape(special: set<char>, s: string)
    requires Escaper(special)
    ensures Unescape(Escape(special, s)) == s
    ensures s != "" ==> IsToken(Escape(special, s))
    ensures '\n' !in Escape(special, s)
  {
    if s != "" {
      UnescapeUndoesEscape(special, s[1..]);
      EscapeCharUndone(special, s[0], Escape(special, s[1..]));
      assert s == [s[0]] + s[1..];
    }
  }

  lemma {:induction false} TokensOfJoin(tokens: seq<string>)
    requires forall i | 0 <= i < |tokens| :: IsToken(tokens[i])
    ensures Tokens(Join(tokens)) == tokens
  {
    if tokens != [] {
      var t, rest := tokens[0], Join(tokens[1..]);
      TokensOfJoin(tokens[1..]);
      var s := t + " " + rest;
      TokenLengthIs(s, |t|);
      assert s[..|t|] == t;
      assert s[|t|..][1..] == rest;
      assert Tokens(s[|t|..]) == Tokens(rest);
      assert tokens == [t] + tokens[1..];
    }
  }

  lemma NumberToken(n: nat)
    ensures IsToken(Decimal.Print(n)) && ':' !in Decimal.Print(n) && '\n' !in Decimal.Print(n)
  {
    var s := Decimal.Print(n);
    assert forall i | 0 <= i < |s| :: Decimal.IsDigit(s[i]);
  }

  lemma MajorMinorUndone(major: nat, minor: nat)
    requires major <= MAX_UNSIGNED && minor <= MAX_UNSIGNED
    ensures var token := Decimal.Print(major) + ":" + Decimal.Print(minor);
            ParseMajorMinor(token) == Some((major, minor)) && IsToken(token)
  {
    NumberToken(major);
    NumberToken(minor);
    FindInMiddle(Decimal.Print(major), ':', Decimal.Print(minor));
    assert Decimal.Print(major) + ":" + Decimal.Print(minor)
        == Decimal.Print(major) + [':'] + Decimal.Print(minor);
  }

  lemma PrintedTokens(special: set<char>, m: Mount)
    requires Escaper(special)
    requires WellFormed(m)
    ensures forall i | 0 <= i < |PrintTokens(special, m)| :: IsToken(PrintTokens(special, m)[i])
  {
    NumberToken(m.mountId);
    NumberToken(m.parentId);
    MajorMinorUndone(m.major, m.minor);
    UnescapeUndoesEscape(special, m.root);
    UnescapeUndoesEscape(special, m.mountPoint);
    UnescapeUndoesEscape(special, m.mountSource);
  }

  lemma OptionalFieldsUndone(special: set<char>, m: Mount, extra: seq<string>)
    requires Escaper(special)
    requires WellFormed(m)
    ensures var rest, n := (PrintTokens(special, m) + extra)[6..], |m.optionalFields|;
            && |rest| >= n + 4 && SeparatorAt(rest) == n && rest[..n] == m.optionalFields
            && rest[n + 1] == m.filesystemType && rest[n + 2] == Escape(special, m.mountSource)
            && rest[n + 3] == m.superOptions
  {
    var rest := (PrintTokens(special, m) + extra)[6..];
    var last := ["-", m.filesystemType, Escape(special, m.mountSource), m.superOptions];
    assert rest == m.optionalFields + (last + extra);
    SeparatorAtIs(rest, |m.optionalFields|);
  }

  lemma ParseTokensUndoesPrint(special: set<char>, m: Mount, extra: seq<string>)
    requires Escaper(special)
    requires WellFormed(m)
    ensures ParseTokens(PrintTokens(special, m) + extra) == Some(m)
  {
    MajorMinorUndone(m.major, m.minor);
    UnescapeUndoesEscape(special, m.root);
    UnescapeUndoesEscape(special, m.mountPoint);
    UnescapeUndoesEscape(special, m.mountSource);
    OptionalFieldsUndone(special, m, extra);
  }

  // ---- Any blanks between the tokens ----

  predicate IsGap(s: string) {
    forall i | 0 <= i < |s| :: s[i] == ' ' || s[i] == '\t'
  }

  /** The tokens with a gap behind each. */
  function Spread(tokens: seq<string>, gaps: seq<string>): string
    requires |gaps| == |tokens|
  {
    if tokens == [] then "" else tokens[0] + (gaps[0] + Spread(tokens[1..], gaps[1..]))
  }

  lemma {:induction false} GapIsSkipped(gap: string, rest: string)
    requires IsGap(gap)
    ensures Tokens(gap + rest) == Tokens(rest)
  {
    if gap == "" {
      assert gap + rest == rest;
    } else {
      assert (gap + rest)[1..] == gap[1..] + rest;
      GapIsSkipped(gap[1..], rest);
    }
  }

  lemma TokenThenGap(token: string, gap: string, rest: string)
    requires IsToken(token) && IsGap(gap) && (gap == "" ==> rest == "")
    ensures Tokens(token + (gap + rest)) == [token] + Tokens(rest)
  {
    var s := token + (gap + rest);
    TokenLengthIs(s, |token|);
    assert s[..|token|] == token && s[|token|..] == gap + rest;
    GapIsSkipped(gap, rest);
  }

  lemma {:induction false} TokensOfSpread(tokens: seq<string>, gaps: seq<string>)
    requires |gaps| == |tokens|
    requires forall i | 0 <= i < |tokens| :: IsToken(tokens[i]) && IsGap(gaps[i])
    requires forall i | 0 <= i < |gaps| - 1 :: gaps[i] != ""
    ensures Tokens(Spread(tokens, gaps)) == tokens
  {
    if tokens != [] {
      TokensOfSpread(tokens[1..], gaps[1..]);
      TokenThenGap(tokens[0], gaps[0], Spread(tokens[1..], gaps[1..]));
      assert tokens == [tokens[0]] + tokens[1..];
    }
  }

  /**
   * However the tokens are spaced, whatever is escaped, and whatever tokens follow: a line that holds
   * the tokens of a well-formed record yields that record.
   */
  lemma SpacedLineParses(special: set<char>, m: Mount, extra: seq<string>, lead: string, gaps: seq<string>)
    requires Escaper(special) && WellFormed(m) && IsGap(lead)
    requires forall i | 0 <= i < |extra| :: IsToken(extra[i])
    requires |gaps| == |PrintTokens(special, m) + extra| && forall i | 0 <= i < |gaps| :: IsGap(gaps[i])
    requires forall i | 0 <= i < |gaps| - 1 :: gaps[i] != ""
    ensures ParseLine(lead + Spread(PrintTokens(special, m) + extra, gaps)) == Some(m)
  {
    PrintedTokens(special, m);
    TokensOfSpread(PrintTokens(special, m) + extra, gaps);
    GapIsSkipped(lead, Spread(PrintTokens(special, m) + extra, gaps));
    ParseTokensUndoesPrint(special, m, extra);
  }

  /** Three octal digits above a byte are cut to one; a backslash before anything else stands for itself. */
  lemma EscapesDenote(a: nat, b: nat, c: nat, rest: string)
    requires a < 8 && b < 8 && c < 8
    ensures Unescape(['\\', OctalDigit(a), OctalDigit(b), OctalDigit(c)] + rest)
         == [((64 * a + 8 * b + c) % 256) as char] + Unescape(rest)
  {
    var s := ['\\', OctalDigit(a), OctalDigit(b), OctalDigit(c)] + rest;
    assert s[4..] == rest;
  }

  predicate StartsOctal(s: string) {
    |s| >= 3 && '0' <= s[0] <= '7' && '0' <= s[1] <= '7' && '0' <= s[2] <= '7'
  }

  lemma OthersAreCopied(x: char, rest: string)
    requires !(x == '\\' && StartsOctal(rest))
    ensures Unescape([x] + rest) == [x] + Unescape(rest)
  {
    var s := [x] + rest;
    assert s[1..] == rest;
    assert |rest| >= 3 ==> s[1] == rest[0] && s[2] == rest[1] && s[3] == rest[2];
    assert !StartsEscape(s);
  }

  /** Every well-formed record is read back from its own line, exactly. */
  lemma ParseUndoesPrint(special: set<char>, m: Mount)
    requires Escaper(special)
    requires WellFormed(m)
    ensures ParseLine(PrintLine(special, m)) == Some(m)
  {
    PrintedTokens(special, m);
    TokensOfJoin(PrintTokens(special, m));
    ParseTokensUndoesPrint(special, m, []);
    assert PrintTokens(special, m) + [] == PrintTokens(special, m);
  }

  // ---- Whatever is accepted is well-formed ----

  lemma {:induction false} TokensAreTokens(s: string)
    ensures forall i | 0 <= i < |Tokens(s)| :: IsToken(Tokens(s)[i])
    decreases |s|
  {
    if s != "" {
      if IsBlank(s[0]) {
        TokensAreTokens(s[1..]);
      } else {
        TokensAreTokens(s[TokenLength(s)..]);
      }
    }
  }

  /** A line that is accepted yields a well-formed record, so its normal form yields the same record. */
  lemma AcceptedIsWellFormed(special: set<char>, line: string)
    requires Escaper(special)
    requires ParseLine(line).Some?
    ensures WellFormed(ParseLine(line).value)
    ensures ParseLine(PrintLine(special, ParseLine(line).value)) == ParseLine(line)
  {
    var tokens := Tokens(line);
    TokensAreTokens(line);
    var m := ParseLine(line).value;
    var rest := tokens[6..];
    assert forall i | 0 <= i < |rest| :: rest[i] == tokens[6 + i];
    ParseUndoesPrint(special, m);
  }

  // ---- The whole file ----

  /** The printed line holds no end of line, if the fields that are copied verbatim hold none. */
  predicate OnOneLine(m: Mount) {
    && '\n' !in m.mountOptions && '\n' !in m.filesystemType && '\n' !in m.superOptions
    && forall i | 0 <= i < |m.optionalFields| :: '\n' !in m.optionalFields[i]
  }

  lemma {:induction false} JoinHasNoNewline(tokens: seq<string>)
    requires forall i | 0 <= i < |tokens| :: '\n' !in tokens[i]
    ensures '\n' !in Join(tokens)
  {
    if tokens != [] { JoinHasNoNewline(tokens[1..]); }
  }

  lemma PrintedOnOneLine(special: set<char>, m: Mount)
    requires Escaper(special)
    requires OnOneLine(m)
    ensures '\n' !in PrintLine(special, m)
  {
    NumberToken(m.mountId);
    NumberToken(m.parentId);
    NumberToken(m.major);
    NumberToken(m.minor);
    UnescapeUndoesEscape(special, m.root);
    UnescapeUndoesEscape(special, m.mountPoint);
    UnescapeUndoesEscape(special, m.mountSource);
    JoinHasNoNewline(PrintTokens(special, m));
  }

  function PrintAll(special: set<char>, mounts: seq<Mount>): seq<string> {
    seq(|mounts|, i requires 0 <= i < |mounts| => PrintLine(special, mounts[i]))
  }

  lemma {:induction false} ParseAllIs(lines: seq<string>, mounts: seq<Mount>)
    requires |lines| == |mounts|
    requires forall i | 0 <= i < |lines| :: ParseLine(lines[i]) == Some(mounts[i])
    ensures ParseAll(lines) == mounts
  {
    if lines != [] {
      var n := |lines| - 1;
      ParseAllIs(lines[..n], mounts[..n]);
      assert mounts == mounts[..n] + [mounts[n]];
    }
  }

  lemma ParseAllUndoesPrintAll(special: set<char>, mounts: seq<Mount>)
    requires Escaper(special)
    requires forall i | 0 <= i < |mounts| :: WellFormed(mounts[i])
    ensures ParseAll(PrintAll(special, mounts)) == mounts
  {
    forall i | 0 <= i < |mounts| ensures ParseLine(PrintLine(special, mounts[i])) == Some(mounts[i]) {
      ParseUndoesPrint(special, mounts[i]);
    }
    ParseAllIs(PrintAll(special, mounts), mounts);
  }

  lemma PrintAllHasNoNewline(special: set<char>, mounts: seq<Mount>)
    requires Escaper(special)
    requires forall i | 0 <= i < |mounts| :: OnOneLine(mounts[i])
    ensures forall i | 0 <= i < |mounts| :: '\n' !in PrintAll(special, mounts)[i]
  {
    forall i | 0 <= i < |mounts| ensures '\n' !in PrintLine(special, mounts[i]) {
      PrintedOnOneLine(special, mounts[i]);
    }
  }

  /** A whole mount table survives being written and read. */
  lemma FileRoundTrip(special: set<char>, mounts: seq<Mount>)
    requires Escaper(special)
    requires forall i | 0 <= i < |mounts| :: WellFormed(mounts[i]) && OnOneLine(mounts[i])
    ensures ParseAll(TextLines.Lines(TextLines.JoinLines(PrintAll(special, mounts)))) == mounts
  {
    PrintAllHasNoNewline(special, mounts);
    TextLines.LinesOfJoin(PrintAll(special, mounts));
    ParseAllUndoesPrintAll(special, mounts);
  }
}
