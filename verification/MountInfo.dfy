/**
 * The reader of `/proc/self/mountinfo` (src/filesystem_monitor.cpp). The format is that of
 * `/proc/<pid>/mountinfo`, section 3.5 of the kernel's Documentation/filesystems/proc.rst.
 */
module MountInfo {
  import opened Wrappers
  import opened Sequences
  import Decimal
  import TextLines

  datatype Mount = Mount(mountId: nat, parentId: nat, major: nat, minor: nat, root: string,
                         mountPoint: string, mountOptions: string, optionalFields: seq<string>,
                         filesystemType: string, mountSource: string, superOptions: string)

  const MAX_LONG: nat := 0x7fff_ffff_ffff_ffff
  const MAX_UNSIGNED: nat := 0xffff_ffff

  // ---- Tokens ----

  predicate IsBlank(c: char) {
    c == ' ' || c == '\t'
  }

  /** How far the token at the head of `s` reaches. */
  function TokenLength(s: string): (n: nat)
    ensures n <= |s|
    ensures forall i | 0 <= i < n :: !IsBlank(s[i])
    ensures n < |s| ==> IsBlank(s[n])
  {
    if s == "" || IsBlank(s[0]) then 0 else 1 + TokenLength(s[1..])
  }

  function Tokens(s: string): seq<string>
    decreases |s|
  {
    if s == "" then []
    else if IsBlank(s[0]) then Tokens(s[1..])
    else [s[..TokenLength(s)]] + Tokens(s[TokenLength(s)..])
  }

  lemma TokenLengthIs(s: string, n: nat)
    requires n <= |s|
    requires forall i | 0 <= i < n :: !IsBlank(s[i])
    requires n < |s| ==> IsBlank(s[n])
    ensures TokenLength(s) == n
  {
  }

  lemma BlankStep(line: string, i: nat)
    requires i < |line| && IsBlank(line[i])
    ensures Tokens(line[i..]) == Tokens(line[i + 1..])
  {
    assert line[i..][1..] == line[i + 1..];
  }

  lemma TokenStep(line: string, start: nat, end: nat)
    requires start < end <= |line|
    requires forall i | start <= i < end :: !IsBlank(line[i])
    requires end < |line| ==> IsBlank(line[end])
    ensures Tokens(line[start..]) == [line[start..end]] + Tokens(line[end..])
  {
    TokenLengthIs(line[start..], end - start);
    assert line[start..][..end - start] == line[start..end];
    assert line[start..][end - start..] == line[end..];
  }

  method SkipBlanks(line: string, from: nat) returns (start: nat)
    requires from <= |line|
    ensures from <= start <= |line| && (start < |line| ==> !IsBlank(line[start]))
    ensures Tokens(line[start..]) == Tokens(line[from..])
  {
    start := from;
    while start < |line| && IsBlank(line[start])
      invariant from <= start <= |line|
      invariant Tokens(line[start..]) == Tokens(line[from..])
    {
      BlankStep(line, start);
      start := start + 1;
    }
  }

  method SkipToken(line: string, start: nat) returns (end: nat)
    requires start <= |line|
    ensures start <= end <= |line| && (end < |line| ==> IsBlank(line[end]))
    ensures forall i | start <= i < end :: !IsBlank(line[i])
  {
    end := start;
    while end < |line| && !IsBlank(line[end])
      invariant start <= end <= |line|
      invariant forall i | start <= i < end :: !IsBlank(line[i])
    {
      end := end + 1;
    }
  }

  /** Skips blanks and takes a token, in turn. */
  method SplitMountTokens(line: string) returns (tokens: seq<string>)
    ensures tokens == Tokens(line)
  {
    tokens := [];
    var start := 0;
    while start < |line|
      invariant start <= |line|
      invariant tokens + Tokens(line[start..]) == Tokens(line)
      decreases |line| - start
    {
      start := SkipBlanks(line, start);
      var end := SkipToken(line, start);
      if end > start {
        TokenStep(line, start, end);
        tokens := tokens + [line[start..end]];
      }
      start := end;
    }
  }

  // ---- Fields ----

  function ParseMajorMinor(token: string): Option<(nat, nat)> {
    var colon := Find(token, ':');
    if colon == |token| || colon == 0 || colon + 1 == |token| then None
    else
      match (Decimal.ParseBounded(token[..colon], MAX_UNSIGNED), Decimal.ParseBounded(token[colon + 1..], MAX_UNSIGNED))
      case (Some(major), Some(minor)) => Some((major, minor))
      case _ => None
  }

  predicate IsOctal(c: char) {
    '0' <= c <= '7'
  }

  predicate StartsEscape(s: string) {
    |s| >= 4 && s[0] == '\\' && IsOctal(s[1]) && IsOctal(s[2]) && IsOctal(s[3])
  }

  /** The byte that an octal escape stands for; three octal digits can exceed a byte and are cut to it. */
  function EscapedByte(s: string): char
    requires StartsEscape(s)
  {
    (((s[1] as int - 48) * 64 + (s[2] as int - 48) * 8 + (s[3] as int - 48)) % 256) as char
  }

  function Unescape(s: string): string
    decreases |s|
  {
    if s == "" then ""
    else if StartsEscape(s) then [EscapedByte(s)] + Unescape(s[4..])
    else [s[0]] + Unescape(s[1..])
  }

  lemma UnescapeStep(token: string, i: nat)
    requires i < |token|
    ensures EscapeAt(token, i) == StartsEscape(token[i..])
    ensures Unescape(token[i..]) ==
            if EscapeAt(token, i) then [EscapedByte(token[i..i + 4])] + Unescape(token[i + 4..])
            else [token[i]] + Unescape(token[i + 1..])
  {
    assert token[i..][1..] == token[i + 1..];
    assert EscapeAt(token, i) ==> token[i..][4..] == token[i + 4..];
  }

  lemma Appended(out: string, c: char, rest: string)
    ensures out + ([c] + rest) == out + [c] + rest
  {
  }

  /** Whether an escape starts at position `i`, as the loop tests it. */
  predicate EscapeAt(token: string, i: nat)
    requires i < |token|
  {
    token[i] == '\\' && i + 3 < |token|
    && IsOctal(token[i + 1]) && IsOctal(token[i + 2]) && IsOctal(token[i + 3])
  }

  method UnescapeMountInfo(token: string) returns (out: string)
    ensures out == Unescape(token)
  {
    out := "";
    var i := 0;
    while i < |token|
      invariant i <= |token|
      invariant out + Unescape(token[i..]) == Unescape(token)
      decreases |token| - i
    {
      UnescapeStep(token, i);
      if EscapeAt(token, i) {
        Appended(out, EscapedByte(token[i..i + 4]), Unescape(token[i + 4..]));
        out := out + [EscapedByte(token[i..i + 4])];
        i := i + 4;
      } else {
        Appended(out, token[i], Unescape(token[i + 1..]));
        out := out + [token[i]];
        i := i + 1;
      }
    }
  }

  /** The position of the separator among the tokens after the six fixed ones. */
  function SeparatorAt(tokens: seq<string>): (n: nat)
    ensures n <= |tokens|
    ensures forall i | 0 <= i < n :: tokens[i] != "-"
    ensures n < |tokens| ==> tokens[n] == "-"
  {
    if tokens == [] || tokens[0] == "-" then 0 else 1 + SeparatorAt(tokens[1..])
  }

  function ParseTokens(tokens: seq<string>): Option<Mount> {
    if |tokens| < 6 then None
    else
      match (Decimal.ParseBounded(tokens[0], MAX_LONG), Decimal.ParseBounded(tokens[1], MAX_LONG),
             ParseMajorMinor(tokens[2]))
      case (Some(id), Some(parent), Some((major, minor))) =>
        var rest := tokens[6..];
        var n := SeparatorAt(rest);
        if |rest| < n + 4 then None
        else
          Some(Mount(id, parent, major, minor, Unescape(tokens[3]), Unescape(tokens[4]), tokens[5],
                     rest[..n], rest[n + 1], Unescape(rest[n + 2]), rest[n + 3]))
      case _ => None
  }

  function ParseLine(line: string): Option<Mount> {
    ParseTokens(Tokens(line))
  }

  method ParseMajorMinorToken(token: string) returns (r: Option<(nat, nat)>)
    ensures r == ParseMajorMinor(token)
  {
    var colon := Find(token, ':');
    if colon == |token| || colon == 0 || colon + 1 == |token| {
      return None;
    }
    var major := Decimal.ParseDigits(token[..colon], MAX_UNSIGNED);
    if major.None? {
      return None;
    }
    var minor := Decimal.ParseDigits(token[colon + 1..], MAX_UNSIGNED);
    if minor.None? {
      return None;
    }
    return Some((major.value, minor.value));
  }

  method ParseMountInfoLine(line: string) returns (r: Option<Mount>)
    ensures r == ParseLine(line)
  {
    var tokens := SplitMountTokens(line);
    if |tokens| < 6 {
      return None;
    }
    var id := Decimal.ParseDigits(tokens[0], MAX_LONG);
    if id.None? {
      return None;
    }
    var parent := Decimal.ParseDigits(tokens[1], MAX_LONG);
    if parent.None? {
      return None;
    }
    var device := ParseMajorMinorToken(tokens[2]);
    if device.None? {
      return None;
    }
    var root := UnescapeMountInfo(tokens[3]);
    var mountPoint := UnescapeMountInfo(tokens[4]);
    var optional: seq<string> := [];
    var index := 6;
    var separatorFound := false;
    while index < |tokens| && !separatorFound
      invariant 6 <= index <= |tokens|
      invariant !separatorFound ==> optional == tokens[6..index] && forall i | 6 <= i < index :: tokens[i] != "-"
      invariant separatorFound ==>
                  && index >= 7 && tokens[index - 1] == "-"
                  && optional == tokens[6..index - 1]
                  && forall i | 6 <= i < index - 1 :: tokens[i] != "-"
      decreases |tokens| - index, !separatorFound
    {
      if tokens[index] == "-" {
        separatorFound := true;
      } else {
        optional := optional + [tokens[index]];
      }
      index := index + 1;
    }
    ghost var rest := tokens[6..];
    SeparatorAtIs(rest, if separatorFound then index - 7 else |rest|);
    if !separatorFound {
      return None;
    }
    if index + 2 >= |tokens| {
      return None;
    }
    assert rest[..index - 7] == tokens[6..index - 1];
    var source := UnescapeMountInfo(tokens[index + 1]);
    return Some(Mount(id.value, parent.value, device.value.0, device.value.1, root, mountPoint, tokens[5],
                      optional, tokens[index], source, tokens[index + 2]));
  }

  lemma SeparatorAtIs(tokens: seq<string>, n: nat)
    requires n <= |tokens|
    requires forall i | 0 <= i < n :: tokens[i] != "-"
    requires n < |tokens| ==> tokens[n] == "-"
    ensures SeparatorAt(tokens) == n
  {
  }

  // ---- The whole file ----

  function ParseAll(lines: seq<string>): seq<Mount> {
    if lines == [] then []
    else
      var before := ParseAll(lines[..|lines| - 1]);
      match ParseLine(lines[|lines| - 1])
      case Some(m) => before + [m]
      case None => before
  }

  /** Malformed lines are skipped. There is no text when the file cannot be opened. */
  method ReadMountInfo(file: Option<string>) returns (readable: bool, mounts: seq<Mount>)
    ensures readable == file.Some?
    ensures mounts == if file.None? then [] else ParseAll(TextLines.Lines(file.value))
  {
    readable, mounts := file.Some?, [];
    if file.None? {
      return;
    }
    var lines := TextLines.Lines(file.value);
    for i := 0 to |lines|
      invariant mounts == ParseAll(lines[..i])
    {
      var r := ParseMountInfoLine(lines[i]);
      if r.Some? {
        mounts := mounts + [r.value];
      }
      assert lines[..i + 1][..i] == lines[..i];
    }
    assert lines[..|lines|] == lines;
  }
}
