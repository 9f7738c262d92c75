/**
 * Command lines from the client's formatter (client/src/ftp/core/commands.py) to the server's parser
 * (server/src/protocol.c, utils.c); sections 4.1.3 and 5.3 of RFC 959, and the Telnet escapes of section 2.3 of RFC
 * 1123. Characters are bytes.
 */
module CommandWire {
  import opened Common
  import opened Decimals
  import opened ReplyWire

  const PROTO_MAX_CMD_NAME: nat := 8
  const PROTO_MAX_CMD_ARG: nat := 512
  const BUFFER_SIZE: nat := PROTO_MAX_CMD_ARG + PROTO_MAX_CMD_NAME + 10

  const IAC: char := 0xFF as char
  const IP: char := 0xF4 as char

  datatype Command = Command(name: string, argument: Option<string>)

  // ----- receiving a line -----

  /** The stream begins with this line, which ends with the stream's first CRLF. */
  predicate IsFirstLine(stream: string, line: string, rest: string) {
    stream == line + rest && EndsWithBreak(line) && NoBreakBeforeLast(line)
  }

  /** There is only one way to take a first line off a stream. */
  lemma FirstLineIsUnique(stream: string, line: string, rest: string, line': string, rest': string)
    requires IsFirstLine(stream, line, rest) && IsFirstLine(stream, line', rest')
    ensures line == line' && rest == rest'
  {
    BreakFound(line, rest);
    BreakFound(line', rest');
  }

  /** The server's end of the control connection; `incoming` is what the client has yet to deliver. */
  class ControlSocket {
    var incoming: string

    constructor (incoming: string)
      ensures this.incoming == incoming
    {
      this.incoming := incoming;
    }

    /** One byte at a time until CRLF; fails on a timeout, an error, a closed connection or a line that does not fit. */
    method ReceiveLine(bufferSize: nat) returns (result: int, line: string)
      modifies this
      ensures result > 0 ==> result == |line| < bufferSize && IsFirstLine(old(incoming), line, incoming)
    {
      line := "";
      if bufferSize < 3 { return -1, line; }
      ghost var stream := incoming;
      while |line| < bufferSize - 1
        invariant line + incoming == stream && NoBreakBeforeLast(line) && !EndsWithBreak(line)
      {
        var ready: int :| -1 <= ready <= 1;
        if ready <= 0 { return ready, line; }
        var received: int :| -1 <= received <= 1 && (incoming == "" ==> received <= 0);
        if received <= 0 { return received, line; }
        MoveOne(line, incoming);
        LongerLine(line, incoming[0]);
        line := line + [incoming[0]];
        incoming := incoming[1..];
        if EndsWithBreak(line) {
          return |line|, line;
        }
      }
      return -1, line;
    }
  }

  // ----- the Telnet filter -----

  function Skip(s: string, n: nat): (r: string)
    ensures |r| <= |s| && (n > 0 && s != "" ==> |r| < |s|)
  {
    if n <= |s| then s[n..] else ""
  }

  /** What the filter keeps: a doubled IAC is one 0xFF, other Telnet commands are dropped, and so is a lone IP. */
  function Filtered(s: string): string
    decreases |s|
  {
    if s == "" then ""
    else if s[0] == IAC then
      if |s| == 1 then ""
      else if s[1] == IAC then [IAC] + Filtered(s[2..])
      else if s[1] as int >= 0xF0 then Filtered(s[2..])
      else Filtered(Skip(s, 3))
    else if s[0] == IP then Filtered(s[1..])
    else [s[0]] + Filtered(s[1..])
  }

  lemma SkipSkip(s: string, i: nat)
    requires i < |s|
    ensures Skip(s, i)[1..] == Skip(s, i + 1)
    ensures i + 1 < |s| ==> Skip(s, i)[2..] == Skip(s, i + 2)
    ensures Skip(Skip(s, i), 3) == Skip(s, i + 3)
  {
  }

  /** What the filter makes of the next bytes. */
  lemma FilterStep(line: string, i: nat)
    requires i < |line|
    ensures var rest, c := Filtered(Skip(line, i)), line[i];
      if c == IAC then
        if i + 1 == |line| then rest == Filtered(Skip(line, i + 1))
        else if line[i + 1] == IAC then rest == [IAC] + Filtered(Skip(line, i + 2))
        else if line[i + 1] as int >= 0xF0 then rest == Filtered(Skip(line, i + 2))
        else rest == Filtered(Skip(line, i + 3))
      else if c == IP then rest == Filtered(Skip(line, i + 1))
      else rest == [c] + Filtered(Skip(line, i + 1))
  {
    SkipSkip(line, i);
  }

  /** The loop that filters `line` into a buffer no smaller than the line. */
  method FilterTelnet(line: string, filtered: array<char>) returns (writePos: nat)
    requires |line| < filtered.Length
    modifies filtered
    ensures writePos <= |line| && filtered[..writePos] == Filtered(line)
  {
    assert Skip(line, 0) == line;
    hide Filtered;
    ghost var done := "";
    writePos := 0;
    var i := 0;
    while i < |line| && writePos < filtered.Length - 1
      invariant 0 <= i <= |line| + 1 && writePos <= i && writePos <= |line| && done == filtered[..writePos]
      invariant done + Filtered(Skip(line, i)) == Filtered(line)
      decreases |line| - i
    {
      var c := line[i];
      FilterStep(line, i);
      if c == IAC {
        if i + 1 < |line| {
          var next := line[i + 1];
          if next == IAC {
            filtered[writePos] := IAC;
            Regroup(done, [IAC], Filtered(Skip(line, i + 2)));
            done := done + [IAC];
            writePos := writePos + 1;
            i := i + 1;
          } else if next as int >= 0xF0 {
            i := i + 1;
          } else if next as int >= 0xFB && next as int <= 0xFE {
            // negotiations have been taken for commands of two bytes above
            assert false;
          } else {
            i := if i + 1 < |line| then i + 2 else i + 1;
          }
        }
      } else if c == IP {
      } else {
        filtered[writePos] := c;
        Regroup(done, [c], Filtered(Skip(line, i + 1)));
        done := done + [c];
        writePos := writePos + 1;
      }
      i := i + 1;
    }
  }

  /** A negotiation is three bytes long, but only two are dropped: its option byte goes into the command. */
  lemma NegotiationLeavesItsOption(verb: char, option: char, rest: string)
    requires 0xFB <= verb as int <= 0xFE
    ensures Filtered([IAC, verb, option] + rest) == Filtered([option] + rest)
    ensures option != IAC && option != IP ==> Filtered([IAC, verb, option] + rest) == [option] + Filtered(rest)
  {
    assert ([IAC, verb, option] + rest)[2..] == [option] + rest;
    assert ([option] + rest)[1..] == rest;
  }

  /** After an IAC that begins nothing known, two bytes are dropped and not one. */
  lemma UnknownSequenceLosesAByte(unknown: char, next: char, rest: string)
    requires unknown as int < 0xF0
    ensures Filtered([IAC, unknown, next] + rest) == Filtered(rest)
  {
    assert Skip([IAC, unknown, next] + rest, 3) == rest;
  }

  predicate NoTelnet(s: string) { forall i | 0 <= i < |s| :: s[i] != IAC && s[i] != IP }

  lemma {:induction false} FilterKeepsPlain(s: string)
    requires NoTelnet(s)
    ensures Filtered(s) == s
    decreases |s|
  {
    if s != "" { FilterKeepsPlain(s[1..]); }
  }

  /** The Telnet encoding of a line: every 0xFF doubled. */
  function Escaped(s: string): string {
    if s == "" then "" else (if s[0] == IAC then [IAC, IAC] else [s[0]]) + Escaped(s[1..])
  }

  /** The filter undoes the Telnet encoding exactly for lines without a bare IP byte. */
  lemma {:induction false} FilterUndoesEscapeIff(s: string)
    ensures Filtered(Escaped(s)) == s <==> forall i | 0 <= i < |s| :: s[i] != IP
    ensures |Filtered(Escaped(s))| <= |s|
    decreases |s|
  {
    if s != "" {
      FilterUndoesEscapeIff(s[1..]);
      var e := Escaped(s);
      assert s == [s[0]] + s[1..];
      if s[0] == IAC {
        assert e[2..] == Escaped(s[1..]);
        assert Filtered(e) == [IAC] + Filtered(Escaped(s[1..]));
        assert Filtered(e)[1..] == Filtered(Escaped(s[1..]));
      } else {
        assert e[1..] == Escaped(s[1..]);
        if s[0] != IP { assert Filtered(e)[1..] == Filtered(Escaped(s[1..])); }
      }
    }
  }

  // ----- trimming and upper-casing -----

  function TrimEnd(s: string): string {
    if s != "" && IsSpace(s[|s| - 1]) then TrimEnd(s[..|s| - 1]) else s
  }

  function Trimmed(s: string): string { TrimEnd(SkipSpaces(s)) }

  predicate IsTrimmed(s: string) { s != "" ==> !IsSpace(s[0]) && !IsSpace(s[|s| - 1]) }

  predicate AllSpace(s: string) { forall i | 0 <= i < |s| :: IsSpace(s[i]) }

  lemma {:induction false} SkipSpacesSplits(s: string)
    ensures exists lead :: AllSpace(lead) && s == lead + SkipSpaces(s)
  {
    if s != "" && IsSpace(s[0]) {
      SkipSpacesSplits(s[1..]);
      var lead :| AllSpace(lead) && s[1..] == lead + SkipSpaces(s[1..]);
      assert AllSpace([s[0]] + lead) && s == [s[0]] + lead + SkipSpaces(s);
    } else {
      assert AllSpace("") && s == "" + SkipSpaces(s);
    }
  }

  lemma {:induction false} TrimEndSplits(s: string)
    ensures exists trail :: AllSpace(trail) && s == TrimEnd(s) + trail
    ensures TrimEnd(s) != "" ==> !IsSpace(TrimEnd(s)[|TrimEnd(s)| - 1])
  {
    if s != "" && IsSpace(s[|s| - 1]) {
      var front := s[..|s| - 1];
      TrimEndSplits(front);
      var trail :| AllSpace(trail) && front == TrimEnd(front) + trail;
      assert AllSpace(trail + [s[|s| - 1]]) && s == TrimEnd(s) + (trail + [s[|s| - 1]]);
    } else {
      assert AllSpace("") && s == TrimEnd(s) + "";
    }
  }

  /** Trimming takes white space off both ends and nothing else. */
  lemma TrimmedSplits(s: string)
    ensures exists lead, trail :: AllSpace(lead) && AllSpace(trail) && s == lead + Trimmed(s) + trail
    ensures IsTrimmed(Trimmed(s))
  {
    SkipSpacesSplits(s);
    TrimEndSplits(SkipSpaces(s));
    var lead :| AllSpace(lead) && s == lead + SkipSpaces(s);
    var trail :| AllSpace(trail) && SkipSpaces(s) == Trimmed(s) + trail;
    Regroup(lead, Trimmed(s), trail);
    if Trimmed(s) != "" { assert Trimmed(s)[0] == SkipSpaces(s)[0]; }
  }

  /** The scan over leading white space. */
  method SkipLeading(s: string) returns (start: nat)
    ensures start <= |s| && s[start..] == SkipSpaces(s)
  {
    start := 0;
    while start < |s| && IsSpace(s[start])
      invariant 0 <= start <= |s| && SkipSpaces(s) == SkipSpaces(s[start..])
    {
      assert s[start..][1..] == s[start + 1..];
      start := start + 1;
    }
  }

  /** The scan over trailing white space, which starts at a character that is none. */
  method DropTrailing(s: string) returns (len: nat)
    requires s != "" ==> !IsSpace(s[0])
    ensures len <= |s| && s[..len] == TrimEnd(s)
  {
    var end := |s| - 1;
    assert s[..end + 1] == s;
    while end > 0 && IsSpace(s[end])
      invariant 0 <= end + 1 <= |s| && TrimEnd(s) == TrimEnd(s[..end + 1])
    {
      assert s[..end + 1][..end] == s[..end];
      end := end - 1;
    }
    len := end + 1;
  }

  /** Trims the string at str[from..to] in place: its trimmed content is moved to where it began. */
  method TrimWhitespace(str: array<char>, from: nat, to: nat) returns (len: nat)
    requires from <= to <= str.Length
    modifies str
    ensures from + len <= to && str[from..from + len] == Trimmed(old(str[from..to]))
    ensures str[..from] == old(str[..from])
  {
    if from == to { return 0; }
    ghost var was := str[..];
    var start := SkipLeading(str[from..to]);
    start := from + start;
    SliceOfSlice(was, from, to, start - from, to - from);
    assert str[start..to] == was[start..to] && str[from..to] == was[from..to];
    len := DropTrailing(str[start..to]);
    SliceOfSlice(was, start, to, 0, len);
    assert str[start..start + len] == was[start..start + len];
    MoveDown(str, from, start, len);
  }

  lemma SliceOfSlice(s: string, from: nat, to: nat, a: nat, b: nat)
    requires from <= to <= |s| && a <= b <= to - from
    ensures s[from..to][a..b] == s[from + a..from + b]
  {
    forall k | 0 <= k < b - a ensures s[from..to][a..b][k] == s[from + a..from + b][k] {
    }
  }

  /** memmove within one buffer, towards its front. */
  method MoveDown(str: array<char>, to: nat, start: nat, len: nat)
    requires to <= start && start + len <= str.Length
    modifies str
    ensures str[to..to + len] == old(str[start..start + len])
    ensures str[..to] == old(str[..to])
  {
    ghost var was := str[..];
    var i := 0;
    while i < len
      invariant 0 <= i <= len
      invariant str[..to] == was[..to] && str[to..to + i] == was[start..start + i]
                && str[start + i..] == was[start + i..]
    {
      assert str[start + i] == str[start + i..][0] == was[start + i..][0];
      str[to + i] := str[start + i];
      assert str[start + i + 1..] == was[start + i..][1..];
      i := i + 1;
    }
    assert old(str[start..start + len]) == was[start..start + len];
  }

  function Upper(c: char): char { if 'a' <= c <= 'z' then c - 'a' + 'A' else c }

  function Uppercase(s: string): (r: string)
    ensures |r| == |s| && forall i | 0 <= i < |s| :: r[i] == Upper(s[i])
  {
    if s == "" then "" else [Upper(s[0])] + Uppercase(s[1..])
  }

  method ToUppercase(str: array<char>, length: nat)
    requires length <= str.Length
    modifies str
    ensures str[..length] == Uppercase(old(str[..length]))
    ensures str[length..] == old(str[length..])
  {
    var i := 0;
    while i < length
      invariant 0 <= i <= length
      invariant forall k | 0 <= k < i :: str[k] == Upper(old(str[k]))
      invariant forall k | i <= k < str.Length :: str[k] == old(str[k])
    {
      str[i] := Upper(str[i]);
      i := i + 1;
    }
  }

  // ----- the parser -----

  function UpToCrlf(s: string): string {
    var n := LineLength(s);
    if n.Some? then s[..n.value] else s
  }


  /** Where the first space is, or the end. */
  function SpaceAt(s: string): (n: nat)
    ensures n <= |s| && (n < |s| ==> s[n] == ' ') && forall k | 0 <= k < n :: s[k] != ' '
  {
    if s == "" || s[0] == ' ' then 0 else
      var n := 1 + SpaceAt(s[1..]);
      assert forall k | 1 <= k < n :: s[k] == s[1..][k - 1];
      n
  }

  /** The command in a line that has been filtered, cut and trimmed. */
  function ParsedBody(body: string): Command {
    var n := SpaceAt(body);
    var argument := if n < |body| then Cut(Trimmed(body[n + 1..]), PROTO_MAX_CMD_ARG - 1) else "";
    Command(Uppercase(Cut(body[..n], PROTO_MAX_CMD_NAME - 1)), if argument == "" then None else Some(argument))
  }

  function Body(line: string): string { Trimmed(UpToCrlf(Filtered(line))) }

  /** The command in a line; None for a line that is too long or blank. */
  function Parsed(line: string): Option<Command> {
    if |line| >= BUFFER_SIZE || Body(line) == "" then None else Some(ParsedBody(Body(line)))
  }

  /** strstr for CRLF, which cuts the line there. */
  method CutAtCrlf(buffer: array<char>, length: nat) returns (len: nat)
    requires length <= buffer.Length
    ensures len <= length && buffer[..len] == UpToCrlf(buffer[..length])
  {
    ghost var s := buffer[..length];
    len := 0;
    while len + 1 < length && !(buffer[len] == '\r' && buffer[len + 1] == '\n')
      invariant len <= length
      invariant forall k | 0 <= k < len :: s[k] == '\r' ==> k + 1 < length && s[k + 1] != '\n'
    {
      len := len + 1;
    }
    if len + 1 < length {
      assert s[len] == '\r' && s[len + 1] == '\n';
    } else {
      len := length;
    }
  }

  /** strchr for a space. */
  method FindSpace(buffer: array<char>, length: nat) returns (n: nat)
    requires length <= buffer.Length
    ensures n == SpaceAt(buffer[..length])
  {
    n := 0;
    while n < length && buffer[n] != ' '
      invariant 0 <= n <= length && forall k | 0 <= k < n :: buffer[k] != ' '
    {
      n := n + 1;
    }
    assert forall k | 0 <= k < length :: buffer[..length][k] == buffer[k];
  }

  /** strncpy of a bounded prefix, upper-cased in place. */
  method CopyName(buffer: array<char>, length: nat) returns (name: string)
    requires length <= buffer.Length
    ensures name == Uppercase(Cut(buffer[..length], PROTO_MAX_CMD_NAME - 1))
  {
    var n := if length <= PROTO_MAX_CMD_NAME - 1 then length else PROTO_MAX_CMD_NAME - 1;
    var command := new char[PROTO_MAX_CMD_NAME](
      i requires 0 <= i < PROTO_MAX_CMD_NAME reads buffer => if i < n && i < buffer.Length then buffer[i] else '\0');
    assert command[..n] == Cut(buffer[..length], PROTO_MAX_CMD_NAME - 1);
    ToUppercase(command, n);
    name := command[..n];
  }

  /** Filters the line into the buffer, cuts it at CRLF and trims it. */
  method ReadBody(line: string, buffer: array<char>) returns (length: nat)
    requires |line| < buffer.Length
    modifies buffer
    ensures length <= buffer.Length && buffer[..length] == Body(line)
  {
    length := FilterTelnet(line, buffer);
    length := CutAtCrlf(buffer, length);
    assert buffer[0..length] == buffer[..length];
    length := TrimWhitespace(buffer, 0, length);
    assert buffer[0..0 + length] == buffer[..length];
  }

  /** The argument after the space, trimmed in place and cut. */
  method ReadArgument(buffer: array<char>, from: nat, length: nat) returns (argument: string)
    requires from <= length <= buffer.Length
    modifies buffer
    ensures argument == Cut(Trimmed(old(buffer[from..length])), PROTO_MAX_CMD_ARG - 1)
  {
    var argLength := TrimWhitespace(buffer, from, length);
    argument := Cut(buffer[from..from + argLength], PROTO_MAX_CMD_ARG - 1);
  }

  method ParseCommand(line: string) returns (cmd: Option<Command>)
    ensures cmd == Parsed(line)
  {
    hide Body, Trimmed, Uppercase;
    var lineLen := |line|;
    if lineLen >= BUFFER_SIZE { return None; }
    var buffer := new char[BUFFER_SIZE](_ => '\0');
    var length := ReadBody(line, buffer);
    ghost var body := buffer[..length];
    if length == 0 { return None; }
    var space := FindSpace(buffer, length);
    assert buffer[..space] == body[..space];
    var name := CopyName(buffer, space);
    if space < length {
      assert buffer[space + 1..length] == body[space + 1..];
      var argument := ReadArgument(buffer, space + 1, length);
      return Some(Command(name, if |argument| > 0 then Some(argument) else None));
    }
    return Some(Command(name, None));
  }

  // ----- the parser undoes the formatter -----

  function JoinArguments(arguments: seq<string>): string {
    if arguments == [] then ""
    else if |arguments| == 1 then arguments[0]
    else arguments[0] + " " + JoinArguments(arguments[1..])
  }

  /** The client's format_command. */
  function FormatCommand(command: string, arguments: seq<string>): string {
    if arguments == [] then command + CRLF else command + " " + JoinArguments(arguments) + CRLF
  }

  /** Characters that neither the line format nor the Telnet layer gives a meaning. */
  predicate Safe(s: string) {
    forall i | 0 <= i < |s| :: s[i] != '\r' && s[i] != '\n' && s[i] != '\0' && s[i] != IAC && s[i] != IP
  }

  predicate CommandName(command: string) {
    && 0 < |command| < PROTO_MAX_CMD_NAME
    && forall i | 0 <= i < |command| :: 'a' <= command[i] <= 'z' || 'A' <= command[i] <= 'Z'
  }

  lemma {:induction false} TrimmedIsFixed(s: string)
    requires IsTrimmed(s)
    ensures TrimEnd(s) == s && SkipSpaces(s) == s && Trimmed(s) == s
  {
  }

  lemma SafeLine(body: string)
    requires Safe(body)
    ensures UpToCrlf(Filtered(body + CRLF)) == body
  {
    assert NoTelnet(body + CRLF);
    FilterKeepsPlain(body + CRLF);
    PlainHasNoBreak(body);
    BreakFound(body + CRLF, "");
    assert body + CRLF + "" == body + CRLF && (body + CRLF)[..|body|] == body;
  }

  lemma {:induction false} SpaceAfterName(command: string, rest: string)
    requires forall i | 0 <= i < |command| :: command[i] != ' '
    requires rest == "" || rest[0] == ' '
    ensures SpaceAt(command + rest) == |command|
    decreases command
  {
    if command == "" {
      assert command + rest == rest;
    } else {
      assert (command + rest)[1..] == command[1..] + rest;
      SpaceAfterName(command[1..], rest);
    }
  }

  lemma BodyOfSafe(body: string)
    requires Safe(body) && IsTrimmed(body)
    ensures Body(body + CRLF) == body
  {
    SafeLine(body);
    TrimmedIsFixed(body);
  }

  /** A command without arguments arrives as its name, in upper case. */
  lemma BareCommandRoundTrip(command: string)
    requires CommandName(command)
    ensures Parsed(FormatCommand(command, [])) == Some(Command(Uppercase(command), None))
  {
    BodyOfSafe(command);
    SpaceAfterName(command, "");
    assert command + "" == command && command[..|command|] == command;
  }

  lemma PartsAround(command: string, argument: string)
    ensures var body := command + " " + argument; body[..|command|] == command && body[|command| + 1..] == argument
  {
  }

  lemma ParsedBodyOf(command: string, argument: string)
    requires CommandName(command) && argument != "" && IsTrimmed(argument) && |argument| < PROTO_MAX_CMD_ARG
    ensures ParsedBody(command + " " + argument) == Command(Uppercase(command), Some(argument))
  {
    Regroup(command, " ", argument);
    SpaceAfterName(command, " " + argument);
    PartsAround(command, argument);
    TrimmedIsFixed(argument);
  }

  /** The line the server receives is the line the client sent, whatever follows it. */
  lemma CommandIsReceived(command: string, arguments: seq<string>, rest: string)
    requires CommandName(command)
    requires arguments != [] ==> Safe(JoinArguments(arguments)) && |JoinArguments(arguments)| < PROTO_MAX_CMD_ARG
    ensures var sent := FormatCommand(command, arguments);
      && IsFirstLine(sent + rest, sent, rest) && |sent| < BUFFER_SIZE
      && forall line, left | IsFirstLine(sent + rest, line, left) :: line == sent && left == rest
  {
    var body := if arguments == [] then command else command + " " + JoinArguments(arguments);
    assert Safe(body) && FormatCommand(command, arguments) == body + CRLF;
    PlainHasNoBreak(body);
    var sent := FormatCommand(command, arguments);
    forall line, left | IsFirstLine(sent + rest, line, left) ensures line == sent && left == rest {
      FirstLineIsUnique(sent + rest, sent, rest, line, left);
    }
  }

  /** A command with arguments arrives as its name in upper case and the arguments joined by spaces. */
  lemma CommandRoundTrip(command: string, arguments: seq<string>)
    requires CommandName(command) && arguments != []
    requires var a := JoinArguments(arguments); Safe(a) && a != "" && IsTrimmed(a) && |a| < PROTO_MAX_CMD_ARG
    ensures Parsed(FormatCommand(command, arguments))
            == Some(Command(Uppercase(command), Some(JoinArguments(arguments))))
  {
    var argument := JoinArguments(arguments);
    var body := command + " " + argument;
    assert Safe(body);
    assert body[0] == command[0] && body[|body| - 1] == argument[|argument| - 1];
    BodyOfSafe(body);
    ParsedBodyOf(command, argument);
  }

  lemma NameOfWord(word: string)
    requires word != "" && forall k | 0 <= k < |word| :: word[k] != ' '
    ensures var name := Uppercase(Cut(word, PROTO_MAX_CMD_NAME - 1));
      0 < |name| < PROTO_MAX_CMD_NAME && forall i | 0 <= i < |name| :: name[i] != ' ' && !('a' <= name[i] <= 'z')
  {
  }

  lemma ArgumentOfRest(rest: string)
    ensures var argument := Cut(Trimmed(rest), PROTO_MAX_CMD_ARG - 1);
      |argument| < PROTO_MAX_CMD_ARG && (argument != "" ==> !IsSpace(argument[0]))
  {
    TrimmedSplits(rest);
  }

  /** Whatever the line, a parsed command has a name of one to seven characters and an argument of one to 511. */
  lemma LimitsOfParsed(line: string)
    requires Parsed(line).Some?
    ensures var c := Parsed(line).value;
      && 0 < |c.name| < PROTO_MAX_CMD_NAME
        && (forall i | 0 <= i < |c.name| :: c.name[i] != ' ' && !('a' <= c.name[i] <= 'z'))
      && (c.argument.Some? ==> 0 < |c.argument.value| < PROTO_MAX_CMD_ARG && !IsSpace(c.argument.value[0]))
  {
    var body := Body(line);
    TrimmedSplits(UpToCrlf(Filtered(line)));
    var n := SpaceAt(body);
    assert n > 0;
    NameOfWord(body[..n]);
    if n < |body| { ArgumentOfRest(body[n + 1..]); }
  }
}
