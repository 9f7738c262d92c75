/**
 * Replies from the server's formatter (server/src/protocol.c) to the client's reader and parser
 * (client/src/ftp/core/connection.py, parser.py); sections 4.2 and 4.1 of RFC 959.
 */
module ReplyWire {
  import opened Common
  import opened Decimals

  const PROTO_MAX_RESPONSE_LINE: nat := 1024

  const CRLF := "\r\n"

  // ----- the server's side -----

  /** What both formatters print; `separator` is a space on the last line of a reply and a hyphen on the others. */
  function ReplyLine(code: nat, separator: char, message: string): string {
    Decimal(code) + [separator] + message + CRLF
  }

  /** The formatters fail on a code outside 100..599 and on a line that does not leave room for the terminating NUL. */
  method FormatResponse(bufferSize: nat, code: int, separator: char, message: string) returns (line: Option<string>)
    ensures line.Some? <==> 100 <= code <= 599 && |message| + 7 <= bufferSize
    ensures line.Some? ==> line.value == ReplyLine(code, separator, message)
  {
    if bufferSize == 0 { return None; }
    if code < 100 || code > 599 { return None; }
    ReplyLineLength(code, separator, message);
    var written := ReplyLine(code, separator, message);
    if |written| >= bufferSize { return None; }
    return Some(written);
  }

  lemma CodeLength(code: nat)
    requires 100 <= code <= 599
    ensures |Decimal(code)| == 3 && AllDigits(Decimal(code)) && Value(Decimal(code)) == code
  {
    ValueOfDecimal(code);
    assert Power10(3) == 1000 && Power10(2) == 100;
    DecimalLength(code, 3, 1000);
  }

  lemma ReplyLineLength(code: nat, separator: char, message: string)
    requires 100 <= code <= 599
    ensures |ReplyLine(code, separator, message)| == |message| + 6
  {
    CodeLength(code);
  }

  /** A reply of one or more lines, as the server sends it. */
  function Reply(code: nat, messages: seq<string>): string
    requires messages != []
  {
    if |messages| == 1 then ReplyLine(code, ' ', messages[0])
    else ReplyLine(code, '-', messages[0]) + Reply(code, messages[1..])
  }

  // ----- the client's side -----

  /** The length of the first line, without its CRLF. */
  function LineLength(s: string): (r: Option<nat>)
    ensures r.Some? ==> r.value + 2 <= |s| && s[r.value] == '\r' && s[r.value + 1] == '\n'
    ensures r.Some? ==> forall k | 0 <= k < r.value :: !(s[k] == '\r' && s[k + 1] == '\n')
    ensures r.None? ==> forall k | 0 <= k < |s| - 1 :: !(s[k] == '\r' && s[k + 1] == '\n')
  {
    if |s| < 2 then None
    else if s[0] == '\r' && s[1] == '\n' then Some(0)
    else
      var r := LineLength(s[1..]);
      if r.None? then
        assert forall k | 1 <= k < |s| - 1 :: s[k] == s[1..][k - 1] && s[k + 1] == s[1..][k];
        None
      else
        assert forall k | 1 <= k < r.value + 1 :: s[k] == s[1..][k - 1] && s[k + 1] == s[1..][k];
        Some(r.value + 1)
  }

  function StripLineEnd(s: string): string {
    if s != "" && (s[|s| - 1] == '\r' || s[|s| - 1] == '\n') then StripLineEnd(s[..|s| - 1]) else s
  }

  /** The first line of a stream, stripped, and what follows it. */
  function NextLine(s: string): Option<(string, string)> {
    var n := LineLength(s);
    if n.None? then None else Some((StripLineEnd(s[..n.value + 2]), s[n.value + 2..]))
  }

  /** A line that ends a multi-line reply with this code. */
  predicate EndsReply(code: string, line: string) { code + " " <= line }

  predicate OpensMultiline(line: string) { |line| >= 4 && line[3] == '-' }

  /** Lines up to the one that ends the reply. */
  function UpTo(code: string, s: string): Option<(seq<string>, string)>
    decreases |s|
  {
    var first := NextLine(s);
    if first.None? then None
    else if EndsReply(code, first.value.0) then Some(([first.value.0], first.value.1))
    else
      var others := UpTo(code, first.value.1);
      if others.None? then None else Some(([first.value.0] + others.value.0, others.value.1))
  }

  /** The lines of the first reply of a stream, and what follows it. */
  function NextReply(s: string): Option<(seq<string>, string)> {
    var first := NextLine(s);
    if first.None? then None
    else if OpensMultiline(first.value.0) then
      var others := UpTo(first.value.0[..3], first.value.1);
      if others.None? then None else Some(([first.value.0] + others.value.0, others.value.1))
    else Some(([first.value.0], first.value.1))
  }

  /** The control connection; `incoming` is what the server sends before it closes. */
  class ControlConnection {
    var incoming: string

    constructor (incoming: string)
      ensures this.incoming == incoming
    {
      this.incoming := incoming;
    }

    /** One byte at a time until CRLF; None when the connection closes first. */
    method RecvLine() returns (r: Option<string>)
      modifies this
      ensures match NextLine(old(incoming))
              case None => r.None?
              case Some((line, rest)) => r == Some(line) && incoming == rest
    {
      ghost var stream := incoming;
      var line := "";
      while !EndsWithBreak(line)
        invariant line + incoming == stream && NoBreakBeforeLast(line)
        decreases |incoming|
      {
        if incoming == "" {
          NoBreakFound(line);
          assert line + "" == line;
          return None;
        }
        MoveOne(line, incoming);
        LongerLine(line, incoming[0]);
        line := line + [incoming[0]];
        incoming := incoming[1..];
      }
      BreakFound(line, incoming);
      return Some(StripLineEnd(line));
    }

    method RecvMultiline() returns (r: Option<seq<string>>)
      modifies this
      ensures match NextReply(old(incoming))
              case None => r.None?
              case Some((lines, rest)) => r == Some(lines) && incoming == rest
    {
      var first := RecvLine();
      if first.None? { return None; }
      var lines := [first.value];
      if OpensMultiline(first.value) {
        var code := first.value[..3];
        ghost var stream := incoming;
        ghost var read: seq<string> := [];
        AfterNothing(UpTo(code, stream));
        while true
          invariant lines == [first.value] + read
          invariant UpTo(code, stream) == After(read, UpTo(code, incoming))
          decreases |incoming|
        {
          ghost var before := incoming;
          var line := RecvLine();
          if line.None? { return None; }
          UpToStep(code, before, read);
          lines := lines + [line.value];
          read := read + [line.value];
          if EndsReply(code, line.value) { break; }
        }
      }
      return Some(lines);
    }
  }

  lemma MoveOne(line: string, incoming: string)
    requires incoming != ""
    ensures line + [incoming[0]] + incoming[1..] == line + incoming
  {
  }

  /** More lines, after those already read. */
  function After(read: seq<string>, more: Option<(seq<string>, string)>): Option<(seq<string>, string)> {
    if more.None? then None else Some((read + more.value.0, more.value.1))
  }

  lemma AfterNothing(more: Option<(seq<string>, string)>)
    ensures After([], more) == more
  {
    if more.Some? { assert [] + more.value.0 == more.value.0; }
  }

  lemma UpToStep(code: string, s: string, read: seq<string>)
    requires NextLine(s).Some?
    ensures var (line, rest) := NextLine(s).value;
      After(read, UpTo(code, s)) == if EndsReply(code, line) then Some((read + [line], rest))
                                    else After(read + [line], UpTo(code, rest))
  {
    var (line, rest) := NextLine(s).value;
    if !EndsReply(code, line) && UpTo(code, rest).Some? {
      var more := UpTo(code, rest).value.0;
      assert read + ([line] + more) == read + [line] + more;
    }
  }

  // ----- where the first line ends -----

  predicate EndsWithBreak(line: string) { |line| >= 2 && line[|line| - 2] == '\r' && line[|line| - 1] == '\n' }

  /** No CRLF, except perhaps the last two characters. */
  predicate NoBreakBeforeLast(line: string) {
    forall k | 0 <= k < |line| - 2 :: !(line[k] == '\r' && line[k + 1] == '\n')
  }

  lemma LongerLine(line: string, c: char)
    requires NoBreakBeforeLast(line) && !EndsWithBreak(line)
    ensures NoBreakBeforeLast(line + [c])
  {
    var longer := line + [c];
    forall k | 0 <= k < |longer| - 2 ensures !(longer[k] == '\r' && longer[k + 1] == '\n') {
      assert longer[k] == line[k] && longer[k + 1] == line[k + 1];
    }
  }

  /** A line that ends with the only CRLF so far is the first line of the stream. */
  lemma BreakFound(line: string, rest: string)
    requires EndsWithBreak(line) && NoBreakBeforeLast(line)
    ensures var stream := line + rest;
      LineLength(stream) == Some(|line| - 2) && stream[..|line|] == line && stream[|line|..] == rest
  {
    var stream := line + rest;
    assert forall k | 0 <= k < |line| :: stream[k] == line[k];
    assert stream[|line| - 2] == '\r' && stream[|line| - 1] == '\n';
  }

  lemma NoBreakFound(line: string)
    requires !EndsWithBreak(line) && NoBreakBeforeLast(line)
    ensures LineLength(line).None?
  {
  }

  // ----- the client's parser -----

  datatype Response = Response(code: nat, message: string)

  /** The white space Python's strip() removes, among 7-bit characters. */
  predicate IsPythonSpace(c: char) { c == ' ' || '\t' <= c <= '\r' || 28 <= c as int <= 31 }

  function Strip(s: string): string {
    if s != "" && IsPythonSpace(s[0]) then Strip(s[1..])
    else if s != "" && IsPythonSpace(s[|s| - 1]) then Strip(s[..|s| - 1])
    else s
  }

  function JoinLines(lines: seq<string>): string {
    if lines == [] then "" else if |lines| == 1 then lines[0] else lines[0] + "\n" + JoinLines(lines[1..])
  }

  function From4(line: string): string { if |line| > 4 then line[4..] else "" }

  function WithoutCode(code: string, lines: seq<string>): seq<string> {
    if lines == [] then [] else [if code <= lines[0] then From4(lines[0]) else lines[0]] + WithoutCode(code, lines[1..])
  }

  function Parse(lines: seq<string>): Response {
    if lines == [] then Response(0, "No response")
    else if |lines[0]| < 3 || !AllDigits(lines[0][..3]) then Response(0, lines[0])
    else
      var code := Value(lines[0][..3]);
      if |lines| == 1 then Response(code, Strip(From4(lines[0])))
      else Response(code, Strip(JoinLines(WithoutCode(Decimal(code), lines))))
  }

  // ----- what the client reads is what the server said -----

  predicate Plain(message: string) { forall i | 0 <= i < |message| :: message[i] != '\r' && message[i] != '\n' }

  function Line(code: nat, separator: char, message: string): string {
    Decimal(code) + [separator] + message
  }

  function Lines(code: nat, messages: seq<string>): seq<string>
    requires messages != []
  {
    if |messages| == 1 then [Line(code, ' ', messages[0])]
    else [Line(code, '-', messages[0])] + Lines(code, messages[1..])
  }

  lemma PlainLine(code: nat, separator: char, message: string)
    requires 100 <= code <= 599 && Plain(message) && separator != '\r' && separator != '\n'
    ensures var line := Line(code, separator, message);
      Plain(line) && |line| >= 4 && line[..3] == Decimal(code) && line[3] == separator && line[4..] == message
  {
    CodeLength(code);
    var line, digits := Line(code, separator, message), Decimal(code);
    assert line == digits + ([separator] + message);
    forall i | 0 <= i < |line| ensures line[i] != '\r' && line[i] != '\n' {
      if i < 3 { assert line[i] == digits[i] && IsDigit(digits[i]); }
    }
  }

  lemma StripsCrlf(line: string)
    requires Plain(line)
    ensures StripLineEnd(line + CRLF) == line
  {
    assert (line + CRLF)[..|line| + 1] == line + "\r" && (line + "\r")[..|line|] == line;
    assert StripLineEnd(line + CRLF) == StripLineEnd(line + "\r") == StripLineEnd(line);
  }

  lemma PlainHasNoBreak(line: string)
    requires Plain(line)
    ensures NoBreakBeforeLast(line + CRLF) && EndsWithBreak(line + CRLF)
  {
    forall k | 0 <= k < |line| ensures (line + CRLF)[k] != '\r' { assert (line + CRLF)[k] == line[k]; }
  }

  /** A line sent is the line read; what follows it stays unread. */
  lemma LineIsRead(line: string, rest: string)
    requires Plain(line)
    ensures NextLine(line + CRLF + rest) == Some((line, rest))
  {
    var stream := line + CRLF + rest;
    assert stream[..|line| + 2] == line + CRLF && stream[|line| + 2..] == rest;
    PlainHasNoBreak(line);
    BreakFound(line + CRLF, rest);
    StripsCrlf(line);
  }

  lemma ReplyLineIsRead(code: nat, separator: char, message: string, rest: string)
    requires 100 <= code <= 599 && Plain(message) && separator != '\r' && separator != '\n'
    ensures NextLine(ReplyLine(code, separator, message) + rest) == Some((Line(code, separator, message), rest))
  {
    PlainLine(code, separator, message);
    LineIsRead(Line(code, separator, message), rest);
    assert ReplyLine(code, separator, message) == Line(code, separator, message) + CRLF;
  }

  /** Only a line with a space after the code ends the reply. */
  lemma EndsReplyIff(code: nat, separator: char, message: string)
    requires 100 <= code <= 599 && Plain(message) && separator != '\r' && separator != '\n'
    ensures EndsReply(Decimal(code), Line(code, separator, message)) <==> separator == ' '
  {
    PlainLine(code, separator, message);
    var line := Line(code, separator, message);
    CodeLength(code);
    assert |Decimal(code) + " "| == 4 && (Decimal(code) + " ")[3] == ' ';
    if separator == ' ' { assert line[..4] == Decimal(code) + " "; }
  }

  lemma {:induction false} LinesAreRead(code: nat, messages: seq<string>, rest: string)
    requires 100 <= code <= 599 && messages != [] && forall m | m in messages :: Plain(m)
    ensures UpTo(Decimal(code), Reply(code, messages) + rest) == Some((Lines(code, messages), rest))
    decreases |messages|
  {
    var separator := if |messages| == 1 then ' ' else '-';
    assert messages[0] in messages;
    EndsReplyIff(code, separator, messages[0]);
    if |messages| == 1 {
      ReplyLineIsRead(code, ' ', messages[0], rest);
    } else {
      var others := Reply(code, messages[1..]) + rest;
      ReplyLineIsRead(code, '-', messages[0], others);
      assert Reply(code, messages) + rest == ReplyLine(code, '-', messages[0]) + others;
      LinesAreRead(code, messages[1..], rest);
    }
  }

  /** The client reads exactly the lines of the reply and leaves what follows unread. */
  lemma ReplyIsRead(code: nat, messages: seq<string>, rest: string)
    requires 100 <= code <= 599 && messages != [] && forall m | m in messages :: Plain(m)
    ensures NextReply(Reply(code, messages) + rest) == Some((Lines(code, messages), rest))
  {
    assert messages[0] in messages;
    if |messages| == 1 {
      ReplyLineIsRead(code, ' ', messages[0], rest);
      PlainLine(code, ' ', messages[0]);
    } else {
      var others := Reply(code, messages[1..]) + rest;
      assert Reply(code, messages) + rest == ReplyLine(code, '-', messages[0]) + others;
      ReplyLineIsRead(code, '-', messages[0], others);
      PlainLine(code, '-', messages[0]);
      LinesAreRead(code, messages[1..], rest);
    }
  }

  lemma {:induction false} CodesDrop(code: nat, messages: seq<string>)
    requires 100 <= code <= 599 && messages != [] && forall m | m in messages :: Plain(m)
    ensures WithoutCode(Decimal(code), Lines(code, messages)) == messages
    decreases |messages|
  {
    var separator := if |messages| == 1 then ' ' else '-';
    assert messages[0] in messages;
    PlainLine(code, separator, messages[0]);
    assert Lines(code, messages)[0] == Line(code, separator, messages[0]);
    if |messages| == 1 {
      assert messages == [messages[0]];
    } else {
      CodesDrop(code, messages[1..]);
      assert Lines(code, messages)[1..] == Lines(code, messages[1..]);
    }
  }

  lemma LinesLength(code: nat, messages: seq<string>)
    requires messages != []
    ensures |Lines(code, messages)| == |messages|
  {
  }

  /** Parsing gives back the code and the text, stripped of outer white space. */
  lemma ParseUndoesReply(code: nat, messages: seq<string>)
    requires 100 <= code <= 599 && messages != [] && forall m | m in messages :: Plain(m)
    ensures Parse(Lines(code, messages)) == Response(code, Strip(JoinLines(messages)))
  {
    var separator := if |messages| == 1 then ' ' else '-';
    assert messages[0] in messages;
    LinesLength(code, messages);
    PlainLine(code, separator, messages[0]);
    CodeLength(code);
    CodesDrop(code, messages);
    assert Lines(code, messages)[0] == Line(code, separator, messages[0]);
  }

  /** From the server's formatter to the client's response, with anything at all behind it on the wire. */
  lemma ReplyRoundTrip(code: nat, messages: seq<string>, rest: string)
    requires 100 <= code <= 599 && messages != [] && forall m | m in messages :: Plain(m)
    ensures var read := NextReply(Reply(code, messages) + rest);
      read.Some? && read.value.1 == rest && Parse(read.value.0) == Response(code, Strip(JoinLines(messages)))
  {
    ReplyIsRead(code, messages, rest);
    ParseUndoesReply(code, messages);
  }
}
