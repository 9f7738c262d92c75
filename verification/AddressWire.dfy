/**
 * Data-connection addresses in PORT commands and 227 replies (server/src/protocol.c, client/src/ftp/core/parser.py);
 * sections 4.1.2 and 5.3.2 of RFC 959.
 */
module AddressWire {
  import opened Common
  import opened Decimals
  import opened ReplyWire

  datatype Address = Address(h1: nat, h2: nat, h3: nat, h4: nat, port: nat)

  predicate IsAddress(a: Address) {
    a.h1 < 256 && a.h2 < 256 && a.h3 < 256 && a.h4 < 256 && a.port < 0x1_0000
  }

  function Dotted(a: Address): string { JoinFields([a.h1, a.h2, a.h3, a.h4], '.') }

  function Joined(parts: seq<string>, separator: char): string {
    if parts == [] then ""
    else if |parts| == 1 then parts[0]
    else parts[0] + ([separator] + Joined(parts[1..], separator))
  }

  function Numerals(ns: seq<nat>): (r: seq<string>)
    ensures |r| == |ns| && forall i | 0 <= i < |ns| :: r[i] == Decimal(ns[i])
  {
    if ns == [] then [] else [Decimal(ns[0])] + Numerals(ns[1..])
  }

  function JoinFields(ns: seq<nat>, separator: char): string { Joined(Numerals(ns), separator) }

  // ----- the server -----

  /** sscanf with `count` conversions %u, separated by a character; None when fewer succeed. */
  function ScanFields(s: string, separator: char, count: nat): (r: Option<seq<int>>)
    ensures r.Some? ==> |r.value| == count
    decreases count
  {
    if count == 0 then Some([])
    else
      var n := ScanNumber(s);
      if n.None? then None
      else if count == 1 then Some([n.value.0])
      else if n.value.1 == "" || n.value.1[0] != separator then None
      else
        var others := ScanFields(n.value.1[1..], separator, count - 1);
        if others.None? then None else Some([n.value.0] + others.value)
  }

  /** The value of a conversion stored in an unsigned int. */
  function AsUnsigned(n: int): nat { n % 0x1_0000_0000 }

  /** All fields read are bytes. */
  predicate AreBytes(fields: seq<int>) { forall i | 0 <= i < |fields| :: AsUnsigned(fields[i]) <= 255 }

  datatype Parameters = Parameters(h1: nat, h2: nat, h3: nat, h4: nat, p1: nat, p2: nat)

  function ParsePort(argument: string): Option<Parameters> {
    var fields := ScanFields(argument, ',', 6);
    if fields.None? || !AreBytes(fields.value) then None
    else
      var f := fields.value;
      Some(Parameters(AsUnsigned(f[0]), AsUnsigned(f[1]), AsUnsigned(f[2]), AsUnsigned(f[3]), AsUnsigned(f[4]),
                      AsUnsigned(f[5])))
  }

  function PortToAddress(p: Parameters): (string, nat) {
    (JoinFields([p.h1, p.h2, p.h3, p.h4], '.'), (p.p1 * 256 + p.p2) % 0x1_0000)
  }

  function AddressToPasv(ip: string, port: nat): Option<Parameters>
    requires port < 0x1_0000
  {
    var fields := ScanFields(ip, '.', 4);
    if fields.None? || !AreBytes(fields.value) then None
    else
      var f := fields.value;
      Some(Parameters(AsUnsigned(f[0]), AsUnsigned(f[1]), AsUnsigned(f[2]), AsUnsigned(f[3]), port / 256 % 256,
                      port % 256))
  }

  function Numbers(p: Parameters): seq<nat> { [p.h1, p.h2, p.h3, p.h4, p.p1, p.p2] }

  const PASV_TEXT := "Entering Passive Mode ("

  function FormatPasv(bufferSize: nat, p: Parameters): Option<string> {
    var line := "227 " + PASV_TEXT + JoinFields(Numbers(p), ',') + ")" + CRLF;
    if bufferSize == 0 || |line| >= bufferSize then None else Some(line)
  }

  // ----- the client -----

  /** Python's split on one character. */
  function Split(s: string, separator: char): (parts: seq<string>)
    ensures parts != []
  {
    if s == "" then [""]
    else if s[0] == separator then [""] + Split(s[1..], separator)
    else
      var others := Split(s[1..], separator);
      [[s[0]] + others[0]] + others[1..]
  }

  /** format_port_command; None for its ValueError. */
  function FormatPort(host: string, port: nat): Option<string> {
    var octets := Split(host, '.');
    if |octets| != 4 then None
    else Some(Joined(octets + [Decimal(port / 256), Decimal(port % 256)], ','))
  }

  /** The pattern's groups `\d+`, with commas between them, and what follows. */
  function MatchNumbers(s: string, count: nat): (r: Option<(seq<nat>, string)>)
    ensures r.Some? ==> |r.value.0| == count
    decreases count
  {
    if count == 0 then Some(([], s))
    else
      var n := DigitRun(s);
      var after := s[n..];
      if n == 0 then None
      else if count == 1 then Some(([Value(s[..n])], after))
      else if after == "" || after[0] != ',' then None
      else
        var others := MatchNumbers(after[1..], count - 1);
        if others.None? then None else Some(([Value(s[..n])] + others.value.0, others.value.1))
  }

  /** The whole pattern, in parentheses, at the front of a string. */
  function MatchPasv(s: string): Option<seq<nat>> {
    if s == "" || s[0] != '(' then None
    else
      var m := MatchNumbers(s[1..], 6);
      if m.None? || m.value.1 == "" || m.value.1[0] != ')' then None else Some(m.value.0)
  }

  /** The first place where the pattern matches. */
  function SearchPasv(s: string): (r: Option<seq<nat>>)
    ensures r.Some? ==> |r.value| == 6
  {
    if s == "" then None else if MatchPasv(s).Some? then MatchPasv(s) else SearchPasv(s[1..])
  }

  /** parse_pasv_response; None for its ValueError. */
  function ParsePasvResponse(message: string): Option<(string, nat)> {
    var m := SearchPasv(message);
    if m.None? then None else Some((JoinFields(m.value[..4], '.'), m.value[4] * 256 + m.value[5]))
  }

  // ----- what is printed is read -----

  function AsInts(ns: seq<nat>): (r: seq<int>)
    ensures |r| == |ns| && forall i | 0 <= i < |ns| :: r[i] == ns[i]
  {
    if ns == [] then [] else [ns[0] as int] + AsInts(ns[1..])
  }

  lemma FirstField(ns: seq<nat>, separator: char, rest: string)
    requires |ns| > 1
    ensures JoinFields(ns, separator) + rest == Decimal(ns[0]) + ([separator] + (JoinFields(ns[1..], separator) + rest))
  {
    assert Numerals(ns)[1..] == Numerals(ns[1..]);
    Regroup(Decimal(ns[0]), [separator] + JoinFields(ns[1..], separator), rest);
    Regroup([separator], JoinFields(ns[1..], separator), rest);
  }

  lemma {:induction false} ScanOfJoin(ns: seq<nat>, separator: char, rest: string)
    requires ns != [] && !IsDigit(separator) && (rest == "" || !IsDigit(rest[0]))
    ensures ScanFields(JoinFields(ns, separator) + rest, separator, |ns|) == Some(AsInts(ns))
    decreases |ns|
  {
    if |ns| == 1 {
      ScanDecimal(ns[0], rest);
      assert AsInts(ns) == [ns[0] as int];
    } else {
      var others := JoinFields(ns[1..], separator) + rest;
      FirstField(ns, separator, rest);
      ScanDecimal(ns[0], [separator] + others);
      assert ([separator] + others)[1..] == others;
      ScanOfJoin(ns[1..], separator, rest);
    }
  }

  lemma MatchStep(n: nat, others: string, count: nat)
    requires count > 1 && MatchNumbers(others, count - 1).Some?
    ensures var (ns, rest) := MatchNumbers(others, count - 1).value;
      MatchNumbers(Decimal(n) + ([','] + others), count) == Some(([n] + ns, rest))
  {
    DecimalInFront(n, [','] + others);
    assert ([','] + others)[1..] == others;
  }

  lemma MatchLast(n: nat, rest: string)
    requires rest == "" || !IsDigit(rest[0])
    ensures MatchNumbers(Decimal(n) + rest, 1) == Some(([n], rest))
  {
    DecimalInFront(n, rest);
  }

  lemma LastField(ns: seq<nat>, separator: char)
    requires |ns| == 1
    ensures JoinFields(ns, separator) == Decimal(ns[0]) && ns == [ns[0]]
  {
  }

  lemma {:induction false} MatchOfJoin(ns: seq<nat>, rest: string)
    requires ns != [] && (rest == "" || !IsDigit(rest[0]))
    ensures MatchNumbers(JoinFields(ns, ',') + rest, |ns|) == Some((ns, rest))
    decreases |ns|
  {
    hide MatchNumbers;
    if |ns| == 1 {
      MatchLast(ns[0], rest);
      LastField(ns, ',');
    } else {
      FirstField(ns, ',', rest);
      MatchOfJoin(ns[1..], rest);
      MatchStep(ns[0], JoinFields(ns[1..], ',') + rest, |ns|);
      assert [ns[0]] + ns[1..] == ns;
    }
  }

  lemma {:induction false} SplitOfWord(word: string, separator: char, rest: string)
    requires forall i | 0 <= i < |word| :: word[i] != separator
    ensures Split(word + ([separator] + rest), separator) == [word] + Split(rest, separator)
    ensures Split(word, separator) == [word]
    decreases word
  {
    var s := word + ([separator] + rest);
    if word == "" {
      assert s == [separator] + rest && s[1..] == rest;
    } else {
      assert s[1..] == word[1..] + ([separator] + rest);
      SplitOfWord(word[1..], separator, rest);
      assert [word[0]] + word[1..] == word;
    }
  }

  lemma {:induction false} SplitOfJoin(parts: seq<string>, separator: char)
    requires parts != [] && forall p | p in parts :: separator !in p
    ensures Split(Joined(parts, separator), separator) == parts
    decreases |parts|
  {
    assert parts[0] in parts;
    if |parts| == 1 {
      SplitOfWord(parts[0], separator, "");
      assert parts == [parts[0]];
    } else {
      SplitOfWord(parts[0], separator, Joined(parts[1..], separator));
      SplitOfJoin(parts[1..], separator);
      assert [parts[0]] + parts[1..] == parts;
    }
  }

  lemma NumeralsHaveNoDot(ns: seq<nat>)
    ensures forall p | p in Numerals(ns) :: '.' !in p
  {
    forall i | 0 <= i < |ns| ensures '.' !in Numerals(ns)[i] { ValueOfDecimal(ns[i]); }
  }

  function HostNumbers(a: Address): seq<nat> { [a.h1, a.h2, a.h3, a.h4] }

  function PortNumbers(port: nat): seq<nat> { [port / 256, port % 256] }

  /** The six numbers of an address, as both commands write them. */
  function SixNumbers(a: Address): seq<nat> { HostNumbers(a) + PortNumbers(a.port) }

  lemma FormatPortWrites(a: Address)
    ensures FormatPort(Dotted(a), a.port) == Some(JoinFields(SixNumbers(a), ','))
  {
    NumeralsHaveNoDot(HostNumbers(a));
    SplitOfJoin(Numerals(HostNumbers(a)), '.');
    assert Numerals(SixNumbers(a)) == Numerals(HostNumbers(a)) + [Decimal(a.port / 256), Decimal(a.port % 256)];
  }

  lemma PortBytes(port: nat)
    requires port < 0x1_0000
    ensures port / 256 < 256 && port / 256 % 256 == port / 256 && (port / 256 * 256 + port % 256) % 0x1_0000 == port
  {
  }

  lemma ByteStays(n: nat)
    requires n < 256
    ensures AsUnsigned(n) == n
  {
  }

  lemma {:induction false} BytesStay(ns: seq<nat>)
    requires forall i | 0 <= i < |ns| :: ns[i] < 256
    ensures AreBytes(AsInts(ns)) && forall i | 0 <= i < |ns| :: AsUnsigned(AsInts(ns)[i]) == ns[i]
  {
    forall i | 0 <= i < |ns| ensures AsUnsigned(AsInts(ns)[i]) == ns[i] { ByteStays(ns[i]); }
  }

  lemma ParsePortReads(ns: seq<nat>)
    requires |ns| == 6 && forall i | 0 <= i < 6 :: ns[i] < 256
    ensures ParsePort(JoinFields(ns, ',')) == Some(Parameters(ns[0], ns[1], ns[2], ns[3], ns[4], ns[5]))
  {
    BytesStay(ns);
    ScanOfJoin(ns, ',', "");
    assert JoinFields(ns, ',') + "" == JoinFields(ns, ',');
  }

  /** An address written into a PORT command by the client is the address the server connects to. */
  lemma PortRoundTrip(a: Address)
    requires IsAddress(a)
    ensures FormatPort(Dotted(a), a.port).Some?
    ensures var parsed := ParsePort(FormatPort(Dotted(a), a.port).value);
      parsed.Some? && PortToAddress(parsed.value) == (Dotted(a), a.port)
  {
    hide ParsePort, FormatPort;
    FormatPortWrites(a);
    PortBytes(a.port);
    ParsePortReads(SixNumbers(a));
  }

  lemma PasvParameters(a: Address)
    requires IsAddress(a)
    ensures AddressToPasv(Dotted(a), a.port) == Some(Parameters(a.h1, a.h2, a.h3, a.h4, a.port / 256, a.port % 256))
  {
    PortBytes(a.port);
    BytesStay(HostNumbers(a));
    ScanOfJoin(HostNumbers(a), '.', "");
    assert Dotted(a) + "" == Dotted(a);
  }

  /** The text of a 227 reply. */
  function PasvMessage(a: Address): string { PASV_TEXT + (JoinFields(SixNumbers(a), ',') + ")") }

  lemma {:induction false} SearchSkips(prefix: string, s: string)
    requires forall i | 0 <= i < |prefix| :: prefix[i] != '('
    ensures SearchPasv(prefix + s) == SearchPasv(s)
    decreases prefix
  {
    if prefix == "" {
      assert prefix + s == s;
    } else {
      assert (prefix + s)[1..] == prefix[1..] + s;
      SearchSkips(prefix[1..], s);
    }
  }

  lemma PasvMessageIsFound(a: Address)
    ensures SearchPasv(PasvMessage(a)) == Some(SixNumbers(a))
  {
    var words, list := "Entering Passive Mode ", "(" + (JoinFields(SixNumbers(a), ',') + ")");
    assert PASV_TEXT == words + "(";
    Regroup(words, "(", JoinFields(SixNumbers(a), ',') + ")");
    SearchSkips(words, list);
    assert list[1..] == JoinFields(SixNumbers(a), ',') + ")";
    MatchOfJoin(SixNumbers(a), ")");
  }

  lemma {:induction false} ShortList(ns: seq<nat>)
    requires forall i | 0 <= i < |ns| :: ns[i] < 256
    ensures |JoinFields(ns, ',')| <= 4 * |ns|
    ensures forall i | 0 <= i < |JoinFields(ns, ',')| :: JoinFields(ns, ',')[i] == ','
                                                         || IsDigit(JoinFields(ns, ',')[i])
    decreases |ns|
  {
    if ns != [] {
      ValueOfDecimal(ns[0]);
      assert Power10(3) == 1000;
      DecimalLength(ns[0], 3, 1000);
      ShortList(ns[1..]);
      if |ns| > 1 {
        FirstField(ns, ',', "");
        assert JoinFields(ns, ',') + "" == JoinFields(ns, ',');
        assert JoinFields(ns[1..], ',') + "" == JoinFields(ns[1..], ',');
      }
    }
  }

  lemma PasvMessageShape(a: Address)
    requires IsAddress(a)
    ensures |PasvMessage(a)| <= 48 && Plain(PasvMessage(a)) && Strip(PasvMessage(a)) == PasvMessage(a)
  {
    PortBytes(a.port);
    ShortList(SixNumbers(a));
    var m := PasvMessage(a);
    assert m[0] == 'E' && m[|m| - 1] == ')';
  }

  lemma FormatPasvWrites(a: Address)
    requires IsAddress(a)
    ensures FormatPasv(256, Parameters(a.h1, a.h2, a.h3, a.h4, a.port / 256, a.port % 256))
            == Some(ReplyLine(227, ' ', PasvMessage(a)))
  {
    var p := Parameters(a.h1, a.h2, a.h3, a.h4, a.port / 256, a.port % 256);
    assert Numbers(p) == SixNumbers(a);
    PasvMessageShape(a);
    assert Decimal(227) == "227" by { assert Decimal(22) == "22"; }
    ReplyLineLength(227, ' ', PasvMessage(a));
    assert "227 " + PASV_TEXT + JoinFields(Numbers(p), ',') + ")" + CRLF == ReplyLine(227, ' ', PasvMessage(a));
  }

  lemma PasvReplyIsRead(a: Address, rest: string)
    requires IsAddress(a)
    ensures var read := NextReply(ReplyLine(227, ' ', PasvMessage(a)) + rest);
      read.Some? && read.value.1 == rest && Parse(read.value.0).message == PasvMessage(a)
  {
    PasvMessageShape(a);
    assert Reply(227, [PasvMessage(a)]) == ReplyLine(227, ' ', PasvMessage(a));
    ReplyRoundTrip(227, [PasvMessage(a)], rest);
  }

  lemma PasvMessageIsParsed(a: Address)
    requires IsAddress(a)
    ensures ParsePasvResponse(PasvMessage(a)) == Some((Dotted(a), a.port))
  {
    PasvMessageIsFound(a);
    PortBytes(a.port);
    assert SixNumbers(a)[..4] == HostNumbers(a);
  }

  /**
   * The address the server listens on, written into its 227 reply, is the address the client connects to, whatever
   * follows the reply.
   */
  lemma PasvRoundTrip(a: Address, rest: string)
    requires IsAddress(a)
    ensures AddressToPasv(Dotted(a), a.port).Some?
    ensures var line := FormatPasv(256, AddressToPasv(Dotted(a), a.port).value);
      && line.Some? && NextReply(line.value + rest).Some? && NextReply(line.value + rest).value.1 == rest
      && ParsePasvResponse(Parse(NextReply(line.value + rest).value.0).message) == Some((Dotted(a), a.port))
  {
    PasvParameters(a);
    FormatPasvWrites(a);
    PasvReplyIsRead(a, rest);
    PasvMessageIsParsed(a);
  }
}
