/**
 * The reply texts of the command handlers (server/src/handler.c), and that every one of them fits the line it is
 * formatted into.
 */
module ReplyTexts {
  import opened Common
  import opened Decimals
  import opened ReplyWire
  import opened CommandWire
  import opened CommandTable

  /** The size of the buffer into which PWD copies the working directory. */
  const PWD_BUFFER: nat := PATH_SIZE - 32

  datatype Text = Text(code: int, message: string)

  /** Formats without failing, and is a final reply. */
  predicate Fits(t: Text) { 200 <= t.code <= 599 && |t.message| + 7 <= PROTO_MAX_RESPONSE_LINE }

  /** snprintf into a reply buffer. */
  function Printed(text: string): string { Cut(text, PROTO_MAX_RESPONSE_LINE - 1) }

  const NOT_LOGGED_IN := Text(530, "Please login with USER and PASS")
  const NO_ARGUMENT := Text(501, "Syntax error in parameters")
  const USE_PASV := Text(503, "Use PASV or PORT first")
  const RNFR_FIRST := Text(503, "Bad sequence of commands (use RNFR first)")
  const DENIED := Text(550, "Permission denied")
  const INVALID_PATH := Text(550, "Invalid path")
  const NOT_FOUND := Text(550, "File not found")
  const BUSY := Text(450, "File is busy, try again later")
  const NO_MORE_FILE := Text(550, "File no longer exists")
  const CANT_READ := Text(550, "Cannot read file")
  const BAD_OFFSET := Text(550, "Invalid restart offset")
  const COMPLETE := Text(226, "Transfer complete")
  const CANT_OPEN := Text(425, "Can't open data connection")
  const NOT_STARTED := Text(451, "Failed to start transfer")
  const DELETED := Text(250, "File deleted")
  const RENAMED := Text(250, "Rename successful")
  const RENAME_READY := Text(350, "File exists, ready for destination name")
  const DIRECTORY_CHANGED := Text(250, "Directory successfully changed")
  const NO_TRANSFER := Text(225, "No transfer in progress")
  const ABORTED := Text(426, "Data connection closed; transfer aborted")

  function TypeName(ascii: bool): string { if ascii then "ASCII" else "BINARY" }

  function OpeningDownload(ascii: bool, argument: string, bytes: nat): string {
    Printed("Opening " + TypeName(ascii) + " mode data connection for " + argument + " (" + Decimal(bytes) + " bytes)")
  }

  function OpeningUpload(ascii: bool, argument: string): string {
    Printed("Opening " + TypeName(ascii) + " mode data connection for " + argument)
  }

  /** The argument of TYPE, STRU and MODE as the parsers look at it. */
  function Setting(argument: string): string { Trimmed(Uppercase(Cut(argument, 15))) }

  function Quoted(name: string, rest: string): string { Printed("\"" + name + "\"" + rest) }

  // ----- the commands that take no lock and start no transfer -----

  const NO_SUCH_USER := Text(530, "User not found")
  const NO_ANONYMOUS := Text(530, "Anonymous login not allowed")
  const ANONYMOUS_PASSWORD := Text(331, "Anonymous login OK, send your email as password")
  const NEED_PASSWORD := Text(331, "Username OK, need password")
  const USER_FIRST := Text(503, "Login with USER first")
  const WRONG_PASSWORD := Text(530, "Login incorrect")
  const LOGGED_IN := Text(230, "User logged in, proceed")
  const READY := Text(220, "Service ready for new user")
  const BAD_PORT := Text(501, "Invalid PORT parameters")
  const PORT_SET := Text(200, "PORT command successful")
  const TYPE_A := Text(200, "Type set to A.")
  const TYPE_I := Text(200, "Type set to I.")
  const NO_EBCDIC := Text(504, "Type not supported (EBCDIC not supported)")
  const BAD_TYPE := Text(501, "Invalid type parameter")
  const DIRECTORY_EXISTS := Text(550, "Directory already exists")
  const NOT_CREATED := Text(550, "Failed to create directory")
  const NO_DIRECTORY := Text(550, "Directory not found")
  const NOT_A_DIRECTORY := Text(550, "Path is not a directory")
  const NOT_REMOVED := Text(550, "Failed to remove directory")

  const STRU_SET := Text(200, "Structure set to File")
  const NO_STRU := Text(504, "Structure not supported (only File structure)")
  const BAD_STRU := Text(501, "Invalid structure parameter")
  const MODE_SET := Text(200, "Mode set to Stream")
  const NO_MODE := Text(504, "Mode not supported (only Stream mode supported)")
  const BAD_MODE := Text(501, "Invalid mode parameter")
  const NO_ACCT := Text(502, "ACCT not implemented")
  const NO_SMNT := Text(502, "SMNT not implemented")
  const SYSTEM := Text(215, "UNIX Type: L8")
  const OKAY := Text(200, "OK")
  const END_OF_FEATURES := Text(211, "End")
  const UNRECOGNIZED := Text(500, "Syntax error, command unrecognized")
  const NOT_IMPLEMENTED := Text(502, "Command not implemented")

  /** The refusal of QUIT, REIN, PASV and PWD. */
  function NoParameters(name: string): Text { Text(501, name + " does not take parameters") }

  lemma CreatedFits(argument: string)
    requires |argument| < PROTO_MAX_CMD_ARG
    ensures |Quoted(argument, " directory created")| + 7 <= PROTO_MAX_RESPONSE_LINE
  {
  }

  /** PWD's buffer is the largest that leaves room for the rest of its line. */
  lemma LongestPwdFits(cwd: string)
    ensures |Quoted(Cut(cwd, PWD_BUFFER - 1), " is current directory")| <= 1014
    ensures |cwd| >= PWD_BUFFER - 1 ==> |Quoted(Cut(cwd, PWD_BUFFER - 1), " is current directory")| == 1014
  {
  }

  /** The lines FEAT and QUIT send before the last one; QUIT's statistics are printed into buffers of 256. */
  function InnerLines(verb: Verb, statistics: seq<string>): seq<string> {
    match verb
    case FEAT => ["Extensions supported:", " SIZE", " MDTM", " REST STREAM"]
    case QUIT => ["Goodbye! Session statistics:"]
      + seq(|statistics|, i requires 0 <= i < |statistics| => Cut(statistics[i], 255))
    case _ => []
  }

  /** They fit as well, under whatever code. */
  lemma InnerLinesFit(verb: Verb, statistics: seq<string>)
    ensures forall i | 0 <= i < |InnerLines(verb, statistics)| ::
              |InnerLines(verb, statistics)[i]| + 7 <= PROTO_MAX_RESPONSE_LINE
  {
  }

  lemma SizeLength(n: nat)
    requires n <= LLONG_MAX
    ensures |Decimal(n)| <= 19
  {
    Power10Of19();
    DecimalLength(n, 19, Power10(19));
  }

  lemma Power10Of19()
    ensures Power10(19) == 10_000_000_000_000_000_000
  {
    assert Power10(5) == 100_000;
    assert Power10(10) == 10_000_000_000;
    assert Power10(15) == 1_000_000_000_000_000;
  }

  /** The 150 replies fit for every argument and every size. */
  lemma OpeningsFit(ascii: bool, argument: string, bytes: nat)
    requires |argument| < PROTO_MAX_CMD_ARG && bytes <= LLONG_MAX
    ensures |OpeningDownload(ascii, argument, bytes)| + 7 <= PROTO_MAX_RESPONSE_LINE
    ensures |OpeningUpload(ascii, argument)| + 7 <= PROTO_MAX_RESPONSE_LINE
  {
    SizeLength(bytes);
  }
}
