/** The table of command handlers and what runs before each (server/src/command.c). */
module CommandTable {
  import opened Common
  import opened CommandWire

  const CMD_MAX_HANDLERS: nat := 64

  datatype Verb =
    | USER | PASS | ACCT | CWD | CDUP | SMNT | QUIT | REIN | PORT | PASV | TYPE | STRU | MODE
    | REST | STOR | RETR | APPE | LIST | NLST | RNFR | RNTO | DELE | RMD | MKD | PWD | ABOR
    | SYST | NOOP | FEAT | SIZE | MDTM

  /** What runs before a handler: it forgets the restart offset, the pending rename, both or neither. */
  datatype Before = ClearAll | ClearRename | ClearRestart | Nothing

  datatype Entry = Entry(handler: Verb, before: Before)

  datatype Slot = Slot(command: string, entry: Entry, inUse: bool)

  type Registry = map<string, Entry>

  /** The name under which a command is stored: at most seven characters, in upper case. */
  function Key(command: string): string { Uppercase(Cut(command, PROTO_MAX_CMD_NAME - 1)) }

  // ----- what the slots stand for -----

  function Contents(slots: seq<Slot>): Registry {
    if slots == [] then map[]
    else
      var m := Contents(slots[..|slots| - 1]);
      var last := slots[|slots| - 1];
      if last.inUse then m[last.command := last.entry] else m
  }

  function Used(slots: seq<Slot>): nat {
    if slots == [] then 0 else Used(slots[..|slots| - 1]) + if slots[|slots| - 1].inUse then 1 else 0
  }

  ghost predicate DistinctNames(slots: seq<Slot>) {
    forall i, j | 0 <= i < j < |slots| :: slots[i].inUse && slots[j].inUse ==> slots[i].command != slots[j].command
  }

  lemma {:induction false} ContentsAt(slots: seq<Slot>)
    requires DistinctNames(slots)
    ensures forall i | 0 <= i < |slots| && slots[i].inUse :: slots[i].command in Contents(slots)
                                                             && Contents(slots)[slots[i].command] == slots[i].entry
    ensures forall c | c in Contents(slots) :: exists i :: 0 <= i < |slots| && slots[i].inUse && slots[i].command == c
    ensures |Contents(slots)| == Used(slots)
  {
    if slots != [] {
      var front, last := slots[..|slots| - 1], slots[|slots| - 1];
      assert DistinctNames(front);
      ContentsAt(front);
      forall i | 0 <= i < |slots| && slots[i].inUse
        ensures slots[i].command in Contents(slots) && Contents(slots)[slots[i].command] == slots[i].entry
      {
        if i < |front| { assert front[i] == slots[i]; }
      }
      forall c | c in Contents(slots) ensures exists i :: 0 <= i < |slots| && slots[i].inUse && slots[i].command == c {
        if c in Contents(front) {
          var i :| 0 <= i < |front| && front[i].inUse && front[i].command == c;
          assert slots[i] == front[i];
        } else {
          assert slots[|slots| - 1].command == c;
        }
      }
      assert last.inUse ==> last.command !in Contents(front);
    }
  }

  lemma OthersKept(slots: seq<Slot>, i: nat, x: Slot, c: string)
    requires i < |slots| && DistinctNames(slots) && DistinctNames(slots[i := x])
    requires c in Contents(slots) && !(slots[i].inUse && slots[i].command == c)
    ensures c in Contents(slots[i := x]) && Contents(slots[i := x])[c] == Contents(slots)[c]
  {
    ContentsAt(slots);
    ContentsAt(slots[i := x]);
    var j :| 0 <= j < |slots| && slots[j].inUse && slots[j].command == c;
    assert slots[i := x][j] == slots[j];
  }

  /** Changing one slot changes the registry at that slot's name alone. */
  lemma SlotChanged(slots: seq<Slot>, i: nat, x: Slot)
    requires i < |slots| && x.inUse && DistinctNames(slots) && DistinctNames(slots[i := x])
    requires !slots[i].inUse || slots[i].command == x.command
    ensures Contents(slots[i := x]) == Contents(slots)[x.command := x.entry]
  {
    var changed := slots[i := x];
    ContentsAt(changed);
    assert changed[i] == x && changed[i := slots[i]] == slots;
    forall c | c != x.command
      ensures c in Contents(changed) <==> c in Contents(slots)
      ensures c in Contents(changed) ==> Contents(changed)[c] == Contents(slots)[c]
    {
      if c in Contents(slots) { OthersKept(slots, i, x, c); }
      if c in Contents(changed) { OthersKept(changed, i, slots[i], c); }
    }
  }

  lemma {:induction false} UsedAll(slots: seq<Slot>)
    ensures Used(slots) <= |slots|
    ensures Used(slots) == |slots| <==> forall i | 0 <= i < |slots| :: slots[i].inUse
  {
    if slots != [] {
      var front := slots[..|slots| - 1];
      UsedAll(front);
      assert forall i | 0 <= i < |front| :: front[i] == slots[i];
    }
  }

  lemma {:induction false} UnusedContents(slots: seq<Slot>)
    requires forall i | 0 <= i < |slots| :: !slots[i].inUse
    ensures Contents(slots) == map[]
  {
    if slots != [] { UnusedContents(slots[..|slots| - 1]); }
  }

  // ----- the table -----

  class HandlerTable {
    const slots: array<Slot>

    ghost predicate Valid()
      reads this, slots
    {
      slots.Length == CMD_MAX_HANDLERS && DistinctNames(slots[..])
    }

    ghost function Registered(): Registry
      reads this, slots
    {
      Contents(slots[..])
    }

    constructor ()
      ensures Valid() && fresh(slots) && Registered() == map[]
    {
      slots := new Slot[CMD_MAX_HANDLERS](_ => Slot("", Entry(NOOP, Nothing), false));
      new;
      UnusedContents(slots[..]);
    }

    /** The scan both the registration and the dispatcher make. */
    method Find(command: string) returns (index: int)
      requires Valid()
      ensures -1 <= index < slots.Length
      ensures index >= 0 <==> command in Registered()
      ensures index >= 0 ==>
                slots[index].inUse && slots[index].command == command && slots[index].entry == Registered()[command]
    {
      ContentsAt(slots[..]);
      index := 0;
      while index < CMD_MAX_HANDLERS
        invariant 0 <= index <= CMD_MAX_HANDLERS
        invariant forall k | 0 <= k < index :: !(slots[k].inUse && slots[k].command == command)
      {
        if slots[index].inUse && slots[index].command == command {
          assert slots[..][index] == slots[index];
          return index;
        }
        index := index + 1;
      }
      assert forall k | 0 <= k < slots.Length :: slots[..][k] == slots[k];
      return -1;
    }

    /** A new handler takes the first free slot, a known one replaces its handler; only a full table refuses. */
    method Register(command: string, handler: Verb, before: Before) returns (result: int)
      requires Valid()
      modifies slots
      ensures Valid()
      ensures result == -1 <==> Key(command) !in old(Registered()) && |old(Registered())| == CMD_MAX_HANDLERS
      ensures result == -1 || result == 0
      ensures Registered() == if result == 0 then old(Registered())[Key(command) := Entry(handler, before)]
                              else old(Registered())
    {
      ghost var was := slots[..];
      var key := Key(command);
      var index := Find(key);
      if index >= 0 {
        slots[index] := slots[index].(entry := Entry(handler, before));
        assert slots[..] == was[index := was[index].(entry := Entry(handler, before))];
        SlotChanged(was, index, slots[index]);
        return 0;
      }
      ContentsAt(was);
      UsedAll(was);
      index := 0;
      while index < CMD_MAX_HANDLERS
        invariant 0 <= index <= CMD_MAX_HANDLERS && slots[..] == was
        invariant forall k | 0 <= k < index :: slots[k].inUse
      {
        if !slots[index].inUse {
          slots[index] := Slot(key, Entry(handler, before), true);
          assert slots[..] == was[index := Slot(key, Entry(handler, before), true)];
          assert !was[index].inUse;
          FreshName(was, index, slots[index]);
          SlotChanged(was, index, slots[index]);
          return 0;
        }
        index := index + 1;
      }
      assert forall k | 0 <= k < |was| :: was[k] == slots[k];
      return -1;
    }
  }

  lemma FreshName(slots: seq<Slot>, i: nat, x: Slot)
    requires i < |slots| && DistinctNames(slots) && x.command !in Contents(slots)
    ensures DistinctNames(slots[i := x])
  {
    ContentsAt(slots);
  }

  // ----- the standard handlers -----

  function Name(verb: Verb): string {
    match verb
    case USER => "USER" case PASS => "PASS" case ACCT => "ACCT" case CWD => "CWD" case CDUP => "CDUP"
    case SMNT => "SMNT" case QUIT => "QUIT" case REIN => "REIN" case PORT => "PORT" case PASV => "PASV"
    case TYPE => "TYPE" case STRU => "STRU" case MODE => "MODE" case REST => "REST" case STOR => "STOR"
    case RETR => "RETR" case APPE => "APPE" case LIST => "LIST" case NLST => "NLST" case RNFR => "RNFR"
    case RNTO => "RNTO" case DELE => "DELE" case RMD => "RMD" case MKD => "MKD" case PWD => "PWD"
    case ABOR => "ABOR" case SYST => "SYST" case NOOP => "NOOP" case FEAT => "FEAT" case SIZE => "SIZE"
    case MDTM => "MDTM"
  }

  /** REST, STOR and RETR keep the restart offset, RNTO the pending rename, NOOP and FEAT both. */
  function BeforeOf(verb: Verb): Before {
    match verb
    case REST => ClearRename
    case STOR => ClearRename
    case RETR => ClearRename
    case RNTO => ClearRestart
    case NOOP => Nothing
    case FEAT => Nothing
    case _ => ClearAll
  }

  const STANDARD: seq<Verb> :=
    [USER, PASS, ACCT, CWD, CDUP, SMNT, QUIT, REIN, PORT, PASV, TYPE, STRU, MODE, REST, STOR, RETR, APPE,
     LIST, NLST, RNFR, RNTO, DELE, RMD, MKD, PWD, ABOR, SYST, NOOP, FEAT, SIZE, MDTM]

  /** The registry after a list of registrations, later ones over earlier ones. */
  function Registrations(verbs: seq<Verb>): Registry {
    if verbs == [] then map[]
    else
      var front, last := verbs[..|verbs| - 1], verbs[|verbs| - 1];
      Registrations(front)[Key(Name(last)) := Entry(last, BeforeOf(last))]
  }

  /** Registers a list of commands one after another. */
  method RegisterAll(table: HandlerTable, verbs: seq<Verb>) returns (result: int)
    requires table.Valid() && table.Registered() == map[] && |verbs| <= CMD_MAX_HANDLERS
    modifies table.slots
    ensures table.Valid() && result == 0 && table.Registered() == Registrations(verbs)
  {
    hide HandlerTable.Valid;
    result := 0;
    for i := 0 to |verbs|
      invariant table.Valid() && result == 0 && table.Registered() == Registrations(verbs[..i])
    {
      RegistrationsSize(verbs[..i]);
      assert verbs[..i + 1][..i] == verbs[..i];
      var r := table.Register(Name(verbs[i]), verbs[i], BeforeOf(verbs[i]));
      if r != 0 { result := -1; }
    }
    assert verbs[..|verbs|] == verbs;
  }

  method RegisterStandard(table: HandlerTable) returns (result: int)
    requires table.Valid() && table.Registered() == map[]
    modifies table.slots
    ensures table.Valid() && result == 0 && table.Registered() == Registrations(STANDARD)
  {
    result := RegisterAll(table, STANDARD);
  }

  lemma {:induction false} RegistrationsSize(verbs: seq<Verb>)
    ensures |Registrations(verbs)| <= |verbs|
  {
    if verbs != [] { RegistrationsSize(verbs[..|verbs| - 1]); }
  }

  // ----- what a command finds in the standard table -----

  lemma KeyOfName(verb: Verb)
    ensures Key(Name(verb)) == Name(verb)
  {
    var s := Name(verb);
    assert |s| <= 4;
    assert forall i | 0 <= i < |s| :: Upper(s[i]) == s[i];
  }

  /** The characters of a name, as one number. */
  function Code(s: string): int {
    if |s| < 3 then 0
    else ((s[0] as int * 256 + s[1] as int) * 256 + s[2] as int) * 256 + (if |s| == 3 then 0 else s[3] as int)
  }

  lemma NameInjective(v: Verb, w: Verb)
    requires Name(v) == Name(w)
    ensures v == w
  {
    assert Code(Name(v)) == Code(Name(w));
  }

  lemma {:induction false} RegistrationsAt(verbs: seq<Verb>)
    ensures forall v | v in verbs :: Name(v) in Registrations(verbs)
                                     && Registrations(verbs)[Name(v)] == Entry(v, BeforeOf(v))
    ensures forall c | c in Registrations(verbs) :: exists v :: v in verbs && c == Name(v)
  {
    if verbs != [] {
      var front, last := verbs[..|verbs| - 1], verbs[|verbs| - 1];
      RegistrationsAt(front);
      KeyOfName(last);
      forall v | v in verbs
        ensures Name(v) in Registrations(verbs) && Registrations(verbs)[Name(v)] == Entry(v, BeforeOf(v))
      {
        if Name(v) == Name(last) { NameInjective(v, last); } else { assert v in front; }
      }
      forall c | c in Registrations(verbs) ensures exists v :: v in verbs && c == Name(v) {
        if c in Registrations(front) {
          var v :| v in front && c == Name(v);
          assert v in verbs;
        } else {
          assert last in verbs && c == Name(last);
        }
      }
    }
  }

  /** Every standard command finds its own handler behind the right clearing step, and no other name finds any. */
  lemma StandardTable(command: string)
    ensures forall v: Verb :: Name(v) in Registrations(STANDARD)
                              && Registrations(STANDARD)[Name(v)] == Entry(v, BeforeOf(v))
    ensures command in Registrations(STANDARD) <==> exists v: Verb :: command == Name(v)
  {
    RegistrationsAt(STANDARD);
    forall v: Verb ensures v in STANDARD { InStandard(v); }
  }

  lemma InStandard(v: Verb)
    ensures v in STANDARD
  {
  }
}
