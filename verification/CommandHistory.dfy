/**
 * What is pending between the commands of a session, as a function of its history (command.c, handler.c, session.c in
 * server/src).
 */
module CommandHistory {
  import opened Common
  import opened LockSpec
  import opened CommandTable

  /** The source of a rename to come, and the offset of a transfer to come. */
  datatype Pending = Pending(source: Option<Path>, offset: int)

  const NOTHING_PENDING := Pending(None, 0)

  /**
   * What a handler did to the pending state: a REST or RNFR that succeeded, or the point past which RETR, STOR, RNTO
   * and REIN forget.
   */
  datatype Effect = NoEffect | OffsetAccepted(offset: int) | SourceStored(path: Path) | Consumed

  /** One command line. */
  datatype Event = Unrecognised | Handled(verb: Verb, effect: Effect)

  predicate Possible(e: Event) {
    e.Unrecognised? ||
    match e.effect
    case NoEffect => true
    case OffsetAccepted(n) => e.verb.REST? && n >= 0
    case SourceStored(_) => e.verb.RNFR?
    case Consumed => e.verb.RETR? || e.verb.STOR? || e.verb.RNTO? || e.verb.REIN?
  }

  // ----- one command -----

  function Prepared(p: Pending, before: Before): Pending {
    match before
    case ClearAll => NOTHING_PENDING
    case ClearRename => p.(source := None)
    case ClearRestart => p.(offset := 0)
    case Nothing => p
  }

  function Concluded(p: Pending, verb: Verb, effect: Effect): Pending {
    match effect
    case NoEffect => p
    case OffsetAccepted(n) => p.(offset := n)
    case SourceStored(path) => p.(source := Some(path))
    case Consumed =>
      if verb.RETR? || verb.STOR? then p.(offset := 0)
      else if verb.RNTO? then p.(source := None)
      else NOTHING_PENDING
  }

  function Step(p: Pending, e: Event): Pending {
    if e.Unrecognised? then p else Concluded(Prepared(p, BeforeOf(e.verb)), e.verb, e.effect)
  }

  function After(history: seq<Event>): Pending {
    if history == [] then NOTHING_PENDING else Step(After(history[..|history| - 1]), history[|history| - 1])
  }

  // ----- whole histories -----

  predicate StoresSource(e: Event) { e.Handled? && e.verb.RNFR? && e.effect.SourceStored? }

  predicate AcceptsOffset(e: Event) { e.Handled? && e.verb.REST? && e.effect.OffsetAccepted? }

  /** NOOP, FEAT, lines that are no command, and RNTOs turned down before they take the lock leave a rename pending. */
  predicate KeepsSource(e: Event) {
    e.Unrecognised? || e.verb.NOOP? || e.verb.FEAT? || (e.verb.RNTO? && e.effect.NoEffect?)
  }

  /**
   * NOOP, FEAT, lines that are no command, rejected RESTs, and RETRs and STORs that open no data connection keep the
   * offset.
   */
  predicate KeepsOffset(e: Event) {
    e.Unrecognised? || e.verb.NOOP? || e.verb.FEAT?
      || ((e.verb.REST? || e.verb.RETR? || e.verb.STOR?) && e.effect.NoEffect?)
  }

  /** Event i stored the source that is still pending at the end. */
  ghost predicate PendingSince(history: seq<Event>, i: int) {
    0 <= i < |history| && StoresSource(history[i]) && forall j | i < j < |history| :: KeepsSource(history[j])
  }

  ghost predicate OffsetSince(history: seq<Event>, i: int) {
    0 <= i < |history| && AcceptsOffset(history[i]) && forall j | i < j < |history| :: KeepsOffset(history[j])
  }

  lemma SinceSnoc(history: seq<Event>, i: int)
    requires history != []
    ensures var front, last := history[..|history| - 1], history[|history| - 1];
      && (PendingSince(history, i) <==>
            if i == |front| then StoresSource(last) else PendingSince(front, i) && KeepsSource(last))
      && (OffsetSince(history, i) <==>
            if i == |front| then AcceptsOffset(last) else OffsetSince(front, i) && KeepsOffset(last))
  {
    var front := history[..|history| - 1];
    assert forall j | 0 <= j < |front| :: front[j] == history[j];
  }

  /**
   * A rename is pending exactly when a successful RNFR has been followed only by commands that leave it, and its source
   * is that RNFR's.
   */
  lemma {:induction false} PendingRename(history: seq<Event>)
    requires forall e | e in history :: Possible(e)
    ensures After(history).source.Some? <==> exists i :: PendingSince(history, i)
    ensures forall i | PendingSince(history, i) :: After(history).source == Some(history[i].effect.path)
    decreases |history|
  {
    if history != [] {
      var front, last := history[..|history| - 1], history[|history| - 1];
      PendingRename(front);
      assert last in history;
      forall i: int
        ensures PendingSince(history, i) <==>
                  if i == |front| then StoresSource(last) else PendingSince(front, i) && KeepsSource(last)
      {
        SinceSnoc(history, i);
      }
      if After(front).source.Some? && KeepsSource(last) {
        var i :| PendingSince(front, i);
        assert PendingSince(history, i);
      }
      if StoresSource(last) { assert PendingSince(history, |front|); }
    }
  }

  /**
   * The restart offset is that of the last accepted REST followed only by commands that keep it, and zero if there is
   * none.
   */
  lemma {:induction false} RestartOffset(history: seq<Event>)
    requires forall e | e in history :: Possible(e)
    ensures forall i | OffsetSince(history, i) :: After(history).offset == history[i].effect.offset
    ensures (forall i :: !OffsetSince(history, i)) ==> After(history).offset == 0
    ensures After(history).offset >= 0
    decreases |history|
  {
    if history != [] {
      var front, last := history[..|history| - 1], history[|history| - 1];
      RestartOffset(front);
      assert last in history;
      forall i: int
        ensures OffsetSince(history, i) <==>
                  if i == |front| then AcceptsOffset(last) else OffsetSince(front, i) && KeepsOffset(last)
      {
        SinceSnoc(history, i);
      }
      if (exists i :: OffsetSince(front, i)) && KeepsOffset(last) {
        var i :| OffsetSince(front, i);
        assert OffsetSince(history, i);
      }
      if AcceptsOffset(last) { assert OffsetSince(history, |front|); }
    }
  }

  /** A rename and a restart offset are never pending together. */
  lemma {:induction false} NeverBoth(history: seq<Event>)
    requires forall e | e in history :: Possible(e)
    ensures After(history).source.Some? ==> After(history).offset == 0
    decreases |history|
  {
    if history != [] {
      NeverBoth(history[..|history| - 1]);
      assert history[|history| - 1] in history;
    }
  }

  lemma AfterSnoc(history: seq<Event>, e: Event)
    ensures After(history + [e]) == Step(After(history), e)
  {
    assert (history + [e])[..|history|] == history;
  }
}
