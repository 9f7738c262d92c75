/** Files as byte strings under path names, with reads and writes at an offset (server/src/filesys.c). */
module FileStore {
  import opened Common
  import opened LockSpec

  type Files = map<Path, Bytes>

  function Content(files: Files, p: Path): Option<Bytes> {
    if p in files then Some(files[p]) else None
  }

  /** An absent file reads as an empty one. */
  function ContentOrEmpty(files: Files, p: Path): Bytes {
    if p in files then files[p] else []
  }

  /** What a read of at most `length` bytes at `offset` delivers: short only at the end of the file. */
  function ReadAt(content: Bytes, offset: nat, length: nat): (r: Bytes)
    ensures |r| <= length
  {
    if offset >= |content| then []
    else if offset + length <= |content| then content[offset..offset + length]
    else content[offset..]
  }

  function Zeros(n: nat): Bytes {
    seq(n, _ => 0)
  }

  /**
   * Writing at an offset replaces what was there, keeps the rest, and fills a gap past the end with zeros; writing
   * nothing changes nothing.
   */
  function Overlay(was: Bytes, offset: nat, data: Bytes): Bytes {
    if data == [] then was
    else (if offset <= |was| then was[..offset] else was + Zeros(offset - |was|))
         + data
         + (if offset + |data| <= |was| then was[offset + |data|..] else [])
  }

  /** Byte by byte, and without holes when the offset lies within the file. */
  lemma OverlayAt(was: Bytes, offset: nat, data: Bytes)
    requires offset <= |was|
    ensures var r := Overlay(was, offset, data);
            && |r| == (if |was| >= offset + |data| then |was| else offset + |data|)
            && forall k | 0 <= k < |r| :: r[k] == if offset <= k < offset + |data| then data[k - offset] else was[k]
  {
  }

  /** Two adjacent writes make one. */
  lemma OverlayAdjacent(was: Bytes, offset: nat, a: Bytes, b: Bytes)
    requires offset <= |was|
    ensures Overlay(Overlay(was, offset, a), offset + |a|, b) == Overlay(was, offset, a + b)
  {
    OverlayAt(was, offset, a);
    OverlayAt(was, offset, a + b);
    OverlayAt(Overlay(was, offset, a), offset + |a|, b);
    var l, r := Overlay(Overlay(was, offset, a), offset + |a|, b), Overlay(was, offset, a + b);
    assert |l| == |r|;
    forall k | 0 <= k < |l| ensures l[k] == r[k] {
    }
  }

  lemma OverlayPastEnd(was: Bytes, offset: nat, data: Bytes)
    requires offset > |was| && data != []
    ensures Overlay(was, offset, data) == was + Zeros(offset - |was|) + data
  {
  }

  /** An append adds the data at the end, a fresh upload leaves just the data. */
  lemma AppendAndFresh(was: Bytes, data: Bytes)
    ensures Overlay(was, |was|, data) == was + data
    ensures Overlay([], 0, data) == data
  {
  }

  /** Two adjacent writes make one, also past the end. */
  lemma OverlayAdjacentAnywhere(was: Bytes, offset: nat, a: Bytes, b: Bytes)
    ensures Overlay(Overlay(was, offset, a), offset + |a|, b) == Overlay(was, offset, a + b)
  {
    if a == [] {
      assert a + b == b;
    } else if offset <= |was| {
      OverlayAdjacent(was, offset, a, b);
    } else {
      hide Overlay;
      var padded := was + Zeros(offset - |was|);
      OverlayPastEnd(was, offset, a);
      OverlayPastEnd(was, offset, a + b);
      AppendAndFresh(padded + a, b);
      Regroup(padded, a, b);
    }
  }
}
