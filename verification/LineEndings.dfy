/** The ASCII-mode conversions between LF and CRLF (server/src/utils.c). */
module LineEndings {

  import opened Common

  const CR: byte := 13
  const LF: byte := 10

  // ----- the whole-string functions -----

  function Expand(c: byte): Bytes {
    if c == LF then [CR, LF] else [c]
  }

  function LfToCrlf(s: Bytes): Bytes {
    if s == [] then [] else Expand(s[0]) + LfToCrlf(s[1..])
  }

  function CrlfToLf(s: Bytes): Bytes {
    if s == [] then []
    else if |s| >= 2 && s[0] == CR && s[1] == LF then [LF] + CrlfToLf(s[2..])
    else [s[0]] + CrlfToLf(s[1..])
  }

  /** Every LF is the second half of a CRLF. */
  ghost predicate EveryLfFollowsCr(s: Bytes) {
    forall i | 0 <= i < |s| && s[i] == LF :: i > 0 && s[i - 1] == CR
  }

  // ----- round trips -----

  /** The receiving conversion undoes the sending one for every byte string, stray CRs included. */
  lemma {:induction false} CrlfToLfUndoesLfToCrlf(s: Bytes)
    ensures CrlfToLf(LfToCrlf(s)) == s
  {
    if s != [] {
      CrlfToLfUndoesLfToCrlf(s[1..]);
      var t := LfToCrlf(s[1..]);
      if s[0] == LF {
        assert LfToCrlf(s)[2..] == t;
      } else {
        assert LfToCrlf(s)[1..] == t;
        assert t != [] ==> t[0] != LF;
      }
    }
  }

  /** The other direction restores exactly the strings in which no LF stands alone. */
  lemma {:induction false} LfToCrlfUndoesCrlfToLfIff(s: Bytes)
    ensures LfToCrlf(CrlfToLf(s)) == s <==> EveryLfFollowsCr(s)
  {
    if s == [] {
    } else if |s| >= 2 && s[0] == CR && s[1] == LF {
      var t := s[2..];
      LfToCrlfUndoesCrlfToLfIff(t);
      assert CrlfToLf(s)[1..] == CrlfToLf(t);
      assert s == [CR, LF] + t;
      EveryLfFollowsCrSuffix(s, 2);
    } else {
      var t := s[1..];
      LfToCrlfUndoesCrlfToLfIff(t);
      assert CrlfToLf(s)[1..] == CrlfToLf(t);
      assert s == [s[0]] + t;
      if s[0] != LF { EveryLfFollowsCrSuffix(s, 1); }
    }
  }

  lemma EveryLfFollowsCrSuffix(s: Bytes, n: nat)
    requires n <= |s|
    requires n < |s| && s[n] == LF ==> n > 0 && s[n - 1] != CR
    requires EveryLfFollowsCr(s[..n])
    ensures EveryLfFollowsCr(s) <==> EveryLfFollowsCr(s[n..])
  {
    if EveryLfFollowsCr(s) {
      forall i | 0 <= i < |s[n..]| && s[n..][i] == LF ensures i > 0 && s[n..][i - 1] == CR {
        assert s[n + i] == LF;
      }
    }
    if EveryLfFollowsCr(s[n..]) {
      forall i | 0 <= i < |s| && s[i] == LF ensures i > 0 && s[i - 1] == CR {
        if i < n { assert s[..n][i] == LF; } else { assert s[n..][i - n] == LF; }
      }
    }
  }

  // ----- chunking -----

  /** Sending chunk by chunk is harmless: the expansion distributes over concatenation. */
  lemma {:induction false} LfToCrlfConcat(a: Bytes, b: Bytes)
    ensures LfToCrlf(a + b) == LfToCrlf(a) + LfToCrlf(b)
  {
    if a == [] {
      assert a + b == b;
    } else {
      var e := Expand(a[0]);
      calc {
        LfToCrlf(a + b);
        { assert (a + b)[0] == a[0] && (a + b)[1..] == a[1..] + b; }
        e + LfToCrlf(a[1..] + b);
        { LfToCrlfConcat(a[1..], b); }
        e + (LfToCrlf(a[1..]) + LfToCrlf(b));
        (e + LfToCrlf(a[1..])) + LfToCrlf(b);
        LfToCrlf(a) + LfToCrlf(b);
      }
    }
  }

  /** The expansion adds exactly one byte per LF, so a doubled buffer always suffices. */
  lemma {:induction false} LfToCrlfLength(s: Bytes)
    ensures |LfToCrlf(s)| == |s| + multiset(s)[LF] <= 2 * |s|
  {
    if s != [] {
      LfToCrlfLength(s[1..]);
      assert s == [s[0]] + s[1..];
    }
  }

  lemma {:induction false} CrlfToLfLength(s: Bytes)
    ensures |CrlfToLf(s)| <= |s|
    ensures s != [] ==> CrlfToLf(s) != []
    ensures s != [] && s[|s| - 1] == CR ==> CrlfToLf(s)[|CrlfToLf(s)| - 1] == CR
  {
    if s == [] {
    } else if |s| >= 2 && s[0] == CR && s[1] == LF {
      CrlfToLfLength(s[2..]);
    } else {
      CrlfToLfLength(s[1..]);
    }
  }

  /** A chunk boundary falls between a CR and its LF. */
  predicate SplitsCrlf(a: Bytes, b: Bytes) {
    a != [] && b != [] && a[|a| - 1] == CR && b[0] == LF
  }

  /** The conversion of a piece whose trailing CR turns out to begin a CRLF. */
  function Joinable(a: Bytes, b: Bytes): (r: Bytes)
  {
    var c := CrlfToLf(a);
    if SplitsCrlf(a, b) && c != [] then c[..|c| - 1] else c
  }

  lemma JoinableCons(c: byte, a: Bytes, piece: Bytes, b: Bytes)
    requires piece != [] && CrlfToLf(piece) == [c] + CrlfToLf(a)
    requires SplitsCrlf(a, b) <==> SplitsCrlf(piece, b)
    ensures Joinable(piece, b) == [c] + Joinable(a, b)
  {
    CrlfToLfLength(a);
  }

  /** Converting two pieces separately differs from converting them joined exactly by the CR a split leaves behind. */
  lemma {:induction false} CrlfToLfConcat(a: Bytes, b: Bytes)
    ensures CrlfToLf(a + b) == Joinable(a, b) + CrlfToLf(b)
    decreases |a|
  {
    if a == [] {
      assert a + b == b;
    } else if |a| >= 2 && a[0] == CR && a[1] == LF {
      CrlfToLfConcat(a[2..], b);
      PairConcat(a, b);
    } else if |a| == 1 {
      assert a == [a[0]];
      CrlfToLfSingle(a[0], b);
    } else {
      CrlfToLfConcat(a[1..], b);
      PlainConcat(a, b);
    }
  }

  lemma PairConcat(a: Bytes, b: Bytes)
    requires |a| >= 2 && a[0] == CR && a[1] == LF
    requires CrlfToLf(a[2..] + b) == Joinable(a[2..], b) + CrlfToLf(b)
    ensures CrlfToLf(a + b) == Joinable(a, b) + CrlfToLf(b)
  {
    var ab := a + b;
    assert ab[0] == CR && ab[1] == LF && ab[2..] == a[2..] + b;
    Regroup([LF], Joinable(a[2..], b), CrlfToLf(b));
    JoinableCons(LF, a[2..], a, b);
  }

  lemma PlainConcat(a: Bytes, b: Bytes)
    requires |a| >= 2 && !(a[0] == CR && a[1] == LF)
    requires CrlfToLf(a[1..] + b) == Joinable(a[1..], b) + CrlfToLf(b)
    ensures CrlfToLf(a + b) == Joinable(a, b) + CrlfToLf(b)
  {
    var ab := a + b;
    assert ab[0] == a[0] && ab[1] == a[1] && ab[1..] == a[1..] + b;
    Regroup([a[0]], Joinable(a[1..], b), CrlfToLf(b));
    JoinableCons(a[0], a[1..], a, b);
  }

  lemma CrlfToLfSingle(c: byte, b: Bytes)
    ensures CrlfToLf([c] + b) == Joinable([c], b) + CrlfToLf(b)
  {
    assert CrlfToLf([c]) == [c] + CrlfToLf([]);
    assert ([c] + b)[1..] == b;
    if SplitsCrlf([c], b) {
      assert ([c] + b)[2..] == b[1..];
    }
  }

  /** What an ASCII upload writes: every received segment converted on its own. */
  function ConvertEach(segments: seq<Bytes>): Bytes {
    if segments == [] then [] else CrlfToLf(segments[0]) + ConvertEach(segments[1..])
  }

  /** The number of receive boundaries that fall between a CR and its LF. */
  function SplitCount(segments: seq<Bytes>): nat {
    if |segments| < 2 then 0
    else (if SplitsCrlf(segments[0], segments[1]) then 1 else 0) + SplitCount(segments[1..])
  }

  lemma {:induction false} ConvertEachSnoc(segments: seq<Bytes>, last: Bytes)
    ensures ConvertEach(segments + [last]) == ConvertEach(segments) + CrlfToLf(last)
  {
    if segments == [] {
      assert ConvertEach([last]) == CrlfToLf(last) + ConvertEach([]);
    } else {
      ConvertEachSnoc(segments[1..], last);
      assert (segments + [last])[1..] == segments[1..] + [last];
      var x, y, z := CrlfToLf(segments[0]), ConvertEach(segments[1..]), CrlfToLf(last);
      assert x + (y + z) == (x + y) + z;
    }
  }

  /** Segment-wise conversion is longer than the whole-stream one by exactly the number of split CRLFs. */
  lemma {:induction false} SegmentedLength(segments: seq<Bytes>)
    requires forall i | 0 <= i < |segments| :: segments[i] != []
    ensures |ConvertEach(segments)| == |CrlfToLf(Flatten(segments))| + SplitCount(segments)
    ensures SplitCount(segments) == 0 ==> ConvertEach(segments) == CrlfToLf(Flatten(segments))
  {
    if segments != [] {
      var rest := segments[1..];
      SegmentedLength(rest);
      CrlfToLfConcat(segments[0], Flatten(rest));
      CrlfToLfLength(segments[0]);
      if rest != [] { assert Flatten(rest)[0] == segments[1][0]; }
    }
  }

  /** ... so segmentation is harmless exactly when no boundary splits a CRLF. */
  lemma SegmentationHarmlessIff(segments: seq<Bytes>)
    requires forall i | 0 <= i < |segments| :: segments[i] != []
    ensures ConvertEach(segments) == CrlfToLf(Flatten(segments)) <==> SplitCount(segments) == 0
  {
    SegmentedLength(segments);
  }

  // ----- the buffer loops -----

  method LfToCrlfBuffer(input: array<byte>, inputLen: int, output: array<byte>, outputSize: int)
    returns (written: int)
    requires input != output && inputLen <= input.Length && outputSize <= output.Length
    modifies output
    ensures inputLen < 0 || outputSize <= 0 ==> written == -1 && output[..] == old(output[..])
    ensures inputLen >= 0 && outputSize > 0 ==>
              var converted := LfToCrlf(input[..inputLen]);
              if |converted| <= outputSize then written == |converted| && output[..written] == converted
              else written == -1
    ensures forall k | 0 <= k < output.Length && k >= outputSize :: output[k] == old(output[k])
  {
    if inputLen < 0 || outputSize <= 0 { return -1; }
    ghost var source := input[..inputLen];
    written := 0;
    var i := 0;
    while i < inputLen
      invariant 0 <= i <= inputLen && 0 <= written <= outputSize
      invariant output[..written] + LfToCrlf(source[i..]) == LfToCrlf(source)
      invariant forall k | 0 <= k < output.Length && k >= outputSize :: output[k] == old(output[k])
    {
      ghost var done, rest := output[..written], LfToCrlf(source[i + 1..]);
      assert source[i..][0] == input[i] && source[i..][1..] == source[i + 1..];
      assert done + (Expand(input[i]) + rest) == done + Expand(input[i]) + rest;
      if input[i] == LF {
        if written + 2 > outputSize { return -1; }
        output[written] := CR;
        output[written + 1] := LF;
        written := written + 2;
        assert output[..written] == done + Expand(LF);
      } else {
        if written + 1 > outputSize { return -1; }
        output[written] := input[i];
        written := written + 1;
        assert output[..written] == done + Expand(input[i]);
      }
      i := i + 1;
    }
  }

  predicate PairAt(s: Bytes, i: nat) {
    i + 1 < |s| && s[i] == CR && s[i + 1] == LF
  }

  lemma CrlfToLfFrom(s: Bytes, i: nat)
    requires i < |s|
    ensures CrlfToLf(s[i..]) == if PairAt(s, i) then [LF] + CrlfToLf(s[i + 2..]) else [s[i]] + CrlfToLf(s[i + 1..])
  {
    assert s[i..][0] == s[i] && s[i..][1..] == s[i + 1..];
    if i + 1 < |s| { assert s[i..][1] == s[i + 1] && s[i..][2..] == s[i + 2..]; }
  }

  lemma NothingConverts()
    ensures CrlfToLf([]) == [] && LfToCrlf([]) == []
  {
  }

  method CrlfToLfBuffer(input: array<byte>, inputLen: int, output: array<byte>, outputSize: int)
    returns (written: int)
    requires input != output && inputLen <= input.Length && outputSize <= output.Length
    modifies output
    ensures inputLen < 0 || outputSize <= 0 ==> written == -1 && output[..] == old(output[..])
    ensures inputLen >= 0 && outputSize > 0 ==>
              var converted := CrlfToLf(input[..inputLen]);
              if |converted| <= outputSize then written == |converted| && output[..written] == converted
              else written == -1
    ensures forall k | 0 <= k < output.Length && k >= outputSize :: output[k] == old(output[k])
  {
    NothingConverts();
    hide CrlfToLf;
    if inputLen < 0 || outputSize <= 0 { return -1; }
    ghost var source, done := input[..inputLen], [];
    written := 0;
    var i := 0;
    while i < inputLen
      invariant 0 <= i <= inputLen && 0 <= written <= outputSize
      invariant done == output[..written]
      invariant done + CrlfToLf(source[i..]) == CrlfToLf(source)
      invariant forall k | 0 <= k < output.Length && k >= outputSize :: output[k] == old(output[k])
    {
      CrlfToLfFrom(source, i);
      if written + 1 > outputSize { return -1; }
      if input[i] == CR && i + 1 < inputLen && input[i + 1] == LF {
        output[written] := LF;
        i := i + 1;
      } else {
        output[written] := input[i];
      }
      written := written + 1;
      i := i + 1;
      Regroup(done, [output[written - 1]], CrlfToLf(source[i..]));
      done := done + [output[written - 1]];
    }
    assert source[i..] == [] && done + [] == done;
  }
}
