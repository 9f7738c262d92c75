/**
 * The transfer loops (server/src/transfer.c) over chunked file access (filesys.c) and sockets that take and deliver
 * bytes piecemeal (network.c).
 */
module Transfer {
  import opened Common
  import opened LineEndings
  import opened LockSpec
  import opened FileStore
  import opened TransferProtocol
  import opened Isolation

  /**
   * The data connection: what has been sent, and what the peer has yet to deliver before it closes; and how often it
   * has failed.
   */
  class DataSocket {
    var sent: Bytes
    var incoming: Bytes
    ghost var failures: nat

    constructor (incoming: Bytes)
      ensures sent == [] && this.incoming == incoming
    {
      sent, this.incoming := [], incoming;
    }

    /** net_send_all: repeats partial sends until all is out or one fails. */
    method SendAll(data: Bytes) returns (ok: bool)
      modifies this`sent, this`failures
      ensures failures == old(failures) + if ok then 0 else 1
      ensures ok ==> sent == old(sent) + data
      ensures !ok ==> exists k | 0 <= k <= |data| :: sent == old(sent) + data[..k]
    {
      var total := 0;
      while total < |data|
        invariant 0 <= total <= |data| && sent == old(sent) + data[..total] && failures == old(failures)
      {
        var bytesSent: int :| bytesSent <= |data| - total;
        if bytesSent <= 0 {
          failures := failures + 1;
          return false;
        }
        assert data[..total] + data[total..total + bytesSent] == data[..total + bytesSent];
        sent := sent + data[total..total + bytesSent];
        total := total + bytesSent;
      }
      assert data[..total] == data;
      return true;
    }

    /** net_receive: some bytes, none when the peer has closed, or an error. */
    method Receive(size: nat) returns (bytesReceived: int, data: Bytes)
      requires size > 0
      modifies this`incoming, this`failures
      ensures -1 <= bytesReceived <= size && failures == old(failures) + if bytesReceived == -1 then 1 else 0
      ensures bytesReceived == -1 ==> data == [] && incoming == old(incoming)
      ensures bytesReceived >= 0 ==> |data| == bytesReceived && old(incoming) == data + incoming
      ensures bytesReceived == 0 ==> incoming == []
    {
      bytesReceived :| -1 <= bytesReceived <= size && bytesReceived <= |incoming|
        && (bytesReceived == 0 ==> incoming == []);
      data := if bytesReceived < 0 then [] else incoming[..bytesReceived];
      incoming := incoming[|data|..];
      if bytesReceived < 0 { failures := failures + 1; }
    }
  }

  /** The abort flag of a session during a transfer; the command thread may raise it at any time if an ABOR comes. */
  class AbortFlag {
    var raised: bool
    const coming: bool

    constructor (raised: bool, coming: bool)
      ensures this.raised == raised && this.coming == coming
    {
      this.raised, this.coming := raised, coming;
    }

    /** session_should_abort_transfer. */
    method Check() returns (up: bool)
      modifies this
      ensures up == raised && (old(raised) ==> up) && (up ==> old(raised) || coming)
    {
      up :| (raised ==> up) && (up ==> raised || coming);
      raised := up;
    }
  }

  /** The files, and how often an operation on a file that could be carried out has failed. */
  class FileSystem {
    var files: Files
    ghost var failures: nat

    constructor (files: Files)
      ensures this.files == files
    {
      this.files := files;
    }

    method FileSize(path: Path) returns (size: int)
      modifies this`failures
      ensures size == -1 || (path in files && size == |files[path]| <= LLONG_MAX)
      ensures failures == old(failures) + if path in files && size == -1 then 1 else 0
    {
      if path !in files { return -1; }
      var fails: bool := *;
      if fails || |files[path]| > LLONG_MAX {
        failures := failures + 1;
        return -1;
      }
      return |files[path]|;
    }

    /** fs_read_file_chunk: repeats partial reads until `length` bytes or the end of the file. */
    method ReadChunk(path: Path, offset: int, length: int) returns (total: int, buffer: Bytes)
      modifies this`failures
      ensures path !in files || offset < 0 || length <= 0 ==> total == -1
      ensures failures == old(failures) + if path in files && offset >= 0 && length > 0 && total == -1 then 1 else 0
      ensures total != -1 ==>
                path in files && offset >= 0 && length > 0 && buffer == ReadAt(files[path], offset, length)
                && total == |buffer|
    {
      buffer := [];
      if offset < 0 || length <= 0 || path !in files { return -1, []; }
      var content := files[path];
      total := 0;
      while total < length
        invariant 0 <= total <= length && total == |buffer|
        invariant buffer == ReadAt(content, offset, total) && failures == old(failures)
        decreases length - total
      {
        var rest := if offset + total <= |content| then content[offset + total..] else [];
        var r: int :| -1 <= r <= length - total && r <= |rest| && (r == 0 ==> rest == []);
        if r < 0 {
          failures := failures + 1;
          return -1, buffer;
        }
        if r == 0 { break; }
        buffer := buffer + rest[..r];
        total := total + r;
      }
    }

    /**
     * fs_write_file_chunk: creates the file if need be and repeats partial writes; a failure leaves a prefix `written`,
     * or has not even opened the file.
     */
    method WriteChunk(path: Path, buffer: Bytes, offset: nat) returns (total: int, ghost written: Bytes)
      modifies this
      ensures total == -1 || total == |buffer|
      ensures failures == old(failures) + if total == -1 then 1 else 0
      ensures written <= buffer && (total != -1 ==> written == buffer)
      ensures files == old(files)[path := Overlay(ContentOrEmpty(old(files), path), offset, written)]
              || (total == -1 && written == [] && files == old(files))
    {
      ghost var was := ContentOrEmpty(files, path);
      written := [];
      var canOpen: bool := *;
      if !canOpen {
        failures := failures + 1;
        return -1, written;
      }
      OverlayNothing(was, offset);
      hide Overlay;
      files := files[path := ContentOrEmpty(files, path)];
      total := 0;
      while total < |buffer|
        invariant 0 <= total <= |buffer| && written == buffer[..total]
        invariant files == old(files)[path := Overlay(was, offset, written)] && failures == old(failures)
      {
        var w: int :| -1 <= w <= |buffer| - total && w != 0;
        if w < 0 {
          failures := failures + 1;
          return -1, written;
        }
        OverlayGrows(was, offset, buffer, total, w);
        files := files[path := Overlay(files[path], offset + total, buffer[total..total + w])];
        written := buffer[..total + w];
        total := total + w;
      }
    }

    /** fs_delete_file. */
    method Delete(path: Path) returns (ok: bool)
      requires path in files
      modifies this
      ensures files == (if ok then old(files) - {path} else old(files))
      ensures failures == old(failures) + if ok then 0 else 1
    {
      ok := *;
      if ok {
        files := files - {path};
      } else {
        failures := failures + 1;
      }
    }

    /** rename(2), onto a name that is free; a directory moves without effect on the files. */
    method Rename(from: Path, to: Path) returns (ok: bool)
      modifies this
      ensures files == (if ok && from in old(files) then old(files)[to := old(files)[from]] - {from} else old(files))
      ensures failures == old(failures) + if ok then 0 else 1
    {
      ok := *;
      if !ok {
        failures := failures + 1;
      } else if from in files {
        files := files[to := files[from]] - {from};
      }
    }
  }

  // ----- how a transfer ends -----

  /**
   * What a transfer has met with: an open connection, memory for its buffers, the abort flag up, a failed send or
   * receive, a failed file operation.
   */
  datatype Met = Met(open: bool, memory: bool, flag: bool, socketFailed: bool, fileFailed: bool)

  /** A download ends well exactly with a connection, the offset within the file, and nothing in its way. */
  function DownloadResult(files: Files, path: Path, offset: nat, m: Met): Result {
    if !m.open then ConnError
    else if path !in files || offset > |files[path]| || m.fileFailed then IoError
    else if !m.memory then InternalError
    else if m.flag && offset < |files[path]| then WasAborted
    else if m.socketFailed then ConnError
    else Ok
  }

  /** An upload looks at the flag at least once. */
  function UploadResult(m: Met): Result {
    if !m.open then ConnError
    else if !m.memory then InternalError
    else if m.flag then WasAborted
    else if m.socketFailed then ConnError
    else if m.fileFailed then IoError
    else Ok
  }

  lemma OverlayGrows(was: Bytes, offset: nat, buffer: Bytes, total: nat, w: nat)
    requires total + w <= |buffer|
    ensures Overlay(Overlay(was, offset, buffer[..total]), offset + total, buffer[total..total + w])
            == Overlay(was, offset, buffer[..total + w])
  {
    hide Overlay;
    OverlayAdjacentAnywhere(was, offset, buffer[..total], buffer[total..total + w]);
    PrefixExtends(buffer, total, w);
  }

  lemma OverlayNothing(was: Bytes, offset: nat)
    ensures Overlay(was, offset, []) == was
  {
  }

  lemma PrefixExtends(buffer: Bytes, total: nat, w: nat)
    requires total + w <= |buffer|
    ensures buffer[..total] + buffer[total..total + w] == buffer[..total + w]
  {
  }

  // ----- downloads -----

  /** Since then a front part of these bytes has been sent, and nothing else. */
  ghost predicate SentFront(sent: Bytes, before: Bytes, wire: Bytes) {
    exists k | 0 <= k <= |wire| :: sent == before + wire[..k]
  }

  lemma FrontIs(sent: Bytes, before: Bytes, front: Bytes, wire: Bytes)
    requires front <= wire && sent == before + front
    ensures SentFront(sent, before, wire)
  {
    assert wire[..|front|] == front;
  }

  /** Copies a chunk into a buffer and expands its line ends into another. */
  method ExpandChunk(chunk: Bytes, writeBuffer: array<byte>) returns (converted: int)
    requires 0 < 2 * |chunk| <= writeBuffer.Length
    modifies writeBuffer
    ensures converted == |OnWire(true, chunk)| <= writeBuffer.Length && writeBuffer[..converted] == OnWire(true, chunk)
  {
    var readBuffer := new byte[|chunk|](i requires 0 <= i < |chunk| => chunk[i]);
    assert readBuffer[..|chunk|] == chunk;
    LfToCrlfLength(chunk);
    converted := LfToCrlfBuffer(readBuffer, |chunk|, writeBuffer, writeBuffer.Length);
  }

  /** Sends what belongs on the wire for the next chunk; a failure leaves a longer front part out, never more. */
  method SendNext(socket: DataSocket, wire: Bytes, ghost ascii: bool, ghost chunk: Bytes, ghost before: Bytes,
                  ghost content: Bytes, ghost from: nat, ghost cut: nat)
    returns (ok: bool)
    requires from <= cut && cut + |chunk| <= |content| && chunk == content[cut..cut + |chunk|]
    requires wire == OnWire(ascii, chunk) && socket.sent == before + OnWire(ascii, content[from..cut])
    modifies socket`sent, socket`failures
    ensures socket.failures == old(socket.failures) + if ok then 0 else 1
    ensures ok ==> socket.sent == before + OnWire(ascii, content[from..cut + |chunk|])
    ensures SentFront(socket.sent, before, OnWire(ascii, content[from..]))
  {
    hide OnWire, SentFront;
    ok := socket.SendAll(wire);
    SentMore(content, ascii, from, cut, |chunk|);
    ghost var passed := OnWire(ascii, content[from..cut]);
    ghost var k := |wire|;
    if ok {
      assert wire[..k] == wire;
      Regroup(before, passed, wire);
    } else {
      k :| 0 <= k <= |wire| && socket.sent == before + passed + wire[..k];
    }
    PartBehind(content, ascii, from, cut, chunk, k);
    Regroup(before, passed, wire[..k]);
    FrontIs(socket.sent, before, passed + wire[..k], OnWire(ascii, content[from..]));
  }

  /** The same for a chunk that is expanded first; the conversion never fails. */
  method SendExpanded(socket: DataSocket, chunk: Bytes, writeBuffer: array<byte>, ghost before: Bytes,
                      ghost content: Bytes, ghost from: nat, ghost cut: nat)
    returns (converted: int, ok: bool)
    requires 0 < 2 * |chunk| <= writeBuffer.Length
    requires from <= cut && cut + |chunk| <= |content| && chunk == content[cut..cut + |chunk|]
    requires socket.sent == before + OnWire(true, content[from..cut])
    modifies writeBuffer, socket`sent, socket`failures
    ensures converted >= 0 && socket.failures == old(socket.failures) + if ok then 0 else 1
    ensures ok ==> socket.sent == before + OnWire(true, content[from..cut + |chunk|])
    ensures SentFront(socket.sent, before, OnWire(true, content[from..]))
  {
    hide OnWire, SentFront;
    converted := ExpandChunk(chunk, writeBuffer);
    ok := SendNext(socket, writeBuffer[..converted], true, chunk, before, content, from, cut);
  }

  /**
   * A binary download sends the file from the offset on, chunk by chunk; whatever stops it, only a front part has been
   * sent. With the abort flag raised already it sends nothing more.
   */
  method SendFile(fs: FileSystem, socket: DataSocket, path: Path, offset: nat, socketOpen: bool, canAllocate: bool,
                  flag: AbortFlag)
    returns (status: Result)
    modifies socket`sent, socket`failures, fs`failures, flag
    ensures socket.failures >= old(socket.failures) && fs.failures >= old(fs.failures)
    ensures status == DownloadResult(fs.files, path, offset,
                                     Met(socketOpen, canAllocate, flag.raised,
                                         socket.failures > old(socket.failures), fs.failures > old(fs.failures)))
    ensures !socketOpen || path !in fs.files || offset > |fs.files[path]| || !canAllocate ==>
              socket.sent == old(socket.sent)
    ensures flag.raised ==> old(flag.raised) || flag.coming
    ensures status.Ok? ==>
              path in fs.files && offset <= |fs.files[path]|
              && socket.sent == old(socket.sent) + fs.files[path][offset..]
    ensures path in fs.files && offset <= |fs.files[path]| ==>
              SentFront(socket.sent, old(socket.sent), fs.files[path][offset..])
    ensures old(flag.raised) ==> socket.sent == old(socket.sent)
  {
    ghost var content, before := ContentOrEmpty(fs.files, path), socket.sent;
    if offset <= |content| { FrontIs(before, before, [], content[offset..]); }
    hide SentFront;
    if !socketOpen { return ConnError; }
    var fileSize := fs.FileSize(path);
    if fileSize < 0 || offset > fileSize { return IoError; }
    if !canAllocate { return InternalError; }
    var remaining, currentOffset := fileSize - offset, offset;
    assert content[offset..offset] == [];
    while remaining > 0
      invariant offset <= currentOffset && 0 <= remaining && currentOffset + remaining == |content|
      invariant socket.sent == before + content[offset..currentOffset]
      invariant SentFront(socket.sent, before, content[offset..])
      invariant socket.failures == old(socket.failures) && fs.failures == old(fs.failures)
      invariant flag.raised == old(flag.raised) && (flag.raised ==> currentOffset == offset)
    {
      var aborted := flag.Check();
      if aborted { return WasAborted; }
      var toRead := if remaining > TRANSFER_BUFFER_SIZE then TRANSFER_BUFFER_SIZE else remaining;
      var bytesRead, buffer := fs.ReadChunk(path, currentOffset, toRead);
      if bytesRead < 0 { return IoError; }
      if bytesRead == 0 { return IoError; }
      var ok := SendNext(socket, buffer, false, buffer, before, content, offset, currentOffset);
      if !ok {
        aborted := flag.Check();
        return if aborted then WasAborted else ConnError;
      }
      currentOffset := currentOffset + bytesRead;
      remaining := remaining - bytesRead;
    }
    assert content[offset..currentOffset] == content[offset..];
    return Ok;
  }

  /** An ASCII download sends the expansion of the file, chunk by chunk. */
  method SendFileAscii(fs: FileSystem, socket: DataSocket, path: Path, offset: nat, socketOpen: bool, canAllocate: bool,
                       flag: AbortFlag)
    returns (status: Result)
    modifies socket`sent, socket`failures, fs`failures, flag
    ensures socket.failures >= old(socket.failures) && fs.failures >= old(fs.failures)
    ensures status == DownloadResult(fs.files, path, offset,
                                     Met(socketOpen, canAllocate, flag.raised,
                                         socket.failures > old(socket.failures), fs.failures > old(fs.failures)))
    ensures !socketOpen || path !in fs.files || offset > |fs.files[path]| || !canAllocate ==>
              socket.sent == old(socket.sent)
    ensures flag.raised ==> old(flag.raised) || flag.coming
    ensures status.Ok? ==> path in fs.files && offset <= |fs.files[path]|
                           && socket.sent == old(socket.sent) + OnWire(true, fs.files[path][offset..])
    ensures path in fs.files && offset <= |fs.files[path]| ==>
              SentFront(socket.sent, old(socket.sent), OnWire(true, fs.files[path][offset..]))
    ensures old(flag.raised) ==> socket.sent == old(socket.sent)
  {
    ghost var content, before := ContentOrEmpty(fs.files, path), socket.sent;
    if offset <= |content| { FrontIs(before, before, [], OnWire(true, content[offset..])); }
    assert OnWire(true, []) == [];
    hide SentFront, OnWire, LfToCrlf;
    if !socketOpen { return ConnError; }
    var fileSize := fs.FileSize(path);
    if fileSize < 0 || offset > fileSize { return IoError; }
    if !canAllocate { return InternalError; }
    var writeBuffer := new byte[TRANSFER_BUFFER_SIZE * 2];
    var remaining, currentOffset := fileSize - offset, offset;
    assert content[offset..offset] == [];
    while remaining > 0
      invariant offset <= currentOffset && 0 <= remaining && currentOffset + remaining == |content|
      invariant socket.sent == before + OnWire(true, content[offset..currentOffset])
      invariant SentFront(socket.sent, before, OnWire(true, content[offset..]))
      invariant socket.failures == old(socket.failures) && fs.failures == old(fs.failures)
      invariant flag.raised == old(flag.raised) && (flag.raised ==> currentOffset == offset)
    {
      var aborted := flag.Check();
      if aborted { return WasAborted; }
      var toRead := if remaining > TRANSFER_BUFFER_SIZE then TRANSFER_BUFFER_SIZE else remaining;
      var bytesRead, buffer := fs.ReadChunk(path, currentOffset, toRead);
      if bytesRead < 0 { return IoError; }
      if bytesRead == 0 { return IoError; }
      var converted, ok := SendExpanded(socket, buffer, writeBuffer, before, content, offset, currentOffset);
      if converted < 0 { return InternalError; }
      if !ok {
        aborted := flag.Check();
        return if aborted then WasAborted else ConnError;
      }
      currentOffset := currentOffset + bytesRead;
      remaining := remaining - bytesRead;
    }
    assert content[offset..currentOffset] == content[offset..];
    return Ok;
  }

  // ----- uploads -----

  /** The bytes are the front of what is stored for the next piece of the stream. */
  ghost predicate PartOf(partial: Bytes, piece: Bytes, ascii: bool, received: Bytes, arriving: Bytes) {
    0 < |piece| <= TRANSFER_BUFFER_SIZE && received + piece <= arriving && partial <= OnDisk(ascii, piece)
  }

  /**
   * How an upload leaves the files: the segments received are stored after one another, each converted on its own, and
   * if a write failed, part of one more conversion; an upload that ends well has stored all that arrived.
   */
  ghost predicate Stored(before: Files, after: Files, path: Path, offset: nat, ascii: bool, arriving: Bytes,
                         status: Result, segments: seq<Bytes>, partial: Bytes)
  {
    && (after == before[path := Overlay(ContentOrEmpty(before, path), offset, OnDiskAll(ascii, segments) + partial)]
        || (after == before && segments == [] && partial == []))
    && (after != before && segments == [] ==> status.IoError?)
    && (partial != [] ==> status.IoError? && exists piece :: PartOf(partial, piece, ascii, Flatten(segments), arriving))
    && (forall i | 0 <= i < |segments| :: 0 < |segments[i]| <= TRANSFER_BUFFER_SIZE)
    && Flatten(segments) <= arriving
    && (status.Ok? ==> Flatten(segments) == arriving)
  }

  /** So far the segments have been stored, and the rest is still to come. */
  ghost predicate StoredSoFar(before: Files, now: Files, path: Path, offset: nat, ascii: bool, stream: Bytes,
                              segments: seq<Bytes>, rest: Bytes)
  {
    && (if segments == [] then now == before
        else now == before[path := Overlay(ContentOrEmpty(before, path), offset, OnDiskAll(ascii, segments))])
    && (forall i | 0 <= i < |segments| :: 0 < |segments[i]| <= TRANSFER_BUFFER_SIZE)
    && stream == Flatten(segments) + rest
  }

  lemma NothingStored(before: Files, path: Path, offset: nat, ascii: bool, stream: Bytes)
    ensures StoredSoFar(before, before, path, offset, ascii, stream, [], stream)
  {
  }

  lemma SoFarIsStored(before: Files, now: Files, path: Path, offset: nat, ascii: bool, stream: Bytes, status: Result,
                      segments: seq<Bytes>, rest: Bytes)
    requires StoredSoFar(before, now, path, offset, ascii, stream, segments, rest) && (status.Ok? ==> rest == [])
    ensures Stored(before, now, path, offset, ascii, stream, status, segments, [])
  {
    assert OnDiskAll(ascii, segments) + [] == OnDiskAll(ascii, segments);
  }

  lemma ContentSoFar(before: Files, now: Files, path: Path, offset: nat, ascii: bool, stream: Bytes,
                     segments: seq<Bytes>, rest: Bytes)
    requires StoredSoFar(before, now, path, offset, ascii, stream, segments, rest)
    ensures ContentOrEmpty(now, path) == Overlay(ContentOrEmpty(before, path), offset, OnDiskAll(ascii, segments))
  {
    OverlayNothing(ContentOrEmpty(before, path), offset);
  }

  /** One more segment has been received and written, or part of it. */
  lemma SegmentStored(before: Files, now: Files, after: Files, path: Path, offset: nat, ascii: bool, stream: Bytes,
                      segments: seq<Bytes>, segment: Bytes, written: Bytes, rest: Bytes)
    requires StoredSoFar(before, now, path, offset, ascii, stream, segments, segment + rest)
    requires 0 < |segment| <= TRANSFER_BUFFER_SIZE && written <= OnDisk(ascii, segment) && |OnDisk(ascii, segment)| > 0
    requires after == now[path := Overlay(ContentOrEmpty(now, path), offset + |OnDiskAll(ascii, segments)|, written)]
             || (written == [] && after == now)
    ensures written == OnDisk(ascii, segment) ==>
              StoredSoFar(before, after, path, offset, ascii, stream, segments + [segment], rest)
    ensures Stored(before, after, path, offset, ascii, stream, IoError, segments, written)
  {
    hide Overlay, CrlfToLf, ConvertEach;
    if written == [] && after == now {
      SoFarIsStored(before, now, path, offset, ascii, stream, IoError, segments, segment + rest);
      return;
    }
    ContentSoFar(before, now, path, offset, ascii, stream, segments, segment + rest);
    OverlayAdjacentAnywhere(ContentOrEmpty(before, path), offset, OnDiskAll(ascii, segments), written);
    OnDiskAllSnoc(ascii, segments, segment);
    FlattenSnoc(segments, segment);
    Regroup(Flatten(segments), segment, rest);
    assert after == before[path := Overlay(ContentOrEmpty(before, path), offset, OnDiskAll(ascii, segments) + written)];
    assert PartOf(written, segment, ascii, Flatten(segments), stream);
  }

  /**
   * A binary upload; `segments` are the pieces in which the stream arrived, `partial` what a failed write has stored.
   */
  method ReceiveFile(fs: FileSystem, socket: DataSocket, path: Path, offset: nat, socketOpen: bool, canAllocate: bool,
                     flag: AbortFlag)
    returns (status: Result, ghost segments: seq<Bytes>, ghost partial: Bytes)
    requires fs as object != socket && fs as object != flag
    modifies fs, socket`incoming, socket`failures, flag
    ensures socket.failures >= old(socket.failures) && fs.failures >= old(fs.failures)
    ensures status == UploadResult(Met(socketOpen, canAllocate, flag.raised,
                                       socket.failures > old(socket.failures), fs.failures > old(fs.failures)))
    ensures !socketOpen || status.InternalError? ==> fs.files == old(fs.files)
    ensures (old(flag.raised) ==> flag.raised) && (flag.raised ==> old(flag.raised) || flag.coming)
    ensures Stored(old(fs.files), fs.files, path, offset, false, old(socket.incoming), status, segments, partial)
  {
    segments, partial := [], [];
    ghost var before, stream := fs.files, socket.incoming;
    hide Overlay, Stored, StoredSoFar, ContentOrEmpty, Flatten;
    NothingStored(before, path, offset, false, stream);
    SoFarIsStored(before, before, path, offset, false, stream, ConnError, [], stream);
    if !socketOpen { return ConnError, segments, partial; }
    SoFarIsStored(before, before, path, offset, false, stream, InternalError, [], stream);
    if !canAllocate { return InternalError, segments, partial; }
    var totalReceived := 0;
    while true
      invariant totalReceived == |OnDiskAll(false, segments)| && partial == []
      invariant socket.failures == old(socket.failures) && fs.failures == old(fs.failures)
      invariant flag.raised == old(flag.raised)
      invariant StoredSoFar(before, fs.files, path, offset, false, stream, segments, socket.incoming)
      decreases |socket.incoming|
    {
      ghost var now := fs.files;
      SoFarIsStored(before, now, path, offset, false, stream, WasAborted, segments, socket.incoming);
      var aborted := flag.Check();
      if aborted { return WasAborted, segments, partial; }
      var bytesReceived, buffer := socket.Receive(TRANSFER_BUFFER_SIZE);
      if bytesReceived <= 0 {
        aborted := flag.Check();
        status := if aborted then WasAborted else if bytesReceived < 0 then ConnError else Ok;
        SoFarIsStored(before, now, path, offset, false, stream, status, segments, socket.incoming);
        return;
      }
      var bytesWritten;
      ghost var written;
      bytesWritten, written := fs.WriteChunk(path, buffer, offset + totalReceived);
      SegmentStored(before, now, fs.files, path, offset, false, stream, segments, buffer, written, socket.incoming);
      partial := written;
      if bytesWritten != bytesReceived { return IoError, segments, partial; }
      partial := [];
      OnDiskAllSnoc(false, segments, buffer);
      segments := segments + [buffer];
      totalReceived := totalReceived + bytesReceived;
    }
  }

  /** Collapses the line ends of a received segment and writes the result. */
  method WriteConverted(fs: FileSystem, path: Path, segment: Bytes, writeBuffer: array<byte>, offset: nat)
    returns (converted: int, bytesWritten: int, ghost written: Bytes)
    requires 0 < |segment| <= writeBuffer.Length && fs as object != writeBuffer
    modifies fs, writeBuffer
    ensures converted == |CrlfToLf(segment)| <= |segment| && converted > 0
    ensures bytesWritten == -1 || bytesWritten == converted
    ensures fs.failures == old(fs.failures) + if bytesWritten == -1 then 1 else 0
    ensures written <= CrlfToLf(segment) && (bytesWritten != -1 ==> written == CrlfToLf(segment))
    ensures fs.files == old(fs.files)[path := Overlay(ContentOrEmpty(old(fs.files), path), offset, written)]
            || (bytesWritten == -1 && written == [] && fs.files == old(fs.files))
  {
    var readBuffer := new byte[|segment|](i requires 0 <= i < |segment| => segment[i]);
    assert readBuffer[..|segment|] == segment;
    CrlfToLfLength(segment);
    converted := CrlfToLfBuffer(readBuffer, |segment|, writeBuffer, writeBuffer.Length);
    bytesWritten, written := fs.WriteChunk(path, writeBuffer[..converted], offset);
  }

  /** An ASCII upload converts every received segment on its own. */
  method ReceiveFileAscii(fs: FileSystem, socket: DataSocket, path: Path, offset: nat, socketOpen: bool,
                          canAllocate: bool, flag: AbortFlag)
    returns (status: Result, ghost segments: seq<Bytes>, ghost partial: Bytes)
    requires fs as object != socket && fs as object != flag
    modifies fs, socket`incoming, socket`failures, flag
    ensures socket.failures >= old(socket.failures) && fs.failures >= old(fs.failures)
    ensures status == UploadResult(Met(socketOpen, canAllocate, flag.raised,
                                       socket.failures > old(socket.failures), fs.failures > old(fs.failures)))
    ensures !socketOpen || status.InternalError? ==> fs.files == old(fs.files)
    ensures (old(flag.raised) ==> flag.raised) && (flag.raised ==> old(flag.raised) || flag.coming)
    ensures Stored(old(fs.files), fs.files, path, offset, true, old(socket.incoming), status, segments, partial)
  {
    segments, partial := [], [];
    ghost var before, stream := fs.files, socket.incoming;
    hide Overlay, Stored, StoredSoFar, ContentOrEmpty, Flatten;
    NothingStored(before, path, offset, true, stream);
    SoFarIsStored(before, before, path, offset, true, stream, ConnError, [], stream);
    if !socketOpen { return ConnError, segments, partial; }
    SoFarIsStored(before, before, path, offset, true, stream, InternalError, [], stream);
    if !canAllocate { return InternalError, segments, partial; }
    var writeBuffer := new byte[TRANSFER_BUFFER_SIZE];
    var totalWritten := 0;
    while true
      invariant totalWritten == |OnDiskAll(true, segments)| && partial == []
      invariant socket.failures == old(socket.failures) && fs.failures == old(fs.failures)
      invariant flag.raised == old(flag.raised)
      invariant StoredSoFar(before, fs.files, path, offset, true, stream, segments, socket.incoming)
      decreases |socket.incoming|
    {
      ghost var now := fs.files;
      SoFarIsStored(before, now, path, offset, true, stream, WasAborted, segments, socket.incoming);
      var aborted := flag.Check();
      if aborted { return WasAborted, segments, partial; }
      var bytesReceived, buffer := socket.Receive(TRANSFER_BUFFER_SIZE);
      if bytesReceived <= 0 {
        aborted := flag.Check();
        status := if aborted then WasAborted else if bytesReceived < 0 then ConnError else Ok;
        SoFarIsStored(before, now, path, offset, true, stream, status, segments, socket.incoming);
        return;
      }
      var converted, bytesWritten;
      ghost var written;
      converted, bytesWritten, written := WriteConverted(fs, path, buffer, writeBuffer, offset + totalWritten);
      if converted < 0 { return InternalError, segments, partial; }
      SegmentStored(before, now, fs.files, path, offset, true, stream, segments, buffer, written, socket.incoming);
      partial := written;
      if bytesWritten != converted { return IoError, segments, partial; }
      partial := [];
      OnDiskAllSnoc(true, segments, buffer);
      segments := segments + [buffer];
      totalWritten := totalWritten + bytesWritten;
    }
  }

  // ----- what an upload leaves -----

  /** A binary upload has stored some of what arrived, from the front, at its offset; all of it if it ends well. */
  lemma StoredIsPrefix(before: Files, after: Files, path: Path, offset: nat, arriving: Bytes, status: Result,
                       segments: seq<Bytes>, partial: Bytes)
    requires Stored(before, after, path, offset, false, arriving, status, segments, partial)
    ensures var stored := Flatten(segments) + partial;
      && stored <= arriving && (status.Ok? ==> stored == arriving)
      && ContentOrEmpty(after, path) == Overlay(ContentOrEmpty(before, path), offset, stored)
  {
    var was := ContentOrEmpty(before, path);
    OverlayNothing(was, offset);
    if partial != [] {
      var piece :| PartOf(partial, piece, false, Flatten(segments), arriving);
      assert Flatten(segments) + piece == Flatten(segments) + partial + piece[|partial|..];
    }
    assert segments == [] ==> OnDiskAll(false, segments) == [];
  }

  /** A stream cut into pieces no larger than the buffer. */
  lemma {:induction false} Pieces(stream: Bytes) returns (segments: seq<Bytes>)
    ensures Flatten(segments) == stream
    ensures forall i | 0 <= i < |segments| :: 0 < |segments[i]| <= TRANSFER_BUFFER_SIZE
    decreases |stream|
  {
    if stream == [] {
      segments := [];
    } else {
      var n := if |stream| <= TRANSFER_BUFFER_SIZE then |stream| else TRANSFER_BUFFER_SIZE;
      var rest := Pieces(stream[n..]);
      segments := [stream[..n]] + rest;
      assert segments[1..] == rest && stream == stream[..n] + stream[n..];
    }
  }

  /**
   * The server takes the close of the connection for the end of the data: an upload whose client has closed after any
   * part of what it meant to send may end well, with just that part.
   */
  lemma ClosedEarly(before: Files, path: Path, data: Bytes, m: nat)
    requires m < |data|
    ensures exists after, segments ::
              Stored(before - {path}, after, path, 0, false, data[..m], Ok, segments, [])
              && ContentOrEmpty(after, path) == data[..m] != data
  {
    var segments := Pieces(data[..m]);
    var removed := before - {path};
    var after := if m == 0 then removed else removed[path := Overlay([], 0, data[..m])];
    AppendAndFresh([], data[..m]);
    assert OnDiskAll(false, segments) + [] == data[..m];
    assert Stored(removed, after, path, 0, false, data[..m], Ok, segments, []);
  }

  /**
   * An ASCII upload that ends well, at an offset within the file: it is longer by one CR per split CRLF than the
   * conversion of the whole stream would have made it, as far as that shows past the old end; and it is the same
   * exactly if there is no split, or the bytes that lay behind are those that take their places.
   */
  lemma AsciiUploadExactIff(was: Bytes, offset: nat, segments: seq<Bytes>)
    requires offset <= |was| && forall i | 0 <= i < |segments| :: segments[i] != []
    ensures var stored, whole := ConvertEach(segments), CrlfToLf(Flatten(segments));
      && |stored| == |whole| + SplitCount(segments)
      && |Overlay(was, offset, stored)|
        == (if |was| >= offset + |stored| then |was| else offset + |whole| + SplitCount(segments))
      && (Overlay(was, offset, stored) == Overlay(was, offset, whole) <==>
            SplitCount(segments) == 0
            || (offset + |stored| <= |was| && stored == whole + was[offset + |whole|..offset + |stored|]))
  {
    hide Overlay, ConvertEach, CrlfToLf, SplitCount;
    SegmentedLength(segments);
    OverlayAt(was, offset, ConvertEach(segments));
    OverlaySameIff(was, offset, ConvertEach(segments), CrlfToLf(Flatten(segments)));
  }

  /** Laying a longer string over the same place makes the same file exactly if the rest of it was there already. */
  lemma OverlaySameIff(was: Bytes, offset: nat, x: Bytes, y: Bytes)
    requires offset <= |was| && |x| >= |y| && (|x| == |y| ==> x == y)
    ensures Overlay(was, offset, x) == Overlay(was, offset, y) <==>
              |x| == |y| || (offset + |x| <= |was| && x == y + was[offset + |y|..offset + |x|])
  {
    OverlayAt(was, offset, x);
    OverlayAt(was, offset, y);
    var l, r := Overlay(was, offset, x), Overlay(was, offset, y);
    if l == r && |x| != |y| {
      assert offset + |x| <= |was|;
      forall k | 0 <= k < |x| ensures x[k] == (y + was[offset + |y|..offset + |x|])[k] {
        assert l[offset + k] == x[k];
      }
    }
    if offset + |x| <= |was| && x == y + was[offset + |y|..offset + |x|] {
      assert forall k | 0 <= k < |l| :: l[k] == r[k];
    }
  }

  /**
   * A file downloaded in ASCII mode and stored again in ASCII mode is the same file exactly when its stream arrives
   * unsplit.
   */
  lemma AsciiRoundTrip(file: Bytes, segments: seq<Bytes>)
    requires forall i | 0 <= i < |segments| :: segments[i] != []
    requires Flatten(segments) == LfToCrlf(file)
    ensures Overlay([], 0, ConvertEach(segments)) == file <==> SplitCount(segments) == 0
  {
    AsciiUploadExactIff([], 0, segments);
    AppendAndFresh([], CrlfToLf(Flatten(segments)));
    CrlfToLfUndoesLfToCrlf(file);
  }
}
