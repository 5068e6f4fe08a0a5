/**
 * The chunked branch of `downloadRemoteFile` in the reproduction script:
 * on a mobile device, a file larger than one chunk is fetched by a loop of
 * `Range` requests. Each chunk is checked for an ignored `Range` header
 * (a body far larger than asked for, or the whole file at once), for a
 * `Content-Range` start other than the current offset, and is cut to the
 * bytes still expected. The bytes go to a temporary file when the
 * filesystem can stream, and into an in-memory buffer otherwise.
 *
 * The server is a function from the requested byte range `[offset, end]`
 * to the body it returns and the start of its `Content-Range`, if that
 * header is present and parses. The filesystem's successes and failures are
 * parameters.
 */
module Chunked {
  import opened Common

  /** `MOBILE_DOWNLOAD_CHUNK_BYTES` without an environment override: 2 MiB. */
  const DefaultChunkBytes: nat := 2 * 1024 * 1024

  /** What the server returns for one range request. */
  datatype Chunk = Chunk(body: seq<byte>, start: Option<nat>)

  /** `isMobileDevice() && size > MOBILE_DOWNLOAD_CHUNK_BYTES`. */
  predicate ShouldChunk(mobile: bool, size: nat, chunk: nat) {
    mobile && size > chunk
  }

  /** All pieces, in order, one after the other. */
  function Flatten(pieces: seq<seq<byte>>): (r: seq<byte>)
    decreases |pieces|
  {
    if pieces == [] then [] else pieces[0] + Flatten(pieces[1..])
  }

  lemma {:induction false} FlattenAppend(pieces: seq<seq<byte>>, d: seq<byte>)
    ensures Flatten(pieces + [d]) == Flatten(pieces) + d
    decreases |pieces|
  {
    if pieces == [] {
      assert [] + [d] == [d];
      assert [d][1..] == [];
    } else {
      assert (pieces + [d])[0] == pieces[0];
      assert (pieces + [d])[1..] == pieces[1..] + [d];
      FlattenAppend(pieces[1..], d);
    }
  }

  /** Why the loop stopped. */
  datatype End =
    | Done                                 // `got >= total`
    | EmptyChunk                           // `if (!arr.length) break`
    | FullFile(body: seq<byte>)            // the `Range` header was evidently ignored
    | Mismatch(expected: nat, start: nat)  // the `Content-Range` start is not the offset

  /** The pieces written, one per chunk, and why the loop stopped. */
  datatype Walk = Walk(pieces: seq<seq<byte>>, end: End)

  /** The last byte asked for: `min(total - 1, offset + chunk - 1)`. */
  function RangeEnd(total: nat, chunk: nat, offset: nat): (e: nat)
    requires chunk >= 1 && offset < total
    ensures offset <= e < total && e - offset + 1 <= chunk
  {
    Min(total - 1, offset + chunk - 1)
  }

  /** A body cut to the `room` bytes still expected. */
  function Cut(arr: seq<byte>, room: nat): (d: seq<byte>)
    ensures |d| == Min(|arr|, room) && d == arr[..|d|]
  {
    if |arr| > room then arr[..room] else arr
  }

  /** What one turn of the loop does: stop, or write the data and go on after it. */
  datatype Step = Stop(end: End) | Take(data: seq<byte>)

  /**
   * One turn at `offset`, the total known: ask for the next range; stop at
   * an empty body; take a body more than twice the size asked for, or
   * exactly the total, as the whole file; throw at a `Content-Range` start
   * other than `offset`; otherwise cut the body to the bytes still missing.
   */
  function TurnAt(server: (nat, nat) -> Chunk, total: nat, chunk: nat, offset: nat): (s: Step)
    requires chunk >= 1 && offset < total
    ensures s.Take? ==> 0 < |s.data| <= total - offset
  {
    var end := RangeEnd(total, chunk, offset);
    var requested := end - offset + 1;
    var c := server(offset, end);
    var arr := c.body;
    if |arr| == 0 then Stop(EmptyChunk)
    else if |arr| > requested * 2 || |arr| == total then Stop(FullFile(arr))
    else if c.start.Some? && c.start.value != offset then Stop(Mismatch(offset, c.start.value))
    else Take(Cut(arr, total - offset))
  }

  /** The loop from `offset` on: the turns until one stops or the total is reached. */
  function WalkFrom(server: (nat, nat) -> Chunk, total: nat, chunk: nat, offset: nat): (w: Walk)
    requires chunk >= 1 && offset <= total
    decreases total - offset
  {
    if offset == total then Walk([], Done)
    else
      match TurnAt(server, total, chunk, offset)
      case Stop(end) => Walk([], end)
      case Take(data) =>
        var rest := WalkFrom(server, total, chunk, offset + |data|);
        Walk([data] + rest.pieces, rest.end)
  }

  /**
   * The temporary file after the given pieces: whether the descriptor is
   * still open and what was written through it. The first failing write
   * closes the descriptor and nothing more is written.
   */
  function Stream(openOk: bool, writeOk: nat -> bool, pieces: seq<seq<byte>>): (s: (bool, seq<byte>))
    ensures s.0 ==> openOk && s.1 == Flatten(pieces)
    decreases |pieces|
  {
    if pieces == [] then (openOk, [])
    else
      var prior := Stream(openOk, writeOk, pieces[..|pieces| - 1]);
      var last := pieces[|pieces| - 1];
      assert pieces == pieces[..|pieces| - 1] + [last];
      FlattenAppend(pieces[..|pieces| - 1], last);
      if prior.0 && writeOk(|pieces| - 1) then (true, prior.1 + last) else (false, prior.1)
  }

  /** How a download ends. */
  datatype Outcome =
    | Saved(data: seq<byte>)                    // the target file now holds `data`
    | SavedNothing                              // the call returns normally, the target is not written
    | LeftInTemp(data: seq<byte>)               // the rename failed: the bytes stay in the `.yds.part` file
    | RangeMismatch(expected: nat, start: nat)  // thrown: `Content-Range mismatch`
    | RewriteFailed                             // thrown: rewriting the whole file into the stream failed
    | WriteFailed                               // thrown: writing the memory buffer to the target failed

  /**
   * The write at the end of the memory path: a non-empty buffer goes to the
   * target with `fs.writeFileSync`, whose failure is not caught; an empty
   * one writes nothing.
   */
  function WriteBuffer(buffer: seq<byte>, writeFileOk: bool): (o: Outcome)
    ensures o == Saved(buffer) <==> |buffer| > 0 && writeFileOk
    ensures o == WriteFailed <==> |buffer| > 0 && !writeFileOk
    ensures o == SavedNothing <==> |buffer| == 0
  {
    if |buffer| == 0 then SavedNothing else if writeFileOk then Saved(buffer) else WriteFailed
  }

  /**
   * What happens after the loop. Streaming: an open descriptor is closed and
   * the temporary file renamed over the target; with no open descriptor the
   * buffer is null, so the target gets nothing. In memory: the first `got`
   * bytes of the buffer are written when there are any, and a failing write
   * throws. A whole-file body replaces everything before it.
   */
  function Finish(canStream: bool, openOk: bool, writeOk: nat -> bool, rewriteOk: bool, renameOk: bool, writeFileOk: bool, w: Walk): Outcome {
    var s := Stream(openOk, writeOk, w.pieces);
    match w.end
    case Mismatch(e, st) => RangeMismatch(e, st)
    case FullFile(arr) =>
      if canStream && s.0 then
        if !rewriteOk then RewriteFailed else if renameOk then Saved(arr) else LeftInTemp(arr)
      else WriteBuffer(arr, writeFileOk)
    case _ =>
      if canStream then
        if s.0 then (if renameOk then Saved(s.1) else LeftInTemp(s.1)) else SavedNothing
      else WriteBuffer(Flatten(w.pieces), writeFileOk)
  }

  /** One turn of the loop, by what the server returns. */
  lemma {:induction false} WalkStep(server: (nat, nat) -> Chunk, total: nat, chunk: nat, offset: nat)
    requires chunk >= 1 && offset < total
    ensures var end := RangeEnd(total, chunk, offset);
      var c := server(offset, end);
      var w := WalkFrom(server, total, chunk, offset);
      if |c.body| == 0 then w == Walk([], EmptyChunk)
      else if |c.body| > (end - offset + 1) * 2 || |c.body| == total then w == Walk([], FullFile(c.body))
      else if c.start.Some? && c.start.value != offset then w == Walk([], Mismatch(offset, c.start.value))
      else
        var data := Cut(c.body, total - offset);
        var rest := WalkFrom(server, total, chunk, offset + |data|);
        w == Walk([data] + rest.pieces, rest.end)
  {
  }

  /** `dst.set(src, at)`. */
  method SetAt(dst: array<byte>, src: seq<byte>, at: nat)
    requires at + |src| <= dst.Length
    modifies dst
    ensures dst[..] == old(dst[..at]) + src + old(dst[at + |src|..])
  {
    for k := 0 to |src|
      invariant dst[..] == old(dst[..at]) + src[..k] + old(dst[at + k..])
    {
      dst[at + k] := src[k];
    }
  }

  /**
   * `targetBuf.set(dataToWrite, got)` with the buffer grown first when the
   * data does not fit, keeping its first `got` bytes.
   */
  method StoreInBuffer(targetBuf: array<byte>, got: nat, data: seq<byte>) returns (buf: array<byte>)
    requires got <= targetBuf.Length
    modifies targetBuf
    ensures buf == targetBuf || fresh(buf)
    ensures got + |data| <= buf.Length && buf[..got + |data|] == old(targetBuf[..got]) + data
  {
    buf := targetBuf;
    if got + |data| > targetBuf.Length {
      buf := new byte[got + |data|];
      SetAt(buf, targetBuf[..got], 0);
    }
    ghost var kept := buf[..got];
    SetAt(buf, data, got);
    assert buf[..got + |data|] == kept + data;
  }

  /** The loop invariant that ties the pieces written so far to the whole walk. */
  predicate Continues(goal: Walk, pieces: seq<seq<byte>>, server: (nat, nat) -> Chunk, total: nat, chunk: nat, offset: nat)
    requires chunk >= 1 && offset <= total
  {
    var w := WalkFrom(server, total, chunk, offset);
    goal.pieces == pieces + w.pieces && goal.end == w.end
  }

  /** A turn of the loop that stops: an empty body, a whole-file body or a wrong `Content-Range` start. */
  lemma {:induction false} StopStep(goal: Walk, pieces: seq<seq<byte>>, server: (nat, nat) -> Chunk, total: nat, chunk: nat, offset: nat, end: End)
    requires chunk >= 1 && offset < total
    requires Continues(goal, pieces, server, total, chunk, offset)
    requires var last := RangeEnd(total, chunk, offset);
      var c := server(offset, last);
      if |c.body| == 0 then end == EmptyChunk
      else if |c.body| > (last - offset + 1) * 2 || |c.body| == total then end == FullFile(c.body)
      else c.start.Some? && c.start.value != offset && end == Mismatch(offset, c.start.value)
    ensures goal == Walk(pieces, end)
  {
    WalkStep(server, total, chunk, offset);
  }

  /** The loop ends at the total. */
  lemma {:induction false} DoneStep(goal: Walk, pieces: seq<seq<byte>>, server: (nat, nat) -> Chunk, total: nat, chunk: nat)
    requires chunk >= 1
    requires Continues(goal, pieces, server, total, chunk, total)
    ensures goal == Walk(pieces, Done)
  {
    assert pieces + [] == pieces;
  }

  /** A turn of the loop that writes `Cut(body, total - offset)` and goes on. */
  lemma {:induction false} AcceptStep(goal: Walk, pieces: seq<seq<byte>>, server: (nat, nat) -> Chunk, total: nat, chunk: nat, offset: nat, c: Chunk, data: seq<byte>)
    requires chunk >= 1 && offset < total
    requires Continues(goal, pieces, server, total, chunk, offset)
    requires var end := RangeEnd(total, chunk, offset);
      c == server(offset, end)
      && |c.body| != 0 && !(|c.body| > (end - offset + 1) * 2 || |c.body| == total) && !(c.start.Some? && c.start.value != offset)
    requires data == Cut(c.body, total - offset)
    ensures |data| > 0 && offset + |data| <= total
    ensures Continues(goal, pieces + [data], server, total, chunk, offset + |data|)
  {
    WalkStep(server, total, chunk, offset);
    var rest := WalkFrom(server, total, chunk, offset + |data|);
    assert pieces + ([data] + rest.pieces) == (pieces + [data]) + rest.pieces;
  }

  lemma {:induction false} StreamStep(openOk: bool, writeOk: nat -> bool, pieces: seq<seq<byte>>, data: seq<byte>)
    ensures var s := Stream(openOk, writeOk, pieces);
      Stream(openOk, writeOk, pieces + [data]) == if s.0 && writeOk(|pieces|) then (true, s.1 + data) else (false, s.1)
  {
    assert (pieces + [data])[..|pieces|] == pieces;
  }

  /**
   * Writing one accepted chunk: through the descriptor when it is open
   * (`ok` says whether the write succeeds; a failure closes it), and into
   * the buffer when there is one.
   */
  method WriteChunk(fd: bool, file: seq<byte>, targetBuf: array?<byte>, got: nat, data: seq<byte>, ok: bool)
    returns (fd': bool, file': seq<byte>, buf: array?<byte>)
    requires targetBuf != null ==> got <= targetBuf.Length
    modifies if targetBuf != null then {targetBuf} else {}
    ensures fd' == (fd && ok) && file' == if fd && ok then file + data else file
    ensures targetBuf == null ==> buf == null
    ensures targetBuf != null ==> (buf != null && (buf == targetBuf || fresh(buf))
      && got + |data| <= buf.Length && buf[..got + |data|] == old(targetBuf[..got]) + data)
  {
    fd', file' := fd, file;
    if fd {
      if ok {
        file' := file + data;
      } else {
        fd' := false;
      }
    }
    buf := targetBuf;
    if targetBuf != null {
      buf := StoreInBuffer(targetBuf, got, data);
    }
  }

  /**
   * The code after the loop: rename an open stream over the target, or write
   * the buffer's first `got` bytes when there are any; that write throws on
   * failure.
   */
  method Conclude(fd: bool, file: seq<byte>, targetBuf: array?<byte>, got: nat, renameOk: bool, writeFileOk: bool) returns (outcome: Outcome)
    requires targetBuf != null ==> got <= targetBuf.Length
    ensures fd ==> outcome == if renameOk then Saved(file) else LeftInTemp(file)
    ensures !fd && targetBuf != null && got > 0 ==> outcome == if writeFileOk then Saved(targetBuf[..got]) else WriteFailed
    ensures !fd && (targetBuf == null || got == 0) ==> outcome == SavedNothing
  {
    if fd {
      return if renameOk then Saved(file) else LeftInTemp(file);
    }
    var buffer := if targetBuf != null then targetBuf[..got] else [];
    if |buffer| == 0 {
      return SavedNothing;
    }
    outcome := if writeFileOk then Saved(buffer) else WriteFailed;
  }

  /**
   * A body taken for the whole file: an open stream is reopened and gets the
   * body (a failure is rethrown); otherwise the buffer becomes the body.
   * Then the code after the loop runs with `got` the body's length.
   */
  method WholeFile(arr: seq<byte>, fd: bool, file: seq<byte>, renameOk: bool, writeFileOk: bool, rewriteOk: bool) returns (outcome: Outcome)
    requires |arr| > 0
    ensures outcome == if fd then (if !rewriteOk then RewriteFailed else if renameOk then Saved(arr) else LeftInTemp(arr))
                      else if writeFileOk then Saved(arr) else WriteFailed
  {
    var file' := file;
    var targetBuf: array?<byte> := null;
    if fd {
      if !rewriteOk {
        return RewriteFailed;
      }
      file' := arr;
    } else {
      targetBuf := new byte[|arr|](i requires 0 <= i < |arr| => arr[i]);
    }
    var got := |arr|;
    outcome := Conclude(fd, file', targetBuf, got, renameOk, writeFileOk);
  }

  /** What happens after a loop that ended at the total or at an empty body. */
  lemma {:induction false} FinishRegular(canStream: bool, openOk: bool, writeOk: nat -> bool, rewriteOk: bool, renameOk: bool, writeFileOk: bool, w: Walk)
    requires w.end == Done || w.end == EmptyChunk
    ensures var s := Stream(openOk, writeOk, w.pieces);
      Finish(canStream, openOk, writeOk, rewriteOk, renameOk, writeFileOk, w) ==
        if canStream then (if s.0 then (if renameOk then Saved(s.1) else LeftInTemp(s.1)) else SavedNothing)
        else if |Flatten(w.pieces)| == 0 then SavedNothing
        else if writeFileOk then Saved(Flatten(w.pieces)) else WriteFailed
  {
  }

  /** The facts the loop keeps about the pieces written so far, the offset, the chunk count and the stream. */
  predicate TurnInv(goal: Walk, pieces: seq<seq<byte>>, server: (nat, nat) -> Chunk, total: nat, chunk: nat, offset: nat, chunks: nat,
                    canStream: bool, openOk: bool, writeOk: nat -> bool, fd: bool, file: seq<byte>)
    requires chunk >= 1
  {
    offset == |Flatten(pieces)| <= total && chunks == |pieces|
    && Continues(goal, pieces, server, total, chunk, offset)
    && (canStream ==> (fd, file) == Stream(openOk, writeOk, pieces))
    && (!canStream ==> !fd)
  }

  /** An accepted chunk keeps the loop's facts, one piece and `|data|` bytes further on. */
  lemma {:induction false} AcceptKeeps(goal: Walk, pieces: seq<seq<byte>>, server: (nat, nat) -> Chunk, total: nat, chunk: nat, offset: nat, chunks: nat,
                                       canStream: bool, openOk: bool, writeOk: nat -> bool, fd: bool, file: seq<byte>, c: Chunk, data: seq<byte>)
    requires chunk >= 1 && offset < total
    requires TurnInv(goal, pieces, server, total, chunk, offset, chunks, canStream, openOk, writeOk, fd, file)
    requires var end := RangeEnd(total, chunk, offset);
      c == server(offset, end)
      && |c.body| != 0 && !(|c.body| > (end - offset + 1) * 2 || |c.body| == total) && !(c.start.Some? && c.start.value != offset)
    requires data == Cut(c.body, total - offset)
    ensures offset < offset + |data| <= total
    ensures Flatten(pieces + [data]) == Flatten(pieces) + data
    ensures var ok := fd && writeOk(chunks);
      TurnInv(goal, pieces + [data], server, total, chunk, offset + |data|, chunks + 1, canStream, openOk, writeOk, ok, if ok then file + data else file)
  {
    AcceptStep(goal, pieces, server, total, chunk, offset, c, data);
    StreamStep(openOk, writeOk, pieces, data);
    FlattenAppend(pieces, data);
  }

  /** How a turn of the loop ends: on to the next chunk, `break`, or out of the method. */
  datatype Turned = Continue | Break | Exit(outcome: Outcome)

  /**
   * One turn of the download loop, at `offset` (which is also `got`, the
   * bytes written so far): request `[offset, end]`, then stop, leave, or
   * write the chunk cut to the bytes still expected.
   */
  method Turn(server: (nat, nat) -> Chunk, total: nat, chunk: nat, canStream: bool, openOk: bool,
              writeOk: nat -> bool, rewriteOk: bool, renameOk: bool, writeFileOk: bool,
              ghost goal: Walk, ghost pieces: seq<seq<byte>>, offset: nat, chunks: nat, fd: bool, file: seq<byte>, targetBuf: array?<byte>)
    returns (turned: Turned, ghost pieces': seq<seq<byte>>, offset': nat, fd': bool, file': seq<byte>, buf: array?<byte>)
    requires chunk >= 1 && total > chunk && offset < total
    requires TurnInv(goal, pieces, server, total, chunk, offset, chunks, canStream, openOk, writeOk, fd, file)
    requires canStream ==> targetBuf == null
    requires !canStream ==> targetBuf != null && offset <= targetBuf.Length && targetBuf[..offset] == Flatten(pieces)
    modifies if targetBuf != null then {targetBuf} else {}
    ensures turned.Continue? ==> offset < offset' <= total
    ensures turned.Continue? ==> TurnInv(goal, pieces', server, total, chunk, offset', chunks + 1, canStream, openOk, writeOk, fd', file')
    ensures turned.Continue? && canStream ==> buf == null
    ensures turned.Continue? && !canStream ==>
      buf != null && (buf == targetBuf || fresh(buf)) && offset' <= buf.Length && buf[..offset'] == Flatten(pieces')
    ensures turned.Break? ==> goal == Walk(pieces, EmptyChunk) && pieces' == pieces && fd' == fd && file' == file && buf == targetBuf && offset' == offset
    ensures turned.Break? && !canStream ==> buf != null && offset' <= buf.Length && buf[..offset'] == Flatten(pieces')
    ensures turned.Exit? ==> turned.outcome == Finish(canStream, openOk, writeOk, rewriteOk, renameOk, writeFileOk, goal) && chunks == |goal.pieces|
  {
    pieces', offset', fd', file', buf := pieces, offset, fd, file, targetBuf;
    var got := offset;
    var endByte := RangeEnd(total, chunk, offset);
    var requestedSize := endByte - offset + 1;
    var c := server(offset, endByte);
    var arr := c.body;
    if |arr| == 0 {
      StopStep(goal, pieces, server, total, chunk, offset, EmptyChunk);
      return Break, pieces', offset', fd', file', buf;
    }
    if |arr| > requestedSize * 2 || |arr| == total {
      StopStep(goal, pieces, server, total, chunk, offset, FullFile(arr));
      var outcome := WholeFile(arr, fd, file, renameOk, writeFileOk, rewriteOk);
      return Exit(outcome), pieces', offset', fd', file', buf;
    }
    if c.start.Some? && c.start.value != offset {
      StopStep(goal, pieces, server, total, chunk, offset, Mismatch(offset, c.start.value));
      return Exit(RangeMismatch(offset, c.start.value)), pieces', offset', fd', file', buf;
    }
    var dataToWrite := arr;
    if got + |arr| > total {
      dataToWrite := arr[..total - got];
    }
    assert dataToWrite == Cut(arr, total - offset);
    pieces', offset', fd', file', buf := Accept(server, total, chunk, canStream, openOk, writeOk, goal, pieces, offset, chunks, fd, file, targetBuf, c, dataToWrite);
    turned := Continue;
  }

  /** The end of a turn that goes on: write the chunk, one piece and `|data|` bytes further on. */
  method Accept(server: (nat, nat) -> Chunk, total: nat, chunk: nat, canStream: bool, openOk: bool, writeOk: nat -> bool,
                ghost goal: Walk, ghost pieces: seq<seq<byte>>, offset: nat, chunks: nat, fd: bool, file: seq<byte>, targetBuf: array?<byte>,
                c: Chunk, data: seq<byte>)
    returns (ghost pieces': seq<seq<byte>>, offset': nat, fd': bool, file': seq<byte>, buf: array?<byte>)
    requires chunk >= 1 && offset < total
    requires TurnInv(goal, pieces, server, total, chunk, offset, chunks, canStream, openOk, writeOk, fd, file)
    requires canStream ==> targetBuf == null
    requires !canStream ==> targetBuf != null && offset <= targetBuf.Length && targetBuf[..offset] == Flatten(pieces)
    requires var end := RangeEnd(total, chunk, offset);
      c == server(offset, end)
      && |c.body| != 0 && !(|c.body| > (end - offset + 1) * 2 || |c.body| == total) && !(c.start.Some? && c.start.value != offset)
    requires data == Cut(c.body, total - offset)
    modifies if targetBuf != null then {targetBuf} else {}
    ensures offset < offset' <= total
    ensures TurnInv(goal, pieces', server, total, chunk, offset', chunks + 1, canStream, openOk, writeOk, fd', file')
    ensures canStream ==> buf == null
    ensures !canStream ==> buf != null && (buf == targetBuf || fresh(buf)) && offset' <= buf.Length && buf[..offset'] == Flatten(pieces')
  {
    AcceptKeeps(goal, pieces, server, total, chunk, offset, chunks, canStream, openOk, writeOk, fd, file, c, data);
    fd', file', buf := WriteChunk(fd, file, targetBuf, offset, data, writeOk(chunks));
    pieces' := pieces + [data];
    offset' := offset + |data|;
  }

  /**
   * The chunked branch of `downloadRemoteFile` for a file of `size` bytes:
   * the outcome and the number of chunks written.
   */
  method DownloadChunked(server: (nat, nat) -> Chunk, size: nat, chunk: nat, canStream: bool, openOk: bool,
                         writeOk: nat -> bool, rewriteOk: bool, renameOk: bool, writeFileOk: bool) returns (outcome: Outcome, chunks: nat)
    requires chunk >= 1 && size > chunk
    ensures var w := WalkFrom(server, size, chunk, 0);
      outcome == Finish(canStream, openOk, writeOk, rewriteOk, renameOk, writeFileOk, w) && chunks == |w.pieces|
  {
    var total := size;
    var offset, got := 0, 0;
    chunks := 0;
    var targetBuf: array?<byte> := null;
    if !canStream {
      targetBuf := new byte[total];
    }
    var fd := canStream && openOk;
    var file: seq<byte> := [];
    ghost var pieces: seq<seq<byte>> := [];
    ghost var end := Done;
    ghost var goal := WalkFrom(server, size, chunk, 0);
    assert [] + goal.pieces == goal.pieces;
    while offset < total
      invariant offset == got && total == size
      invariant TurnInv(goal, pieces, server, size, chunk, offset, chunks, canStream, openOk, writeOk, fd, file)
      invariant canStream ==> targetBuf == null
      invariant !canStream ==> targetBuf != null && fresh(targetBuf) && got <= targetBuf.Length && targetBuf[..got] == Flatten(pieces)
      decreases total - offset
    {
      var turned;
      turned, pieces, offset, fd, file, targetBuf := Turn(server, total, chunk, canStream, openOk, writeOk, rewriteOk, renameOk, writeFileOk, goal, pieces, offset, chunks, fd, file, targetBuf);
      if turned.Break? {
        end := EmptyChunk;
        break;
      }
      if turned.Exit? {
        return turned.outcome, chunks;
      }
      got := offset;
      chunks := chunks + 1;
    }
    if end == Done {
      DoneStep(goal, pieces, server, size, chunk);
    }
    assert goal == Walk(pieces, end);
    FinishRegular(canStream, openOk, writeOk, rewriteOk, renameOk, writeFileOk, goal);
    outcome := Conclude(fd, file, targetBuf, got, renameOk, writeFileOk);
  }
}
