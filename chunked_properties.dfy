/**
 * What the chunked download promises: it never takes more bytes than the
 * file has, a server that honours `Range` yields the file exactly, in one
 * request per chunk, a server that ignores it yields the body it sent, and
 * a `Content-Range` start other than the offset aborts the download.
 */
module ChunkedProperties {
  import opened Common
  import opened Chunked

  lemma {:induction false} FlattenPrepend(d: seq<byte>, pieces: seq<seq<byte>>)
    ensures Flatten([d] + pieces) == d + Flatten(pieces)
  {
    assert ([d] + pieces)[0] == d;
    assert ([d] + pieces)[1..] == pieces;
  }

  /**
   * From any offset the pieces written hold at most the bytes still
   * missing, exactly those when the loop reaches the total; every piece is
   * non-empty and at most twice the chunk size (a larger body is taken for
   * the whole file instead).
   */
  lemma {:induction false} WalkBounds(server: (nat, nat) -> Chunk, total: nat, chunk: nat, offset: nat)
    requires chunk >= 1 && offset <= total
    ensures var w := WalkFrom(server, total, chunk, offset);
      |Flatten(w.pieces)| <= total - offset
      && (w.end == Done ==> |Flatten(w.pieces)| == total - offset)
      && forall i :: 0 <= i < |w.pieces| ==> 0 < |w.pieces[i]| <= chunk * 2
    decreases total - offset
  {
    if offset < total && TurnAt(server, total, chunk, offset).Take? {
      var data := TurnAt(server, total, chunk, offset).data;
      assert |data| <= chunk * 2 by {
        var end := RangeEnd(total, chunk, offset);
        assert |server(offset, end).body| <= (end - offset + 1) * 2;
      }
      var rest := WalkFrom(server, total, chunk, offset + |data|);
      WalkBounds(server, total, chunk, offset + |data|);
      FlattenPrepend(data, rest.pieces);
      var pieces := [data] + rest.pieces;
      forall i | 0 <= i < |pieces|
        ensures 0 < |pieces[i]| <= chunk * 2
      {
        if i > 0 {
          assert pieces[i] == rest.pieces[i - 1];
        }
      }
    }
  }

  /**
   * A server that honours every `Range` request on the file `f`: the body is
   * exactly the bytes asked for, and a `Content-Range` start, when there is
   * one, is the offset.
   */
  ghost predicate Honest(server: (nat, nat) -> Chunk, f: seq<byte>) {
    forall o: nat, e: nat :: o <= e < |f| ==>
      server(o, e).body == f[o..e + 1] && (server(o, e).start.None? || server(o, e).start.value == o)
  }

  /** One turn with an honest server: the next `min(chunk, |f| - offset)` bytes of the file. */
  lemma {:induction false} HonestTurn(server: (nat, nat) -> Chunk, f: seq<byte>, chunk: nat, offset: nat)
    requires chunk >= 1 && |f| > chunk && offset < |f| && Honest(server, f)
    ensures TurnAt(server, |f|, chunk, offset) == Take(f[offset..offset + Min(chunk, |f| - offset)])
  {
    var end := RangeEnd(|f|, chunk, offset);
    assert server(offset, end).body == f[offset..end + 1];
  }

  /** `k` pieces of at most `chunk` bytes, all full but the last, cover `n` bytes. */
  lemma {:induction false} CountStep(chunk: nat, n: nat, k: nat)
    requires chunk >= 1 && n > 0
    requires n <= chunk ==> k == 0
    requires n > chunk ==> chunk * (k - 1) < n - chunk <= chunk * k
    ensures chunk * k < n <= chunk * (k + 1)
  {
    assert chunk * (k + 1) == chunk * k + chunk;
    if n > chunk {
      assert chunk * (k - 1) + chunk == chunk * k;
    }
  }

  /**
   * With an honest server the loop runs to the total and the pieces are the
   * file from `offset` on.
   */
  lemma {:induction false} HonestWalk(server: (nat, nat) -> Chunk, f: seq<byte>, chunk: nat, offset: nat)
    requires chunk >= 1 && |f| > chunk && offset <= |f| && Honest(server, f)
    ensures var w := WalkFrom(server, |f|, chunk, offset);
      w.end == Done && Flatten(w.pieces) == f[offset..]
    decreases |f| - offset
  {
    if offset < |f| {
      var next := offset + Min(chunk, |f| - offset);
      var rest := WalkFrom(server, |f|, chunk, next);
      HonestTurn(server, f, chunk, offset);
      HonestWalk(server, f, chunk, next);
      FlattenPrepend(f[offset..next], rest.pieces);
      assert f[offset..] == f[offset..next] + f[next..];
    }
  }

  /**
   * With an honest server every chunk is full size but the last: the rest
   * of the file takes `k` requests with `chunk * (k - 1) < |f| - offset <= chunk * k`.
   */
  lemma {:induction false} HonestCount(server: (nat, nat) -> Chunk, f: seq<byte>, chunk: nat, offset: nat)
    requires chunk >= 1 && |f| > chunk && offset <= |f| && Honest(server, f)
    ensures var w := WalkFrom(server, |f|, chunk, offset);
      (offset == |f| ==> |w.pieces| == 0)
      && (offset < |f| ==> chunk * (|w.pieces| - 1) < |f| - offset <= chunk * |w.pieces|)
    decreases |f| - offset
  {
    if offset < |f| {
      var next := offset + Min(chunk, |f| - offset);
      var k := |WalkFrom(server, |f|, chunk, next).pieces|;
      HonestTurn(server, f, chunk, offset);
      HonestCount(server, f, chunk, next);
      CountStep(chunk, |f| - offset, k);
    }
  }

  lemma {:induction false} StreamAllOk(openOk: bool, writeOk: nat -> bool, pieces: seq<seq<byte>>)
    requires forall i :: 0 <= i < |pieces| ==> writeOk(i)
    ensures Stream(openOk, writeOk, pieces) == (openOk, if openOk then Flatten(pieces) else [])
    decreases |pieces|
  {
    if pieces != [] {
      StreamAllOk(openOk, writeOk, pieces[..|pieces| - 1]);
    }
  }

  /** Once a write fails the descriptor stays closed. */
  lemma {:induction false} StreamStops(openOk: bool, writeOk: nat -> bool, pieces: seq<seq<byte>>, k: nat)
    requires k < |pieces| && !writeOk(k)
    ensures !Stream(openOk, writeOk, pieces).0
    decreases |pieces|
  {
    if k < |pieces| - 1 {
      StreamStops(openOk, writeOk, pieces[..|pieces| - 1], k);
    }
  }

  /**
   * An honest server and a working filesystem: the target gets the file.
   * In memory that holds when the final write succeeds, which otherwise
   * throws; streaming, it holds when the temporary file opens, every write
   * succeeds and the rename succeeds, and the file stays in the temporary
   * one when only the rename fails.
   */
  lemma {:induction false} HonestDownload(server: (nat, nat) -> Chunk, f: seq<byte>, chunk: nat, canStream: bool, openOk: bool,
                                          writeOk: nat -> bool, rewriteOk: bool, renameOk: bool, writeFileOk: bool)
    requires chunk >= 1 && |f| > chunk && Honest(server, f)
    ensures var w := WalkFrom(server, |f|, chunk, 0);
      (!canStream ==> Finish(canStream, openOk, writeOk, rewriteOk, renameOk, writeFileOk, w) == if writeFileOk then Saved(f) else WriteFailed)
      && (canStream && openOk && (forall i :: 0 <= i < |w.pieces| ==> writeOk(i)) ==>
            Finish(canStream, openOk, writeOk, rewriteOk, renameOk, writeFileOk, w) == if renameOk then Saved(f) else LeftInTemp(f))
  {
    var w := WalkFrom(server, |f|, chunk, 0);
    HonestWalk(server, f, chunk, 0);
    assert f[0..] == f;
    if canStream && openOk && (forall i :: 0 <= i < |w.pieces| ==> writeOk(i)) {
      StreamAllOk(openOk, writeOk, w.pieces);
    }
  }

  /**
   * A server that ignores `Range` and sends the whole file `f` every time:
   * the first body is taken for the file, which the target gets unless the
   * rewrite of the open stream, the rename or the write from memory fails.
   */
  lemma {:induction false} RangeIgnored(server: (nat, nat) -> Chunk, f: seq<byte>, chunk: nat, canStream: bool, openOk: bool,
                                        writeOk: nat -> bool, rewriteOk: bool, renameOk: bool, writeFileOk: bool)
    requires chunk >= 1 && |f| > chunk
    requires forall o: nat, e: nat :: server(o, e).body == f
    ensures var w := WalkFrom(server, |f|, chunk, 0);
      w == Walk([], FullFile(f))
      && (!canStream || !openOk ==> Finish(canStream, openOk, writeOk, rewriteOk, renameOk, writeFileOk, w) == if writeFileOk then Saved(f) else WriteFailed)
      && (canStream && openOk && rewriteOk ==> Finish(canStream, openOk, writeOk, rewriteOk, renameOk, writeFileOk, w) == if renameOk then Saved(f) else LeftInTemp(f))
      && (canStream && openOk && !rewriteOk ==> Finish(canStream, openOk, writeOk, rewriteOk, renameOk, writeFileOk, w) == RewriteFailed)
  {
    WalkStep(server, |f|, chunk, 0);
  }

  /**
   * A first body of the size asked for whose `Content-Range` starts anywhere
   * but at 0 aborts the download with a mismatch error.
   */
  lemma {:induction false} FirstRangeMismatch(server: (nat, nat) -> Chunk, total: nat, chunk: nat, canStream: bool, openOk: bool,
                                              writeOk: nat -> bool, rewriteOk: bool, renameOk: bool, writeFileOk: bool, start: nat)
    requires chunk >= 1 && total > chunk && start != 0
    requires var c := server(0, chunk - 1); |c.body| == chunk && c.start == Some(start)
    ensures var w := WalkFrom(server, total, chunk, 0);
      w == Walk([], Mismatch(0, start)) && Finish(canStream, openOk, writeOk, rewriteOk, renameOk, writeFileOk, w) == RangeMismatch(0, start)
  {
    WalkStep(server, total, chunk, 0);
  }

  // ---------------------------------------------------------------- the stream fallback

  /**
   * As written: when the temporary file does not open, or the first write
   * to it fails, the download of an honest server's file still returns
   * normally but writes nothing to the target, since in stream mode there
   * is no memory buffer to fall back to.
   */
  lemma {:induction false} StreamFailureLosesDownload(server: (nat, nat) -> Chunk, f: seq<byte>, chunk: nat, openOk: bool,
                                                      writeOk: nat -> bool, rewriteOk: bool, renameOk: bool, writeFileOk: bool)
    requires chunk >= 1 && |f| > chunk && Honest(server, f)
    requires !openOk || !writeOk(0)
    ensures Finish(true, openOk, writeOk, rewriteOk, renameOk, writeFileOk, WalkFrom(server, |f|, chunk, 0)) == SavedNothing
  {
    var w := WalkFrom(server, |f|, chunk, 0);
    HonestWalk(server, f, chunk, 0);
    if !openOk {
      assert !Stream(openOk, writeOk, w.pieces).0;
    } else {
      StreamStops(openOk, writeOk, w.pieces, 0);
    }
  }

  /**
   * The fallback the warnings announce ("fallback to memory", "switching to
   * memory"): every accepted chunk is also kept in memory, and when the
   * stream is not open at the end the target gets those bytes.
   */
  function CorrectedFinish(canStream: bool, openOk: bool, writeOk: nat -> bool, rewriteOk: bool, renameOk: bool, writeFileOk: bool, w: Walk): Outcome
  {
    var s := Stream(openOk, writeOk, w.pieces);
    if w.end.Mismatch? || w.end.FullFile? || (canStream && s.0) then Finish(canStream, openOk, writeOk, rewriteOk, renameOk, writeFileOk, w)
    else WriteBuffer(Flatten(w.pieces), writeFileOk)
  }

  /**
   * With the fallback, an honest server's file reaches the target whatever
   * happens to the stream, except that a failed rename of a stream still
   * open leaves it in the temporary file and a failed write from memory
   * throws.
   */
  lemma {:induction false} CorrectedHonestDownload(server: (nat, nat) -> Chunk, f: seq<byte>, chunk: nat, canStream: bool, openOk: bool,
                                                   writeOk: nat -> bool, rewriteOk: bool, renameOk: bool, writeFileOk: bool)
    requires chunk >= 1 && |f| > chunk && Honest(server, f)
    ensures var w := WalkFrom(server, |f|, chunk, 0);
      CorrectedFinish(canStream, openOk, writeOk, rewriteOk, renameOk, writeFileOk, w) ==
        if canStream && Stream(openOk, writeOk, w.pieces).0 then (if renameOk then Saved(f) else LeftInTemp(f))
        else if writeFileOk then Saved(f) else WriteFailed
  {
    HonestWalk(server, f, chunk, 0);
    assert f[0..] == f;
  }
}
