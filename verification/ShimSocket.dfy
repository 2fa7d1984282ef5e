/** The hook shim's end of the ingest socket (`shim/src/socket.rs`): bounded writes, bounded reads and the
    framing of the one-line reply. */
module ShimSocket {
  import opened Protocol
  import opened Utf8

  const SEND_CHUNK_BYTES := 8192
  const REPLY_BUF_BYTES := 4096
  const NEWLINE: byte := 10

  /** Nanoseconds, as measured by the monotonic clock. */
  type Duration = nat

  function AsMillis(d: Duration): nat {
    d / 1_000_000
  }

  datatype TimeoutOp = Write | Read

  datatype BadReply = NotUtf8(bytes: seq<byte>) | Empty | Unexpected(text: string) | NoNewline(size: nat)

  datatype Error =
    | Timeout(op: TimeoutOp, budgetMs: nat, elapsedMs: nat)
    | SocketIo
    | WriteZero
    | BadResponse(reply: BadReply)

  datatype Result<+T> = Success(value: T) | Failure(error: Error)

  datatype Response = Accepted | Backpressure | DaemonError(reason: string)

  // ---- Writing ----

  /** What one write call does: takes some bytes, is interrupted, runs into the socket's own timeout (and
      the clock then reads `elapsed`), or fails. */
  datatype WriteResult = Wrote(n: nat) | WriteInterrupted | WriteExpired(elapsed: Duration) | WriteFailed

  /** The clock at the head of one round of the loop, and what the write of that round does. */
  datatype WriteTick = WriteTick(elapsed: Duration, io: WriteResult)

  /** One write call: when it started, the bytes it was offered and those it took. */
  datatype Call = Call(at: Duration, offered: seq<byte>, taken: seq<byte>)

  /** The clock in round `i`; once the script is used up, the budget is. */
  function WriteClock(script: seq<WriteTick>, i: nat, budget: Duration): Duration {
    if i < |script| then script[i].elapsed else budget
  }

  function Min(a: nat, b: nat): nat {
    if a < b then a else b
  }

  function Taken(io: WriteResult, offered: seq<byte>): seq<byte> {
    match io
    case Wrote(n) => offered[..Min(n, |offered|)]
    case _ => []
  }

  function Delivered(calls: seq<Call>): seq<byte> {
    if calls == [] then [] else Delivered(calls[..|calls| - 1]) + calls[|calls| - 1].taken
  }

  /** What lets a write go on to its next call. */
  predicate GoesOn(io: WriteResult) {
    io == WriteInterrupted || (io.Wrote? && io.n > 0)
  }

  /** The call of one round: it is offered the next bytes, at most a chunk of them. */
  function NextCall(buf: seq<byte>, done: nat, tick: WriteTick): (c: Call)
    requires done < |buf|
    ensures 0 < |c.offered| <= SEND_CHUNK_BYTES && done + |c.taken| <= |buf|
  {
    var offered := buf[done..Min(done + SEND_CHUNK_BYTES, |buf|)];
    Call(tick.elapsed, offered, Taken(tick.io, offered))
  }

  /** The calls of one run: each before the deadline, on what the earlier ones left, and only after a call
      that lets the write go on. */
  predicate CallsFit(buf: seq<byte>, budget: Duration, script: seq<WriteTick>, calls: seq<Call>)
    decreases |calls|
  {
    calls == [] ||
    var n, before := |calls| - 1, calls[..|calls| - 1];
    && CallsFit(buf, budget, script, before)
    && n < |script| && script[n].elapsed < budget && (n > 0 ==> GoesOn(script[n - 1].io))
    && |Delivered(before)| < |buf| && calls[n] == NextCall(buf, |Delivered(before)|, script[n])
  }

  /** Why a write gives up after these calls: the deadline has passed, or the last call took nothing, ran into
      the socket's timeout, or failed. An interruption is no reason. */
  predicate WriteStops(budget: Duration, script: seq<WriteTick>, calls: seq<Call>, e: Error) {
    var now := WriteClock(script, |calls|, budget);
    || (now >= budget && e == Timeout(Write, AsMillis(budget), AsMillis(now)))
    || (0 < |calls| <= |script| &&
        match script[|calls| - 1].io
        case Wrote(n) => n == 0 && e == WriteZero
        case WriteInterrupted => false
        case WriteExpired(elapsed) => e == Timeout(Write, AsMillis(budget), AsMillis(elapsed))
        case WriteFailed => e == SocketIo)
  }

  /** Durations are told in whole milliseconds, rounded down. */
  lemma AsMillisIsFloor(d: Duration)
    ensures AsMillis(d) * 1_000_000 <= d < (AsMillis(d) + 1) * 1_000_000
  {
  }

  /** `write_bounded`: on success exactly the buffer was delivered, on failure a proper prefix of it. */
  method WriteBounded(buf: seq<byte>, budget: Duration, script: seq<WriteTick>) returns (r: Result<()>, calls: seq<Call>)
    ensures CallsFit(buf, budget, script, calls)
    ensures Delivered(calls) <= buf
    ensures r.Success? ==> Delivered(calls) == buf
    ensures r.Failure? ==> Delivered(calls) < buf && WriteStops(budget, script, calls, r.error)
    ensures r.Success? && calls != [] ==> GoesOn(script[|calls| - 1].io)
  {
    calls := [];
    r := Success(());
    var written := 0;
    var i := 0;
    while written < |buf|
      invariant CallsFit(buf, budget, script, calls) && |calls| == i <= |script|
      invariant r.Success? && written == |Delivered(calls)| <= |buf|
      invariant i > 0 ==> GoesOn(script[i - 1].io)
      decreases |script| - i
    {
      var elapsed := WriteClock(script, i, budget);
      if elapsed >= budget {
        r := Failure(Timeout(Write, AsMillis(budget), AsMillis(elapsed)));
        break;
      }
      var end := Min(written + SEND_CHUNK_BYTES, |buf|);
      var io := script[i].io;
      var call := Call(elapsed, buf[written..end], Taken(io, buf[written..end]));
      assert call == NextCall(buf, written, script[i]);
      CallAppended(buf, budget, script, calls);
      calls := calls + [call];
      i := i + 1;
      r := Stops(io, budget);
      if r.Failure? { break; }
      written := written + |call.taken|;
    }
    DeliveredIsPrefix(buf, budget, script, calls);
  }

  /** What a call's result means for the loop: go on, or give up. */
  function Stops(io: WriteResult, budget: Duration): Result<()> {
    match io
    case Wrote(n) => if n == 0 then Failure(WriteZero) else Success(())
    case WriteInterrupted => Success(())
    case WriteExpired(elapsed) => Failure(Timeout(Write, AsMillis(budget), AsMillis(elapsed)))
    case WriteFailed => Failure(SocketIo)
  }

  lemma CallAppended(buf: seq<byte>, budget: Duration, script: seq<WriteTick>, calls: seq<Call>)
    requires CallsFit(buf, budget, script, calls) && |calls| < |script| && script[|calls|].elapsed < budget
    requires |Delivered(calls)| < |buf| && (calls != [] ==> GoesOn(script[|calls| - 1].io))
    ensures var call := NextCall(buf, |Delivered(calls)|, script[|calls|]);
      && CallsFit(buf, budget, script, calls + [call])
      && |Delivered(calls + [call])| == |Delivered(calls)| + |call.taken| <= |buf|
      && (Stops(script[|calls|].io, budget).Failure? ==> call.taken == [])
      && (Stops(script[|calls|].io, budget).Success? <==> GoesOn(script[|calls|].io))
  {
    assert (calls + [NextCall(buf, |Delivered(calls)|, script[|calls|])])[..|calls|] == calls;
  }

  lemma {:induction false} DeliveredIsPrefix(buf: seq<byte>, budget: Duration, script: seq<WriteTick>, calls: seq<Call>)
    requires CallsFit(buf, budget, script, calls)
    ensures Delivered(calls) <= buf
    ensures |Delivered(calls)| == |buf| ==> Delivered(calls) == buf
    ensures |Delivered(calls)| < |buf| ==> Delivered(calls) < buf
  {
    if calls != [] {
      var last, before := calls[|calls| - 1], calls[..|calls| - 1];
      DeliveredIsPrefix(buf, budget, script, before);
      assert last.taken == last.offered[..|last.taken|];
      assert Delivered(calls) == buf[..|Delivered(calls)|];
    }
  }

  /** A payload of at most one chunk that the socket takes whole costs exactly one call. */
  lemma ShortPayloadIsOneCall(buf: seq<byte>, budget: Duration, script: seq<WriteTick>, calls: seq<Call>)
    requires 0 < |buf| <= SEND_CHUNK_BYTES && CallsFit(buf, budget, script, calls)
    requires script != [] && script[0].io.Wrote? && script[0].io.n >= |buf|
    ensures |calls| <= 1
    ensures |calls| == 1 ==> Delivered(calls) == buf
  {
    if |calls| >= 1 {
      FirstCallTakesAll(buf, budget, script, calls);
    }
  }

  lemma {:induction false} FirstCallTakesAll(buf: seq<byte>, budget: Duration, script: seq<WriteTick>, calls: seq<Call>)
    requires 0 < |buf| <= SEND_CHUNK_BYTES && CallsFit(buf, budget, script, calls) && |calls| >= 1
    requires script != [] && script[0].io.Wrote? && script[0].io.n >= |buf|
    ensures |calls| == 1 && Delivered(calls) == buf
  {
    var before := calls[..|calls| - 1];
    if |calls| > 1 {
      FirstCallTakesAll(buf, budget, script, before);
    } else {
      assert before == [] && Delivered(before) == [];
    }
  }

  /** No call starts at or past the deadline, and none is offered more than a chunk. */
  lemma {:induction false} CallsAreBounded(buf: seq<byte>, budget: Duration, script: seq<WriteTick>, calls: seq<Call>)
    requires CallsFit(buf, budget, script, calls)
    ensures forall c <- calls :: c.at < budget && 0 < |c.offered| <= 8192 && c.taken <= c.offered
  {
    if calls != [] {
      CallsAreBounded(buf, budget, script, calls[..|calls| - 1]);
      assert calls == calls[..|calls| - 1] + [calls[|calls| - 1]];
    }
  }

  // ---- Reading ----

  /** What one read call does: finds up to `n` bytes ready (at least one unless the stream has ended), is
      interrupted, runs into the socket's own timeout, or fails. */
  datatype ReadResult = Ready(n: nat) | ReadInterrupted | ReadExpired(elapsed: Duration) | ReadFailed

  datatype ReadTick = ReadTick(elapsed: Duration, io: ReadResult)

  function ReadClock(script: seq<ReadTick>, i: nat, budget: Duration): Duration {
    if i < |script| then script[i].elapsed else budget
  }

  /** The bytes one read hands over: at least one when there is any, at most the room in the buffer. */
  function Handed(stream: seq<byte>, filled: nat, n: nat, room: nat): (k: nat)
    requires filled <= |stream|
    ensures filled + k <= |stream| && k <= room
  {
    Min(Min(if n == 0 then 1 else n, room), |stream| - filled)
  }

  /** Rounds without an error, all within the budget, with enough data rounds to see the stream's end. */
  predicate Clean(script: seq<ReadTick>, budget: Duration, stream: seq<byte>) {
    && |ReadySizes(script)| > |stream|
    && forall t <- script :: t.elapsed < budget && (t.io.Ready? || t.io.ReadInterrupted?)
  }

  function Joined(pieces: seq<seq<byte>>): seq<byte> {
    if pieces == [] then [] else Joined(pieces[..|pieces| - 1]) + pieces[|pieces| - 1]
  }

  /** Reads that each brought something, none of them a newline. */
  predicate NoLineYet(pieces: seq<seq<byte>>) {
    forall k :: 0 <= k < |pieces| ==> pieces[k] != [] && NEWLINE !in pieces[k]
  }

  /** The pieces of a successful call: the first that brings a newline is the last, and if none does the
      stream ended before the buffer was full. */
  predicate StopsAtNewline(pieces: seq<seq<byte>>, stream: seq<byte>, cap: nat) {
    || (pieces != [] && NoLineYet(pieces[..|pieces| - 1]) && NEWLINE in pieces[|pieces| - 1])
    || (NoLineYet(pieces) && Joined(pieces) == stream && |stream| < cap)
  }

  /** How much each data round offers, in order. */
  function ReadySizes(script: seq<ReadTick>): seq<nat> {
    if script == [] then []
    else
      var before, io := ReadySizes(script[..|script| - 1]), script[|script| - 1].io;
      if io.Ready? then before + [io.n] else before
  }

  lemma {:induction false} ReadySizesPrefix(script: seq<ReadTick>, i: nat)
    requires i <= |script|
    ensures ReadySizes(script[..i]) <= ReadySizes(script)
  {
    if i == |script| {
      assert script[..i] == script;
    } else {
      assert script[..|script| - 1][..i] == script[..i];
      ReadySizesPrefix(script[..|script| - 1], i);
    }
  }

  /** The pieces are what the data rounds handed over, one each. */
  predicate AreHanded(pieces: seq<seq<byte>>, sizes: seq<nat>, stream: seq<byte>, cap: nat)
    decreases |pieces|
  {
    pieces == [] ||
    var before := pieces[..|pieces| - 1];
    var done := |Joined(before)|;
    && AreHanded(before, sizes, stream, cap)
    && |pieces| <= |sizes| && done <= |stream| && done < cap
    && |pieces[|pieces| - 1]| == Handed(stream, done, sizes[|pieces| - 1], cap - done)
  }

  lemma JoinedSnoc(pieces: seq<seq<byte>>, more: seq<byte>)
    ensures Joined(pieces + [more]) == Joined(pieces) + more
  {
    assert (pieces + [more])[..|pieces|] == pieces;
  }

  /** The reply so far: handed over piece by piece in the first `i` rounds, and no newline yet. */
  ghost predicate Underway(stream: seq<byte>, cap: nat, script: seq<ReadTick>, i: nat, pieces: seq<seq<byte>>) {
    && i <= |script| && Joined(pieces) <= stream && |Joined(pieces)| <= cap
    && AreHanded(pieces, ReadySizes(script), stream, cap) && NoLineYet(pieces)
    && |pieces| == |ReadySizes(script[..i])|
  }

  lemma ReadySizesStep(script: seq<ReadTick>, i: nat)
    requires i < |script|
    ensures var before, io := ReadySizes(script[..i]), script[i].io;
      && ReadySizes(script[..i + 1]) == (if io.Ready? then before + [io.n] else before)
      && (io.Ready? ==> |before| < |ReadySizes(script)| && ReadySizes(script)[|before|] == io.n)
  {
    assert script[..i + 1][..i] == script[..i];
    ReadySizesPrefix(script, i + 1);
  }

  /** One data round. */
  lemma PieceArrives(stream: seq<byte>, cap: nat, script: seq<ReadTick>, i: nat, pieces: seq<seq<byte>>, chunk: seq<byte>)
    requires Underway(stream, cap, script, i, pieces) && i < |script| && script[i].io.Ready? && |Joined(pieces)| < cap
    requires var filled := |Joined(pieces)|;
      chunk == stream[filled..filled + Handed(stream, filled, script[i].io.n, cap - filled)]
    ensures chunk == [] ==> Joined(pieces) == stream
    ensures Joined(pieces + [chunk]) == stream[..|Joined(pieces)| + |chunk|] && (pieces + [chunk])[..|pieces|] == pieces
    ensures AreHanded(pieces + [chunk], ReadySizes(script), stream, cap)
    ensures chunk != [] && NEWLINE !in chunk ==> Underway(stream, cap, script, i + 1, pieces + [chunk])
  {
    ReadySizesStep(script, i);
    JoinedSnoc(pieces, chunk);
    var all := pieces + [chunk];
    assert all[..|pieces|] == pieces && all[|all| - 1] == chunk;
    assert stream[..|Joined(pieces)|] + chunk == stream[..|Joined(pieces)| + |chunk|];
  }

  lemma RoundWithoutData(stream: seq<byte>, cap: nat, script: seq<ReadTick>, i: nat, pieces: seq<seq<byte>>)
    requires Underway(stream, cap, script, i, pieces) && i < |script| && !script[i].io.Ready?
    ensures Underway(stream, cap, script, i + 1, pieces)
  {
    ReadySizesStep(script, i);
  }

  lemma {:induction false} NoLineInJoined(pieces: seq<seq<byte>>)
    requires NoLineYet(pieces)
    ensures NEWLINE !in Joined(pieces) && |pieces| <= |Joined(pieces)|
  {
    if pieces != [] {
      NoLineInJoined(pieces[..|pieces| - 1]);
    }
  }

  /** A script that is used up has handed over as many pieces as it has data rounds. */
  lemma UsedUp(stream: seq<byte>, cap: nat, script: seq<ReadTick>, pieces: seq<seq<byte>>)
    requires Underway(stream, cap, script, |script|, pieces)
    ensures |ReadySizes(script)| <= |stream|
  {
    assert script[..|script|] == script;
    NoLineInJoined(pieces);
  }

  /** `read_bounded` over a buffer of `cap` bytes, on the bytes the daemon sends before it closes. `pieces`
      are what the successive reads brought. */
  method ReadBounded(stream: seq<byte>, cap: nat, budget: Duration, script: seq<ReadTick>)
    returns (r: Result<seq<byte>>, ghost pieces: seq<seq<byte>>, ghost rounds: nat)
    ensures AreHanded(pieces, ReadySizes(script), stream, cap) && Joined(pieces) <= stream
    ensures r.Success? ==> r.value == Joined(pieces) && |r.value| <= cap && StopsAtNewline(pieces, stream, cap)
    ensures r.Failure? ==> NoLineYet(pieces)
    ensures rounds <= |script| && |pieces| <= |ReadySizes(script[..rounds])|
    ensures r.Failure? ==> ReadStops(script, rounds, budget, cap, |Joined(pieces)|, r.error)
    ensures Clean(script, budget, stream) && r.Failure? ==> r.error == BadResponse(NoNewline(cap))
  {
    var filled := 0;
    var i := 0;
    pieces, rounds := [], 0;
    while true
      invariant Underway(stream, cap, script, i, pieces) && filled == |Joined(pieces)| && rounds == i
      decreases |script| - i
    {
      var elapsed := ReadClock(script, i, budget);
      if elapsed >= budget {
        if i == |script| { UsedUp(stream, cap, script, pieces); }
        return Failure(Timeout(Read, AsMillis(budget), AsMillis(elapsed))), pieces, rounds;
      }
      if filled >= cap {
        return Failure(BadResponse(NoNewline(cap))), pieces, rounds;
      }
      rounds := i + 1;
      match script[i].io {
        case Ready(n) =>
          var chunk := stream[filled..filled + Handed(stream, filled, n, cap - filled)];
          PieceArrives(stream, cap, script, i, pieces, chunk);
          ReadySizesStep(script, i);
          if chunk == [] {
            return Success(stream[..filled]), pieces, rounds;
          }
          pieces := pieces + [chunk];
          filled := filled + |chunk|;
          if NEWLINE in chunk {
            return Success(stream[..filled]), pieces, rounds;
          }
        case ReadInterrupted =>
          RoundWithoutData(stream, cap, script, i, pieces);
        case ReadExpired(after) =>
          ReadySizesStep(script, i);
          return Failure(Timeout(Read, AsMillis(budget), AsMillis(after))), pieces, rounds;
        case ReadFailed =>
          ReadySizesStep(script, i);
          return Failure(SocketIo), pieces, rounds;
      }
      i := i + 1;
    }
  }

  /** Why a read gives up after these rounds, with this much filled: the deadline has passed; the buffer is
      full; or the last round ran into the socket's timeout or failed. */
  predicate ReadStops(script: seq<ReadTick>, rounds: nat, budget: Duration, cap: nat, filled: nat, e: Error) {
    var now := ReadClock(script, rounds, budget);
    || (now >= budget && e == Timeout(Read, AsMillis(budget), AsMillis(now)))
    || (now < budget && filled == cap && e == BadResponse(NoNewline(cap)))
    || (0 < rounds <= |script| &&
        match script[rounds - 1].io
        case ReadExpired(elapsed) => e == Timeout(Read, AsMillis(budget), AsMillis(elapsed))
        case ReadFailed => e == SocketIo
        case _ => false)
  }

  /** In terms of the stream alone: what a successful read returns holds a newline or is all there was. */
  lemma StoppedRightly(pieces: seq<seq<byte>>, stream: seq<byte>, cap: nat)
    requires StopsAtNewline(pieces, stream, cap)
    ensures NEWLINE in Joined(pieces) || (Joined(pieces) == stream && |stream| < cap)
  {
  }

  // ---- The reply line ----

  function FirstNewline(raw: seq<byte>): (r: Option<nat>)
    ensures r.Some? ==> r.value < |raw| && raw[r.value] == NEWLINE && NEWLINE !in raw[..r.value]
    ensures r.None? ==> NEWLINE !in raw
  {
    if raw == [] then None
    else if raw[0] == NEWLINE then Some(0)
    else
      match FirstNewline(raw[1..])
      case None => None
      case Some(p) =>
        assert raw[..p + 1] == [raw[0]] + raw[1..][..p];
        Some(p + 1)
  }

  function TrimCarriageReturns(s: string): string {
    if s != "" && s[|s| - 1] == '\r' then TrimCarriageReturns(s[..|s| - 1]) else s
  }

  /** The status a reply line (without its newline) stands for. */
  function ParseLine(line: seq<byte>): Result<Response> {
    match Decode(line)
    case None => Failure(BadResponse(NotUtf8(line)))
    case Some(text) =>
      var trimmed := TrimCarriageReturns(text);
      if trimmed == "" then Failure(BadResponse(Empty))
      else if trimmed == "200" then Success(Accepted)
      else if trimmed == "503" then Success(Backpressure)
      else if "400 " <= trimmed then Success(DaemonError(trimmed[4..]))
      else Failure(BadResponse(Unexpected(trimmed)))
  }

  /** `parse_reply`. */
  function ParseReply(raw: seq<byte>): Result<Response> {
    match FirstNewline(raw)
    case Some(p) => ParseLine(raw[..p])
    case None => ParseLine(raw)
  }

  /** What the whole reply stream means, however it is cut up: its first line if that fits the buffer, all
      of it if it ends without a newline, and a broken daemon otherwise. */
  function ReplyOf(stream: seq<byte>): Result<Response> {
    var end := FirstNewline(stream);
    if end.Some? && end.value < REPLY_BUF_BYTES then ParseLine(stream[..end.value])
    else if |stream| < REPLY_BUF_BYTES then ParseLine(stream)
    else Failure(BadResponse(NoNewline(REPLY_BUF_BYTES)))
  }

  lemma {:induction false} FirstNewlineOfPrefix(stream: seq<byte>, k: nat)
    requires k <= |stream|
    ensures var p, q := FirstNewline(stream[..k]), FirstNewline(stream);
      p == if q.Some? && q.value < k then q else None
  {
    if k > 0 && stream[0] != NEWLINE {
      assert stream[..k][1..] == stream[1..][..k - 1];
      FirstNewlineOfPrefix(stream[1..], k - 1);
    }
  }

  /** The tail of `send`: read, then parse. Whatever the splits, an exchange without an error or a timeout
      ends in what the stream means. */
  method ReceiveReply(stream: seq<byte>, budget: Duration, script: seq<ReadTick>) returns (r: Result<Response>)
    ensures r == ReplyOf(stream) || (r.Failure? && (r.error.SocketIo? || (r.error.Timeout? && r.error.op == Read)))
    ensures Clean(script, budget, stream) ==> r == ReplyOf(stream)
  {
    var raw, pieces, _ := ReadBounded(stream, REPLY_BUF_BYTES, budget, script);
    match raw {
      case Failure(e) =>
        if e == BadResponse(NoNewline(REPLY_BUF_BYTES)) {
          NoLineInJoined(pieces);
          assert Joined(pieces) == stream[..REPLY_BUF_BYTES];
          FirstNewlineOfPrefix(stream, REPLY_BUF_BYTES);
        }
        return Failure(e);
      case Success(bytes) =>
        StoppedRightly(pieces, stream, REPLY_BUF_BYTES);
        FirstNewlineOfPrefix(stream, |bytes|);
        assert bytes == stream[..|bytes|];
        r := ParseReply(bytes);
        if FirstNewline(bytes).Some? {
          assert bytes[..FirstNewline(bytes).value] == stream[..FirstNewline(bytes).value];
        }
    }
  }

  /** Bytes after the first newline never matter. */
  lemma OnlyTheFirstLineMatters(line: seq<byte>, tail: seq<byte>)
    requires NEWLINE !in line && |line| < REPLY_BUF_BYTES
    ensures ReplyOf(line + [NEWLINE] + tail) == ParseLine(line)
  {
    var stream := line + [NEWLINE] + tail;
    assert stream[|line|] == NEWLINE && stream[..|line|] == line;
    FirstNewlineOfPrefix(stream, |line|);
    FirstNewlineOfPrefix(stream, |line| + 1);
    assert stream[..|line| + 1][|line|] == NEWLINE;
  }

  /** Nor do carriage returns before it. */
  lemma CarriageReturnsDoNotMatter(text: string)
    ensures ParseLine(Encode(text + "\r")) == ParseLine(Encode(text))
  {
    DecodeInvertsEncode(text);
    DecodeInvertsEncode(text + "\r");
    assert (text + "\r")[..|text|] == text;
  }
}
