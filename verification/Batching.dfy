/**
 * The writer task of server/src/main.rs and client/src/main.rs, the byte stream it produces, and what the
 * reader at the other end makes of that stream: together they are a first-in first-out queue of frames.
 */
module Batching {
  import opened Base
  import opened Wire

  const MAX_BATCH: nat := 64

  // ---------------------------------------------------------------- streams of frames

  function Concat(frames: seq<Frame>): Bytes {
    if frames == [] then [] else FrameBytes(frames[0]) + Concat(frames[1..])
  }

  function Normals(frames: seq<Frame>): (r: seq<Frame>)
    ensures |r| == |frames| && forall i :: 0 <= i < |r| ==> r[i] == NormalFrame(frames[i])
  {
    seq(|frames|, i requires 0 <= i < |frames| => NormalFrame(frames[i]))
  }

  /** `read_frame` called again and again until it fails: the frames it returned, and the failure. */
  function ReadAll(input: Bytes): (seq<Frame>, WireError)
    decreases |input|
  {
    match ParseFrame(input)
    case Err(e) => ([], e)
    case Ok((f, rest)) =>
      var (frames, e) := ReadAll(rest);
      ([f] + frames, e)
  }

  lemma {:induction false} ConcatAppend(a: seq<Frame>, b: seq<Frame>)
    ensures Concat(a + b) == Concat(a) + Concat(b)
  {
    if a == [] {
      assert a + b == b;
    } else {
      assert (a + b)[1..] == a[1..] + b;
      ConcatAppend(a[1..], b);
    }
  }

  lemma ConcatOne(f: Frame)
    ensures Concat([f]) == FrameBytes(f)
  {
    assert [f][1..] == [];
  }

  lemma {:induction false} ConcatSplit(frames: seq<Frame>, i: nat)
    requires i <= |frames|
    ensures Concat(frames) == Concat(frames[..i]) + Concat(frames[i..])
  {
    hide *;
    assert frames == frames[..i] + frames[i..];
    ConcatAppend(frames[..i], frames[i..]);
  }

  lemma {:induction false} ConcatNext(frames: seq<Frame>, i: nat)
    requires i < |frames|
    ensures Concat(frames[..i + 1]) == Concat(frames[..i]) + FrameBytes(frames[i])
    ensures Concat(frames[..i]) + FrameBytes(frames[i]) <= Concat(frames)
  {
    hide *;
    var front := frames[..i + 1];
    ConcatSplit(front, i);
    assert front[..i] == frames[..i] && front[i..] == [frames[i]];
    ConcatOne(frames[i]);
    ConcatSplit(frames, i + 1);
  }

  lemma NothingToRead()
    ensures ReadAll([]) == ([], Truncated)
  {
  }

  /**
   * A stream cut at any byte yields exactly the frames that are complete before the cut, `n` of them, and
   * then an error. With the cut at the end this is the whole stream.
   */
  lemma {:induction false} CutAnywhere(frames: seq<Frame>, cut: nat) returns (n: nat)
    requires AllEncodable(frames) && cut <= |Concat(frames)|
    ensures n <= |frames| && |Concat(frames[..n])| <= cut
    ensures n < |frames| ==> cut < |Concat(frames[..n + 1])|
    ensures ReadAll(Concat(frames)[..cut]) == (Normals(frames[..n]), Truncated)
  {
    hide FrameBytes, ParseFrame;
    n := 0;
    if frames == [] {
      NothingToRead();
      return;
    }
    var first, later := FrameBytes(frames[0]), Concat(frames[1..]);
    ConcatOne(frames[0]);
    assert frames[..1] == [frames[0]];
    if cut < |first| {
      assert Concat(frames)[..cut] == first[..cut];
      CutFrame(frames[0], cut);
      assert Normals(frames[..0]) == [];
    } else {
      var m := CutAnywhere(frames[1..], cut - |first|);
      n := m + 1;
      assert Concat(frames)[..cut] == first + later[..cut - |first|];
      ParseEncoded(frames[0], later[..cut - |first|]);
      assert Normals(frames[..n]) == [NormalFrame(frames[0])] + Normals(frames[1..][..m]);
      assert frames[..n][1..] == frames[1..][..m];
      if n < |frames| {
        assert frames[..n + 1][1..] == frames[1..][..m + 1];
      }
    }
  }

  /**
   * Repeated reads of an uncut stream return exactly its frames; two streams of the same bytes carry the same
   * frames.
   */
  lemma {:induction false} ReadBack(frames: seq<Frame>)
    requires AllEncodable(frames)
    ensures ReadAll(Concat(frames)) == (Normals(frames), Truncated)
  {
    hide FrameBytes, ParseFrame;
    var n := CutAnywhere(frames, |Concat(frames)|);
    assert Concat(frames)[..|Concat(frames)|] == Concat(frames);
    if n < |frames| {
      ConcatNext(frames, n);
    } else {
      assert frames[..n] == frames;
    }
  }

  // ---------------------------------------------------------------- the writer task

  /** One blocking receive of the writer: how many frames it had taken by then, and how many bytes were flushed. */
  datatype Receive = Receive(dequeued: nat, flushed: nat)

  /** One `write_*_noflush` call; a failing write may have put any part of the frame on the wire. */
  method WriteNoFlush(out: Bytes, f: Frame) returns (written: Bytes, ok: bool)
    ensures ok ==> written == out + FrameBytes(f)
    ensures out <= written <= out + FrameBytes(f)
  {
    ok := *;
    if ok {
      written := out + FrameBytes(f);
    } else {
      var part :| 0 <= part <= |FrameBytes(f)|;
      written := out + FrameBytes(f)[..part];
    }
  }

  /** Every blocking receive found the output flushed, and at most 64 frames were taken since the one before. */
  ghost predicate ReceivesOf(receives: seq<Receive>, incoming: seq<Frame>) {
    && |receives| > 0 && receives[0] == Receive(0, 0)
    && (forall k :: 0 <= k < |receives| ==>
          && receives[k].dequeued <= |incoming|
          && receives[k].flushed == |Concat(incoming[..receives[k].dequeued])|)
    && (forall k :: 0 < k < |receives| ==>
          receives[k - 1].dequeued < receives[k].dequeued <= receives[k - 1].dequeued + 64)
  }

  lemma ReceivesNext(receives: seq<Receive>, incoming: seq<Frame>, next: nat)
    requires ReceivesOf(receives, incoming)
    requires receives[|receives| - 1].dequeued < next <= receives[|receives| - 1].dequeued + MAX_BATCH
    requires next <= |incoming|
    ensures ReceivesOf(receives + [Receive(next, |Concat(incoming[..next])|)], incoming)
  {
    hide Concat;
  }

  /** The bytes of the first `next` frames are out. */
  ghost predicate WroteExactly(out: Bytes, incoming: seq<Frame>, next: nat) {
    next <= |incoming| && out == Concat(incoming[..next]) && out <= Concat(incoming)
  }

  /** Takes the next queued frame and writes it. */
  method TakeAndWrite(incoming: seq<Frame>, next: nat, out: Bytes) returns (written: Bytes, ok: bool)
    requires next < |incoming| && WroteExactly(out, incoming, next)
    ensures ok ==> WroteExactly(written, incoming, next + 1)
    ensures out <= written <= Concat(incoming)
  {
    hide FrameBytes;
    ConcatNext(incoming, next);
    written, ok := WriteNoFlush(out, incoming[next]);
  }

  /**
   * The writer task. `incoming` is every frame that will ever be queued, in queue order; which of them are
   * already there when the task polls without blocking is up to the other tasks, so that choice is left open.
   */
  method WriterTask(incoming: seq<Frame>)
    returns (out: Bytes, flushed: nat, receives: seq<Receive>, failed: bool)
    ensures flushed <= |out| && out <= Concat(incoming)
    ensures ReceivesOf(receives, incoming)
    ensures !failed ==> out == Concat(incoming) && flushed == |out|
    ensures !failed ==> receives[|receives| - 1].dequeued == |incoming|
  {
    hide FrameBytes;
    out, flushed, receives, failed := [], 0, [Receive(0, 0)], false;
    var next := 0;
    while next < |incoming|
      invariant WroteExactly(out, incoming, next) && flushed == |out|
      invariant ReceivesOf(receives, incoming) && receives[|receives| - 1].dequeued == next
    {
      var ok: bool;
      out, ok := TakeAndWrite(incoming, next, out);
      next := next + 1;
      if !ok {
        return out, flushed, receives, true;
      }
      for drained := 1 to MAX_BATCH
        invariant WroteExactly(out, incoming, next) && flushed <= |out|
        invariant receives[|receives| - 1].dequeued < next <= receives[|receives| - 1].dequeued + drained
      {
        var queued: bool := *;
        if next == |incoming| || !queued {
          break;
        }
        out, ok := TakeAndWrite(incoming, next, out);
        next := next + 1;
        if !ok {
          return out, flushed, receives, true;
        }
      }
      var flushOk: bool := *;
      if !flushOk {
        return out, flushed, receives, true;
      }
      flushed := |out|;
      ReceivesNext(receives, incoming, next);
      receives := receives + [Receive(next, flushed)];
    }
    assert incoming[..next] == incoming;
  }

  /** Whatever a writer managed to write, the reader gets the complete frames of it and no others. */
  lemma {:induction false} WrittenIsReadBack(incoming: seq<Frame>, out: Bytes) returns (n: nat)
    requires AllEncodable(incoming) && out <= Concat(incoming)
    ensures n <= |incoming| && |Concat(incoming[..n])| <= |out|
    ensures n < |incoming| ==> |out| < |Concat(incoming[..n + 1])|
    ensures ReadAll(out) == (Normals(incoming[..n]), Truncated)
  {
    n := CutAnywhere(incoming, |out|);
    assert Concat(incoming)[..|out|] == out;
  }

  // ---------------------------------------------------------------- one direction of a link, over whole runs

  /**
   * Frames queued, bytes written but still on their way, bytes arrived but not yet read, frames read; and all ever
   * queued. A batch of the writer is a series of `WriteNext`; its flush only bounds when the bytes may `Arrive`.
   */
  datatype Pipe = Pipe(queue: seq<Frame>, transit: Bytes, arrived: Bytes, received: seq<Frame>, sent: seq<Frame>)

  datatype PipeEvent = Enqueue(frame: Frame) | WriteNext | Arrive(bytes: nat) | ReadNext

  const EMPTY_PIPE := Pipe([], [], [], [], [])

  function PipeStep(p: Pipe, e: PipeEvent): Pipe {
    match e
    case Enqueue(f) => p.(queue := p.queue + [f], sent := p.sent + [f])
    case WriteNext =>
      if p.queue == [] then p else
      p.(queue := p.queue[1..], transit := p.transit + FrameBytes(p.queue[0]))
    case Arrive(n) =>
      if n > |p.transit| then p else
      p.(transit := p.transit[n..], arrived := p.arrived + p.transit[..n])
    case ReadNext =>
      match ParseFrame(p.arrived)
      case Err(_) => p
      case Ok((f, rest)) => p.(arrived := rest, received := p.received + [f])
  }

  function PipeRun(events: seq<PipeEvent>): Pipe {
    if events == [] then EMPTY_PIPE
    else PipeStep(PipeRun(events[..|events| - 1]), events[|events| - 1])
  }

  /** `r` frames have been read and `w` written; the bytes between are the encodings of the frames between. */
  ghost predicate PipeAt(p: Pipe, r: nat, w: nat) {
    && r <= w <= |p.sent|
    && AllEncodable(p.sent)
    && p.received == Normals(p.sent[..r])
    && p.arrived + p.transit == Concat(p.sent[r..w])
    && p.queue == p.sent[w..]
  }

  lemma PipeWrite(p: Pipe, r: nat, w: nat)
    requires PipeAt(p, r, w) && p.queue != []
    ensures PipeAt(PipeStep(p, WriteNext), r, w + 1)
  {
    hide FrameBytes, ParseFrame;
    var f := p.queue[0];
    assert p.sent[r..w + 1] == p.sent[r..w] + [f];
    ConcatAppend(p.sent[r..w], [f]);
    ConcatOne(f);
    Associative(p.arrived, p.transit, FrameBytes(f));
  }

  lemma PipeArrive(p: Pipe, r: nat, w: nat, n: nat)
    requires PipeAt(p, r, w) && n <= |p.transit|
    ensures PipeAt(PipeStep(p, Arrive(n)), r, w)
  {
    assert p.transit == p.transit[..n] + p.transit[n..];
    Associative(p.arrived, p.transit[..n], p.transit[n..]);
  }

  lemma PipeRead(p: Pipe, r: nat, w: nat)
    requires PipeAt(p, r, w)
    ensures PipeAt(PipeStep(p, ReadNext), r, w) || PipeAt(PipeStep(p, ReadNext), r + 1, w)
  {
    hide FrameBytes, ParseFrame;
    var flying := p.sent[r..w];
    var all := Concat(flying);
    var k := |p.arrived|;
    assert p.arrived == all[..k] && p.transit == all[k..];
    if flying == [] {
      assert p.arrived == [];
    } else if k < |FrameBytes(flying[0])| {
      assert p.arrived == FrameBytes(flying[0])[..k];
      CutFrame(flying[0], k);
    } else {
      var first, later := FrameBytes(flying[0]), Concat(flying[1..]);
      var rest := later[..k - |first|];
      assert p.arrived == first + rest;
      ParseEncoded(flying[0], rest);
      assert flying[1..] == p.sent[r + 1..w];
      assert rest + p.transit == later;
      assert p.sent[..r + 1] == p.sent[..r] + [flying[0]];
      assert PipeAt(PipeStep(p, ReadNext), r + 1, w);
    }
  }

  lemma PipeEnqueue(p: Pipe, r: nat, w: nat, f: Frame)
    requires PipeAt(p, r, w) && Encodable(f)
    ensures PipeAt(PipeStep(p, Enqueue(f)), r, w)
  {
    var q := PipeStep(p, Enqueue(f));
    assert q.sent[..r] == p.sent[..r] && q.sent[r..w] == p.sent[r..w];
    assert q.sent[w..] == p.sent[w..] + [f];
  }

  /** In every run that queues encodable frames, the stages of the pipe split what was queued into consecutive parts. */
  lemma {:induction false} PipeInvariant(events: seq<PipeEvent>) returns (r: nat, w: nat)
    requires forall e | e in events && e.Enqueue? :: Encodable(e.frame)
    ensures PipeAt(PipeRun(events), r, w)
  {
    if events == [] {
      return 0, 0;
    }
    var before, e := events[..|events| - 1], events[|events| - 1];
    assert e in events;
    r, w := PipeInvariant(before);
    var p := PipeRun(before);
    match e {
      case Enqueue(f) => PipeEnqueue(p, r, w, f);
      case WriteNext =>
        if p.queue != [] {
          PipeWrite(p, r, w);
          w := w + 1;
        }
      case Arrive(n) =>
        if n <= |p.transit| {
          PipeArrive(p, r, w, n);
        }
      case ReadNext =>
        PipeRead(p, r, w);
        if !PipeAt(PipeStep(p, ReadNext), r, w) {
          r := r + 1;
        }
    }
  }

  /** The frames under way: those a reader would take off the bytes under way, and those still queued. */
  function UnderWay(p: Pipe): seq<Frame> {
    ReadAll(p.arrived + p.transit).0 + Normals(p.queue)
  }

  lemma {:induction false} UnderWayIsUnread(p: Pipe, r: nat, w: nat)
    requires PipeAt(p, r, w)
    ensures UnderWay(p) == Normals(p.sent[r..])
  {
    hide FrameBytes, ParseFrame, Concat, ReadAll;
    assert forall f | f in p.sent[r..w] :: f in p.sent;
    ReadBack(p.sent[r..w]);
    assert p.sent[r..] == p.sent[r..w] + p.queue;
  }

  /**
   * Codec, writer and reader together are a lossless first-in first-out queue: at every moment of every run,
   * the frames already read and those under way are, in this order, all the frames that were ever queued.
   */
  lemma {:induction false} LinkIsFifo(events: seq<PipeEvent>)
    requires forall e | e in events && e.Enqueue? :: Encodable(e.frame)
    ensures var p := PipeRun(events); p.received + UnderWay(p) == Normals(p.sent)
  {
    hide FrameBytes, ParseFrame, PipeRun, Concat, UnderWay;
    var r, w := PipeInvariant(events);
    UnderWayIsUnread(PipeRun(events), r, w);
  }
}
