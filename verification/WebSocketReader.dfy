/** The reader of a WebSocket connection: what it delivers and answers for the bytes it receives
    (src/server/websocket_server.cpp; sections 5.4 and 5.5 of RFC 6455). */
module WebSocketReader {
  import opened Text
  import opened WebSocket

  const TEXT := 1
  const BINARY := 2
  const CLOSE := 8
  const PING := 9
  const PONG := 10

  /** The parts of a message read so far, and the opcode it began with. */
  datatype Pending = Pending(fragmented: Bytes, opcode: nat)

  datatype Output = Deliver(text: Bytes) | SendPong(payload: Bytes) | CloseConnection

  /** What is left pending after a frame. */
  function After(r: Pending, f: Frame): Pending {
    if f.opcode == 0 then Pending(if f.fin then [] else r.fragmented + f.payload, r.opcode)
    else if (f.opcode == TEXT || f.opcode == BINARY) && !f.fin then Pending(f.payload, f.opcode)
    else r
  }

  function Answer(r: Pending, f: Frame): seq<Output> {
    if f.opcode == CLOSE then [CloseConnection]
    else if f.opcode == PING then [SendPong(f.payload)]
    else if f.opcode == 0 && f.fin && r.opcode == TEXT then [Deliver(r.fragmented + f.payload)]
    else if f.opcode == TEXT && f.fin then [Deliver(f.payload)]
    else []
  }

  /** The reader from the position `p` of its bytes on, until they end, a frame is too long, or the
      client closes. */
  function Reads(s: Bytes, p: nat, r: Pending): seq<Output>
    requires p <= |s|
    decreases |s| - p
  {
    match ReadFrame(s, p)
    case Stop => []
    case Got(f, next) =>
      if f.opcode == CLOSE then Answer(r, f) else Answer(r, f) + Reads(s, next, After(r, f))
  }

  // ---------------------------------------------------------------- frames instead of bytes

  /** The answers to the frames from the `k`-th on. */
  function Answers(fs: seq<Frame>, k: nat, r: Pending): seq<Output>
    requires k <= |fs|
    decreases |fs| - k
  {
    if k == |fs| then [] else Answer(r, fs[k]) + Answers(fs, k + 1, After(r, fs[k]))
  }

  function PendingAfter(fs: seq<Frame>, k: nat, r: Pending): Pending
    requires k <= |fs|
    decreases |fs| - k
  {
    if k == |fs| then r else PendingAfter(fs, k + 1, After(r, fs[k]))
  }

  predicate Readable(w: Wire) {
    ValidWire(w) && |w.frame.payload| <= MAX_PAYLOAD && w.frame.opcode != CLOSE
  }

  predicate AllReadable(ws: seq<Wire>) {
    forall j :: 0 <= j < |ws| ==> Readable(ws[j])
  }

  function AllBytes(ws: seq<Wire>, k: nat): Bytes
    requires k <= |ws| && AllReadable(ws)
    decreases |ws| - k
  {
    if k == |ws| then [] else WireBytes(ws[k]) + AllBytes(ws, k + 1)
  }

  function Frames(ws: seq<Wire>): (fs: seq<Frame>)
    ensures |fs| == |ws| && forall k :: 0 <= k < |ws| ==> fs[k] == ws[k].frame
  {
    seq(|ws|, k requires 0 <= k < |ws| => ws[k].frame)
  }

  lemma {:induction false} ReadsOne(s: Bytes, p: nat, w: Wire, r: Pending)
    requires Readable(w) && Starts(s, p, WireBytes(w))
    ensures Reads(s, p, r) == Answer(r, w.frame) + Reads(s, p + |WireBytes(w)|, After(r, w.frame))
  {
    WireReadBack(s, p, w);
  }

  lemma {:induction false} ReadsFrames(s: Bytes, p: nat, ws: seq<Wire>, k: nat, r: Pending)
    requires k <= |ws| && AllReadable(ws)
    requires Starts(s, p, AllBytes(ws, k)) && p + |AllBytes(ws, k)| == |s|
    ensures Reads(s, p, r) == Answers(Frames(ws), k, r)
    decreases |ws| - k
  {
    hide Readable, WireBytes, Answer, After, Frames;
    if k < |ws| {
      var next := NextFrame(s, p, ws, k, r);
      ReadsFrames(s, next, ws, k + 1, After(r, ws[k].frame));
    }
  }

  lemma {:induction false} NextFrame(s: Bytes, p: nat, ws: seq<Wire>, k: nat, r: Pending) returns (next: nat)
    requires k < |ws| && AllReadable(ws)
    requires Starts(s, p, AllBytes(ws, k)) && p + |AllBytes(ws, k)| == |s|
    ensures Starts(s, next, AllBytes(ws, k + 1)) && next + |AllBytes(ws, k + 1)| == |s|
    ensures Reads(s, p, r) == Answer(r, ws[k].frame) + Reads(s, next, After(r, ws[k].frame))
  {
    next := Splits(s, p, WireBytes(ws[k]), AllBytes(ws, k + 1));
    ReadsOne(s, p, ws[k], r);
  }

  lemma {:induction false} Splits(s: Bytes, p: nat, a: Bytes, b: Bytes) returns (next: nat)
    requires Starts(s, p, a + b) && p + |a + b| == |s|
    ensures Starts(s, p, a) && Starts(s, next, b) && next == p + |a| && next + |b| == |s|
  {
    StartsSplit(s, p, a, b);
    next := p + |a|;
  }

  /** Bytes that carry frames, however each is masked and its length encoded, are answered as the
      frames are. */
  lemma {:induction false} BytesAreFrames(ws: seq<Wire>, r: Pending)
    requires AllReadable(ws)
    ensures Reads(AllBytes(ws, 0), 0, r) == Answers(Frames(ws), 0, r)
  {
    StartsAll(AllBytes(ws, 0));
    ReadsFrames(AllBytes(ws, 0), 0, ws, 0, r);
  }

  // ---------------------------------------------------------------- messages

  /** What a client sends while it sends one message: its parts, with pings and pongs anywhere. */
  datatype Chunk = Part(payload: Bytes) | Ping(payload: Bytes) | Pong(payload: Bytes)

  datatype Message = Message(text: bool, chunks: seq<Chunk>)

  /** The parts among the first `k` chunks, put together. */
  function Joined(cs: seq<Chunk>, k: nat): Bytes
    requires k <= |cs|
  {
    if k == 0 then [] else Joined(cs, k - 1) + if cs[k - 1].Part? then cs[k - 1].payload else []
  }

  predicate AnyPart(cs: seq<Chunk>, from: nat, upto: nat)
    requires upto <= |cs|
  {
    exists j :: from <= j < upto && cs[j].Part?
  }

  /** The frame that carries the chunk `k`: only the first part names the kind of the message, and
      only the last one is final (section 5.4 of RFC 6455). */
  function ChunkFrame(m: Message, k: nat): Frame
    requires k < |m.chunks|
  {
    match m.chunks[k]
    case Ping(payload) => Frame(true, PING, payload)
    case Pong(payload) => Frame(true, PONG, payload)
    case Part(payload) =>
      Frame(!AnyPart(m.chunks, k + 1, |m.chunks|),
            if AnyPart(m.chunks, 0, k) then 0 else if m.text then TEXT else BINARY, payload)
  }

  function ChunkFrames(m: Message): (fs: seq<Frame>)
    ensures |fs| == |m.chunks| && forall k :: 0 <= k < |fs| ==> fs[k] == ChunkFrame(m, k)
  {
    seq(|m.chunks|, k requires 0 <= k < |m.chunks| => ChunkFrame(m, k))
  }

  /** What must come of the chunk `k`: a ping is answered at once with its payload, and the message
      is delivered whole, if it is text, when its last part arrives. */
  function Expected(m: Message, k: nat): seq<Output>
    requires k < |m.chunks|
  {
    match m.chunks[k]
    case Ping(payload) => [SendPong(payload)]
    case Pong(_) => []
    case Part(_) =>
      if m.text && !AnyPart(m.chunks, k + 1, |m.chunks|) then [Deliver(Joined(m.chunks, |m.chunks|))] else []
  }

  function ExpectedFrom(m: Message, k: nat): seq<Output>
    requires k <= |m.chunks|
    decreases |m.chunks| - k
  {
    if k == |m.chunks| then [] else Expected(m, k) + ExpectedFrom(m, k + 1)
  }

  /** In the middle of a message, the reader holds the parts so far and the kind. */
  predicate Holds(now: Pending, m: Message, k: nat)
    requires k <= |m.chunks|
  {
    AnyPart(m.chunks, 0, k) && AnyPart(m.chunks, k, |m.chunks|) ==>
      now == Pending(Joined(m.chunks, k), if m.text then TEXT else BINARY)
  }

  lemma {:induction false} NoParts(cs: seq<Chunk>, k: nat)
    requires k <= |cs| && !AnyPart(cs, 0, k)
    ensures Joined(cs, k) == []
  {
    if k > 0 {
      NoParts(cs, k - 1);
      assert !cs[k - 1].Part?;
    }
  }

  lemma {:induction false} JoinedEnds(cs: seq<Chunk>, k: nat, n: nat)
    requires k <= n <= |cs| && !AnyPart(cs, k, n)
    ensures Joined(cs, n) == Joined(cs, k)
  {
    if k < n {
      JoinedEnds(cs, k, n - 1);
      assert !cs[n - 1].Part?;
    }
  }

  lemma {:induction false} PartsBefore(cs: seq<Chunk>, k: nat)
    requires k < |cs|
    ensures AnyPart(cs, 0, k + 1) <==> AnyPart(cs, 0, k) || cs[k].Part?
    ensures AnyPart(cs, k, |cs|) <==> cs[k].Part? || AnyPart(cs, k + 1, |cs|)
  {
    if AnyPart(cs, 0, k + 1) && !AnyPart(cs, 0, k) {
      var j :| 0 <= j < k + 1 && cs[j].Part?;
      assert j == k;
    }
    if AnyPart(cs, k, |cs|) && !AnyPart(cs, k + 1, |cs|) {
      var j :| k <= j < |cs| && cs[j].Part?;
      assert j == k;
    }
  }

  lemma {:induction false} ChunkStep(now: Pending, m: Message, k: nat)
    requires k < |m.chunks| && Holds(now, m, k)
    ensures Answer(now, ChunkFrame(m, k)) == Expected(m, k)
    ensures Holds(After(now, ChunkFrame(m, k)), m, k + 1)
  {
    var cs := m.chunks;
    PartsBefore(cs, k);
    if cs[k].Part? {
      assert Joined(cs, k + 1) == Joined(cs, k) + cs[k].payload;
      if !AnyPart(cs, 0, k) {
        NoParts(cs, k);
        assert Joined(cs, k + 1) == cs[k].payload;
      }
      if !AnyPart(cs, k + 1, |cs|) { JoinedEnds(cs, k + 1, |cs|); }
    } else {
      assert Joined(cs, k + 1) == Joined(cs, k);
    }
  }

  lemma {:induction false} MessageAnswers(m: Message, k: nat, now: Pending)
    requires k <= |m.chunks| && Holds(now, m, k)
    ensures Answers(ChunkFrames(m), k, now) == ExpectedFrom(m, k)
    decreases |m.chunks| - k
  {
    if k < |m.chunks| {
      ChunkStep(now, m, k);
      MessageAnswers(m, k + 1, After(now, ChunkFrame(m, k)));
    }
  }

  // ---------------------------------------------------------------- conversations

  /** The frames of the messages from the `n`-th on. */
  function ConversationFrames(ms: seq<Message>, n: nat): seq<Frame>
    requires n <= |ms|
    decreases |ms| - n
  {
    if n == |ms| then [] else ChunkFrames(ms[n]) + ConversationFrames(ms, n + 1)
  }

  function ExpectedOutputs(ms: seq<Message>, n: nat): seq<Output>
    requires n <= |ms|
    decreases |ms| - n
  {
    if n == |ms| then [] else ExpectedFrom(ms[n], 0) + ExpectedOutputs(ms, n + 1)
  }

  lemma {:induction false} AnswersSecond(a: seq<Frame>, b: seq<Frame>, k: nat, r: Pending)
    requires k <= |b|
    ensures Answers(a + b, |a| + k, r) == Answers(b, k, r)
    decreases |b| - k
  {
    if k < |b| { AnswersSecond(a, b, k + 1, After(r, b[k])); }
  }

  lemma {:induction false} AnswersFirst(a: seq<Frame>, b: seq<Frame>, k: nat, r: Pending)
    requires k <= |a|
    ensures Answers(a + b, k, r) == Answers(a, k, r) + Answers(b, 0, PendingAfter(a, k, r))
    decreases |a| - k
  {
    if k < |a| {
      var next := After(r, a[k]);
      AnswersFirst(a, b, k + 1, next);
      Associate(Answer(r, a[k]), Answers(a, k + 1, next), Answers(b, 0, PendingAfter(a, k, r)));
    } else {
      AnswersSecond(a, b, 0, r);
    }
  }

  lemma {:induction false} ConversationAnswers(ms: seq<Message>, n: nat, r: Pending)
    requires n <= |ms|
    ensures Answers(ConversationFrames(ms, n), 0, r) == ExpectedOutputs(ms, n)
    decreases |ms| - n
  {
    if n < |ms| {
      var a := ChunkFrames(ms[n]);
      AnswersFirst(a, ConversationFrames(ms, n + 1), 0, r);
      MessageAnswers(ms[n], 0, r);
      ConversationAnswers(ms, n + 1, PendingAfter(a, 0, r));
    }
  }

  /** Whatever the reader held before: from the bytes of any messages, each cut into any parts of at
      most 4 MiB, masked or not, with pings and pongs anywhere among them, it delivers exactly the
      text messages, whole and in order, and answers every ping with its payload. */
  lemma {:induction false} Reassembly(ms: seq<Message>, ws: seq<Wire>, r: Pending)
    requires AllReadable(ws) && Frames(ws) == ConversationFrames(ms, 0)
    ensures Reads(AllBytes(ws, 0), 0, r) == ExpectedOutputs(ms, 0)
  {
    BytesAreFrames(ws, r);
    ConversationAnswers(ms, 0, r);
  }

  // ---------------------------------------------------------------- the reader at work

  /** The payload is unmasked in place. */
  method Unmask(payload: array<Byte>, mask: Bytes)
    requires |mask| == 4
    modifies payload
    ensures payload[..] == Masked(old(payload[..]), mask)
  {
    var i := 0;
    while i < payload.Length
      invariant 0 <= i <= payload.Length
      invariant forall k :: 0 <= k < i ==> payload[k] == MaskByte(old(payload[k]), mask[k % 4])
      invariant forall k :: i <= k < payload.Length ==> payload[k] == old(payload[k])
    {
      payload[i] := MaskByte(payload[i], mask[i % 4]);
      i := i + 1;
    }
  }

  /** `encodeFrame`, byte by byte. */
  method EncodeFrame(payload: Bytes, opcode: nat) returns (frame: Bytes)
    ensures frame == Encode(payload, opcode)
  {
    frame := [128 + opcode % 16];
    var n := |payload|;
    if n < 126 {
      frame := frame + [n];
    } else if n <= 0xFFFF {
      frame := frame + [126] + [n / 256 % 256] + [n % 256];
      assert BigEndian(n, 2) == [n / 256 % 256] + [n % 256];
    } else {
      frame := frame + [127];
      ghost var start := frame;
      var i := 8;
      while i > 0
        invariant 0 <= i <= 8 && frame + BigEndian(n, i) == start + BigEndian(n, 8)
      {
        i := i - 1;
        TopByte(n, i);
        Associate(frame, [ShiftRight(n, i) % 256], BigEndian(n, i));
        frame := frame + [ShiftRight(n, i) % 256];
      }
      assert frame + BigEndian(n, 0) == frame;
    }
    frame := frame + payload;
  }

  /** `n` shifted right by `k` bytes. */
  function ShiftRight(n: nat, k: nat): nat {
    if k == 0 then n else ShiftRight(n / 256, k - 1)
  }

  lemma {:induction false} TopByte(n: nat, k: nat)
    ensures BigEndian(n, k + 1) == [ShiftRight(n, k) % 256] + BigEndian(n, k)
  {
    if k > 0 {
      TopByte(n / 256, k - 1);
      Associate([ShiftRight(n / 256, k - 1) % 256], BigEndian(n / 256, k - 1), [n % 256]);
    }
  }

  lemma {:induction false} FrameIs(s: Bytes, p: nat, q: nat, r: nat, next: nat)
    requires p + 2 <= q <= r <= next <= |s| && q == p + 2 + ExtraBytes(s[p + 1] % 128)
    requires r == q + (if s[p + 1] >= 128 then 4 else 0)
    requires next == r + (if q == p + 2 then s[p + 1] % 128 else Value(s[p + 2..q], q - (p + 2))) && next <= r + MAX_PAYLOAD
    ensures ReadFrame(s, p) == Got(Frame(s[p] >= 128, s[p] % 16, Masked(s[r..next], s[q..r])), next)
  {
  }

  /** The reader thread of a connection: `input` is all that the client ever sends. */
  class Reader {
    const input: Bytes
    var pos: nat
    var pending: Pending
    var outputs: seq<Output>

    constructor (input: Bytes)
      ensures this.input == input && pos == 0 && outputs == []
    {
      this.input, pos, pending, outputs := input, 0, Pending([], 0), [];
    }

    /** The next `n` bytes, if that many ever arrive. */
    method RecvExact(n: nat) returns (data: Option<Bytes>)
      requires pos <= |input|
      modifies this`pos
      ensures data.Some? <==> old(pos) + n <= |input|
      ensures data.Some? ==> pos == old(pos) + n && data.value == input[old(pos)..pos]
    {
      if pos + n > |input| { return None; }
      data := Some(input[pos..pos + n]);
      pos := pos + n;
    }

    /** The length of the payload, given the second byte of the frame. */
    method RecvLength(b1: Byte) returns (n: Option<nat>)
      requires pos <= |input|
      modifies this`pos
      ensures var extra := ExtraBytes(b1 % 128);
              && (n.Some? <==> old(pos) + extra <= |input|)
              && (n.Some? ==> pos == old(pos) + extra
                              && n.value == if extra == 0 then b1 % 128 else Value(input[old(pos)..pos], extra))
    {
      var len := b1 % 128;
      if len != 126 && len != 127 { return Some(len); }
      var k := if len == 126 then 2 else 8;
      var ext := RecvExact(k);
      if ext == None { return None; }
      var v: nat := 0;
      var i := 0;
      while i < k
        invariant 0 <= i <= k && v == Value(ext.value, i)
      {
        v := v * 256 + ext.value[i];
        i := i + 1;
      }
      n := Some(v);
    }

    method RecvFrame() returns (f: Option<Frame>)
      requires pos <= |input|
      modifies this`pos
      ensures match ReadFrame(input, old(pos))
              case Got(frame, next) => f == Some(frame) && pos == next
              case Stop => f == None
    {
      var header := RecvExact(2);
      if header == None { return None; }
      var b0, b1 := header.value[0], header.value[1];
      var n := RecvLength(b1);
      if n == None || n.value > MAX_PAYLOAD { return None; }
      ghost var p, q := old(pos), pos;
      var mask: Option<Bytes> := Some([]);
      if b1 >= 128 { mask := RecvExact(4); }
      if mask == None { return None; }
      ghost var r := pos;
      assert input[q..r] == mask.value;
      var body := RecvPayload(n.value, mask.value);
      if body == None { return None; }
      FrameIs(input, p, q, r, pos);
      f := Some(Frame(b0 >= 128, b0 % 16, body.value));
    }

    method RecvPayload(n: nat, mask: Bytes) returns (body: Option<Bytes>)
      requires pos <= |input| && (|mask| == 0 || |mask| == 4)
      modifies this`pos
      ensures body.Some? <==> old(pos) + n <= |input|
      ensures body.Some? ==> pos == old(pos) + n && body.value == Masked(input[old(pos)..pos], mask)
    {
      body := RecvExact(n);
      if body == None || mask == [] { return; }
      var bytes := body.value;
      var payload := new Byte[|bytes|](i requires 0 <= i < |bytes| => bytes[i]);
      assert payload[..] == bytes;
      Unmask(payload, mask);
      body := Some(payload[..]);
    }

    /** The switch over the opcode. */
    method Dispatch(f: Frame)
      modifies this`pending, this`outputs
      ensures pending == After(old(pending), f) && outputs == old(outputs) + Answer(old(pending), f)
    {
      var payload, opcode := f.payload, f.opcode;
      if opcode == CLOSE { outputs := outputs + [CloseConnection]; return; }
      if opcode == PING { outputs := outputs + [SendPong(payload)]; return; }
      if opcode == PONG { return; }
      if opcode == 0 {
        pending := pending.(fragmented := pending.fragmented + payload);
        if !f.fin { return; }
        payload, opcode := pending.fragmented, pending.opcode;
        pending := pending.(fragmented := []);
      } else if opcode == TEXT || opcode == BINARY {
        if !f.fin {
          pending := Pending(payload, opcode);
          return;
        }
      } else {
        return;
      }
      if opcode == TEXT { outputs := outputs + [Deliver(payload)]; }
    }

    method Loop()
      requires pos <= |input|
      modifies this
      ensures outputs == old(outputs) + Reads(input, old(pos), old(pending))
    {
      ghost var all := outputs + Reads(input, pos, pending);
      while true
        invariant pos <= |input| && outputs + Reads(input, pos, pending) == all
        decreases |input| - pos
      {
        ghost var before, r, p := outputs, pending, pos;
        var f := RecvFrame();
        if f == None { return; }
        Dispatch(f.value);
        if f.value.opcode == CLOSE { return; }
        Associate(before, Answer(r, f.value), Reads(input, pos, pending));
      }
    }
  }
}
