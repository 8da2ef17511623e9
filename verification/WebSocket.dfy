/** WebSocket frames and the putting together of fragmented messages
    (src/server/websocket_server.cpp; sections 5.2 to 5.5 of RFC 6455). */
module WebSocket {
  import opened Text

  const MAX_PAYLOAD := 4 * 1024 * 1024

  datatype Frame = Frame(fin: bool, opcode: nat, payload: Bytes)

  // ---------------------------------------------------------------- numbers and masks

  /** The `k` low bytes of `n`, most significant first. */
  function BigEndian(n: nat, k: nat): (r: Bytes)
    ensures |r| == k
  {
    if k == 0 then [] else BigEndian(n / 256, k - 1) + [n % 256]
  }

  /** The number in the first `k` bytes. */
  function Value(s: Bytes, k: nat): nat
    requires k <= |s|
  {
    if k == 0 then 0 else Value(s, k - 1) * 256 + s[k - 1]
  }

  function Power256(k: nat): nat {
    if k == 0 then 1 else 256 * Power256(k - 1)
  }

  lemma {:induction false} ValuePrefix(a: Bytes, b: Bytes, k: nat)
    requires k <= |a|
    ensures Value(a + b, k) == Value(a, k)
  {
    if k > 0 { ValuePrefix(a, b, k - 1); }
  }

  lemma {:induction false} BigEndianReadBack(n: nat, k: nat)
    requires n < Power256(k)
    ensures Value(BigEndian(n, k), k) == n
  {
    if k > 0 {
      BigEndianReadBack(n / 256, k - 1);
      ValuePrefix(BigEndian(n / 256, k - 1), [n % 256], k - 1);
    }
  }

  /** Bitwise exclusive or of the `k` low bits. */
  function Xor(a: nat, b: nat, k: nat): nat {
    if k == 0 then 0 else 2 * Xor(a / 2, b / 2, k - 1) + (a + b) % 2
  }

  lemma {:induction false} XorBound(a: nat, b: nat, k: nat)
    ensures Xor(a, b, k) < Power2(k)
  {
    if k > 0 { XorBound(a / 2, b / 2, k - 1); }
  }

  lemma {:induction false} XorParts(a: nat, b: nat, k: nat)
    requires k > 0
    ensures Xor(a, b, k) / 2 == Xor(a / 2, b / 2, k - 1) && Xor(a, b, k) % 2 == (a + b) % 2
  {
  }

  lemma {:induction false} XorTwice(a: nat, b: nat, k: nat)
    requires a < Power2(k)
    ensures Xor(Xor(a, b, k), b, k) == a
  {
    if k > 0 {
      XorParts(a, b, k);
      XorTwice(a / 2, b / 2, k - 1);
      BitTwice(a, b, Xor(a, b, k));
    }
  }

  lemma {:induction false} BitTwice(a: nat, b: nat, x: nat)
    requires x % 2 == (a + b) % 2
    ensures 2 * (a / 2) + (x + b) % 2 == a
  {
  }

  function MaskByte(a: Byte, b: Byte): Byte {
    XorBound(a, b, 8);
    assert Power2(8) == 256;
    Xor(a, b, 8)
  }

  lemma {:induction false} MaskByteTwice(a: Byte, b: Byte)
    ensures MaskByte(MaskByte(a, b), b) == a
  {
    assert Power2(8) == 256;
    XorTwice(a, b, 8);
  }

  /** Every byte combined with the byte of the mask whose turn it is; no mask changes nothing. */
  function Masked(s: Bytes, mask: Bytes): (r: Bytes)
    requires |mask| == 0 || |mask| == 4
    ensures |r| == |s|
  {
    if mask == [] then s else seq(|s|, i requires 0 <= i < |s| => MaskByte(s[i], mask[i % 4]))
  }

  lemma {:induction false} MaskedTwice(s: Bytes, mask: Bytes)
    requires |mask| == 0 || |mask| == 4
    ensures Masked(Masked(s, mask), mask) == s
  {
    if mask != [] {
      forall i | 0 <= i < |s| ensures Masked(Masked(s, mask), mask)[i] == s[i] {
        MaskByteTwice(s[i], mask[i % 4]);
      }
    }
  }

  // ---------------------------------------------------------------- a frame on the wire

  /** How many bytes hold the length behind the second byte of a frame. */
  function ExtraBytes(len7: nat): nat {
    if len7 == 126 then 2 else if len7 == 127 then 8 else 0
  }

  /** `encodeFrame`: a final frame without a mask, in the shortest length class. */
  function Encode(payload: Bytes, opcode: nat): Bytes {
    var n := |payload|;
    [128 + opcode % 16]
    + (if n < 126 then [n] else if n <= 0xFFFF then [126] + BigEndian(n, 2) else [127] + BigEndian(n, 8))
    + payload
  }

  /** A frame as a client may send it, in any of the three length classes that holds its length,
      masked or not. */
  datatype Wire = Wire(frame: Frame, extra: nat, mask: Bytes)

  predicate ValidWire(w: Wire) {
    && w.frame.opcode < 16
    && (|w.mask| == 0 || |w.mask| == 4)
    && (w.extra == 0 || w.extra == 2 || w.extra == 8)
    && |w.frame.payload| < if w.extra == 0 then 126 else Power256(w.extra)
  }

  function Head(w: Wire): Bytes
    requires ValidWire(w)
  {
    var m := if w.mask == [] then 0 else 128;
    var n := |w.frame.payload|;
    [(if w.frame.fin then 128 else 0) + w.frame.opcode,
     m + if w.extra == 0 then n else if w.extra == 2 then 126 else 127]
  }

  function Length(w: Wire): Bytes
    requires ValidWire(w)
  {
    if w.extra == 0 then [] else BigEndian(|w.frame.payload|, w.extra)
  }

  function WireBytes(w: Wire): Bytes
    requires ValidWire(w)
  {
    Head(w) + (Length(w) + (w.mask + Masked(w.frame.payload, w.mask)))
  }

  // ---------------------------------------------------------------- reading a frame

  datatype Read = Got(frame: Frame, next: nat) | Stop

  /** The reader gives up when the bytes end or a frame is too long. */
  function ReadFrame(s: Bytes, p: nat): (r: Read)
    ensures r.Got? ==> p + 2 <= r.next <= |s|
  {
    if p + 2 > |s| then Stop else
    var extra := ExtraBytes(s[p + 1] % 128);
    var q := p + 2 + extra;
    if q > |s| then Stop else
    var n := if extra == 0 then s[p + 1] % 128 else Value(s[p + 2..q], extra);
    var r := q + if s[p + 1] >= 128 then 4 else 0;
    if n > MAX_PAYLOAD || r > |s| || r + n > |s| then Stop
    else Got(Frame(s[p] >= 128, s[p] % 16, Masked(s[r..r + n], s[q..r])), r + n)
  }

  lemma {:induction false} HeadReadBack(s: Bytes, p: nat, w: Wire)
    requires ValidWire(w) && p + 2 <= |s| && s[p] == Head(w)[0] && s[p + 1] == Head(w)[1]
    ensures (s[p] >= 128 <==> w.frame.fin) && s[p] % 16 == w.frame.opcode
    ensures (s[p + 1] >= 128 <==> w.mask != []) && ExtraBytes(s[p + 1] % 128) == w.extra
    ensures w.extra == 0 ==> s[p + 1] % 128 == |w.frame.payload|
  {
  }

  lemma {:induction false} LengthReadBack(bytes: Bytes, w: Wire)
    requires ValidWire(w) && w.extra > 0 && bytes == Length(w)
    ensures Value(bytes, w.extra) == |w.frame.payload|
  {
    BigEndianReadBack(|w.frame.payload|, w.extra);
  }

  lemma {:induction false} BodyReadBack(bytes: Bytes, w: Wire)
    requires ValidWire(w) && bytes == Masked(w.frame.payload, w.mask)
    ensures Masked(bytes, w.mask) == w.frame.payload
  {
    MaskedTwice(w.frame.payload, w.mask);
  }

  /** A frame on the wire is read back, masked or not, in whichever length class it was sent. */
  lemma {:induction false} WireReadBack(s: Bytes, p: nat, w: Wire)
    requires ValidWire(w) && Starts(s, p, WireBytes(w))
    ensures ReadFrame(s, p) == if |w.frame.payload| <= MAX_PAYLOAD then Got(w.frame, p + |WireBytes(w)|) else Stop
  {
    var q, r, next := WireParts(s, p, w);
    HeadReadBack(s, p, w);
    if w.extra > 0 { LengthReadBack(s[p + 2..q], w); }
    BodyReadBack(s[r..next], w);
    PartsReadBack(s, p, q, r, next, w.frame, w.extra, w.mask);
  }

  lemma {:induction false} PartsReadBack(s: Bytes, p: nat, q: nat, r: nat, next: nat, f: Frame, extra: nat, mask: Bytes)
    requires q == p + 2 + extra && r == q + |mask| && next == r + |f.payload| <= |s| && (|mask| == 0 || |mask| == 4)
    requires (s[p] >= 128 <==> f.fin) && s[p] % 16 == f.opcode
    requires (s[p + 1] >= 128 <==> mask != []) && ExtraBytes(s[p + 1] % 128) == extra
    requires |f.payload| == if extra == 0 then s[p + 1] % 128 else Value(s[p + 2..q], extra)
    requires s[q..r] == mask && Masked(s[r..next], mask) == f.payload
    ensures ReadFrame(s, p) == if |f.payload| <= MAX_PAYLOAD then Got(f, next) else Stop
  {
    hide Masked, Value, ExtraBytes;
    var payload := s[r..next];
    assert Masked(payload, s[q..r]) == f.payload;
  }

  lemma {:induction false} WireParts(s: Bytes, p: nat, w: Wire) returns (q: nat, r: nat, next: nat)
    requires ValidWire(w) && Starts(s, p, WireBytes(w))
    ensures q == p + 2 + w.extra && r == q + |w.mask| && next == r + |w.frame.payload| == p + |WireBytes(w)| <= |s|
    ensures s[p] == Head(w)[0] && s[p + 1] == Head(w)[1]
    ensures s[p + 2..q] == Length(w) && s[q..r] == w.mask && s[r..next] == Masked(w.frame.payload, w.mask)
  {
    var body := Masked(w.frame.payload, w.mask);
    q, r, next := p + 2 + w.extra, p + 2 + w.extra + |w.mask|, p + |WireBytes(w)|;
    StartsSplit(s, p, Head(w), Length(w) + (w.mask + body));
    StartsAt(s, p, Head(w), 0);
    StartsAt(s, p, Head(w), 1);
    StartsSplit(s, p + 2, Length(w), w.mask + body);
    StartsSlice(s, p + 2, Length(w));
    StartsSplit(s, q, w.mask, body);
    StartsSlice(s, q, w.mask);
    StartsSlice(s, r, body);
  }

  /** What `encodeFrame` wrote reads back with its opcode and payload, in all three length classes,
      exactly up to the limit of 4 MiB. */
  lemma {:induction false} EncodeReadBack(payload: Bytes, opcode: nat)
    requires |payload| < Power256(8)
    ensures ReadFrame(Encode(payload, opcode), 0) ==
              if |payload| <= MAX_PAYLOAD then Got(Frame(true, opcode % 16, payload), |Encode(payload, opcode)|) else Stop
  {
    var n := |payload|;
    assert Power256(1) == 256 && Power256(2) == 0x10000;
    var w := Wire(Frame(true, opcode % 16, payload), if n < 126 then 0 else if n <= 0xFFFF then 2 else 8, []);
    assert WireBytes(w) == Encode(payload, opcode);
    StartsAll(WireBytes(w));
    WireReadBack(WireBytes(w), 0, w);
  }
}
