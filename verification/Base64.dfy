/** Base64 with the standard alphabet (src/util/base64.h; section 4 of RFC 4648). */
module Base64 {
  import opened Text

  /** The decoder's accumulator has 32 bits and wraps around. */
  const WORD := 0x1_0000_0000

  /** The table of the encoder: upper case, lower case, digits, plus and slash. */
  function Letter(v: nat): char
    requires v < 64
  {
    if v < 26 then ('A' as int + v) as char
    else if v < 52 then ('a' as int + (v - 26)) as char
    else if v < 62 then ('0' as int + (v - 52)) as char
    else if v == 62 then '+'
    else '/'
  }

  /** The value of a character, also of the two that the URL alphabet uses. */
  function LetterValue(c: char): Option<nat> {
    if 'A' <= c <= 'Z' then Some(c as int - 'A' as int)
    else if 'a' <= c <= 'z' then Some(c as int - 'a' as int + 26)
    else if '0' <= c <= '9' then Some(c as int - '0' as int + 52)
    else if c == '+' || c == '-' then Some(62)
    else if c == '/' || c == '_' then Some(63)
    else None
  }

  // ---------------------------------------------------------------- encoding

  /** The four letters of three bytes; missing bytes count as 0. */
  function Group(a: Byte, b: Byte, c: Byte): (r: seq<char>)
    ensures |r| == 4
  {
    [Letter(a / 4), Letter(a % 4 * 16 + b / 16), Letter(b % 16 * 4 + c / 64), Letter(c % 64)]
  }

  function EncodeFrom(x: Bytes, i: nat): string
    requires i <= |x|
    decreases |x| - i
  {
    if i + 2 < |x| then Group(x[i], x[i + 1], x[i + 2]) + EncodeFrom(x, i + 3)
    else if i + 1 < |x| then Group(x[i], x[i + 1], 0)[..3] + "="
    else if i < |x| then Group(x[i], 0, 0)[..2] + "=="
    else ""
  }

  function Encode(x: Bytes): string {
    EncodeFrom(x, 0)
  }

  // ---------------------------------------------------------------- decoding

  function Push(buf: nat, v: nat): nat {
    (buf * 64 + v) % WORD
  }

  /** What the characters from `k` on give, with `bits` bits of `buf` still pending. */
  function DecodeFrom(s: string, k: nat, buf: nat, bits: nat): Bytes
    requires k <= |s|
    decreases |s| - k
  {
    if k == |s| || s[k] == '=' then []
    else
      var v := LetterValue(s[k]);
      if v.None? then DecodeFrom(s, k + 1, buf, bits)
      else
        var b := Push(buf, v.value);
        if bits + 6 >= 8 then [OutByte(b, bits - 2)] + DecodeFrom(s, k + 1, b, bits - 2)
        else DecodeFrom(s, k + 1, b, bits + 6)
  }

  /** `(buf >> bits) & 0xFF`. */
  function OutByte(buf: nat, bits: nat): Byte {
    PowerPositive(bits);
    buf / Power2(bits) % 256
  }

  lemma {:induction false} PowerPositive(k: nat)
    ensures Power2(k) > 0
  {
    if k > 0 { PowerPositive(k - 1); }
  }

  function Decode(s: string): Bytes {
    DecodeFrom(s, 0, 0, 0)
  }

  // ---------------------------------------------------------------- the round trip

  lemma {:induction false} LetterReadBack(v: nat)
    requires v < 64
    ensures LetterValue(Letter(v)) == Some(v) && Letter(v) != '='
  {
  }

  // The low bits of the accumulator survive its wrap-around.

  lemma {:induction false} Low0(buf: nat, v: nat)
    requires v < 64
    ensures Push(buf, v) % 64 == v
  {
    var p, q := Push(buf, v), (buf * 64 + v) / WORD;
    assert buf * 64 + v == q * WORD + p;
    assert p == 64 * (buf - q * (WORD / 64)) + v;
  }

  lemma {:induction false} Low2(buf: nat, v: nat)
    requires v < 64
    ensures Push(buf, v) % 256 == buf % 4 * 64 + v
  {
    var p, q, h, r := Push(buf, v), (buf * 64 + v) / WORD, buf / 4, buf % 4;
    assert buf == 4 * h + r && buf * 64 + v == q * WORD + p;
    assert p == 256 * (h - q * (WORD / 256)) + (r * 64 + v);
  }

  lemma {:induction false} Low4(buf: nat, v: nat)
    requires v < 64
    ensures Push(buf, v) % 1024 == buf % 16 * 64 + v
  {
    var p, q, h, r := Push(buf, v), (buf * 64 + v) / WORD, buf / 16, buf % 16;
    assert buf == 16 * h + r && buf * 64 + v == q * WORD + p;
    assert p == 1024 * (h - q * (WORD / 1024)) + (r * 64 + v);
  }

  lemma {:induction false} Low6(buf: nat, v: nat)
    requires v < 64
    ensures Push(buf, v) % 4096 == buf % 64 * 64 + v
  {
    var p, q, h, r := Push(buf, v), (buf * 64 + v) / WORD, buf / 64, buf % 64;
    assert buf == 64 * h + r && buf * 64 + v == q * WORD + p;
    assert p == 4096 * (h - q * (WORD / 4096)) + (r * 64 + v);
  }

  lemma {:induction false} Powers()
    ensures Power2(0) == 1 && Power2(2) == 4 && Power2(4) == 16
  {
    assert Power2(1) == 2 && Power2(3) == 8;
  }

  /** One letter read, with `bits` bits pending. */
  lemma {:induction false} ReadLetter(s: string, k: nat, v: nat, buf: nat, bits: nat)
    requires k < |s| && v < 64 && s[k] == Letter(v)
    ensures DecodeFrom(s, k, buf, bits)
              == if bits + 6 >= 8 then [OutByte(Push(buf, v), bits - 2)] + DecodeFrom(s, k + 1, Push(buf, v), bits - 2)
                 else DecodeFrom(s, k + 1, Push(buf, v), bits + 6)
  {
    LetterReadBack(v);
  }

  lemma {:induction false} TopOf12(n: nat, a: Byte, r: nat)
    requires n % 4096 == 16 * a + r && r < 16
    ensures n / 16 % 256 == a && n % 16 == r
  {
    var h := n / 4096;
    assert n == 16 * (256 * h + a) + r;
  }

  lemma {:induction false} TopOf10(n: nat, b: Byte, r: nat)
    requires n % 1024 == 4 * b + r && r < 4
    ensures n / 4 % 256 == b && n % 4 == r
  {
    var h := n / 1024;
    assert n == 4 * (256 * h + b) + r;
  }

  /** Two letters give the first byte of a group and leave four bits. */
  lemma {:induction false} FirstByte(s: string, k: nat, a: Byte, b: Byte, buf: nat) returns (next: nat)
    requires k + 1 < |s| && s[k] == Letter(a / 4) && s[k + 1] == Letter(a % 4 * 16 + b / 16)
    ensures DecodeFrom(s, k, buf, 0) == [a] + DecodeFrom(s, k + 2, next, 4) && next % 16 == b / 16
  {
    var v, w := a / 4, a % 4 * 16 + b / 16;
    ReadLetter(s, k, v, buf, 0);
    ReadLetter(s, k + 1, w, Push(buf, v), 6);
    next := Push(Push(buf, v), w);
    FirstBits(a, b, buf);
    Powers();
  }

  lemma {:induction false} FirstBits(a: Byte, b: Byte, buf: nat)
    ensures var next := Push(Push(buf, a / 4), a % 4 * 16 + b / 16); next / 16 % 256 == a && next % 16 == b / 16
  {
    var v, w := a / 4, a % 4 * 16 + b / 16;
    Low0(buf, v);
    Low6(Push(buf, v), w);
    TopOf12(Push(Push(buf, v), w), a, b / 16);
  }

  /** The third letter gives the second byte and leaves two bits. */
  lemma {:induction false} SecondByte(s: string, k: nat, b: Byte, c: Byte, buf: nat) returns (next: nat)
    requires k < |s| && buf % 16 == b / 16 && s[k] == Letter(b % 16 * 4 + c / 64)
    ensures DecodeFrom(s, k, buf, 4) == [b] + DecodeFrom(s, k + 1, next, 2) && next % 4 == c / 64
  {
    var v := b % 16 * 4 + c / 64;
    ReadLetter(s, k, v, buf, 4);
    next := Push(buf, v);
    SecondBits(b, c, buf);
    Powers();
  }

  lemma {:induction false} SecondBits(b: Byte, c: Byte, buf: nat)
    requires buf % 16 == b / 16
    ensures var next := Push(buf, b % 16 * 4 + c / 64); next / 4 % 256 == b && next % 4 == c / 64
  {
    Low4(buf, b % 16 * 4 + c / 64);
    TopOf10(Push(buf, b % 16 * 4 + c / 64), b, c / 64);
  }

  lemma {:induction false} ThirdByte(s: string, k: nat, c: Byte, buf: nat) returns (next: nat)
    requires k < |s| && buf % 4 == c / 64 && s[k] == Letter(c % 64)
    ensures DecodeFrom(s, k, buf, 2) == [c] + DecodeFrom(s, k + 1, next, 0)
  {
    ReadLetter(s, k, c % 64, buf, 2);
    next := Push(buf, c % 64);
    Low2(buf, c % 64);
    Powers();
    assert next % 256 == c;
  }

  lemma {:induction false} GroupReadBack(s: string, k: nat, a: Byte, b: Byte, c: Byte, buf: nat) returns (next: nat)
    requires Starts(s, k, Group(a, b, c))
    ensures DecodeFrom(s, k, buf, 0) == [a, b, c] + DecodeFrom(s, k + 4, next, 0)
  {
    hide DecodeFrom;
    var g := Group(a, b, c);
    StartsAt(s, k, g, 0);
    StartsAt(s, k, g, 1);
    StartsAt(s, k, g, 2);
    StartsAt(s, k, g, 3);
    var one := FirstByte(s, k, a, b, buf);
    var two := SecondByte(s, k + 2, b, c, one);
    next := ThirdByte(s, k + 3, c, two);
    var rest := DecodeFrom(s, k + 4, next, 0);
    assert [a] + ([b] + ([c] + rest)) == [a, b, c] + rest;
  }

  lemma {:induction false} TailReadBack(s: string, k: nat, x: Bytes, i: nat, buf: nat)
    requires i <= |x| <= i + 2 && Starts(s, k, EncodeFrom(x, i)) && k + |EncodeFrom(x, i)| == |s|
    ensures DecodeFrom(s, k, buf, 0) == x[i..]
  {
    var t := EncodeFrom(x, i);
    if i + 1 < |x| {
      StartsAt(s, k, t, 0);
      StartsAt(s, k, t, 1);
      StartsAt(s, k, t, 2);
      StartsAt(s, k, t, 3);
      var one := FirstByte(s, k, x[i], x[i + 1], buf);
      var two := SecondByte(s, k + 2, x[i + 1], 0, one);
      assert x[i..] == [x[i]] + ([x[i + 1]] + []);
    } else if i < |x| {
      StartsAt(s, k, t, 0);
      StartsAt(s, k, t, 1);
      StartsAt(s, k, t, 2);
      var one := FirstByte(s, k, x[i], 0, buf);
      assert x[i..] == [x[i]] + [];
    }
  }

  lemma {:induction false} ReadBack(s: string, k: nat, x: Bytes, i: nat, buf: nat)
    requires i <= |x| && Starts(s, k, EncodeFrom(x, i)) && k + |EncodeFrom(x, i)| == |s|
    ensures DecodeFrom(s, k, buf, 0) == x[i..]
    decreases |x| - i
  {
    if i + 2 < |x| {
      StartsSplit(s, k, Group(x[i], x[i + 1], x[i + 2]), EncodeFrom(x, i + 3));
      var next := GroupReadBack(s, k, x[i], x[i + 1], x[i + 2], buf);
      ReadBack(s, k + 4, x, i + 3, next);
      assert x[i..] == [x[i], x[i + 1], x[i + 2]] + x[i + 3..];
    } else {
      TailReadBack(s, k, x, i, buf);
    }
  }

  /** Decoding an encoded byte string gives it back, whatever its length. */
  lemma {:induction false} RoundTrip(x: Bytes)
    ensures Decode(Encode(x)) == x
  {
    StartsAll(Encode(x));
    ReadBack(Encode(x), 0, x, 0, 0);
    assert x[0..] == x;
  }

  /** How many of the last letters are padding. */
  function Padding(n: nat): nat {
    if n % 3 == 0 then 0 else 3 - n % 3
  }

  lemma {:induction false} GroupHasNoPadding(a: Byte, b: Byte, c: Byte)
    ensures forall j :: 0 <= j < 4 ==> Group(a, b, c)[j] != '='
  {
    LetterReadBack(a / 4);
    LetterReadBack(a % 4 * 16 + b / 16);
    LetterReadBack(b % 16 * 4 + c / 64);
    LetterReadBack(c % 64);
  }

  predicate PaddedFrom(e: string, k: int) {
    forall j :: 0 <= j < |e| ==> (e[j] == '=' <==> j >= k)
  }

  lemma {:induction false} PaddedBehind(g: string, e: string, k: int)
    requires (forall j :: 0 <= j < |g| ==> g[j] != '=') && PaddedFrom(e, k) && k >= 0
    ensures PaddedFrom(g + e, |g| + k)
  {
  }

  lemma {:induction false} Thirds(n: nat)
    requires n >= 3
    ensures (n + 2) / 3 == (n - 3 + 2) / 3 + 1 && Padding(n) == Padding(n - 3)
  {
  }

  /** Four letters for every three bytes begun, and padding in the last group only. */
  lemma {:induction false} Shape(x: Bytes, i: nat)
    requires i <= |x|
    ensures var e, n := EncodeFrom(x, i), |x| - i;
            |e| == (n + 2) / 3 * 4 && Padding(n) <= |e| && PaddedFrom(e, |e| - Padding(n))
    decreases |x| - i
  {
    if i + 2 < |x| {
      Shape(x, i + 3);
      var g, rest := Group(x[i], x[i + 1], x[i + 2]), EncodeFrom(x, i + 3);
      GroupHasNoPadding(x[i], x[i + 1], x[i + 2]);
      Thirds(|x| - i);
      PaddedBehind(g, rest, |rest| - Padding(|x| - i - 3));
    } else if i < |x| {
      GroupHasNoPadding(x[i], if i + 1 < |x| then x[i + 1] else 0, 0);
    }
  }

  // ---------------------------------------------------------------- the loops

  method EncodeBytes(data: Bytes) returns (out: string)
    ensures out == Encode(data)
  {
    out := "";
    var i := 0;
    while i + 2 < |data|
      invariant 0 <= i <= |data| && out + EncodeFrom(data, i) == Encode(data)
    {
      var v := Word(data[i], data[i + 1], data[i + 2]);
      var g := Sextets(data[i], data[i + 1], data[i + 2], v);
      assert out + (g + EncodeFrom(data, i + 3)) == (out + g) + EncodeFrom(data, i + 3);
      out := out + g;
      i := i + 3;
    }
    if i < |data| {
      var b := if i + 1 < |data| then data[i + 1] else 0;
      var g := Sextets(data[i], b, 0, Word(data[i], b, 0));
      out := out + (g[..2] + (if i + 1 < |data| then [g[2]] else "=") + "=");
      assert g[..3] == g[..2] + [g[2]];
      assert g[..2] + "=" + "=" == g[..2] + "==";
    }
  }

  /** Three bytes in one word. */
  function Word(a: nat, b: nat, c: nat): nat {
    a * 0x10000 + b * 0x100 + c
  }

  lemma {:induction false} WordParts(p: nat, q: nat, r: nat, t: nat, v: nat)
    requires p < 64 && q < 64 && r < 64 && t < 64 && v == p * 0x40000 + q * 0x1000 + r * 0x40 + t
    ensures v / 0x40000 % 64 == p && v / 0x1000 % 64 == q && v / 0x40 % 64 == r && v % 64 == t
  {
    assert v == 0x40000 * p + (q * 0x1000 + r * 0x40 + t);
    assert v == 0x1000 * (p * 64 + q) + (r * 0x40 + t);
    assert v == 0x40 * ((p * 64 + q) * 64 + r) + t;
    assert v / 0x40000 == p;
    assert v / 0x1000 == p * 64 + q;
    assert v / 0x40 == (p * 64 + q) * 64 + r;
  }

  /** The letters of the four six-bit parts of a word. */
  method Sextets(a: Byte, b: Byte, c: Byte, v: nat) returns (g: string)
    requires v == Word(a, b, c)
    ensures g == Group(a, b, c)
  {
    WordParts(a / 4, a % 4 * 16 + b / 16, b % 16 * 4 + c / 64, c % 64, v);
    g := [Letter(v / 0x40000 % 64), Letter(v / 0x1000 % 64), Letter(v / 0x40 % 64), Letter(v % 64)];
  }

  method DecodeText(s: string) returns (out: Bytes)
    ensures out == Decode(s)
  {
    out := [];
    var buf: nat, bits: nat := 0, 0;
    var k := 0;
    while k < |s| && s[k] != '='
      invariant 0 <= k <= |s| && out + DecodeFrom(s, k, buf, bits) == Decode(s)
    {
      var v := LetterValue(s[k]);
      if v.Some? {
        buf := (buf * 64 + v.value) % WORD;
        bits := bits + 6;
        if bits >= 8 {
          bits := bits - 8;
          var b := OutByte(buf, bits);
          assert out + ([b] + DecodeFrom(s, k + 1, buf, bits)) == (out + [b]) + DecodeFrom(s, k + 1, buf, bits);
          out := out + [b];
        }
      }
      k := k + 1;
    }
  }
}
