/** Whatever the reader accepts can be printed and read again (src/util/json.h). */
module JsonNormal {
  import opened Text
  import opened Json
  import opened JsonRoundTrip

  // ---------------------------------------------------------------- number tokens

  lemma {:induction false} DigitsClip(t: string, p: nat, n: nat, k: nat)
    requires p + k <= n <= |t|
    ensures ScanDigits(t[p..n], k) == Min(ScanDigits(t, p + k), n) - p
    decreases n - (p + k)
  {
    if p + k < n {
      assert t[p..n][k] == t[p + k];
      DigitsClip(t, p, n, k + 1);
    }
  }

  lemma {:induction false} SomeDigitsClip(t: string, p: nat, n: nat, k: nat)
    requires p + k <= n <= |t| && ScanSomeDigits(t, p + k).Some? && ScanSomeDigits(t, p + k).value <= n
    ensures ScanSomeDigits(t[p..n], k) == Some(ScanSomeDigits(t, p + k).value - p)
  {
    DigitsClip(t, p, n, k);
    assert p + k < ScanSomeDigits(t, p + k).value by { assert ScanDigits(t, p + k) > p + k; }
    assert t[p..n][k] == t[p + k];
  }

  lemma {:induction false} IntegerClip(t: string, p: nat, n: nat, k: nat)
    requires p + k <= n <= |t| && ScanInteger(t, p + k).Some? && ScanInteger(t, p + k).value <= n
    ensures ScanInteger(t[p..n], k) == Some(ScanInteger(t, p + k).value - p)
  {
    if t[p + k] != '0' { SomeDigitsClip(t, p, n, k); }
    if p + k < n { assert t[p..n][k] == t[p + k]; }
  }

  lemma {:induction false} FractionClip(t: string, p: nat, n: nat, k: nat)
    requires p + k <= n <= |t| && ScanFraction(t, p + k).Some? && ScanFraction(t, p + k).value <= n
    ensures ScanFraction(t[p..n], k) == Some(ScanFraction(t, p + k).value - p)
  {
    if p + k < n {
      assert t[p..n][k] == t[p + k];
      if t[p + k] == '.' { SomeDigitsClip(t, p, n, k + 1); }
    }
  }

  lemma {:induction false} ExponentClip(t: string, p: nat, n: nat, k: nat)
    requires p + k <= n <= |t| && ScanExponent(t, p + k) == Some(n)
    ensures ScanExponent(t[p..n], k) == Some(n - p)
  {
    if p + k < n {
      assert t[p..n][k] == t[p + k];
      var q := if p + k + 1 < |t| && (t[p + k + 1] == '+' || t[p + k + 1] == '-') then p + k + 2 else p + k + 1;
      assert q < n by { assert ScanDigits(t, q) > q; }
      assert t[p..n][k + 1] == t[p + k + 1];
      SomeDigitsClip(t, p, n, q - p);
    }
  }

  /** The text of a number that was read is a number by itself. */
  lemma {:induction false} TokenRead(t: string, p: nat)
    requires p < |t| && ScanNumber(t, p).Some?
    ensures IsToken(t[p..ScanNumber(t, p).value])
  {
    var k := if t[p] == '-' then 1 else 0;
    var i := ScanInteger(t, p + k).value;
    ScansGrow(t, p + k);
    PartsClip(t, p, ScanNumber(t, p).value, k, i, ScanFraction(t, i).value);
  }

  lemma {:induction false} PartsClip(t: string, p: nat, n: nat, k: nat, i: nat, f: nat)
    requires p < n <= |t| && k == (if t[p] == '-' then 1 else 0) && p + k < i <= f <= n
    requires ScanInteger(t, p + k) == Some(i) && ScanFraction(t, i) == Some(f) && ScanExponent(t, f) == Some(n)
    ensures IsToken(t[p..n])
  {
    assert t[p..n][0] == t[p];
    IntegerClip(t, p, n, k);
    FractionClip(t, p, n, i - p);
    ExponentClip(t, p, n, f - p);
  }

  lemma {:induction false} ScansGrow(t: string, p: nat)
    requires p <= |t| && ScanInteger(t, p).Some? && ScanFraction(t, ScanInteger(t, p).value).Some?
    requires ScanExponent(t, ScanFraction(t, ScanInteger(t, p).value).value).Some?
    ensures var i := ScanInteger(t, p).value;
            var f := ScanFraction(t, i).value;
            p < i <= f <= ScanExponent(t, f).value <= |t|
  {
  }

  // ---------------------------------------------------------------- objects

  lemma {:induction false} KeysCompare(a: string, b: string)
    ensures a == b || KeyLess(a, b) || KeyLess(b, a)
    decreases |a|
  {
    if a != "" && b != "" {
      KeysCompare(a[1..], b[1..]);
      assert a == [a[0]] + a[1..] && b == [b[0]] + b[1..];
    }
  }

  lemma {:induction false} KeysChain(a: string, b: string, c: string)
    requires KeyLess(a, b) && KeyLess(b, c)
    ensures KeyLess(a, c)
    decreases |a|
  {
    if a != "" && a[0] == b[0] && b[0] == c[0] { KeysChain(a[1..], b[1..], c[1..]); }
  }

  predicate AllBelow(fields: seq<Field>, key: string) {
    forall i :: 0 <= i < |fields| ==> KeyLess(fields[i].key, key)
  }

  lemma {:induction false} AscendSnoc(fields: seq<Field>, f: Field)
    requires KeysAscend(fields) && AllBelow(fields, f.key)
    ensures KeysAscend(fields + [f])
  {
  }

  lemma {:induction false} BelowLast(fields: seq<Field>, key: string)
    requires KeysAscend(fields) && fields != [] && KeyLess(fields[|fields| - 1].key, key)
    ensures AllBelow(fields, key)
  {
    var last := fields[|fields| - 1];
    forall i | 0 <= i < |fields| ensures KeyLess(fields[i].key, key) {
      if i < |fields| - 1 { KeysChain(fields[i].key, last.key, key); }
    }
  }

  /** A put field is new or takes the place of the one with its key, and the keys still ascend. */
  lemma {:induction false} PutAscends(fields: seq<Field>, key: string, value: Value)
    requires KeysAscend(fields)
    ensures var r := Put(fields, key, value);
            KeysAscend(r) && forall i :: 0 <= i < |r| ==> r[i] == Field(key, value) || r[i] in fields
    decreases |fields|
  {
    if fields != [] {
      var n := |fields| - 1;
      var before, last := fields[..n], fields[n];
      assert AllBelow(before, last.key);
      if last.key == key {
        AscendSnoc(before, Field(key, value));
      } else if KeyLess(last.key, key) {
        BelowLast(fields, key);
        AscendSnoc(fields, Field(key, value));
      } else {
        KeysCompare(last.key, key);
        PutAscends(before, key, value);
        var r := Put(before, key, value);
        forall i | 0 <= i < |r| ensures KeyLess(r[i].key, last.key) {
          if r[i] != Field(key, value) { assert r[i] in before; }
        }
        AscendSnoc(r, last);
      }
    }
  }

  // ---------------------------------------------------------------- values

  /** No number that is written in the text overflows. */
  ghost predicate NumbersFit(lib: Library, t: string) {
    forall p :: 0 <= p < |t| && ScanNumber(t, p).Some? ==> lib.strtod(t[p..ScanNumber(t, p).value]).Finite?
  }

  /** Storable, finite if the text fits, and nested no deeper than the reader allows inside `depth`
      open containers. */
  predicate Proper(lib: Library, v: Value, depth: nat, fits: bool) {
    depth <= MAX_NESTING && Storable(lib, v) && Shallow(v, MAX_NESTING - depth) && (fits ==> AllFinite(v))
  }

  predicate ItemsProper(lib: Library, items: seq<Value>, depth: nat, fits: bool) {
    forall i :: 0 <= i < |items| ==> Proper(lib, items[i], depth, fits)
  }

  predicate FieldsProper(lib: Library, fields: seq<Field>, depth: nat, fits: bool) {
    KeysAscend(fields) && forall i :: 0 <= i < |fields| ==> Proper(lib, fields[i].value, depth, fits)
  }

  lemma {:induction false} ItemsMakeArray(lib: Library, items: seq<Value>, depth: nat, fits: bool)
    requires ItemsProper(lib, items, depth + 1, fits) && depth < MAX_NESTING
    ensures Proper(lib, Array(items), depth, fits)
  {
  }

  lemma {:induction false} FieldsMakeObject(lib: Library, fields: seq<Field>, depth: nat, fits: bool)
    requires FieldsProper(lib, fields, depth + 1, fits) && depth < MAX_NESTING
    ensures Proper(lib, Object(fields), depth, fits)
  {
  }

  lemma {:induction false} NumberProper(lib: Library, t: string, p: nat, depth: nat, fits: bool)
    requires Exact(lib) && p < |t| && ScanNumber(t, p).Some? && depth <= MAX_NESTING && (fits ==> NumbersFit(lib, t))
    ensures Proper(lib, Number(lib.strtod(t[p..ScanNumber(t, p).value])), depth, fits)
  {
    TokenRead(t, p);
  }

  /** Whatever is read is storable, with ascending keys, and nested at most 512 deep; all of it is
      finite if no number in the text overflows. */
  lemma {:induction false} ReadIsProper(lib: Library, t: string, p: nat, depth: nat, fits: bool)
    requires Exact(lib) && p <= |t| && depth <= MAX_NESTING && ParseValue(lib, t, p, depth).Ok? && (fits ==> NumbersFit(lib, t))
    ensures Proper(lib, ParseValue(lib, t, p, depth).value, depth, fits)
    decreases |t| - p, 1
  {
    if t[p] == '{' {
      ObjectIsProper(lib, t, p, depth, fits);
    } else if t[p] == '[' {
      ArrayIsProper(lib, t, p, depth, fits);
    } else if t[p] == '-' || IsDigit(t[p]) {
      NumberProper(lib, t, p, depth, fits);
    }
  }

  lemma {:induction false} ArrayIsProper(lib: Library, t: string, p: nat, depth: nat, fits: bool)
    requires Exact(lib) && p < |t| && depth <= MAX_NESTING && ParseArray(lib, t, p, depth).Ok? && (fits ==> NumbersFit(lib, t))
    ensures Proper(lib, ParseArray(lib, t, p, depth).value, depth, fits)
    decreases |t| - p, 0
  {
    var q := SkipWs(t, p + 1);
    if !(q < |t| && t[q] == ']') { ItemsAreProper(lib, t, q, depth + 1, [], fits); }
  }

  lemma {:induction false} ItemsAreProper(lib: Library, t: string, p: nat, depth: nat, items: seq<Value>, fits: bool)
    requires Exact(lib) && p <= |t| && 0 < depth <= MAX_NESTING && ItemsProper(lib, items, depth, fits)
    requires ParseItems(lib, t, p, depth, items).Ok? && (fits ==> NumbersFit(lib, t))
    ensures Proper(lib, ParseItems(lib, t, p, depth, items).value, depth - 1, fits)
    decreases |t| - p, 2
  {
    var s := SkipWs(t, p);
    ReadIsProper(lib, t, s, depth, fits);
    var v := ParseValue(lib, t, s, depth);
    var more := items + [v.value];
    var q := SkipWs(t, v.next);
    if t[q] == ']' { ItemsMakeArray(lib, more, depth - 1, fits); } else { ItemsAreProper(lib, t, q + 1, depth, more, fits); }
  }

  lemma {:induction false} ObjectIsProper(lib: Library, t: string, p: nat, depth: nat, fits: bool)
    requires Exact(lib) && p < |t| && depth <= MAX_NESTING && ParseObject(lib, t, p, depth).Ok? && (fits ==> NumbersFit(lib, t))
    ensures Proper(lib, ParseObject(lib, t, p, depth).value, depth, fits)
    decreases |t| - p, 0
  {
    var q := SkipWs(t, p + 1);
    if !(q < |t| && t[q] == '}') { FieldsAreProper(lib, t, q, depth + 1, [], fits); }
  }

  lemma {:induction false} PutProper(lib: Library, fields: seq<Field>, key: string, value: Value, depth: nat, fits: bool)
    requires FieldsProper(lib, fields, depth, fits) && Proper(lib, value, depth, fits)
    ensures FieldsProper(lib, Put(fields, key, value), depth, fits)
  {
    PutAscends(fields, key, value);
  }

  lemma {:induction false} FieldsAreProper(lib: Library, t: string, p: nat, depth: nat, fields: seq<Field>, fits: bool)
    requires Exact(lib) && p <= |t| && 0 < depth <= MAX_NESTING && FieldsProper(lib, fields, depth, fits)
    requires ParseFields(lib, t, p, depth, fields).Ok? && (fits ==> NumbersFit(lib, t))
    ensures Proper(lib, ParseFields(lib, t, p, depth, fields).value, depth - 1, fits)
    decreases |t| - p, 2
  {
    var key := ParseKey(t, SkipWs(t, p));
    var s := SkipWs(t, key.next);
    ReadIsProper(lib, t, s, depth, fits);
    var v := ParseValue(lib, t, s, depth);
    var more := Put(fields, key.value, v.value);
    PutProper(lib, fields, key.value, v.value, depth, fits);
    var q := SkipWs(t, v.next);
    if t[q] == '}' { FieldsMakeObject(lib, more, depth - 1, fits); } else { FieldsAreProper(lib, t, q + 1, depth, more, fits); }
  }

  /** A text that is read at all reads the same after printing, in every indentation, exactly if
      every number kept of it is finite; so it does if no number in it overflows. */
  lemma {:induction false} ReadPrintReadIff(lib: Library, t: string, indent: int)
    requires Exact(lib) && Parse(lib, t).Some?
    ensures Parse(lib, Dump(lib, Parse(lib, t).value, indent, 0)) == Parse(lib, t) <==> AllFinite(Parse(lib, t).value)
    ensures NumbersFit(lib, t) ==> AllFinite(Parse(lib, t).value)
  {
    ReadIsProper(lib, t, SkipWs(t, 0), 0, false);
    if NumbersFit(lib, t) { ReadIsProper(lib, t, SkipWs(t, 0), 0, true); }
    RoundTripIff(lib, Parse(lib, t).value, indent);
  }

  /** The text 1e400 is accepted, but what it prints is null. */
  lemma {:induction false} OverflowIsLost(lib: Library, t: string, indent: int)
    requires Exact(lib) && t == "1e400" && lib.strtod(t) == Infinite(false)
    ensures Parse(lib, t) == Some(Number(Infinite(false)))
    ensures Parse(lib, Dump(lib, Parse(lib, t).value, indent, 0)) == Some(Null)
  {
    assert ScanDigits(t, 5) == 5 && ScanDigits(t, 4) == 5 && ScanDigits(t, 3) == 5;
    assert ScanDigits(t, 1) == 1 && ScanNumber(t, 0) == Some(5);
    assert t[0..5] == t;
    ReadsNulled(lib, Number(Infinite(false)), indent);
  }
}
