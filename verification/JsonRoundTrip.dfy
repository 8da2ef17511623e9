/** Reading a printed value gives the value back (src/util/json.h; sections 2 to 7 of RFC 8259). */
module JsonRoundTrip {
  import opened Text
  import opened Json

  /** Nothing that could continue a number. */
  predicate Stops(t: string, q: nat) {
    q < |t| ==> t[q] == ',' || t[q] == ']' || t[q] == '}' || IsWs(t[q])
  }

  // ---------------------------------------------------------------- strings

  lemma {:induction false} HexReadBack(n: nat)
    requires n < 16
    ensures HexValue(HexDigit(n)) == Some(n)
  {
  }

  lemma {:induction false} ControlReadBack(t: string, p: nat, c: char)
    requires Starts(t, p, ['u', '0', '0', HexDigit(c as int / 16 % 16), HexDigit(c as int % 16)]) && c as int < 0x20
    ensures ParseEscape(t, p) == Ok([c], p + 5)
  {
    var n := c as int;
    var e := ['u', '0', '0', HexDigit(n / 16 % 16), HexDigit(n % 16)];
    StartsAt(t, p, e, 0);
    StartsAt(t, p, e, 1);
    StartsAt(t, p, e, 2);
    StartsAt(t, p, e, 3);
    StartsAt(t, p, e, 4);
    HexReadBack(0);
    HexReadBack(n / 16 % 16);
    HexReadBack(n % 16);
    assert ParseHex4(t, p + 1) == Ok(n, p + 5);
  }

  lemma {:induction false} CharReadBack(t: string, p: nat, c: char, out: string)
    requires Starts(t, p, EscapeChar(c))
    ensures ParseChars(t, p, out) == ParseChars(t, p + |EscapeChar(c)|, out + [c])
  {
    var e := EscapeChar(c);
    StartsAt(t, p, e, 0);
    if |e| > 1 {
      StartsAt(t, p, e, 1);
      if |e| > 2 {
        StartsSplit(t, p, e[..1], e[1..]);
        assert e == e[..1] + e[1..];
        ControlReadBack(t, p + 1, c);
      }
    }
  }

  lemma {:induction false} StringReadBack(t: string, p: nat, s: string, k: nat, out: string)
    requires k <= |s| && Starts(t, p, EscapeBody(s, k))
    ensures ParseChars(t, p, out) == Ok(out + s[k..], p + |EscapeBody(s, k)|)
    decreases |s| - k
  {
    if k == |s| {
      StartsAt(t, p, "\"", 0);
      assert out + s[k..] == out;
    } else {
      StartsSplit(t, p, EscapeChar(s[k]), EscapeBody(s, k + 1));
      CharReadBack(t, p, s[k], out);
      StringReadBack(t, p + |EscapeChar(s[k])|, s, k + 1, out + [s[k]]);
      MoveOne(out, s, k);
    }
  }

  // ---------------------------------------------------------------- numbers

  lemma {:induction false} DigitsLocal(t: string, p: nat, token: string, k: nat)
    requires Starts(t, p, token) && Stops(t, p + |token|) && k <= |token|
    ensures ScanDigits(t, p + k) == p + ScanDigits(token, k)
    decreases |token| - k
  {
    if k < |token| {
      StartsAt(t, p, token, k);
      if IsDigit(token[k]) { DigitsLocal(t, p, token, k + 1); }
    }
  }

  function Shift(q: Option<nat>, p: nat): Option<nat> {
    if q.Some? then Some(p + q.value) else None
  }

  lemma {:induction false} SomeDigitsLocal(t: string, p: nat, token: string, k: nat)
    requires Starts(t, p, token) && Stops(t, p + |token|) && k <= |token|
    ensures ScanSomeDigits(t, p + k) == Shift(ScanSomeDigits(token, k), p)
  {
    DigitsLocal(t, p, token, k);
    if k < |token| { StartsAt(t, p, token, k); }
  }

  lemma {:induction false} IntegerLocal(t: string, p: nat, token: string, k: nat)
    requires Starts(t, p, token) && Stops(t, p + |token|) && k <= |token|
    ensures ScanInteger(t, p + k) == Shift(ScanInteger(token, k), p)
  {
    SomeDigitsLocal(t, p, token, k);
    if k < |token| { StartsAt(t, p, token, k); }
  }

  lemma {:induction false} FractionLocal(t: string, p: nat, token: string, k: nat)
    requires Starts(t, p, token) && Stops(t, p + |token|) && k <= |token|
    ensures ScanFraction(t, p + k) == Shift(ScanFraction(token, k), p)
  {
    if k < |token| {
      StartsAt(t, p, token, k);
      SomeDigitsLocal(t, p, token, k + 1);
    }
  }

  lemma {:induction false} ExponentLocal(t: string, p: nat, token: string, k: nat)
    requires Starts(t, p, token) && Stops(t, p + |token|) && k <= |token|
    ensures ScanExponent(t, p + k) == Shift(ScanExponent(token, k), p)
  {
    if k < |token| {
      StartsAt(t, p, token, k);
      SomeDigitsLocal(t, p, token, k + 1);
      if k + 1 < |token| {
        StartsAt(t, p, token, k + 1);
        SomeDigitsLocal(t, p, token, k + 2);
      }
    }
  }

  lemma {:induction false} TokenReadBack(t: string, p: nat, token: string)
    requires IsToken(token) && Starts(t, p, token) && Stops(t, p + |token|)
    ensures ScanNumber(t, p) == Some(p + |token|) && t[p] == token[0] && (token[0] == '-' || IsDigit(token[0]))
  {
    hide Stops;
    StartsAt(t, p, token, 0);
    var k := if token[0] == '-' then 1 else 0;
    IntegerLocal(t, p, token, k);
    var i := ScanInteger(token, k);
    FractionLocal(t, p, token, i.value);
    ExponentLocal(t, p, token, ScanFraction(token, i.value).value);
  }

  lemma {:induction false} DigitsAre(n: nat)
    ensures AllDigits(Digits(n)) && Digits(n) != [] && (n > 0 ==> Digits(n)[0] != '0') && (n == 0 ==> |Digits(n)| == 1)
    ensures DigitsValue(Digits(n), |Digits(n)|) == n
  {
    if n >= 10 {
      DigitsAre(n / 10);
      OneDigitMore(Digits(n / 10), n % 10);
    }
  }

  lemma {:induction false} OneDigitMore(before: string, k: nat)
    requires AllDigits(before) && k < 10
    ensures var t := before + [HexDigit(k)]; AllDigits(t) && DigitsValue(t, |t|) == 10 * DigitsValue(before, |before|) + k
  {
    ValuePrefix(before, [HexDigit(k)], |before|);
  }

  lemma {:induction false} ValuePrefix(a: string, b: string, n: nat)
    requires n <= |a|
    ensures DigitsValue(a + b, n) == DigitsValue(a, n)
  {
    if n > 0 { ValuePrefix(a, b, n - 1); }
  }

  lemma {:induction false} ScanAllDigits(t: string, k: nat)
    requires k <= |t| && forall i :: k <= i < |t| ==> IsDigit(t[i])
    ensures ScanDigits(t, k) == |t|
    decreases |t| - k
  {
    if k < |t| { ScanAllDigits(t, k + 1); }
  }

  /** The integer that is written out in a token. */
  function IntegerOf(token: string): Option<int> {
    var negative := token != [] && token[0] == '-';
    var digits := if negative then token[1..] else token;
    var n: int := DigitsValue(digits, |digits|);
    if AllDigits(digits) then Some(if negative then -n else n) else None
  }

  lemma {:induction false} DecimalIsToken(n: int)
    ensures IsToken(Decimal(n)) && IntegerOf(Decimal(n)) == Some(n)
  {
    var m: nat := if n < 0 then -n else n;
    DigitsAre(m);
    DecimalScans(n, m, if n < 0 then 1 else 0);
    DecimalNames(n, m);
  }

  lemma {:induction false} DecimalScans(n: int, m: nat, k: nat)
    requires Decimal(n) == (if k == 1 then "-" else "") + Digits(m) && k <= 1
    requires AllDigits(Digits(m)) && Digits(m) != [] && (m > 0 ==> Digits(m)[0] != '0') && (m == 0 ==> |Digits(m)| == 1)
    ensures IsToken(Decimal(n))
  {
    var t := Decimal(n);
    assert forall i :: k <= i < |t| ==> t[i] == Digits(m)[i - k];
    ScanAllDigits(t, k);
    assert ScanInteger(t, k) == Some(|t|);
    assert ScanFraction(t, |t|) == Some(|t|) && ScanExponent(t, |t|) == Some(|t|);
  }

  lemma {:induction false} DecimalNames(n: int, m: nat)
    requires m == (if n < 0 then -n else n) && AllDigits(Digits(m)) && Digits(m) != []
    requires DigitsValue(Digits(m), |Digits(m)|) == m
    ensures IntegerOf(Decimal(n)) == Some(n)
  {
    if n < 0 {
      assert Decimal(n)[1..] == Digits(m);
    } else {
      assert IsDigit(Digits(m)[0]);
    }
  }

  // ---------------------------------------------------------------- what is asked of the library

  /** A finite number prints to a number token that reads as the same number. */
  ghost predicate ReadsExactly(lib: Library, x: real) {
    var token := PrintNumber(lib, Finite(x));
    IsToken(token) && lib.strtod(token) == Finite(x)
  }

  /** Doubles are read as they are printed, and a token is read as a double or overflows. */
  ghost predicate Exact(lib: Library) {
    && (forall x :: lib.double(x) ==> ReadsExactly(lib, x))
    && (forall token :: IsToken(token) ==> IsDouble(lib, lib.strtod(token)) && !lib.strtod(token).NaN?)
  }

  predicate IsDouble(lib: Library, x: Num) {
    x.Finite? ==> lib.double(x.x)
  }

  /** There is such a library: one that knows only the integers that print as such. */
  lemma {:induction false} ExactExists() returns (lib: Library)
    ensures Exact(lib) && forall x :: lib.double(x) <==> Whole(x)
  {
    lib := Library(token => ReadInteger(token), x => "", x => Whole(x));
    forall x | lib.double(x) ensures ReadsExactly(lib, x) { DecimalIsToken(x.Floor); }
  }

  function ReadInteger(token: string): Num {
    var n := IntegerOf(token);
    if n.Some? && -INTEGER_LIMIT < n.value < INTEGER_LIMIT then Finite(n.value as real) else Infinite(false)
  }

  // ---------------------------------------------------------------- values that can be read back

  /** All numbers are finite doubles, and the keys of every object ascend. */
  predicate WellFormed(lib: Library, v: Value)
    decreases v
  {
    match v
    case Number(x) => x.Finite? && lib.double(x.x)
    case Array(items) => forall i :: 0 <= i < |items| ==> WellFormed(lib, items[i])
    case Object(fields) => KeysAscend(fields) && forall i :: 0 <= i < |fields| ==> WellFormed(lib, fields[i].value)
    case _ => true
  }

  predicate KeysAscend(fields: seq<Field>) {
    forall i, j :: 0 <= i < j < |fields| ==> KeyLess(fields[i].key, fields[j].key)
  }

  /** Arrays and objects are nested at most `room` deep. */
  predicate Shallow(v: Value, room: nat)
    decreases v
  {
    match v
    case Array(items) => room > 0 && forall i :: 0 <= i < |items| ==> Shallow(items[i], room - 1)
    case Object(fields) => room > 0 && forall i :: 0 <= i < |fields| ==> Shallow(fields[i].value, room - 1)
    case _ => true
  }

  predicate ItemsShallow(items: seq<Value>, k: nat, room: nat) {
    forall i :: k <= i < |items| ==> Shallow(items[i], room)
  }

  predicate FieldsShallow(fields: seq<Field>, k: nat, room: nat) {
    forall i :: k <= i < |fields| ==> Shallow(fields[i].value, room)
  }

  predicate ReadsBack<T(==)>(r: Parsed<T>, v: T, next: nat, ok: bool) {
    r == if ok then Ok(v, next) else Fail
  }

  // ---------------------------------------------------------------- white space

  lemma {:induction false} SkipSpaces(t: string, p: nat, n: nat)
    requires Starts(t, p, Spaces(n)) && (p + n < |t| ==> !IsWs(t[p + n]))
    ensures SkipWs(t, p) == p + n
    decreases n
  {
    if n > 0 {
      StartsAt(t, p, Spaces(n), 0);
      assert Spaces(n) == [' '] + Spaces(n - 1);
      StartsSplit(t, p, [' '], Spaces(n - 1));
      SkipSpaces(t, p + 1, n - 1);
    }
  }

  lemma {:induction false} SkipIndent(t: string, p: nat, indent: int, depth: nat)
    requires Starts(t, p, Indent(indent, depth))
    requires var q := p + |Indent(indent, depth)|; q < |t| ==> !IsWs(t[q])
    ensures SkipWs(t, p) == p + |Indent(indent, depth)|
  {
    if indent >= 0 {
      StartsSplit(t, p, "\n", Spaces(indent * depth));
      StartsAt(t, p, "\n", 0);
      SkipSpaces(t, p + 1, indent * depth);
    }
  }

  lemma {:induction false} SkipTwice(t: string, p: nat)
    requires p <= |t|
    ensures SkipWs(t, SkipWs(t, p)) == SkipWs(t, p)
    decreases |t| - p
  {
    if p < |t| && IsWs(t[p]) { SkipTwice(t, p + 1); }
  }

  /** No value begins with white space or a closing bracket. */
  lemma {:induction false} FirstChar(lib: Library, v: Value, indent: int, depth: nat)
    requires Exact(lib) && WellFormed(lib, v)
    ensures Dump(lib, v, indent, depth) != ""
    ensures var c := Dump(lib, v, indent, depth)[0]; !IsWs(c) && c != ']' && c != '}'
  {
    match v
    case Number(x) => assert ReadsExactly(lib, x.x); var token := PrintNumber(lib, x); TokenReadBack(token, 0, token);
    case _ =>
  }

  // ---------------------------------------------------------------- values

  lemma {:induction false} LiteralReadBack(lib: Library, t: string, p: nat, d: int, v: Value)
    requires (v.Null? || v.Bool?) && Starts(t, p, Dump(lib, v, -1, 0))
    ensures ParseValue(lib, t, p, d) == Ok(v, p + |Dump(lib, v, -1, 0)|)
  {
    StartsAt(t, p, Dump(lib, v, -1, 0), 0);
  }

  lemma {:induction false} TokenValueReadBack(lib: Library, t: string, p: nat, d: int, token: string)
    requires IsToken(token) && Starts(t, p, token) && Stops(t, p + |token|)
    ensures ParseValue(lib, t, p, d) == Ok(Number(lib.strtod(token)), p + |token|)
  {
    TokenReadBack(t, p, token);
    StartsSlice(t, p, token);
  }

  lemma {:induction false} QuotedReadBack(t: string, p: nat, s: string)
    requires Starts(t, p, Escape(s))
    ensures t[p] == '"' && ParseChars(t, p + 1, "") == Ok(s, p + |Escape(s)|)
  {
    StartsSplit(t, p, "\"", EscapeBody(s, 0));
    StartsAt(t, p, "\"", 0);
    StringReadBack(t, p + 1, s, 0, "");
    assert "" + s[0..] == s;
  }

  lemma {:induction false} StringValueReadBack(lib: Library, t: string, p: nat, d: int, s: string)
    requires Starts(t, p, Escape(s))
    ensures ParseValue(lib, t, p, d) == Ok(String(s), p + |Escape(s)|)
  {
    QuotedReadBack(t, p, s);
  }

  lemma {:induction false} NumberReadBack(lib: Library, t: string, p: nat, d: int, x: Num)
    requires Exact(lib) && x.Finite? && lib.double(x.x)
    requires Starts(t, p, PrintNumber(lib, x)) && Stops(t, p + |PrintNumber(lib, x)|)
    ensures ParseValue(lib, t, p, d) == Ok(Number(x), p + |PrintNumber(lib, x)|)
  {
    assert ReadsExactly(lib, x.x);
    TokenValueReadBack(lib, t, p, d, PrintNumber(lib, x));
  }

  lemma {:induction false} ScalarReadBack(lib: Library, t: string, p: nat, d: int, v: Value, indent: int, depth: nat)
    requires Exact(lib) && WellFormed(lib, v) && !v.Array? && !v.Object?
    requires Starts(t, p, Dump(lib, v, indent, depth)) && Stops(t, p + |Dump(lib, v, indent, depth)|)
    ensures ParseValue(lib, t, p, d) == Ok(v, p + |Dump(lib, v, indent, depth)|)
  {
    match v
    case Number(x) => NumberReadBack(lib, t, p, d, x);
    case String(s) => StringValueReadBack(lib, t, p, d, s);
    case _ => LiteralReadBack(lib, t, p, d, v);
  }

  /** A printed value, before anything that ends it, reads back, unless its nesting is too deep for
      the containers that are open already. */
  lemma {:induction false} ValueReadBack(lib: Library, t: string, p: nat, d: int, v: Value, indent: int, depth: nat)
    requires Exact(lib) && WellFormed(lib, v) && d <= MAX_NESTING
    requires Starts(t, p, Dump(lib, v, indent, depth)) && Stops(t, p + |Dump(lib, v, indent, depth)|)
    ensures ReadsBack(ParseValue(lib, t, p, d), v, p + |Dump(lib, v, indent, depth)|, Shallow(v, MAX_NESTING - d))
    decreases v, 1, 0
  {
    match v
    case Array(items) => ArrayReadBack(lib, t, p, d, items, indent, depth);
    case Object(fields) => ObjectReadBack(lib, t, p, d, fields, indent, depth);
    case _ => ScalarReadBack(lib, t, p, d, v, indent, depth);
  }

  lemma {:induction false} ArrayReadBack(lib: Library, t: string, p: nat, d: int, items: seq<Value>, indent: int, depth: nat)
    requires Exact(lib) && AllWellFormed(lib, items) && d <= MAX_NESTING && Starts(t, p, Dump(lib, Array(items), indent, depth))
    ensures ReadsBack(ParseValue(lib, t, p, d), Array(items), p + |Dump(lib, Array(items), indent, depth)|,
                      Shallow(Array(items), MAX_NESTING - d))
    decreases items, 4, 0
  {
    if d == MAX_NESTING {
      StartsAt(t, p, Dump(lib, Array(items), indent, depth), 0);
    } else if items == [] {
      EmptyArrayReadBack(lib, t, p, d, indent, depth);
    } else {
      FullArrayReadBack(lib, t, p, d, items, indent, depth);
      ShallowArray(items, MAX_NESTING - d);
    }
  }

  lemma {:induction false} ShallowArray(items: seq<Value>, room: nat)
    requires room > 0
    ensures Shallow(Array(items), room) <==> ItemsShallow(items, 0, room - 1)
  {
  }

  lemma {:induction false} FullArrayReadBack(lib: Library, t: string, p: nat, d: int, items: seq<Value>, indent: int, depth: nat)
    requires Exact(lib) && AllWellFormed(lib, items) && d < MAX_NESTING
    requires items != [] && Starts(t, p, Dump(lib, Array(items), indent, depth))
    ensures ReadsBack(ParseValue(lib, t, p, d), Array(items), p + |Dump(lib, Array(items), indent, depth)|,
                      ItemsShallow(items, 0, MAX_NESTING - d - 1))
    decreases items, 3, 0
  {
    var rest := DumpItems(lib, items, 0, indent, depth);
    StartsSplit(t, p, "[", rest);
    StartsAt(t, p, "[", 0);
    ItemsBegin(lib, t, p + 1, items, 0, indent, depth);
    ArrayOpens(lib, t, p, d);
    ItemsReadBack(lib, t, p + 1, d + 1, items, 0, indent, depth);
    assert items[..0] == [];
  }

  lemma {:induction false} EmptyArrayReadBack(lib: Library, t: string, p: nat, d: int, indent: int, depth: nat)
    requires d < MAX_NESTING && Starts(t, p, Dump(lib, Array([]), indent, depth))
    ensures ParseValue(lib, t, p, d) == Ok(Array([]), p + |Dump(lib, Array([]), indent, depth)|)
  {
    StartsSplit(t, p, "[", "]");
    StartsAt(t, p, "[", 0);
    StartsAt(t, p + 1, "]", 0);
  }

  lemma {:induction false} ArrayOpens(lib: Library, t: string, p: nat, d: int)
    requires p < |t| && t[p] == '[' && d < MAX_NESTING
    requires var q := SkipWs(t, p + 1); q < |t| && t[q] != ']'
    ensures ParseValue(lib, t, p, d) == ParseItems(lib, t, p + 1, d + 1, [])
  {
    ItemsSkip(lib, t, p + 1, d + 1, []);
  }

  lemma {:induction false} ItemsSkip(lib: Library, t: string, p: nat, d: int, acc: seq<Value>)
    requires p <= |t|
    ensures ParseItems(lib, t, SkipWs(t, p), d, acc) == ParseItems(lib, t, p, d, acc)
  {
    SkipTwice(t, p);
  }

  /** What follows the item `k`. */
  function ItemsTail(lib: Library, items: seq<Value>, k: nat, indent: int, depth: nat): string
    requires k < |items|
  {
    if k + 1 < |items| then "," + DumpItems(lib, items, k + 1, indent, depth) else Indent(indent, depth) + "]"
  }

  lemma {:induction false} ItemsParts(lib: Library, items: seq<Value>, k: nat, indent: int, depth: nat)
    requires k < |items|
    ensures DumpItems(lib, items, k, indent, depth)
              == Indent(indent, depth + 1) + Dump(lib, items[k], indent, depth + 1) + ItemsTail(lib, items, k, indent, depth)
  {
  }

  lemma {:induction false} ItemsBegin(lib: Library, t: string, p: nat, items: seq<Value>, k: nat, indent: int, depth: nat)
    requires Exact(lib) && k < |items| && WellFormed(lib, items[k]) && Starts(t, p, DumpItems(lib, items, k, indent, depth))
    ensures var q := p + |Indent(indent, depth + 1)|;
            && SkipWs(t, p) == q < |t| && t[q] != ']'
            && Starts(t, q, Dump(lib, items[k], indent, depth + 1))
            && Starts(t, q + |Dump(lib, items[k], indent, depth + 1)|, ItemsTail(lib, items, k, indent, depth))
  {
    ItemsParts(lib, items, k, indent, depth);
    FirstChar(lib, items[k], indent, depth + 1);
    PartBegins(t, p, indent, depth + 1, Dump(lib, items[k], indent, depth + 1), ItemsTail(lib, items, k, indent, depth));
  }

  lemma {:induction false} PartBegins(t: string, p: nat, indent: int, depth: nat, x: string, tail: string)
    requires Starts(t, p, Indent(indent, depth) + x + tail) && x != "" && !IsWs(x[0])
    ensures var q := p + |Indent(indent, depth)|;
            SkipWs(t, p) == q < |t| && t[q] == x[0] && Starts(t, q, x) && Starts(t, q + |x|, tail)
  {
    var i := Indent(indent, depth);
    StartsSplit(t, p, i + x, tail);
    StartsSplit(t, p, i, x);
    StartsAt(t, p + |i|, x, 0);
    SkipIndent(t, p, indent, depth);
  }

  lemma {:induction false} CloseReadBack(t: string, p: nat, indent: int, depth: nat, close: char)
    requires Starts(t, p, Indent(indent, depth) + [close]) && !IsWs(close)
    ensures var q := p + |Indent(indent, depth)|; SkipWs(t, p) == q < |t| && t[q] == close
    ensures close == ']' || close == '}' ==> Stops(t, p)
  {
    StartsSplit(t, p, Indent(indent, depth), [close]);
    StartsAt(t, p + |Indent(indent, depth)|, [close], 0);
    SkipIndent(t, p, indent, depth);
    if indent >= 0 { StartsAt(t, p, Indent(indent, depth), 0); }
  }

  lemma {:induction false} ItemsMore(lib: Library, t: string, p: nat, d: int, acc: seq<Value>, v: Value, r: nat)
    requires p <= |t| && ParseValue(lib, t, SkipWs(t, p), d) == Ok(v, r) && r < |t| && t[r] == ','
    ensures ParseItems(lib, t, p, d, acc) == ParseItems(lib, t, r + 1, d, acc + [v])
  {
  }

  lemma {:induction false} ItemsEnd(lib: Library, t: string, p: nat, d: int, acc: seq<Value>, v: Value, r: nat)
    requires p <= |t| && ParseValue(lib, t, SkipWs(t, p), d) == Ok(v, r) && SkipWs(t, r) < |t| && t[SkipWs(t, r)] == ']'
    ensures ParseItems(lib, t, p, d, acc) == Ok(Array(acc + [v]), SkipWs(t, r) + 1)
  {
  }

  lemma {:induction false} TailStops(lib: Library, t: string, r: nat, items: seq<Value>, k: nat, indent: int, depth: nat)
    requires k < |items| && Starts(t, r, ItemsTail(lib, items, k, indent, depth))
    ensures Stops(t, r)
    ensures k + 1 < |items| ==> r < |t| && t[r] == ',' && Starts(t, r + 1, DumpItems(lib, items, k + 1, indent, depth))
    ensures k + 1 == |items| ==>
              var q := r + |Indent(indent, depth)|; SkipWs(t, r) == q < |t| && t[q] == ']'
  {
    if k + 1 < |items| {
      StartsSplit(t, r, ",", DumpItems(lib, items, k + 1, indent, depth));
      StartsAt(t, r, ",", 0);
    } else {
      CloseReadBack(t, r, indent, depth, ']');
    }
  }

  lemma {:induction false} ShallowFrom(items: seq<Value>, k: nat, room: nat)
    requires k < |items|
    ensures ItemsShallow(items, k, room) <==> Shallow(items[k], room) && ItemsShallow(items, k + 1, room)
  {
  }

  lemma {:induction false} MoreItems(lib: Library, t: string, p: nat, d: int, items: seq<Value>, k: nat, r: nat, next: nat, room: nat)
    requires p <= |t| && k + 1 < |items| && Shallow(items[k], room)
    requires ParseValue(lib, t, SkipWs(t, p), d) == Ok(items[k], r) && r < |t| && t[r] == ','
    requires ReadsBack(ParseItems(lib, t, r + 1, d, items[..k + 1]), Array(items), next, ItemsShallow(items, k + 1, room))
    ensures ReadsBack(ParseItems(lib, t, p, d, items[..k]), Array(items), next, ItemsShallow(items, k, room))
  {
    ItemsMore(lib, t, p, d, items[..k], items[k], r);
    assert items[..k + 1] == items[..k] + [items[k]];
    ShallowFrom(items, k, room);
  }

  lemma {:induction false} LastItem(lib: Library, t: string, p: nat, d: int, items: seq<Value>, k: nat, r: nat, room: nat)
    requires p <= |t| && k + 1 == |items| && Shallow(items[k], room)
    requires ParseValue(lib, t, SkipWs(t, p), d) == Ok(items[k], r) && SkipWs(t, r) < |t| && t[SkipWs(t, r)] == ']'
    ensures ReadsBack(ParseItems(lib, t, p, d, items[..k]), Array(items), SkipWs(t, r) + 1, ItemsShallow(items, k, room))
  {
    ItemsEnd(lib, t, p, d, items[..k], items[k], r);
    assert items == items[..k] + [items[k]];
    ShallowFrom(items, k, room);
  }

  lemma {:induction false} DeepItem(lib: Library, t: string, p: nat, d: int, items: seq<Value>, k: nat, next: nat, room: nat)
    requires p <= |t| && k < |items| && !Shallow(items[k], room) && ParseValue(lib, t, SkipWs(t, p), d).Fail?
    ensures ReadsBack(ParseItems(lib, t, p, d, items[..k]), Array(items), next, ItemsShallow(items, k, room))
  {
    ShallowFrom(items, k, room);
  }

  /** Where the item `k` and what follows it lie. */
  lemma {:induction false} ItemLies(lib: Library, t: string, p: nat, items: seq<Value>, k: nat, indent: int, depth: nat) returns (r: nat)
    requires Exact(lib) && k < |items| && WellFormed(lib, items[k]) && Starts(t, p, DumpItems(lib, items, k, indent, depth))
    ensures p <= SkipWs(t, p) && r == SkipWs(t, p) + |Dump(lib, items[k], indent, depth + 1)| <= |t|
    ensures Starts(t, SkipWs(t, p), Dump(lib, items[k], indent, depth + 1)) && Stops(t, r)
    ensures k + 1 < |items| ==>
              && r < |t| && t[r] == ',' && Starts(t, r + 1, DumpItems(lib, items, k + 1, indent, depth))
              && p + |DumpItems(lib, items, k, indent, depth)| == r + 1 + |DumpItems(lib, items, k + 1, indent, depth)|
    ensures k + 1 == |items| ==>
              && SkipWs(t, r) < |t| && t[SkipWs(t, r)] == ']'
              && p + |DumpItems(lib, items, k, indent, depth)| == SkipWs(t, r) + 1
  {
    ItemsParts(lib, items, k, indent, depth);
    ItemsBegin(lib, t, p, items, k, indent, depth);
    r := SkipWs(t, p) + |Dump(lib, items[k], indent, depth + 1)|;
    TailStops(lib, t, r, items, k, indent, depth);
  }

  predicate AllWellFormed(lib: Library, items: seq<Value>) {
    forall i :: 0 <= i < |items| ==> WellFormed(lib, items[i])
  }

  /** The item `k` reads back, or is nested too deep, and `r` is where it ends. */
  lemma {:induction false} ItemReadBack(lib: Library, t: string, p: nat, d: int, items: seq<Value>, k: nat,
                                        indent: int, depth: nat) returns (r: nat)
    requires Exact(lib) && d <= MAX_NESTING && k < |items| && WellFormed(lib, items[k])
    requires Starts(t, p, DumpItems(lib, items, k, indent, depth))
    ensures p <= |t| && r <= |t|
    ensures ReadsBack(ParseValue(lib, t, SkipWs(t, p), d), items[k], r, Shallow(items[k], MAX_NESTING - d))
    ensures k + 1 < |items| ==>
              && r < |t| && t[r] == ',' && Starts(t, r + 1, DumpItems(lib, items, k + 1, indent, depth))
              && p + |DumpItems(lib, items, k, indent, depth)| == r + 1 + |DumpItems(lib, items, k + 1, indent, depth)|
    ensures k + 1 == |items| ==>
              && SkipWs(t, r) < |t| && t[SkipWs(t, r)] == ']'
              && p + |DumpItems(lib, items, k, indent, depth)| == SkipWs(t, r) + 1
    decreases items, 2, 0
  {
    r := ItemLies(lib, t, p, items, k, indent, depth);
    ValueReadBack(lib, t, SkipWs(t, p), d, items[k], indent, depth + 1);
  }

  lemma {:induction false} ItemsReadBack(lib: Library, t: string, p: nat, d: int, items: seq<Value>, k: nat,
                                         indent: int, depth: nat)
    requires Exact(lib) && d <= MAX_NESTING && k < |items| && AllWellFormed(lib, items)
    requires Starts(t, p, DumpItems(lib, items, k, indent, depth))
    ensures ReadsBack(ParseItems(lib, t, p, d, items[..k]), Array(items), p + |DumpItems(lib, items, k, indent, depth)|,
                      ItemsShallow(items, k, MAX_NESTING - d))
    decreases items, 2, |items| - k, 0
  {
    var next, room := p + |DumpItems(lib, items, k, indent, depth)|, MAX_NESTING - d;
    var r := ItemReadBack(lib, t, p, d, items, k, indent, depth);
    if !Shallow(items[k], room) {
      DeepItem(lib, t, p, d, items, k, next, room);
    } else if k + 1 < |items| {
      NextItems(lib, t, p, d, items, k, r, indent, depth);
    } else {
      LastItem(lib, t, p, d, items, k, r, room);
    }
  }

  lemma {:induction false} NextItems(lib: Library, t: string, p: nat, d: int, items: seq<Value>, k: nat, r: nat,
                                     indent: int, depth: nat)
    requires Exact(lib) && d <= MAX_NESTING && k + 1 < |items| && AllWellFormed(lib, items)
    requires p <= |t| && Shallow(items[k], MAX_NESTING - d) && ParseValue(lib, t, SkipWs(t, p), d) == Ok(items[k], r)
    requires r < |t| && t[r] == ',' && Starts(t, r + 1, DumpItems(lib, items, k + 1, indent, depth))
    ensures ReadsBack(ParseItems(lib, t, p, d, items[..k]), Array(items),
                      r + 1 + |DumpItems(lib, items, k + 1, indent, depth)|, ItemsShallow(items, k, MAX_NESTING - d))
    decreases items, 2, |items| - k - 1, 1
  {
    ItemsReadBack(lib, t, r + 1, d, items, k + 1, indent, depth);
    MoreItems(lib, t, p, d, items, k, r, r + 1 + |DumpItems(lib, items, k + 1, indent, depth)|, MAX_NESTING - d);
  }

  // ---------------------------------------------------------------- objects

  lemma {:induction false} KeyNotLess(a: string)
    ensures !KeyLess(a, a)
    decreases |a|
  {
    if a != "" { KeyNotLess(a[1..]); }
  }

  /** Reading the fields in ascending order puts each behind the others. */
  lemma {:induction false} PutNext(fields: seq<Field>, k: nat)
    requires KeysAscend(fields) && k < |fields|
    ensures Put(fields[..k], fields[k].key, fields[k].value) == fields[..k + 1]
  {
    KeyNotLess(fields[k].key);
    assert fields[..k + 1] == fields[..k] + [fields[k]];
    if k > 0 {
      assert KeyLess(fields[k - 1].key, fields[k].key);
      assert fields[..k][|fields[..k]| - 1] == fields[k - 1];
    }
  }

  function FieldsTail(lib: Library, fields: seq<Field>, k: nat, indent: int, depth: nat): string
    requires k < |fields|
  {
    if k + 1 < |fields| then "," + DumpFields(lib, fields, k + 1, indent, depth) else Indent(indent, depth) + "}"
  }

  lemma {:induction false} FieldsParts(lib: Library, fields: seq<Field>, k: nat, indent: int, depth: nat)
    requires k < |fields|
    ensures DumpFields(lib, fields, k, indent, depth)
              == Indent(indent, depth + 1) + DumpField(lib, fields[k], indent, depth + 1) + FieldsTail(lib, fields, k, indent, depth)
  {
  }

  lemma {:induction false} FieldsTailStops(lib: Library, t: string, r: nat, fields: seq<Field>, k: nat, indent: int, depth: nat)
    requires k < |fields| && Starts(t, r, FieldsTail(lib, fields, k, indent, depth))
    ensures Stops(t, r)
    ensures k + 1 < |fields| ==> r < |t| && t[r] == ',' && Starts(t, r + 1, DumpFields(lib, fields, k + 1, indent, depth))
    ensures k + 1 == |fields| ==>
              var q := r + |Indent(indent, depth)|; SkipWs(t, r) == q < |t| && t[q] == '}'
  {
    if k + 1 < |fields| {
      StartsSplit(t, r, ",", DumpFields(lib, fields, k + 1, indent, depth));
      StartsAt(t, r, ",", 0);
    } else {
      CloseReadBack(t, r, indent, depth, '}');
    }
  }

  lemma {:induction false} FieldBegins(lib: Library, f: Field, indent: int, depth: nat)
    ensures var x := DumpField(lib, f, indent, depth); x != "" && x[0] == '"'
  {
  }

  lemma {:induction false} KeyReadBack(t: string, p: nat, key: string, sep: string)
    requires Starts(t, p, Escape(key)) && (sep == ":" || sep == ": ") && Starts(t, p + |Escape(key)|, sep)
    requires var v := p + |Escape(key)| + |sep|; v < |t| && !IsWs(t[v])
    ensures ParseKey(t, p).Ok? && ParseKey(t, p).value == key
    ensures SkipWs(t, ParseKey(t, p).next) == p + |Escape(key)| + |sep|
  {
    QuotedReadBack(t, p, key);
    var q := p + |Escape(key)|;
    StartsAt(t, q, sep, 0);
    assert SkipWs(t, q) == q && ParseKey(t, p) == Ok(key, q + 1);
    if sep == ": " { StartsAt(t, q, sep, 1); }
    assert SkipWs(t, q + |sep|) == q + |sep|;
  }

  /** A printed field is its key, a colon and its value, which begins at `v`. */
  lemma {:induction false} FieldReadBack(lib: Library, t: string, p: nat, f: Field, indent: int, depth: nat) returns (v: nat)
    requires Exact(lib) && Starts(t, p, DumpField(lib, f, indent, depth)) && WellFormed(lib, f.value)
    ensures ParseKey(t, p).Ok? && ParseKey(t, p).value == f.key
    ensures SkipWs(t, ParseKey(t, p).next) == v
    ensures v + |Dump(lib, f.value, indent, depth)| == p + |DumpField(lib, f, indent, depth)| <= |t|
    ensures Starts(t, v, Dump(lib, f.value, indent, depth))
  {
    var key, sep, x := Escape(f.key), if indent >= 0 then ": " else ":", Dump(lib, f.value, indent, depth);
    StartsSplit(t, p, key + sep, x);
    StartsSplit(t, p, key, sep);
    FirstChar(lib, f.value, indent, depth);
    v := p + |key| + |sep|;
    StartsAt(t, v, x, 0);
    KeyReadBack(t, p, f.key, sep);
  }

  lemma {:induction false} FieldsBegin(lib: Library, t: string, p: nat, fields: seq<Field>, k: nat, indent: int, depth: nat)
    requires k < |fields| && Starts(t, p, DumpFields(lib, fields, k, indent, depth))
    ensures var q := p + |Indent(indent, depth + 1)|;
            && SkipWs(t, p) == q < |t| && t[q] == '"'
            && Starts(t, q, DumpField(lib, fields[k], indent, depth + 1))
            && Starts(t, q + |DumpField(lib, fields[k], indent, depth + 1)|, FieldsTail(lib, fields, k, indent, depth))
  {
    FieldsParts(lib, fields, k, indent, depth);
    FieldBegins(lib, fields[k], indent, depth + 1);
    PartBegins(t, p, indent, depth + 1, DumpField(lib, fields[k], indent, depth + 1), FieldsTail(lib, fields, k, indent, depth));
  }

  /** Where the field `k` and what follows it lie. */
  lemma {:induction false} FieldLies(lib: Library, t: string, p: nat, fields: seq<Field>, k: nat, indent: int, depth: nat) returns (r: nat)
    requires k < |fields| && Starts(t, p, DumpFields(lib, fields, k, indent, depth))
    ensures p <= SkipWs(t, p) && r == SkipWs(t, p) + |DumpField(lib, fields[k], indent, depth + 1)| <= |t|
    ensures Starts(t, SkipWs(t, p), DumpField(lib, fields[k], indent, depth + 1)) && Stops(t, r)
    ensures k + 1 < |fields| ==>
              && r < |t| && t[r] == ',' && Starts(t, r + 1, DumpFields(lib, fields, k + 1, indent, depth))
              && p + |DumpFields(lib, fields, k, indent, depth)| == r + 1 + |DumpFields(lib, fields, k + 1, indent, depth)|
    ensures k + 1 == |fields| ==>
              && SkipWs(t, r) < |t| && t[SkipWs(t, r)] == '}'
              && p + |DumpFields(lib, fields, k, indent, depth)| == SkipWs(t, r) + 1
  {
    FieldsParts(lib, fields, k, indent, depth);
    FieldsBegin(lib, t, p, fields, k, indent, depth);
    r := SkipWs(t, p) + |DumpField(lib, fields[k], indent, depth + 1)|;
    FieldsTailStops(lib, t, r, fields, k, indent, depth);
  }

  lemma {:induction false} FieldsShallowFrom(fields: seq<Field>, k: nat, room: nat)
    requires k < |fields|
    ensures FieldsShallow(fields, k, room) <==> Shallow(fields[k].value, room) && FieldsShallow(fields, k + 1, room)
  {
  }

  /** The value behind the key at `p` reads as `v` and ends at `r`. */
  predicate FieldAt(lib: Library, t: string, p: nat, d: int, f: Field, r: nat)
    requires p <= |t|
  {
    var key := ParseKey(t, SkipWs(t, p));
    key.Ok? && key.value == f.key && ParseValue(lib, t, SkipWs(t, key.next), d) == Ok(f.value, r)
  }

  predicate FieldFails(lib: Library, t: string, p: nat, d: int)
    requires p <= |t|
  {
    var key := ParseKey(t, SkipWs(t, p));
    key.Ok? ==> ParseValue(lib, t, SkipWs(t, key.next), d).Fail?
  }

  lemma {:induction false} FieldsMore(lib: Library, t: string, p: nat, d: int, acc: seq<Field>, f: Field, r: nat)
    requires p <= |t| && FieldAt(lib, t, p, d, f, r) && r < |t| && t[r] == ','
    ensures ParseFields(lib, t, p, d, acc) == ParseFields(lib, t, r + 1, d, Put(acc, f.key, f.value))
  {
  }

  lemma {:induction false} FieldsEnd(lib: Library, t: string, p: nat, d: int, acc: seq<Field>, f: Field, r: nat)
    requires p <= |t| && FieldAt(lib, t, p, d, f, r) && SkipWs(t, r) < |t| && t[SkipWs(t, r)] == '}'
    ensures ParseFields(lib, t, p, d, acc) == Ok(Object(Put(acc, f.key, f.value)), SkipWs(t, r) + 1)
  {
  }

  lemma {:induction false} MoreFields(lib: Library, t: string, p: nat, d: int, fields: seq<Field>, k: nat, r: nat, next: nat, room: nat)
    requires p <= |t| && k + 1 < |fields| && Shallow(fields[k].value, room) && KeysAscend(fields)
    requires FieldAt(lib, t, p, d, fields[k], r) && r < |t| && t[r] == ','
    requires ReadsBack(ParseFields(lib, t, r + 1, d, fields[..k + 1]), Object(fields), next, FieldsShallow(fields, k + 1, room))
    ensures ReadsBack(ParseFields(lib, t, p, d, fields[..k]), Object(fields), next, FieldsShallow(fields, k, room))
  {
    FieldsMore(lib, t, p, d, fields[..k], fields[k], r);
    PutNext(fields, k);
    FieldsShallowFrom(fields, k, room);
  }

  lemma {:induction false} LastField(lib: Library, t: string, p: nat, d: int, fields: seq<Field>, k: nat, r: nat, room: nat)
    requires p <= |t| && k + 1 == |fields| && Shallow(fields[k].value, room) && KeysAscend(fields)
    requires FieldAt(lib, t, p, d, fields[k], r) && SkipWs(t, r) < |t| && t[SkipWs(t, r)] == '}'
    ensures ReadsBack(ParseFields(lib, t, p, d, fields[..k]), Object(fields), SkipWs(t, r) + 1, FieldsShallow(fields, k, room))
  {
    FieldsEnd(lib, t, p, d, fields[..k], fields[k], r);
    PutNext(fields, k);
    assert fields[..k + 1] == fields;
    FieldsShallowFrom(fields, k, room);
  }

  lemma {:induction false} DeepField(lib: Library, t: string, p: nat, d: int, fields: seq<Field>, k: nat, next: nat, room: nat)
    requires p <= |t| && k < |fields| && !Shallow(fields[k].value, room)
    requires FieldFails(lib, t, p, d)
    ensures ReadsBack(ParseFields(lib, t, p, d, fields[..k]), Object(fields), next, FieldsShallow(fields, k, room))
  {
    FieldsShallowFrom(fields, k, room);
  }

  predicate FieldsWellFormed(lib: Library, fields: seq<Field>) {
    KeysAscend(fields) && forall i :: 0 <= i < |fields| ==> WellFormed(lib, fields[i].value)
  }

  /** The field `k` reads back, or is nested too deep, and `r` is where it ends. */
  lemma {:induction false} OneFieldReadBack(lib: Library, t: string, p: nat, d: int, fields: seq<Field>, k: nat,
                                            indent: int, depth: nat) returns (r: nat)
    requires Exact(lib) && d <= MAX_NESTING && k < |fields| && WellFormed(lib, fields[k].value)
    requires Starts(t, p, DumpFields(lib, fields, k, indent, depth))
    ensures p <= |t| && r <= |t|
    ensures Shallow(fields[k].value, MAX_NESTING - d) ==> FieldAt(lib, t, p, d, fields[k], r)
    ensures !Shallow(fields[k].value, MAX_NESTING - d) ==> FieldFails(lib, t, p, d)
    ensures k + 1 < |fields| ==>
              && r < |t| && t[r] == ',' && Starts(t, r + 1, DumpFields(lib, fields, k + 1, indent, depth))
              && p + |DumpFields(lib, fields, k, indent, depth)| == r + 1 + |DumpFields(lib, fields, k + 1, indent, depth)|
    ensures k + 1 == |fields| ==>
              && SkipWs(t, r) < |t| && t[SkipWs(t, r)] == '}'
              && p + |DumpFields(lib, fields, k, indent, depth)| == SkipWs(t, r) + 1
    decreases fields, 2, 0
  {
    r := FieldLies(lib, t, p, fields, k, indent, depth);
    ValueAfterKey(lib, t, p, d, fields, k, r, indent, depth);
  }

  lemma {:induction false} ValueAfterKey(lib: Library, t: string, p: nat, d: int, fields: seq<Field>, k: nat, r: nat,
                                         indent: int, depth: nat)
    requires Exact(lib) && d <= MAX_NESTING && k < |fields| && WellFormed(lib, fields[k].value)
    requires p <= |t| && r == SkipWs(t, p) + |DumpField(lib, fields[k], indent, depth + 1)| <= |t|
    requires Starts(t, SkipWs(t, p), DumpField(lib, fields[k], indent, depth + 1)) && Stops(t, r)
    ensures Shallow(fields[k].value, MAX_NESTING - d) ==> FieldAt(lib, t, p, d, fields[k], r)
    ensures !Shallow(fields[k].value, MAX_NESTING - d) ==> FieldFails(lib, t, p, d)
    decreases fields, 1, 0
  {
    var v := FieldReadBack(lib, t, SkipWs(t, p), fields[k], indent, depth + 1);
    ValueReadBack(lib, t, v, d, fields[k].value, indent, depth + 1);
  }

  lemma {:induction false} FieldsReadBack(lib: Library, t: string, p: nat, d: int, fields: seq<Field>, k: nat,
                                          indent: int, depth: nat)
    requires Exact(lib) && d <= MAX_NESTING && k < |fields| && FieldsWellFormed(lib, fields)
    requires Starts(t, p, DumpFields(lib, fields, k, indent, depth))
    ensures ReadsBack(ParseFields(lib, t, p, d, fields[..k]), Object(fields), p + |DumpFields(lib, fields, k, indent, depth)|,
                      FieldsShallow(fields, k, MAX_NESTING - d))
    decreases fields, 2, |fields| - k, 0
  {
    var next, room := p + |DumpFields(lib, fields, k, indent, depth)|, MAX_NESTING - d;
    var r := OneFieldReadBack(lib, t, p, d, fields, k, indent, depth);
    if !Shallow(fields[k].value, room) {
      DeepField(lib, t, p, d, fields, k, next, room);
    } else if k + 1 < |fields| {
      NextFields(lib, t, p, d, fields, k, r, indent, depth);
    } else {
      LastField(lib, t, p, d, fields, k, r, room);
    }
  }

  lemma {:induction false} NextFields(lib: Library, t: string, p: nat, d: int, fields: seq<Field>, k: nat, r: nat,
                                      indent: int, depth: nat)
    requires Exact(lib) && d <= MAX_NESTING && k + 1 < |fields| && FieldsWellFormed(lib, fields)
    requires p <= |t| && Shallow(fields[k].value, MAX_NESTING - d) && FieldAt(lib, t, p, d, fields[k], r)
    requires r < |t| && t[r] == ',' && Starts(t, r + 1, DumpFields(lib, fields, k + 1, indent, depth))
    ensures ReadsBack(ParseFields(lib, t, p, d, fields[..k]), Object(fields),
                      r + 1 + |DumpFields(lib, fields, k + 1, indent, depth)|, FieldsShallow(fields, k, MAX_NESTING - d))
    decreases fields, 2, |fields| - k - 1, 1
  {
    FieldsReadBack(lib, t, r + 1, d, fields, k + 1, indent, depth);
    MoreFields(lib, t, p, d, fields, k, r, r + 1 + |DumpFields(lib, fields, k + 1, indent, depth)|, MAX_NESTING - d);
  }

  lemma {:induction false} ObjectOpens(lib: Library, t: string, p: nat, d: int)
    requires p < |t| && t[p] == '{' && d < MAX_NESTING
    requires var q := SkipWs(t, p + 1); q < |t| && t[q] != '}'
    ensures ParseValue(lib, t, p, d) == ParseFields(lib, t, p + 1, d + 1, [])
  {
    FieldsSkip(lib, t, p + 1, d + 1, []);
  }

  lemma {:induction false} FieldsSkip(lib: Library, t: string, p: nat, d: int, acc: seq<Field>)
    requires p <= |t|
    ensures ParseFields(lib, t, SkipWs(t, p), d, acc) == ParseFields(lib, t, p, d, acc)
  {
    SkipTwice(t, p);
  }

  lemma {:induction false} EmptyObjectReadBack(lib: Library, t: string, p: nat, d: int, indent: int, depth: nat)
    requires d < MAX_NESTING && Starts(t, p, Dump(lib, Object([]), indent, depth))
    ensures ParseValue(lib, t, p, d) == Ok(Object([]), p + |Dump(lib, Object([]), indent, depth)|)
  {
    StartsSplit(t, p, "{", "}");
    StartsAt(t, p, "{", 0);
    StartsAt(t, p + 1, "}", 0);
  }

  lemma {:induction false} ObjectReadBack(lib: Library, t: string, p: nat, d: int, fields: seq<Field>, indent: int, depth: nat)
    requires Exact(lib) && FieldsWellFormed(lib, fields) && d <= MAX_NESTING
    requires Starts(t, p, Dump(lib, Object(fields), indent, depth))
    ensures ReadsBack(ParseValue(lib, t, p, d), Object(fields), p + |Dump(lib, Object(fields), indent, depth)|,
                      Shallow(Object(fields), MAX_NESTING - d))
    decreases fields, 4, 0
  {
    if d == MAX_NESTING {
      StartsAt(t, p, Dump(lib, Object(fields), indent, depth), 0);
    } else if fields == [] {
      EmptyObjectReadBack(lib, t, p, d, indent, depth);
    } else {
      FullObjectReadBack(lib, t, p, d, fields, indent, depth);
      ShallowObject(fields, MAX_NESTING - d);
    }
  }

  lemma {:induction false} ShallowObject(fields: seq<Field>, room: nat)
    requires room > 0
    ensures Shallow(Object(fields), room) <==> FieldsShallow(fields, 0, room - 1)
  {
  }

  lemma {:induction false} FullObjectReadBack(lib: Library, t: string, p: nat, d: int, fields: seq<Field>, indent: int, depth: nat)
    requires Exact(lib) && FieldsWellFormed(lib, fields) && d < MAX_NESTING
    requires fields != [] && Starts(t, p, Dump(lib, Object(fields), indent, depth))
    ensures ReadsBack(ParseValue(lib, t, p, d), Object(fields), p + |Dump(lib, Object(fields), indent, depth)|,
                      FieldsShallow(fields, 0, MAX_NESTING - d - 1))
    decreases fields, 3, 0
  {
    hide Exact, FieldsWellFormed, KeysAscend;
    var rest := DumpFields(lib, fields, 0, indent, depth);
    StartsSplit(t, p, "{", rest);
    StartsAt(t, p, "{", 0);
    FieldsBegin(lib, t, p + 1, fields, 0, indent, depth);
    ObjectOpens(lib, t, p, d);
    FieldsReadBack(lib, t, p + 1, d + 1, fields, 0, indent, depth);
    assert fields[..0] == [];
  }

  // ---------------------------------------------------------------- the round trip

  /** For compact and every indented form, reading what was printed gives the value back exactly
      when its arrays and objects are nested at most 512 deep; a deeper text is refused. */
  lemma {:induction false} RoundTrip(lib: Library, v: Value, indent: int)
    requires Exact(lib) && WellFormed(lib, v)
    ensures Parse(lib, Dump(lib, v, indent, 0)) == if Shallow(v, MAX_NESTING) then Some(v) else None
  {
    var t := Dump(lib, v, indent, 0);
    StartsAll(t);
    FirstChar(lib, v, indent, 0);
    ValueReadBack(lib, t, 0, 0, v, indent, 0);
  }

  // ---------------------------------------------------------------- numbers that are not finite

  /** The value with null for every number that is not finite. */
  function Nulled(v: Value): (r: Value)
    decreases v
  {
    match v
    case Number(x) => if x.Finite? then v else Null
    case Array(items) => Array(seq(|items|, i requires 0 <= i < |items| => Nulled(items[i])))
    case Object(fields) =>
      Object(seq(|fields|, i requires 0 <= i < |fields| => Field(fields[i].key, Nulled(fields[i].value))))
    case _ => v
  }

  predicate AllFinite(v: Value)
    decreases v
  {
    match v
    case Number(x) => x.Finite?
    case Array(items) => forall i :: 0 <= i < |items| ==> AllFinite(items[i])
    case Object(fields) => forall i :: 0 <= i < |fields| ==> AllFinite(fields[i].value)
    case _ => true
  }

  /** All finite numbers are doubles, and the keys of every object ascend. */
  predicate Storable(lib: Library, v: Value)
    decreases v
  {
    match v
    case Number(x) => IsDouble(lib, x)
    case Array(items) => forall i :: 0 <= i < |items| ==> Storable(lib, items[i])
    case Object(fields) => KeysAscend(fields) && forall i :: 0 <= i < |fields| ==> Storable(lib, fields[i].value)
    case _ => true
  }

  function NulledItems(items: seq<Value>): seq<Value> {
    Nulled(Array(items)).items
  }

  function NulledFields(fields: seq<Field>): seq<Field> {
    Nulled(Object(fields)).fields
  }

  lemma {:induction false} NulledIsWellFormed(lib: Library, v: Value)
    requires Storable(lib, v)
    ensures WellFormed(lib, Nulled(v))
    decreases v
  {
    match v
    case Array(items) =>
      forall i | 0 <= i < |items| ensures WellFormed(lib, NulledItems(items)[i]) { NulledIsWellFormed(lib, items[i]); }
      assert Nulled(v) == Array(NulledItems(items));
    case Object(fields) =>
      forall i | 0 <= i < |fields| ensures WellFormed(lib, NulledFields(fields)[i].value) {
        NulledIsWellFormed(lib, fields[i].value);
      }
      assert Nulled(v) == Object(NulledFields(fields)) && KeysAscend(NulledFields(fields));
    case _ =>
  }

  lemma {:induction false} NulledShallow(v: Value, room: nat)
    ensures Shallow(Nulled(v), room) <==> Shallow(v, room)
    decreases v
  {
    match v
    case Array(items) =>
      if room > 0 {
        forall i | 0 <= i < |items| ensures Shallow(NulledItems(items)[i], room - 1) <==> Shallow(items[i], room - 1) {
          NulledShallow(items[i], room - 1);
        }
      }
    case Object(fields) =>
      if room > 0 {
        forall i | 0 <= i < |fields|
          ensures Shallow(NulledFields(fields)[i].value, room - 1) <==> Shallow(fields[i].value, room - 1)
        {
          NulledShallow(fields[i].value, room - 1);
        }
      }
    case _ =>
  }

  lemma {:induction false} NulledIsSame(v: Value)
    ensures Nulled(v) == v <==> AllFinite(v)
    decreases v
  {
    match v
    case Array(items) =>
      forall i | 0 <= i < |items| ensures NulledItems(items)[i] == items[i] <==> AllFinite(items[i]) { NulledIsSame(items[i]); }
      if AllFinite(v) { assert NulledItems(items) == items; }
    case Object(fields) =>
      forall i | 0 <= i < |fields| ensures NulledFields(fields)[i] == fields[i] <==> AllFinite(fields[i].value) {
        NulledIsSame(fields[i].value);
      }
      if AllFinite(v) { assert NulledFields(fields) == fields; }
    case _ =>
  }

  /** A number that is not finite prints as null does. */
  lemma {:induction false} DumpNulled(lib: Library, v: Value, indent: int, depth: nat)
    ensures Dump(lib, v, indent, depth) == Dump(lib, Nulled(v), indent, depth)
    decreases v, 0
  {
    match v
    case Array(items) => if items != [] { DumpNulledItems(lib, items, 0, indent, depth); }
    case Object(fields) => if fields != [] { DumpNulledFields(lib, fields, 0, indent, depth); }
    case _ =>
  }

  lemma {:induction false} DumpNulledItems(lib: Library, items: seq<Value>, k: nat, indent: int, depth: nat)
    requires k < |items|
    ensures DumpItems(lib, items, k, indent, depth) == DumpItems(lib, NulledItems(items), k, indent, depth)
    decreases items, |items| - k
  {
    DumpNulled(lib, items[k], indent, depth + 1);
    if k + 1 < |items| { DumpNulledItems(lib, items, k + 1, indent, depth); }
  }

  lemma {:induction false} DumpNulledFields(lib: Library, fields: seq<Field>, k: nat, indent: int, depth: nat)
    requires k < |fields|
    ensures DumpFields(lib, fields, k, indent, depth) == DumpFields(lib, NulledFields(fields), k, indent, depth)
    decreases fields, |fields| - k
  {
    DumpNulled(lib, fields[k].value, indent, depth + 1);
    if k + 1 < |fields| { DumpNulledFields(lib, fields, k + 1, indent, depth); }
  }

  /** What any value is read back as: null stands for its numbers that are not finite. */
  lemma {:induction false} ReadsNulled(lib: Library, v: Value, indent: int)
    requires Exact(lib) && Storable(lib, v)
    ensures Parse(lib, Dump(lib, v, indent, 0)) == if Shallow(v, MAX_NESTING) then Some(Nulled(v)) else None
  {
    DumpNulled(lib, v, indent, 0);
    NulledIsWellFormed(lib, v);
    NulledShallow(v, MAX_NESTING);
    RoundTrip(lib, Nulled(v), indent);
  }

  /** A value is read back as it was exactly if its nesting is at most 512 and all its numbers are finite. */
  lemma {:induction false} RoundTripIff(lib: Library, v: Value, indent: int)
    requires Exact(lib) && Storable(lib, v)
    ensures Parse(lib, Dump(lib, v, indent, 0)) == Some(v) <==> Shallow(v, MAX_NESTING) && AllFinite(v)
  {
    ReadsNulled(lib, v, indent);
    NulledIsSame(v);
  }

  lemma {:induction false} ShallowMore(v: Value, a: nat, b: nat)
    requires Shallow(v, a) && a <= b
    ensures Shallow(v, b)
    decreases v
  {
    match v
    case Array(items) => forall i | 0 <= i < |items| ensures Shallow(items[i], b - 1) { ShallowMore(items[i], a - 1, b - 1); }
    case Object(fields) =>
      forall i | 0 <= i < |fields| ensures Shallow(fields[i].value, b - 1) { ShallowMore(fields[i].value, a - 1, b - 1); }
    case _ =>
  }

  /** Every value has some depth. */
  lemma {:induction false} SomeDepth(v: Value) returns (room: nat)
    ensures Shallow(v, room)
    decreases v, 0
  {
    match v
    case Array(items) =>
      room := ItemsDepth(v, items, |items|);
      room := room + 1;
    case Object(fields) =>
      room := FieldsDepth(v, fields, |fields|);
      room := room + 1;
    case _ => room := 0;
  }

  lemma {:induction false} ItemsDepth(v: Value, items: seq<Value>, n: nat) returns (room: nat)
    requires v == Array(items) && n <= |items|
    ensures forall i :: 0 <= i < n ==> Shallow(items[i], room)
    decreases v, 0, n
  {
    room := 0;
    if n > 0 {
      var before := ItemsDepth(v, items, n - 1);
      var last := SomeDepth(items[n - 1]);
      room := before + last;
      forall i | 0 <= i < n ensures Shallow(items[i], room) {
        ShallowMore(items[i], if i < n - 1 then before else last, room);
      }
    }
  }

  lemma {:induction false} FieldsDepth(v: Value, fields: seq<Field>, n: nat) returns (room: nat)
    requires v == Object(fields) && n <= |fields|
    ensures forall i :: 0 <= i < n ==> Shallow(fields[i].value, room)
    decreases v, 0, n
  {
    room := 0;
    if n > 0 {
      var before := FieldsDepth(v, fields, n - 1);
      var last := SomeDepth(fields[n - 1].value);
      room := before + last;
      forall i | 0 <= i < n ensures Shallow(fields[i].value, room) {
        ShallowMore(fields[i].value, if i < n - 1 then before else last, room);
      }
    }
  }

  /** A reader that allows enough nesting reads any value back. */
  lemma {:induction false} ReadsDeep(lib: Library, v: Value, indent: int, room: nat)
    requires Exact(lib) && Storable(lib, v) && Shallow(v, room)
    ensures var t := Dump(lib, v, indent, 0); ParseValue(lib, t, 0, MAX_NESTING - room) == Ok(Nulled(v), |t|)
  {
    var t := Dump(lib, v, indent, 0);
    DumpNulled(lib, v, indent, 0);
    NulledIsWellFormed(lib, v);
    NulledShallow(v, room);
    StartsAll(t);
    ValueReadBack(lib, t, 0, MAX_NESTING - room, Nulled(v), indent, 0);
  }

  /** Two values print alike exactly if they differ only in what stands for null, however deep they are. */
  lemma {:induction false} PrintAlikeIff(lib: Library, v: Value, w: Value, indent: int)
    requires Exact(lib) && Storable(lib, v) && Storable(lib, w)
    ensures Dump(lib, v, indent, 0) == Dump(lib, w, indent, 0) <==> Nulled(v) == Nulled(w)
  {
    hide ParseValue, Dump, Nulled, Shallow, Storable, Exact;
    var a := SomeDepth(v);
    var b := SomeDepth(w);
    ShallowMore(v, a, a + b);
    ShallowMore(w, b, a + b);
    ReadsDeep(lib, v, indent, a + b);
    ReadsDeep(lib, w, indent, a + b);
    DumpNulled(lib, v, indent, 0);
    DumpNulled(lib, w, indent, 0);
  }
}
