/** JSON values, their printed form and the reader (src/util/json.h). Strings are sequences of
    bytes, written as characters. */
module Json {
  import opened Text

  /** A `double`. Both zeros are one number, as they are for `==`. */
  datatype Num = Finite(x: real) | Infinite(negative: bool) | NaN

  /** What is taken from the C library: `strtod`, `printf` with "%.17g", and which numbers are doubles. */
  datatype Library = Library(strtod: string -> Num, format: real -> string, double: real -> bool)

  datatype Value =
    | Null
    | Bool(b: bool)
    | Number(x: Num)
    | String(s: string)
    | Array(items: seq<Value>)
    | Object(fields: seq<Field>)

  datatype Field = Field(key: string, value: Value)

  const INTEGER_LIMIT := 1_000_000_000_000_000
  const MAX_NESTING := 512

  // ---------------------------------------------------------------- printing

  function HexDigit(n: nat): char
    requires n < 16
  {
    "0123456789abcdef"[n]
  }

  function EscapeChar(c: char): string {
    if c == '"' then ['\\', '"']
    else if c == '\\' then ['\\', '\\']
    else if c as int == 8 then ['\\', 'b']
    else if c as int == 12 then ['\\', 'f']
    else if c == '\n' then ['\\', 'n']
    else if c == '\r' then ['\\', 'r']
    else if c == '\t' then ['\\', 't']
    else if c as int < 0x20 then ['\\', 'u', '0', '0', HexDigit(c as int / 16), HexDigit(c as int % 16)]
    else [c]
  }

  function EscapeBody(s: string, k: nat): string
    requires k <= |s|
    decreases |s| - k
  {
    if k == |s| then "\"" else EscapeChar(s[k]) + EscapeBody(s, k + 1)
  }

  /** The characters of `s` in quotes. */
  function Escape(s: string): string {
    "\"" + EscapeBody(s, 0)
  }

  function Digits(n: nat): string {
    if n < 10 then [HexDigit(n)] else Digits(n / 10) + [HexDigit(n % 10)]
  }

  function Decimal(n: int): string {
    if n < 0 then "-" + Digits(-n) else Digits(n)
  }

  predicate Whole(x: real) {
    x.Floor as real == x && -INTEGER_LIMIT < x.Floor < INTEGER_LIMIT
  }

  /** What is not finite has no number to print. */
  function PrintNumber(lib: Library, x: Num): string {
    if !x.Finite? then "null"
    else if Whole(x.x) then Decimal(x.x.Floor)
    else lib.format(x.x)
  }

  function Spaces(n: nat): string {
    seq(n, i => ' ')
  }

  function Indent(indent: int, depth: nat): string {
    if indent < 0 then "" else "\n" + Spaces(indent * depth)
  }

  function Dump(lib: Library, v: Value, indent: int, depth: nat): string
    decreases v, 0
  {
    match v
    case Null => "null"
    case Bool(b) => if b then "true" else "false"
    case Number(x) => PrintNumber(lib, x)
    case String(s) => Escape(s)
    case Array(items) => "[" + if items == [] then "]" else DumpItems(lib, items, 0, indent, depth)
    case Object(fields) => "{" + if fields == [] then "}" else DumpFields(lib, fields, 0, indent, depth)
  }

  function DumpItems(lib: Library, items: seq<Value>, k: nat, indent: int, depth: nat): string
    requires k < |items|
    decreases items, |items| - k
  {
    Indent(indent, depth + 1) + Dump(lib, items[k], indent, depth + 1)
    + if k + 1 < |items| then "," + DumpItems(lib, items, k + 1, indent, depth) else Indent(indent, depth) + "]"
  }

  function DumpField(lib: Library, f: Field, indent: int, depth: nat): string
    decreases f, 0
  {
    Escape(f.key) + (if indent >= 0 then ": " else ":") + Dump(lib, f.value, indent, depth)
  }

  function DumpFields(lib: Library, fields: seq<Field>, k: nat, indent: int, depth: nat): string
    requires k < |fields|
    decreases fields, |fields| - k
  {
    Indent(indent, depth + 1) + DumpField(lib, fields[k], indent, depth + 1)
    + if k + 1 < |fields| then "," + DumpFields(lib, fields, k + 1, indent, depth) else Indent(indent, depth) + "}"
  }

  // ---------------------------------------------------------------- reading

  datatype Parsed<T> = Ok(value: T, next: nat) | Fail

  predicate IsWs(c: char) {
    c == ' ' || c == '\t' || c == '\n' || c == '\r'
  }

  function SkipWs(t: string, p: nat): (q: nat)
    requires p <= |t|
    ensures p <= q <= |t|
    decreases |t| - p
  {
    if p < |t| && IsWs(t[p]) then SkipWs(t, p + 1) else p
  }

  function ScanDigits(t: string, p: nat): (q: nat)
    requires p <= |t|
    ensures p <= q <= |t|
    decreases |t| - p
  {
    if p < |t| && IsDigit(t[p]) then ScanDigits(t, p + 1) else p
  }

  /** One digit or more. */
  function ScanSomeDigits(t: string, p: nat): Option<nat>
    requires p <= |t|
  {
    if p < |t| && IsDigit(t[p]) then Some(ScanDigits(t, p)) else None
  }

  function ScanInteger(t: string, p: nat): Option<nat>
    requires p <= |t|
  {
    if p == |t| then None
    else if t[p] == '0' then Some(p + 1)
    else ScanSomeDigits(t, p)
  }

  function ScanFraction(t: string, p: nat): Option<nat>
    requires p <= |t|
  {
    if p < |t| && t[p] == '.' then ScanSomeDigits(t, p + 1) else Some(p)
  }

  function ScanExponent(t: string, p: nat): Option<nat>
    requires p <= |t|
  {
    if p < |t| && (t[p] == 'e' || t[p] == 'E') then
      ScanSomeDigits(t, if p + 1 < |t| && (t[p + 1] == '+' || t[p + 1] == '-') then p + 2 else p + 1)
    else Some(p)
  }

  function ScanNumber(t: string, p: nat): (q: Option<nat>)
    requires p < |t|
    ensures q.Some? ==> p < q.value <= |t|
  {
    var i := ScanInteger(t, if t[p] == '-' then p + 1 else p);
    if i.None? then None else
    var f := ScanFraction(t, i.value);
    if f.None? then None else ScanExponent(t, f.value)
  }

  predicate IsToken(token: string) {
    token != "" && ScanNumber(token, 0) == Some(|token|)
  }

  function HexValue(c: char): Option<nat> {
    if '0' <= c <= '9' then Some(c as int - '0' as int)
    else if 'a' <= c <= 'f' then Some(c as int - 'a' as int + 10)
    else if 'A' <= c <= 'F' then Some(c as int - 'A' as int + 10)
    else None
  }

  function ParseHex4(t: string, p: nat): (r: Parsed<nat>)
    ensures r.Ok? ==> r.next == p + 4 <= |t| && r.value < 0x10000
  {
    if p + 4 > |t| then Fail else
    var a, b, c, d := HexValue(t[p]), HexValue(t[p + 1]), HexValue(t[p + 2]), HexValue(t[p + 3]);
    if a.None? || b.None? || c.None? || d.None? then Fail
    else Ok(((a.value * 16 + b.value) * 16 + c.value) * 16 + d.value, p + 4)
  }

  function Utf8(cp: nat): string
    requires cp < 0x110000
  {
    if cp < 0x80 then [cp as char]
    else if cp < 0x800 then [(0xC0 + cp / 0x40) as char, (0x80 + cp % 0x40) as char]
    else if cp < 0x10000 then
      [(0xE0 + cp / 0x1000) as char, (0x80 + cp / 0x40 % 0x40) as char, (0x80 + cp % 0x40) as char]
    else
      [(0xF0 + cp / 0x40000) as char, (0x80 + cp / 0x1000 % 0x40) as char, (0x80 + cp / 0x40 % 0x40) as char,
       (0x80 + cp % 0x40) as char]
  }

  predicate HighSurrogate(cp: nat) {
    0xD800 <= cp <= 0xDBFF
  }

  predicate LowSurrogate(cp: nat) {
    0xDC00 <= cp <= 0xDFFF
  }

  function FromPair(high: nat, low: nat): (cp: nat)
    requires HighSurrogate(high) && LowSurrogate(low)
    ensures cp < 0x110000
  {
    0x10000 + (high - 0xD800) * 0x400 + (low - 0xDC00)
  }

  /** The second half of a surrogate pair. */
  function ParseLow(t: string, p: nat): (r: Parsed<nat>)
    requires p <= |t|
    ensures r.Ok? ==> p < r.next <= |t| && LowSurrogate(r.value)
  {
    if !Starts(t, p, "\\u") then Fail else
    var low := ParseHex4(t, p + 2);
    if low.Ok? && LowSurrogate(low.value) then low else Fail
  }

  /** After `\u`: one code point, given as one escape or as a surrogate pair. */
  function ParseCodePoint(t: string, p: nat): (r: Parsed<nat>)
    requires p <= |t|
    ensures r.Ok? ==> p < r.next <= |t| && r.value < 0x110000
  {
    var cp := ParseHex4(t, p);
    if cp.Fail? || !HighSurrogate(cp.value) then cp else
    var low := ParseLow(t, cp.next);
    if low.Ok? then Ok(FromPair(cp.value, low.value), low.next) else Fail
  }

  /** Its bytes. */
  function ParseUnicode(t: string, p: nat): (r: Parsed<string>)
    requires p <= |t|
    ensures r.Ok? ==> p < r.next <= |t|
  {
    var cp := ParseCodePoint(t, p);
    if cp.Ok? then Ok(Utf8(cp.value), cp.next) else Fail
  }

  /** After a backslash. */
  function ParseEscape(t: string, p: nat): (r: Parsed<string>)
    requires p <= |t|
    ensures r.Ok? ==> p < r.next <= |t|
  {
    if p == |t| then Fail
    else if t[p] == 'u' then ParseUnicode(t, p + 1)
    else if t[p] == '"' || t[p] == '\\' || t[p] == '/' then Ok([t[p]], p + 1)
    else if t[p] == 'b' then Ok([8 as char], p + 1)
    else if t[p] == 'f' then Ok([12 as char], p + 1)
    else if t[p] == 'n' then Ok("\n", p + 1)
    else if t[p] == 'r' then Ok("\r", p + 1)
    else if t[p] == 't' then Ok("\t", p + 1)
    else Fail
  }

  /** Inside a string that has given `out` so far. */
  function ParseChars(t: string, p: nat, out: string): (r: Parsed<string>)
    requires p <= |t|
    ensures r.Ok? ==> p < r.next <= |t|
    decreases |t| - p
  {
    if p == |t| then Fail
    else if t[p] == '"' then Ok(out, p + 1)
    else if t[p] == '\\' then
      var e := ParseEscape(t, p + 1);
      if e.Fail? then Fail else ParseChars(t, e.next, out + e.value)
    else if t[p] as int < 0x20 then Fail
    else ParseChars(t, p + 1, out + [t[p]])
  }

  /** Keys compare byte by byte. */
  predicate KeyLess(a: string, b: string)
    decreases |a|
  {
    if b == "" then false
    else if a == "" then true
    else a[0] < b[0] || (a[0] == b[0] && KeyLess(a[1..], b[1..]))
  }

  /** `obj[key] = value` on an object whose keys ascend. */
  function Put(fields: seq<Field>, key: string, value: Value): seq<Field>
    decreases |fields|
  {
    if fields == [] then [Field(key, value)]
    else
      var last := fields[|fields| - 1];
      if last.key == key then fields[..|fields| - 1] + [Field(key, value)]
      else if KeyLess(last.key, key) then fields + [Field(key, value)]
      else Put(fields[..|fields| - 1], key, value) + [last]
  }

  /** `depth` counts the containers that are open around the value. */
  function ParseValue(lib: Library, t: string, p: nat, depth: int): (r: Parsed<Value>)
    requires p <= |t|
    ensures r.Ok? ==> p < r.next <= |t|
    decreases |t| - p, 1
  {
    if p == |t| then Fail
    else if t[p] == '{' then ParseObject(lib, t, p, depth)
    else if t[p] == '[' then ParseArray(lib, t, p, depth)
    else if t[p] == '"' then
      var s := ParseChars(t, p + 1, "");
      if s.Ok? then Ok(String(s.value), s.next) else Fail
    else if t[p] == 't' then if Starts(t, p, "true") then Ok(Bool(true), p + 4) else Fail
    else if t[p] == 'f' then if Starts(t, p, "false") then Ok(Bool(false), p + 5) else Fail
    else if t[p] == 'n' then if Starts(t, p, "null") then Ok(Null, p + 4) else Fail
    else if t[p] == '-' || IsDigit(t[p]) then
      var q := ScanNumber(t, p);
      if q.Some? then Ok(Number(lib.strtod(t[p..q.value])), q.value) else Fail
    else Fail
  }

  function ParseArray(lib: Library, t: string, p: nat, depth: int): (r: Parsed<Value>)
    requires p < |t|
    ensures r.Ok? ==> p < r.next <= |t|
    decreases |t| - p, 0
  {
    if depth + 1 > MAX_NESTING then Fail else
    var q := SkipWs(t, p + 1);
    if q < |t| && t[q] == ']' then Ok(Array([]), q + 1) else ParseItems(lib, t, q, depth + 1, [])
  }

  function ParseItems(lib: Library, t: string, p: nat, depth: int, items: seq<Value>): (r: Parsed<Value>)
    requires p <= |t|
    ensures r.Ok? ==> p < r.next <= |t|
    decreases |t| - p, 3
  {
    ParseItem(lib, t, SkipWs(t, p), depth, items)
  }

  function ParseItem(lib: Library, t: string, p: nat, depth: int, items: seq<Value>): (r: Parsed<Value>)
    requires p <= |t|
    ensures r.Ok? ==> p < r.next <= |t|
    decreases |t| - p, 2
  {
    var v := ParseValue(lib, t, p, depth);
    if v.Fail? then Fail else
    var q := SkipWs(t, v.next);
    if q == |t| then Fail
    else if t[q] == ']' then Ok(Array(items + [v.value]), q + 1)
    else if t[q] == ',' then ParseItems(lib, t, q + 1, depth, items + [v.value])
    else Fail
  }

  function ParseObject(lib: Library, t: string, p: nat, depth: int): (r: Parsed<Value>)
    requires p < |t|
    ensures r.Ok? ==> p < r.next <= |t|
    decreases |t| - p, 0
  {
    if depth + 1 > MAX_NESTING then Fail else
    var q := SkipWs(t, p + 1);
    if q < |t| && t[q] == '}' then Ok(Object([]), q + 1) else ParseFields(lib, t, q, depth + 1, [])
  }

  /** A key and the colon behind it. */
  function ParseKey(t: string, p: nat): (r: Parsed<string>)
    requires p <= |t|
    ensures r.Ok? ==> p < r.next <= |t|
  {
    if p == |t| || t[p] != '"' then Fail else
    var key := ParseChars(t, p + 1, "");
    if key.Fail? then Fail else
    var q := SkipWs(t, key.next);
    if q == |t| || t[q] != ':' then Fail else Ok(key.value, q + 1)
  }

  function ParseFields(lib: Library, t: string, p: nat, depth: int, fields: seq<Field>): (r: Parsed<Value>)
    requires p <= |t|
    ensures r.Ok? ==> p < r.next <= |t|
    decreases |t| - p, 3
  {
    ParseField(lib, t, SkipWs(t, p), depth, fields)
  }

  function ParseField(lib: Library, t: string, p: nat, depth: int, fields: seq<Field>): (r: Parsed<Value>)
    requires p <= |t|
    ensures r.Ok? ==> p < r.next <= |t|
    decreases |t| - p, 2
  {
    var key := ParseKey(t, p);
    if key.Fail? then Fail else
    var v := ParseValue(lib, t, SkipWs(t, key.next), depth);
    if v.Fail? then Fail else
    var q := SkipWs(t, v.next);
    if q == |t| then Fail
    else if t[q] == '}' then Ok(Object(Put(fields, key.value, v.value)), q + 1)
    else if t[q] == ',' then ParseFields(lib, t, q + 1, depth, Put(fields, key.value, v.value))
    else Fail
  }

  function Parse(lib: Library, t: string): Option<Value> {
    var v := ParseValue(lib, t, SkipWs(t, 0), 0);
    if v.Ok? && SkipWs(t, v.next) == |t| then Some(v.value) else None
  }
}
