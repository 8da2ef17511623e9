/** The printer and the reader as they work: a string that grows, a position that moves, a depth
    that is counted (src/util/json.h). */
module JsonText {
  import opened Text
  import opened Json

  // ---------------------------------------------------------------- printing

  method EscapeString(s: string) returns (out: string)
    ensures out == Escape(s)
  {
    out := "\"";
    var k := 0;
    while k < |s|
      invariant 0 <= k <= |s| && out + EscapeBody(s, k) == Escape(s)
    {
      ghost var before := out;
      var c := s[k];
      if c == '"' { out := out + ['\\', '"']; }
      else if c == '\\' { out := out + ['\\', '\\']; }
      else if c as int == 8 { out := out + ['\\', 'b']; }
      else if c as int == 12 { out := out + ['\\', 'f']; }
      else if c == '\n' { out := out + ['\\', 'n']; }
      else if c == '\r' { out := out + ['\\', 'r']; }
      else if c == '\t' { out := out + ['\\', 't']; }
      else if c as int < 0x20 {
        out := out + ['\\', 'u', '0', '0', HexDigit(c as int / 16), HexDigit(c as int % 16)];
      } else {
        out := out + [c];
      }
      assert out == before + EscapeChar(s[k]);
      Associate(before, EscapeChar(s[k]), EscapeBody(s, k + 1));
      k := k + 1;
    }
    out := out + "\"";
  }

  method IndentTo(before: string, indent: int, depth: nat) returns (out: string)
    ensures out == before + Indent(indent, depth)
  {
    if indent < 0 {
      assert before + "" == before;
      return before;
    }
    out := before + ("\n" + Spaces(indent * depth));
  }

  method NumberTo(lib: Library, before: string, x: Num) returns (out: string)
    ensures out == before + PrintNumber(lib, x)
  {
    if !x.Finite? {
      out := before + "null";
    } else if x.x.Floor as real == x.x && -(INTEGER_LIMIT as real) < x.x < INTEGER_LIMIT as real {
      out := before + Decimal(x.x.Floor);
    } else {
      out := before + lib.format(x.x);
    }
  }

  method DumpTo(lib: Library, before: string, v: Value, indent: int, depth: nat) returns (out: string)
    ensures out == before + Dump(lib, v, indent, depth)
    decreases v, 0
  {
    match v {
      case Null => out := before + "null";
      case Bool(b) => out := before + if b then "true" else "false";
      case Number(x) => out := NumberTo(lib, before, x);
      case String(s) => var e := EscapeString(s); out := before + e;
      case Array(items) => out := DumpArray(lib, before, items, indent, depth);
      case Object(fields) => out := DumpObject(lib, before, fields, indent, depth);
    }
  }

  /** What is still to be printed before the item `k`. */
  function ItemsLeft(lib: Library, items: seq<Value>, k: nat, indent: int, depth: nat): string
    requires k <= |items|
  {
    if k == |items| then (if k == 0 then "" else Indent(indent, depth)) + "]"
    else (if k > 0 then "," else "") + DumpItems(lib, items, k, indent, depth)
  }

  lemma {:induction false} RegroupAll(a: string, comma: string, i: string, x: string, tail: string)
    ensures a + (comma + (i + x + tail)) == (((a + comma) + i) + x) + tail
  {
    Associate(i, x, tail);
    Associate(comma, i, x + tail);
    Associate(a, comma + i, x + tail);
    Associate(a, comma, i);
    Associate((a + comma) + i, x, tail);
  }

  lemma {:induction false} ItemsLeftIs(lib: Library, items: seq<Value>, k: nat, indent: int, depth: nat)
    requires k < |items|
    ensures ItemsLeft(lib, items, k, indent, depth)
              == (if k > 0 then "," else "")
                 + (Indent(indent, depth + 1) + Dump(lib, items[k], indent, depth + 1) + ItemsLeft(lib, items, k + 1, indent, depth))
  {
  }

  method ItemTo(lib: Library, before: string, items: seq<Value>, k: nat, indent: int, depth: nat) returns (out: string)
    requires k < |items|
    ensures out + ItemsLeft(lib, items, k + 1, indent, depth) == before + ItemsLeft(lib, items, k, indent, depth)
    decreases items, 1
  {
    var comma := if k > 0 then "," else "";
    var i := IndentTo(before + comma, indent, depth + 1);
    out := DumpTo(lib, i, items[k], indent, depth + 1);
    ItemsLeftIs(lib, items, k, indent, depth);
    RegroupAll(before, comma, Indent(indent, depth + 1), Dump(lib, items[k], indent, depth + 1),
               ItemsLeft(lib, items, k + 1, indent, depth));
  }

  method DumpArray(lib: Library, before: string, items: seq<Value>, indent: int, depth: nat) returns (out: string)
    ensures out == before + Dump(lib, Array(items), indent, depth)
    decreases items, 2
  {
    out := before + "[";
    ghost var goal := out + ItemsLeft(lib, items, 0, indent, depth);
    var k := 0;
    while k < |items|
      invariant 0 <= k <= |items|
      invariant out + ItemsLeft(lib, items, k, indent, depth) == goal
    {
      out := ItemTo(lib, out, items, k, indent, depth);
      k := k + 1;
    }
    out := CloseTo(out, |items|, indent, depth, "]");
    ArrayIs(lib, before, items, indent, depth);
  }

  method CloseTo(before: string, size: nat, indent: int, depth: nat, close: string) returns (out: string)
    ensures out == before + ((if size == 0 then "" else Indent(indent, depth)) + close)
  {
    out := before;
    if size > 0 { out := IndentTo(out, indent, depth); }
    out := out + close;
    Associate(before, if size == 0 then "" else Indent(indent, depth), close);
  }

  lemma {:induction false} ArrayIs(lib: Library, before: string, items: seq<Value>, indent: int, depth: nat)
    ensures before + Dump(lib, Array(items), indent, depth) == (before + "[") + ItemsLeft(lib, items, 0, indent, depth)
  {
    Associate(before, "[", ItemsLeft(lib, items, 0, indent, depth));
  }

  function FieldsLeft(lib: Library, fields: seq<Field>, k: nat, indent: int, depth: nat): string
    requires k <= |fields|
  {
    if k == |fields| then (if k == 0 then "" else Indent(indent, depth)) + "}"
    else (if k > 0 then "," else "") + DumpFields(lib, fields, k, indent, depth)
  }

  lemma {:induction false} FieldsLeftIs(lib: Library, fields: seq<Field>, k: nat, indent: int, depth: nat)
    requires k < |fields|
    ensures FieldsLeft(lib, fields, k, indent, depth)
              == (if k > 0 then "," else "")
                 + (Indent(indent, depth + 1) + DumpField(lib, fields[k], indent, depth + 1) + FieldsLeft(lib, fields, k + 1, indent, depth))
  {
  }

  method FieldTo(lib: Library, before: string, fields: seq<Field>, k: nat, indent: int, depth: nat) returns (out: string)
    requires k < |fields|
    ensures out + FieldsLeft(lib, fields, k + 1, indent, depth) == before + FieldsLeft(lib, fields, k, indent, depth)
    decreases fields, 2
  {
    var comma := if k > 0 then "," else "";
    var i := IndentTo(before + comma, indent, depth + 1);
    out := DumpFieldTo(lib, i, fields[k], indent, depth + 1);
    FieldsLeftIs(lib, fields, k, indent, depth);
    RegroupAll(before, comma, Indent(indent, depth + 1), DumpField(lib, fields[k], indent, depth + 1),
               FieldsLeft(lib, fields, k + 1, indent, depth));
  }

  method DumpObject(lib: Library, before: string, fields: seq<Field>, indent: int, depth: nat) returns (out: string)
    ensures out == before + Dump(lib, Object(fields), indent, depth)
    decreases fields, 3
  {
    out := before + "{";
    ghost var goal := out + FieldsLeft(lib, fields, 0, indent, depth);
    var k := 0;
    while k < |fields|
      invariant 0 <= k <= |fields|
      invariant out + FieldsLeft(lib, fields, k, indent, depth) == goal
    {
      out := FieldTo(lib, out, fields, k, indent, depth);
      k := k + 1;
    }
    out := CloseTo(out, |fields|, indent, depth, "}");
    ObjectIs(lib, before, fields, indent, depth);
  }

  lemma {:induction false} ObjectIs(lib: Library, before: string, fields: seq<Field>, indent: int, depth: nat)
    ensures before + Dump(lib, Object(fields), indent, depth) == (before + "{") + FieldsLeft(lib, fields, 0, indent, depth)
  {
    Associate(before, "{", FieldsLeft(lib, fields, 0, indent, depth));
  }

  method DumpFieldTo(lib: Library, before: string, f: Field, indent: int, depth: nat) returns (out: string)
    ensures out == before + DumpField(lib, f, indent, depth)
    decreases f, 1
  {
    var key := EscapeString(f.key);
    var sep := if indent >= 0 then ": " else ":";
    out := DumpTo(lib, before + key + sep, f.value, indent, depth);
    Associate(before, key, sep);
    Associate(before, key + sep, Dump(lib, f.value, indent, depth));
  }

  // ---------------------------------------------------------------- reading

  /** The value of the first `i` hexadecimal digits from `p` on. */
  function HexSoFar(t: string, p: nat, i: nat): Option<nat>
    requires p + i <= |t|
  {
    if i == 0 then Some(0) else
    var v, d := HexSoFar(t, p, i - 1), HexValue(t[p + (i - 1)]);
    if v.None? || d.None? then None else Some(v.value * 16 + d.value)
  }

  lemma {:induction false} HexFails(t: string, p: nat, i: nat, n: nat)
    requires i <= n && p + n <= |t| && HexSoFar(t, p, i).None?
    ensures HexSoFar(t, p, n).None?
  {
    if i < n { HexFails(t, p, i, n - 1); }
  }

  lemma {:induction false} FourDigits(t: string, p: nat)
    requires p + 4 <= |t|
    ensures var v := HexSoFar(t, p, 4); ParseHex4(t, p) == if v.Some? then Ok(v.value, p + 4) else Fail
  {
    var a, b, c := HexSoFar(t, p, 1), HexSoFar(t, p, 2), HexSoFar(t, p, 3);
    assert HexSoFar(t, p, 0) == Some(0);
    assert a.Some? ==> a.value == HexValue(t[p]).value;
    assert b.Some? ==> b.value == a.value * 16 + HexValue(t[p + 1]).value;
    assert c.Some? ==> c.value == b.value * 16 + HexValue(t[p + 2]).value;
  }

  /** `None` stands for the exception `ParseError`. */
  class Parser {
    const lib: Library
    const text: string
    var pos: nat
    var depth: nat

    constructor (lib: Library, text: string)
      ensures this.lib == lib && this.text == text && pos == 0 && depth == 0
    {
      this.lib, this.text, pos, depth := lib, text, 0, 0;
    }

    /** The method has read what the grammar reads from `p` on. */
    ghost predicate Read<T(!new)>(r: Option<T>, spec: Parsed<T>, depthBefore: nat)
      reads this
    {
      && (r.Some? <==> spec.Ok?)
      && (r.Some? ==> r.value == spec.value && pos == spec.next <= |text| && depth == depthBefore)
    }

    method SkipSpace()
      requires pos <= |text|
      modifies this`pos
      ensures pos == SkipWs(text, old(pos))
    {
      while pos < |text| && IsWs(text[pos])
        invariant pos <= |text| && SkipWs(text, pos) == SkipWs(text, old(pos))
      {
        pos := pos + 1;
      }
    }

    method ExpectLiteral(lit: string) returns (ok: bool)
      requires pos <= |text|
      modifies this`pos
      ensures ok <==> Starts(text, old(pos), lit)
      ensures pos == if ok then old(pos) + |lit| else old(pos)
    {
      ok := Starts(text, pos, lit);
      if ok { pos := pos + |lit|; }
    }

    method SkipDigits()
      requires pos <= |text|
      modifies this`pos
      ensures pos == ScanDigits(text, old(pos))
    {
      while pos < |text| && IsDigit(text[pos])
        invariant pos <= |text| && ScanDigits(text, pos) == ScanDigits(text, old(pos))
      {
        pos := pos + 1;
      }
    }

    method SkipSomeDigits() returns (ok: bool)
      requires pos <= |text|
      modifies this`pos
      ensures ok <==> ScanSomeDigits(text, old(pos)).Some?
      ensures ok ==> pos == ScanSomeDigits(text, old(pos)).value <= |text|
    {
      if pos == |text| || !IsDigit(text[pos]) { return false; }
      SkipDigits();
      ok := true;
    }

    method SkipInteger() returns (ok: bool)
      requires pos <= |text|
      modifies this`pos
      ensures ok <==> ScanInteger(text, old(pos)).Some?
      ensures ok ==> pos == ScanInteger(text, old(pos)).value <= |text|
    {
      if pos == |text| { return false; }
      if text[pos] == '0' {
        pos := pos + 1;
        return true;
      }
      ok := SkipSomeDigits();
    }

    method SkipFraction() returns (ok: bool)
      requires pos <= |text|
      modifies this`pos
      ensures ok <==> ScanFraction(text, old(pos)).Some?
      ensures ok ==> pos == ScanFraction(text, old(pos)).value <= |text|
    {
      ok := true;
      if pos < |text| && text[pos] == '.' {
        pos := pos + 1;
        ok := SkipSomeDigits();
      }
    }

    method SkipExponent() returns (ok: bool)
      requires pos <= |text|
      modifies this`pos
      ensures ok <==> ScanExponent(text, old(pos)).Some?
      ensures ok ==> pos == ScanExponent(text, old(pos)).value <= |text|
    {
      ok := true;
      if pos < |text| && (text[pos] == 'e' || text[pos] == 'E') {
        pos := pos + 1;
        if pos < |text| && (text[pos] == '+' || text[pos] == '-') { pos := pos + 1; }
        ok := SkipSomeDigits();
      }
    }

    method ParseNumber() returns (r: Option<Value>)
      requires pos < |text|
      modifies this`pos
      ensures var q := ScanNumber(text, old(pos));
              && (r.Some? <==> q.Some?)
              && (q.Some? ==> r.value == Number(lib.strtod(text[old(pos)..q.value])) && pos == q.value)
    {
      var start := pos;
      if text[pos] == '-' { pos := pos + 1; }
      var ok := SkipInteger();
      if !ok { return None; }
      ok := SkipFraction();
      if !ok { return None; }
      ok := SkipExponent();
      if !ok { return None; }
      r := Some(Number(lib.strtod(text[start..pos])));
    }

    method ReadHex4() returns (r: Option<nat>)
      requires pos <= |text|
      modifies this`pos
      ensures var h := ParseHex4(text, old(pos));
              (r.Some? <==> h.Ok?) && (r.Some? ==> r.value == h.value && pos == h.next)
    {
      var p := pos;
      if pos + 4 > |text| { return None; }
      var v := 0;
      var i := 0;
      while i < 4
        invariant 0 <= i <= 4 && pos == p + i && p + 4 <= |text|
        invariant HexSoFar(text, p, i) == Some(v)
      {
        var h := HexValue(text[pos]);
        pos := pos + 1;
        if h == None {
          HexFails(text, p, i + 1, 4);
          FourDigits(text, p);
          return None;
        }
        v := v * 16 + h.value;
        i := i + 1;
      }
      FourDigits(text, p);
      r := Some(v);
    }

    method ReadLow() returns (r: Option<nat>)
      requires pos <= |text|
      modifies this`pos
      ensures Read(r, ParseLow(text, old(pos)), depth)
    {
      var pair := ExpectLiteral("\\u");
      if !pair { return None; }
      r := ReadHex4();
      if r == None || r.value < 0xDC00 || r.value > 0xDFFF { return None; }
    }

    /** One code point, given as one escape or as a surrogate pair. */
    method ReadCodePoint() returns (r: Option<nat>)
      requires pos <= |text|
      modifies this`pos
      ensures Read(r, ParseCodePoint(text, old(pos)), depth)
    {
      r := ReadHex4();
      if r == None || !(0xD800 <= r.value <= 0xDBFF) { return; }
      var low := ReadLow();
      if low == None { return None; }
      r := Some(0x10000 + (r.value - 0xD800) * 0x400 + (low.value - 0xDC00));
    }

    method ReadUnicode() returns (r: Option<string>)
      requires pos <= |text|
      modifies this`pos
      ensures Read(r, ParseUnicode(text, old(pos)), depth)
    {
      var cp := ReadCodePoint();
      r := if cp == None then None else Some(Utf8(cp.value));
    }

    method ReadEscape() returns (r: Option<string>)
      requires pos <= |text|
      modifies this`pos
      ensures var e := ParseEscape(text, old(pos));
              (r.Some? <==> e.Ok?) && (r.Some? ==> r.value == e.value && pos == e.next)
    {
      if pos == |text| { return None; }
      var e := text[pos];
      pos := pos + 1;
      match e {
        case '"' => r := Some([e]);
        case '\\' => r := Some([e]);
        case '/' => r := Some([e]);
        case 'b' => r := Some([8 as char]);
        case 'f' => r := Some([12 as char]);
        case 'n' => r := Some("\n");
        case 'r' => r := Some("\r");
        case 't' => r := Some("\t");
        case 'u' => r := ReadUnicode();
        case _ => r := None;
      }
    }

    /** A string, from its opening quote on. */
    method ParseString() returns (r: Option<string>)
      requires pos < |text|
      modifies this`pos
      ensures Read(r, ParseChars(text, old(pos) + 1, ""), depth)
    {
      pos := pos + 1;
      ghost var goal := ParseChars(text, pos, "");
      var out := "";
      while true
        invariant pos <= |text| && ParseChars(text, pos, out) == goal
        decreases |text| - pos
      {
        if pos == |text| { return None; }
        var c := text[pos];
        pos := pos + 1;
        if c == '"' { return Some(out); }
        if c == '\\' {
          var e := ReadEscape();
          if e == None { return None; }
          out := out + e.value;
        } else if c as int < 0x20 {
          return None;
        } else {
          out := out + [c];
        }
      }
    }

    method ParseValue() returns (r: Option<Value>)
      requires pos <= |text|
      modifies this`pos, this`depth
      ensures Read(r, Json.ParseValue(lib, text, old(pos), old(depth)), old(depth))
      decreases |text| - pos, 1
    {
      if pos == |text| { return None; }
      var c := text[pos];
      if c == '{' {
        r := ParseObject();
      } else if c == '[' {
        r := ParseArray();
      } else if c == '"' {
        var s := ParseString();
        r := if s.Some? then Some(String(s.value)) else None;
      } else if c == 't' {
        var ok := ExpectLiteral("true");
        r := if ok then Some(Bool(true)) else None;
      } else if c == 'f' {
        var ok := ExpectLiteral("false");
        r := if ok then Some(Bool(false)) else None;
      } else if c == 'n' {
        var ok := ExpectLiteral("null");
        r := if ok then Some(Null) else None;
      } else if c == '-' || IsDigit(c) {
        r := ParseNumber();
      } else {
        r := None;
      }
    }

    method ParseArray() returns (r: Option<Value>)
      requires pos < |text|
      modifies this`pos, this`depth
      ensures Read(r, Json.ParseArray(lib, text, old(pos), old(depth)), old(depth))
      decreases |text| - pos, 0
    {
      depth := depth + 1;
      if depth > MAX_NESTING { return None; }
      pos := pos + 1;
      SkipSpace();
      if pos < |text| && text[pos] == ']' {
        pos, depth := pos + 1, depth - 1;
        return Some(Array([]));
      }
      r := ReadItems();
      if r == None { return; }
      depth := depth - 1;
    }

    /** The loop of `parseArray`. */
    method ReadItems() returns (r: Option<Value>)
      requires pos <= |text|
      modifies this`pos, this`depth
      ensures Read(r, ParseItems(lib, text, old(pos), old(depth), []), old(depth))
      decreases |text| - pos, 2
    {
      ghost var p, d := pos, depth;
      ghost var goal := ParseItems(lib, text, pos, d, []);
      var items := [];
      while true
        invariant p <= pos <= |text| && depth == d && ParseItems(lib, text, pos, d, items) == goal
        decreases |text| - pos
      {
        SkipSpace();
        var v := ParseValue();
        if v == None { return None; }
        items := items + [v.value];
        SkipSpace();
        if pos == |text| { return None; }
        var c := text[pos];
        pos := pos + 1;
        if c == ']' { return Some(Array(items)); }
        if c != ',' { return None; }
      }
    }

    /** The key of a field and the colon behind it. */
    method ReadKey() returns (r: Option<string>)
      requires pos <= |text|
      modifies this`pos
      ensures Read(r, ParseKey(text, old(pos)), depth)
    {
      if pos == |text| || text[pos] != '"' { return None; }
      r := ParseString();
      if r == None { return; }
      SkipSpace();
      if pos == |text| || text[pos] != ':' { return None; }
      pos := pos + 1;
    }

    /** A field up to the end of its value. */
    method ReadField() returns (r: Option<Field>)
      requires pos <= |text|
      modifies this`pos, this`depth
      ensures Read(r, FieldOf(lib, text, SkipWs(text, old(pos)), old(depth)), old(depth))
      decreases |text| - pos, 2
    {
      SkipSpace();
      var key := ReadKey();
      if key == None { return None; }
      SkipSpace();
      var v := ParseValue();
      if v == None { return None; }
      r := Some(Field(key.value, v.value));
    }

    method ParseObject() returns (r: Option<Value>)
      requires pos < |text|
      modifies this`pos, this`depth
      ensures Read(r, Json.ParseObject(lib, text, old(pos), old(depth)), old(depth))
      decreases |text| - pos, 0
    {
      depth := depth + 1;
      if depth > MAX_NESTING { return None; }
      pos := pos + 1;
      SkipSpace();
      if pos < |text| && text[pos] == '}' {
        pos, depth := pos + 1, depth - 1;
        return Some(Object([]));
      }
      r := ReadFields();
      if r == None { return; }
      depth := depth - 1;
    }

    /** The loop of `parseObject`. */
    method ReadFields() returns (r: Option<Value>)
      requires pos <= |text|
      modifies this`pos, this`depth
      ensures Read(r, ParseFields(lib, text, old(pos), old(depth), []), old(depth))
      decreases |text| - pos, 3
    {
      ghost var p, d := pos, depth;
      ghost var goal := ParseFields(lib, text, pos, d, []);
      var fields := [];
      var more := true;
      while more
        invariant p <= pos <= |text| && depth == d
        invariant goal == if more then ParseFields(lib, text, pos, d, fields) else Ok(Object(fields), pos)
        decreases more, |text| - pos
      {
        FieldsUnfold(lib, text, pos, d, fields);
        var f := ReadField();
        if f == None { return None; }
        fields := Put(fields, f.value.key, f.value.value);
        SkipSpace();
        if pos == |text| { return None; }
        var c := text[pos];
        pos := pos + 1;
        if c != '}' && c != ',' { return None; }
        more := c == ',';
      }
      r := Some(Object(fields));
    }
  }

  /** A field at `p`, up to the end of its value. */
  function FieldOf(lib: Library, t: string, p: nat, d: nat): (r: Parsed<Field>)
    requires p <= |t|
    ensures r.Ok? ==> p < r.next <= |t|
  {
    var key := ParseKey(t, p);
    if key.Fail? then Fail else
    var v := Json.ParseValue(lib, t, SkipWs(t, key.next), d);
    if v.Fail? then Fail else Ok(Field(key.value, v.value), v.next)
  }

  lemma {:induction false} FieldsUnfold(lib: Library, t: string, p: nat, d: nat, fields: seq<Field>)
    requires p <= |t|
    ensures var f := FieldOf(lib, t, SkipWs(t, p), d);
            if f.Fail? then ParseFields(lib, t, p, d, fields).Fail?
            else
              var q, more := SkipWs(t, f.next), Put(fields, f.value.key, f.value.value);
              ParseFields(lib, t, p, d, fields) ==
                if q == |t| then Fail
                else if t[q] == '}' then Ok(Object(more), q + 1)
                else if t[q] == ',' then ParseFields(lib, t, q + 1, d, more)
                else Fail
  {
  }

  method ParseText(lib: Library, text: string) returns (r: Option<Value>)
    ensures r == Parse(lib, text)
  {
    var p := new Parser(lib, text);
    p.SkipSpace();
    r := p.ParseValue();
    if r == None { return; }
    p.SkipSpace();
    if p.pos != |text| { r := None; }
  }
}
