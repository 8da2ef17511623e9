/** The text of a step: quoted values, parameters in angle brackets, and the text that steps are
    matched by (src/spec/spec_parser.cpp). */
module StepText {
  import opened Text
  import opened Concepts

  // ---------------------------------------------------------------- reading

  /** What a backslash and `e` stand for inside quotes. */
  function Unescape(e: char): string {
    if e == '"' then "\""
    else if e == 'n' then "\n"
    else if e == 't' then "\t"
    else if e == '\\' then ['\\']
    else ['\\', e]
  }

  datatype Quoted = Closed(value: string, next: nat) | Unclosed

  /** From `j` on, inside quotes that have given `value` so far. */
  function ReadQuoted(s: string, j: nat, value: string): (r: Quoted)
    requires j <= |s|
    ensures r.Closed? ==> j < r.next <= |s|
    decreases |s| - j
  {
    if j == |s| then Unclosed
    else if s[j] == '\\' && j + 1 < |s| then ReadQuoted(s, j + 2, value + Unescape(s[j + 1]))
    else if s[j] == '"' then Closed(value, j + 1)
    else ReadQuoted(s, j + 1, value + [s[j]])
  }

  predicate StartsWith(s: string, prefix: string) {
    |prefix| <= |s| && s[..|prefix|] == prefix
  }

  /** The argument written between angle brackets. */
  function AngleArg(inner: string): Arg {
    if StartsWith(inner, "file:") then Special(false, Trim(inner[5..]))
    else if StartsWith(inner, "table:") then Special(true, Trim(inner[6..]))
    else Dynamic(Trim(inner))
  }

  /** The text with a placeholder per argument, and the arguments. */
  datatype Scanned = Scanned(out: string, args: seq<Arg>)

  function Scan(s: string, i: nat, done: Scanned): Option<Scanned>
    requires i <= |s|
    decreases |s| - i
  {
    if i == |s| then Some(done)
    else if s[i] == '\\' && i + 1 < |s| && (s[i + 1] == '"' || s[i + 1] == '<') then
      Scan(s, i + 2, Scanned(done.out + [s[i + 1]], done.args))
    else if s[i] == '"' then
      var q := ReadQuoted(s, i + 1, "");
      if q.Unclosed? then None else Scan(s, q.next, Scanned(done.out + "{}", done.args + [Static(q.value)]))
    else if s[i] == '<' then
      var j := Find(s, '>', i + 1);
      if j == |s| then None else Scan(s, j + 1, Scanned(done.out + "{}", done.args + [AngleArg(s[i + 1..j])]))
    else Scan(s, i + 1, Scanned(done.out + [s[i]], done.args))
  }

  /** Every run of white space from `k` on becomes one space. */
  function Collapse(s: string, k: nat, lastSpace: bool): string
    requires k <= |s|
    decreases |s| - k
  {
    if k == |s| then ""
    else if IsSpace(s[k]) then (if lastSpace then "" else " ") + Collapse(s, k + 1, true)
    else [s[k]] + Collapse(s, k + 1, false)
  }

  function Parameterized(out: string): string {
    Trim(Collapse(out, 0, false))
  }

  /** `parseStepText`; `None` for its errors. */
  function ParseStepText(text: string): Option<Scanned> {
    var r := Scan(Trim(text), 0, Scanned("", []));
    if r.None? || Parameterized(r.value.out) == "" then None
    else Some(Scanned(Parameterized(r.value.out), r.value.args))
  }

  // ---------------------------------------------------------------- writing

  /** A step as its author means it: literal text, values, and parameters. */
  datatype Piece = Literal(text: string) | Value(value: string) | Angle(inner: string)

  function QuoteChar(c: char): string {
    if c == '"' then ['\\', '"']
    else if c == '\\' then ['\\', '\\']
    else if c == '\n' then ['\\', 'n']
    else if c == '\t' then ['\\', 't']
    else [c]
  }

  function QuoteBody(value: string, k: nat): string
    requires k <= |value|
    decreases |value| - k
  {
    if k == |value| then "\"" else QuoteChar(value[k]) + QuoteBody(value, k + 1)
  }

  /** A value in quotes. */
  function Quote(value: string): string {
    "\"" + QuoteBody(value, 0)
  }

  /** Literal text, with quotes and opening angle brackets escaped. */
  function LiteralBody(text: string, k: nat): string
    requires k <= |text|
    decreases |text| - k
  {
    if k == |text| then ""
    else LiteralChar(text[k]) + LiteralBody(text, k + 1)
  }

  function LiteralChar(c: char): string {
    if c == '"' || c == '<' then ['\\', c] else [c]
  }

  function WritePiece(p: Piece): string {
    match p
    case Literal(text) => LiteralBody(text, 0)
    case Value(value) => Quote(value)
    case Angle(inner) => "<" + inner + ">"
  }

  function Write(ps: seq<Piece>, k: nat): string
    requires k <= |ps|
    decreases |ps| - k
  {
    if k == |ps| then "" else WritePiece(ps[k]) + Write(ps, k + 1)
  }

  /** A piece that reads back: a parameter holds no '>', and literal text does not end in a backslash
      that lies directly before the quote or the bracket of the next piece. */
  predicate PieceOk(ps: seq<Piece>, k: nat)
    requires k < |ps|
  {
    match ps[k]
    case Literal(text) => !(EndsInBackslash(text) && BeginsSpecial(Write(ps, k + 1)))
    case Value(_) => true
    case Angle(inner) => '>' !in inner
  }

  predicate EndsInBackslash(text: string) {
    text != "" && text[|text| - 1] == '\\'
  }

  predicate BeginsSpecial(s: string) {
    s != "" && (s[0] == '"' || s[0] == '<')
  }

  predicate AllOk(ps: seq<Piece>, k: nat)
    requires k <= |ps|
  {
    forall j :: k <= j < |ps| ==> PieceOk(ps, j)
  }

  function PieceText(p: Piece): string {
    if p.Literal? then p.text else "{}"
  }

  /** The literal text, with a placeholder for everything else. */
  function Skeleton(ps: seq<Piece>, k: nat): string
    requires k <= |ps|
    decreases |ps| - k
  {
    if k == |ps| then "" else PieceText(ps[k]) + Skeleton(ps, k + 1)
  }

  function PieceArgs(p: Piece): seq<Arg> {
    match p
    case Literal(_) => []
    case Value(value) => [Static(value)]
    case Angle(inner) => [AngleArg(inner)]
  }

  function ArgsOf(ps: seq<Piece>, k: nat): seq<Arg>
    requires k <= |ps|
    decreases |ps| - k
  {
    if k == |ps| then [] else PieceArgs(ps[k]) + ArgsOf(ps, k + 1)
  }

  // ---------------------------------------------------------------- reading what was written

  lemma {:induction false} QuotedCharReadBack(s: string, j: nat, c: char, value: string)
    requires Starts(s, j, QuoteChar(c))
    ensures ReadQuoted(s, j, value) == ReadQuoted(s, j + |QuoteChar(c)|, value + [c])
  {
    StartsAt(s, j, QuoteChar(c), 0);
    if |QuoteChar(c)| > 1 { StartsAt(s, j, QuoteChar(c), 1); }
  }

  lemma {:induction false} QuotedNext(s: string, j: nat, v: string, k: nat, value: string) returns (next: nat)
    requires k < |v| && Starts(s, j, QuoteBody(v, k))
    ensures next <= |s| && ReadQuoted(s, j, value) == ReadQuoted(s, next, value + [v[k]])
    ensures Starts(s, next, QuoteBody(v, k + 1)) && next + |QuoteBody(v, k + 1)| == j + |QuoteBody(v, k)|
  {
    StartsSplit(s, j, QuoteChar(v[k]), QuoteBody(v, k + 1));
    QuotedCharReadBack(s, j, v[k], value);
    next := j + |QuoteChar(v[k])|;
  }

  lemma {:induction false} QuotedReadBack(s: string, j: nat, v: string, k: nat, value: string)
    requires k <= |v| && Starts(s, j, QuoteBody(v, k))
    ensures ReadQuoted(s, j, value) == Closed(value + v[k..], j + |QuoteBody(v, k)|)
    decreases |v| - k
  {
    if k == |v| {
      StartsAt(s, j, "\"", 0);
      assert value + v[k..] == value;
    } else {
      var next := QuotedNext(s, j, v, k, value);
      QuotedReadBack(s, next, v, k + 1, value + [v[k]]);
      MoveOne(value, v, k);
    }
  }

  lemma {:induction false} ValueReadBack(s: string, i: nat, v: string, done: Scanned)
    requires Starts(s, i, Quote(v))
    ensures Scan(s, i, done) == Scan(s, i + |Quote(v)|, Scanned(done.out + "{}", done.args + [Static(v)]))
  {
    StartsSplit(s, i, "\"", QuoteBody(v, 0));
    StartsAt(s, i, "\"", 0);
    QuotedReadBack(s, i + 1, v, 0, "");
    assert "" + v[0..] == v;
  }

  lemma {:induction false} FindBack(s: string, c: char, start: nat, inner: string)
    requires c !in inner && Starts(s, start, inner + [c])
    ensures Find(s, c, start) == start + |inner|
    decreases |inner|
  {
    StartsAt(s, start, inner + [c], 0);
    if inner != "" {
      assert inner + [c] == [inner[0]] + (inner[1..] + [c]);
      StartsSplit(s, start, [inner[0]], inner[1..] + [c]);
      FindBack(s, c, start + 1, inner[1..]);
    }
  }

  lemma {:induction false} AngleReadBack(s: string, i: nat, inner: string, done: Scanned)
    requires '>' !in inner && Starts(s, i, "<" + inner + ">")
    ensures Scan(s, i, done) == Scan(s, i + |inner| + 2, Scanned(done.out + "{}", done.args + [AngleArg(inner)]))
  {
    assert "<" + inner + ">" == "<" + (inner + ['>']);
    StartsSplit(s, i, "<", inner + ['>']);
    StartsAt(s, i, "<", 0);
    FindBack(s, '>', i + 1, inner);
    StartsSplit(s, i + 1, inner, ['>']);
    StartsSlice(s, i + 1, inner);
  }

  /** Literal text comes through, unless it ends in a backslash before a quote or a bracket. */
  lemma {:induction false} LiteralReadBack(s: string, i: nat, text: string, k: nat, done: Scanned)
    requires k <= |text| && Starts(s, i, LiteralBody(text, k))
    requires var next := i + |LiteralBody(text, k)|; !(EndsInBackslash(text) && next < |s| && (s[next] == '"' || s[next] == '<'))
    ensures Scan(s, i, done) == Scan(s, i + |LiteralBody(text, k)|, Scanned(done.out + text[k..], done.args))
    decreases |text| - k
  {
    if k == |text| {
      assert done.out + text[k..] == done.out;
    } else {
      LiteralCharReadBack(s, i, text, k, done);
      LiteralReadBack(s, i + |LiteralChar(text[k])|, text, k + 1, Scanned(done.out + [text[k]], done.args));
      MoveOne(done.out, text, k);
    }
  }

  lemma {:induction false} LiteralCharReadBack(s: string, i: nat, text: string, k: nat, done: Scanned)
    requires k < |text| && Starts(s, i, LiteralBody(text, k))
    requires k + 1 == |text| ==>
               !(text[k] == '\\' && i + 1 < |s| && (s[i + 1] == '"' || s[i + 1] == '<'))
    ensures var next := i + |LiteralChar(text[k])|;
            && Starts(s, next, LiteralBody(text, k + 1)) && next + |LiteralBody(text, k + 1)| == i + |LiteralBody(text, k)|
            && Scan(s, i, done) == Scan(s, next, Scanned(done.out + [text[k]], done.args))
  {
    var c := LiteralChar(text[k]);
    StartsSplit(s, i, c, LiteralBody(text, k + 1));
    StartsAt(s, i, c, 0);
    if |c| > 1 { StartsAt(s, i, c, 1); }
    if text[k] == '\\' && k + 1 < |text| {
      StartsAt(s, i + 1, LiteralBody(text, k + 1), 0);
    }
  }

  lemma {:induction false} PieceReadBack(s: string, i: nat, ps: seq<Piece>, k: nat, done: Scanned)
    requires k < |ps| && PieceOk(ps, k) && Starts(s, i, Write(ps, k)) && i + |Write(ps, k)| == |s|
    ensures Scan(s, i, done)
              == Scan(s, i + |WritePiece(ps[k])|, Scanned(done.out + PieceText(ps[k]), done.args + PieceArgs(ps[k])))
  {
    hide Scan, LiteralBody, Quote;
    StartsSplit(s, i, WritePiece(ps[k]), Write(ps, k + 1));
    match ps[k]
    case Literal(text) =>
      BehindPiece(s, i, ps, k);
      LiteralReadBack(s, i, text, 0, done);
      assert text[0..] == text && done.args + [] == done.args;
    case Value(value) => ValueReadBack(s, i, value, done);
    case Angle(inner) => AngleReadBack(s, i, inner, done);
  }

  /** What comes behind a piece is what the next pieces begin with. */
  lemma {:induction false} BehindPiece(s: string, i: nat, ps: seq<Piece>, k: nat)
    requires k < |ps| && Starts(s, i, Write(ps, k)) && i + |Write(ps, k)| == |s|
    ensures var next := i + |WritePiece(ps[k])|;
            BeginsSpecial(Write(ps, k + 1)) <==> next < |s| && (s[next] == '"' || s[next] == '<')
  {
    StartsSplit(s, i, WritePiece(ps[k]), Write(ps, k + 1));
    if Write(ps, k + 1) != "" { StartsAt(s, i + |WritePiece(ps[k])|, Write(ps, k + 1), 0); }
  }

  lemma {:induction false} PieceThenRest(s: string, i: nat, ps: seq<Piece>, k: nat, done: Scanned, more: Scanned)
    requires k < |ps| && PieceOk(ps, k) && Starts(s, i, Write(ps, k)) && i + |Write(ps, k)| == |s|
    requires more == Scanned(done.out + PieceText(ps[k]), done.args + PieceArgs(ps[k]))
    ensures var next := i + |WritePiece(ps[k])|;
            && Starts(s, next, Write(ps, k + 1)) && next + |Write(ps, k + 1)| == |s|
            && Scan(s, i, done) == Scan(s, next, more)
  {
    StartsSplit(s, i, WritePiece(ps[k]), Write(ps, k + 1));
    PieceReadBack(s, i, ps, k, done);
  }

  function Expected(ps: seq<Piece>, k: nat, done: Scanned): Scanned
    requires k <= |ps|
  {
    Scanned(done.out + Skeleton(ps, k), done.args + ArgsOf(ps, k))
  }

  lemma {:induction false} ExpectedNext(ps: seq<Piece>, k: nat, done: Scanned)
    requires k < |ps|
    ensures Expected(ps, k, done)
         == Expected(ps, k + 1, Scanned(done.out + PieceText(ps[k]), done.args + PieceArgs(ps[k])))
  {
    Associate(done.out, PieceText(ps[k]), Skeleton(ps, k + 1));
    Associate(done.args, PieceArgs(ps[k]), ArgsOf(ps, k + 1));
  }

  lemma {:induction false} AllRead(s: string, ps: seq<Piece>, done: Scanned)
    ensures Scan(s, |s|, done) == Some(Expected(ps, |ps|, done))
  {
    assert done.out + "" == done.out && done.args + [] == done.args;
  }

  lemma {:induction false} PiecesReadBack(s: string, i: nat, ps: seq<Piece>, k: nat, done: Scanned)
    requires k <= |ps| && AllOk(ps, k)
    requires Starts(s, i, Write(ps, k)) && i + |Write(ps, k)| == |s|
    ensures Scan(s, i, done) == Some(Expected(ps, k, done))
    decreases |ps| - k
  {
    hide Scan, PieceOk, WritePiece, PieceText, PieceArgs, Expected;
    if k == |ps| {
      AllRead(s, ps, done);
    } else {
      var more := Scanned(done.out + PieceText(ps[k]), done.args + PieceArgs(ps[k]));
      PieceThenRest(s, i, ps, k, done, more);
      PiecesReadBack(s, i + |WritePiece(ps[k])|, ps, k + 1, more);
      ExpectedNext(ps, k, done);
    }
  }

  /** Reading a written step, with any white space around it, gives back exactly its arguments,
      whatever characters the values hold. The text it is matched by comes from the literal text
      alone; a step that has nothing but white space is refused. */
  lemma {:induction false} StepReadBack(text: string, ps: seq<Piece>)
    requires AllOk(ps, 0) && Trim(text) == Write(ps, 0)
    ensures ParseStepText(text) == Meant(ps)
  {
    StartsAll(Write(ps, 0));
    PiecesReadBack(Write(ps, 0), 0, ps, 0, Scanned("", []));
    assert "" + Skeleton(ps, 0) == Skeleton(ps, 0) && [] + ArgsOf(ps, 0) == ArgsOf(ps, 0);
  }

  /** What the author of a step means by it. */
  function Meant(ps: seq<Piece>): Option<Scanned> {
    var matched := Parameterized(Skeleton(ps, 0));
    if matched == "" then None else Some(Scanned(matched, ArgsOf(ps, 0)))
  }

  // ---------------------------------------------------------------- what does not read back

  lemma {:induction false} ScanExtends(s: string, i: nat, done: Scanned)
    requires i <= |s|
    ensures Scan(s, i, done).Some? ==> done.out <= Scan(s, i, done).value.out && done.args <= Scan(s, i, done).value.args
    decreases |s| - i
  {
    if i == |s| {
    } else if s[i] == '\\' && i + 1 < |s| && (s[i + 1] == '"' || s[i + 1] == '<') {
      ScanExtends(s, i + 2, Scanned(done.out + [s[i + 1]], done.args));
    } else if s[i] == '"' {
      var q := ReadQuoted(s, i + 1, "");
      if q.Closed? { ScanExtends(s, q.next, Scanned(done.out + "{}", done.args + [Static(q.value)])); }
    } else if s[i] == '<' {
      var j := Find(s, '>', i + 1);
      if j < |s| { ScanExtends(s, j + 1, Scanned(done.out + "{}", done.args + [AngleArg(s[i + 1..j])])); }
    } else {
      ScanExtends(s, i + 1, Scanned(done.out + [s[i]], done.args));
    }
  }

  /** A difference that stays in the text that steps are matched by. */
  predicate Differs(r: Scanned, e: Scanned) {
    r.args != e.args || Visible(r.out, 0) != Visible(e.out, 0)
  }

  lemma {:induction false} VisibleFrom(a: string, b: string, k: nat)
    requires k <= |a|
    ensures Visible(a + b, k) == Visible(a, k) + Visible(b, 0)
    decreases |a| - k
  {
    if k == |a| {
      VisibleBehind(a, b, 0);
      assert "" + Visible(b, 0) == Visible(b, 0);
    } else {
      VisibleFrom(a, b, k + 1);
      Associate(if IsSpace(a[k]) then "" else [a[k]], Visible(a, k + 1), Visible(b, 0));
    }
  }

  lemma {:induction false} VisibleBehind(a: string, b: string, k: nat)
    requires k <= |b|
    ensures Visible(a + b, |a| + k) == Visible(b, k)
    decreases |b| - k
  {
    if k < |b| { VisibleBehind(a, b, k + 1); }
  }

  lemma {:induction false} VisibleDiffers(a: string, b: string, p: string, c: char, d: char)
    requires p + [c] <= a && p + [d] <= b && c != d && !IsSpace(c) && !IsSpace(d)
    ensures Visible(a, 0) != Visible(b, 0)
  {
    VisibleAt(a, p, c);
    VisibleAt(b, p, d);
  }

  lemma {:induction false} VisibleAt(a: string, p: string, c: char)
    requires p + [c] <= a && !IsSpace(c)
    ensures var n := |Visible(p, 0)|; n < |Visible(a, 0)| && Visible(a, 0)[n] == c
  {
    var rest := a[|p| + 1..];
    assert a == (p + [c]) + rest;
    VisibleFrom(p + [c], rest, 0);
    VisibleFrom(p, [c], 0);
    assert Visible([c], 1) == "" && Visible([c], 0) == [c] + "";
  }

  /** A parameter with a '>' in it is read only up to there. */
  lemma {:induction false} AngleFails(s: string, i: nat, inner: string, done: Scanned, e: Scanned)
    requires '>' in inner && Starts(s, i, "<" + inner + ">") && done.args + [AngleArg(inner)] <= e.args
    ensures Scan(s, i, done).Some? ==> Differs(Scan(s, i, done).value, e)
  {
    hide Scan, AngleArg;
    var x := UpToFirst(s, i, inner);
    AngleReadBack(s, i, x, done);
    var more := Scanned(done.out + "{}", done.args + [AngleArg(x)]);
    ScanExtends(s, i + |x| + 2, more);
    if Scan(s, i, done).Some? {
      assert Scan(s, i, done).value.args[|done.args|] == more.args[|done.args|] == AngleArg(x);
      assert e.args[|done.args|] == (done.args + [AngleArg(inner)])[|done.args|] == AngleArg(inner);
    }
  }

  lemma {:induction false} Bracketed(inner: string, x: string, rest: string)
    requires |inner| == |x| + 1 + |rest| && x == inner[..|x|] && inner[|x|] == '>' && rest == inner[|x| + 1..]
    ensures "<" + inner + ">" == ("<" + x + ">") + (rest + ">")
  {
    assert inner == x + (">" + rest);
    Associate("<", x, ">" + rest);
    Associate("<" + x, ">", rest);
    Associate("<" + x + ">", rest, ">");
  }

  lemma {:induction false} UpToFirst(s: string, i: nat, inner: string) returns (x: string)
    requires '>' in inner && Starts(s, i, "<" + inner + ">")
    ensures '>' !in x && Starts(s, i, "<" + x + ">") && AngleArg(x) != AngleArg(inner)
  {
    hide AngleArg, Starts;
    assert inner[0..] == inner;
    FirstAt(inner, '>', 0);
    var p := Find(inner, '>', 0);
    var rest := inner[p + 1..];
    x := inner[..p];
    Bracketed(inner, x, rest);
    StartsSplit(s, i, "<" + x + ">", rest + ">");
    OtherArg(inner, p);
  }

  lemma {:induction false} FirstAt(s: string, c: char, k: nat)
    requires k <= |s| && c in s[k..]
    ensures k <= Find(s, c, k) < |s| && s[Find(s, c, k)] == c && c !in s[k..Find(s, c, k)]
    decreases |s| - k
  {
    if s[k] != c {
      assert s[k..] == [s[k]] + s[k + 1..];
      FirstAt(s, c, k + 1);
      assert s[k..Find(s, c, k)] == [s[k]] + s[k + 1..Find(s, c, k)];
    }
  }

  lemma {:induction false} OtherArg(y: string, p: nat)
    requires p < |y| && y[p] == '>' && '>' !in y[..p]
    ensures AngleArg(y[..p]) != AngleArg(y)
  {
    var x := y[..p];
    assert StartsWith(y, "file:") ==> p >= 5 && x[..5] == y[..5];
    assert StartsWith(y, "table:") ==> p >= 6 && x[..6] == y[..6];
    assert StartsWith(x, "file:") ==> x[..5] == y[..5];
    assert StartsWith(x, "table:") ==> x[..6] == y[..6];
    var n := if StartsWith(y, "file:") then 5 else if StartsWith(y, "table:") then 6 else 0;
    assert n <= p && y[n..][p - n] == '>';
    StaysInTrim(y[n..], '>');
    StaysOutOfTrim(x[n..], '>');
  }

  lemma {:induction false} StaysInTrim(s: string, c: char)
    requires c in s && !IsSpace(c)
    ensures c in Trim(s)
  {
    StaysInLeft(s, c);
    StaysInRight(TrimLeft(s), c);
  }

  lemma {:induction false} StaysInLeft(s: string, c: char)
    requires c in s && !IsSpace(c)
    ensures c in TrimLeft(s)
  {
    if IsSpace(s[0]) {
      assert s == [s[0]] + s[1..];
      StaysInLeft(s[1..], c);
    }
  }

  lemma {:induction false} StaysInRight(s: string, c: char)
    requires c in s && !IsSpace(c)
    ensures c in TrimRight(s)
  {
    var n := |s| - 1;
    if IsSpace(s[n]) {
      assert s == s[..n] + [s[n]];
      StaysInRight(s[..n], c);
    }
  }

  lemma {:induction false} StaysOutOfTrim(s: string, c: char)
    requires c !in s
    ensures c !in Trim(s)
  {
    LeftPart(s);
    RightPart(TrimLeft(s));
  }

  lemma {:induction false} LeftPart(s: string)
    ensures forall c :: c in TrimLeft(s) ==> c in s
  {
    if s != "" && IsSpace(s[0]) { LeftPart(s[1..]); }
  }

  lemma {:induction false} RightPart(s: string)
    ensures forall c :: c in TrimRight(s) ==> c in s
  {
    if s != "" && IsSpace(s[|s| - 1]) { RightPart(s[..|s| - 1]); }
  }

  /** A backslash before the quote or the bracket of the next piece takes away its meaning. */
  lemma {:induction false} BackslashFails(s: string, i: nat, text: string, k: nat, done: Scanned, e: Scanned)
    requires k < |text| && EndsInBackslash(text) && Starts(s, i, LiteralBody(text, k)) && done.out + text[k..] <= e.out
    requires var next := i + |LiteralBody(text, k)|; next < |s| && (s[next] == '"' || s[next] == '<')
    ensures Scan(s, i, done).Some? ==> Differs(Scan(s, i, done).value, e)
    decreases |text| - k
  {
    if k + 1 < |text| {
      LiteralCharReadBack(s, i, text, k, done);
      MoveOne(done.out, text, k);
      BackslashFails(s, i + |LiteralChar(text[k])|, text, k + 1, Scanned(done.out + [text[k]], done.args), e);
    } else {
      assert LiteralBody(text, k + 1) == "" && LiteralBody(text, k) == ['\\'] + "";
      StartsAt(s, i, LiteralBody(text, k), 0);
      assert text[k..] == ['\\'];
      ScanExtends(s, i + 2, Scanned(done.out + [s[i + 1]], done.args));
      if Scan(s, i, done).Some? { VisibleDiffers(Scan(s, i, done).value.out, e.out, done.out, s[i + 1], '\\'); }
    }
  }

  lemma {:induction false} PieceFails(s: string, i: nat, ps: seq<Piece>, k: nat, done: Scanned)
    requires k < |ps| && !PieceOk(ps, k) && Starts(s, i, Write(ps, k)) && i + |Write(ps, k)| == |s|
    ensures Scan(s, i, done).Some? ==> Differs(Scan(s, i, done).value, Expected(ps, k, done))
  {
    hide Expected, Scan, Differs;
    var e := Expected(ps, k, done);
    StartsSplit(s, i, WritePiece(ps[k]), Write(ps, k + 1));
    ExpectedHas(ps, k, done);
    match ps[k]
    case Literal(text) =>
      BehindPiece(s, i, ps, k);
      assert text[0..] == text;
      BackslashFails(s, i, text, 0, done, e);
    case Angle(inner) => AngleFails(s, i, inner, done, e);
  }

  lemma {:induction false} ExpectedHas(ps: seq<Piece>, k: nat, done: Scanned)
    requires k < |ps|
    ensures var e := Expected(ps, k, done); done.out + PieceText(ps[k]) <= e.out && done.args + PieceArgs(ps[k]) <= e.args
  {
    hide PieceText, PieceArgs;
    ExpectedNext(ps, k, done);
  }

  lemma {:induction false} PiecesFail(s: string, i: nat, ps: seq<Piece>, k: nat, done: Scanned)
    requires k <= |ps| && !AllOk(ps, k)
    requires Starts(s, i, Write(ps, k)) && i + |Write(ps, k)| == |s|
    ensures Scan(s, i, done).Some? ==> Differs(Scan(s, i, done).value, Expected(ps, k, done))
    decreases |ps| - k
  {
    hide Differs, Scan, PieceOk, WritePiece, PieceText, PieceArgs, Expected;
    if PieceOk(ps, k) {
      var more := Scanned(done.out + PieceText(ps[k]), done.args + PieceArgs(ps[k]));
      PieceThenRest(s, i, ps, k, done, more);
      PiecesFail(s, i + |WritePiece(ps[k])|, ps, k + 1, more);
      ExpectedNext(ps, k, done);
    } else {
      PieceFails(s, i, ps, k, done);
    }
  }

  lemma {:induction false} VisibleCollapse(s: string, k: nat, lastSpace: bool)
    requires k <= |s|
    ensures Visible(Collapse(s, k, lastSpace), 0) == Visible(s, k)
    decreases |s| - k
  {
    if k < |s| {
      var space := IsSpace(s[k]);
      var c := if space then (if lastSpace then "" else " ") else [s[k]];
      VisibleCollapse(s, k + 1, space);
      VisibleFrom(c, Collapse(s, k + 1, space), 0);
      assert Visible(c, 0) == if space then "" else [s[k]];
    }
  }

  lemma {:induction false} VisibleLeft(s: string)
    ensures Visible(TrimLeft(s), 0) == Visible(s, 0)
  {
    if s != "" && IsSpace(s[0]) {
      VisibleLeft(s[1..]);
      assert s == [s[0]] + s[1..];
      VisibleBehind([s[0]], s[1..], 0);
    }
  }

  lemma {:induction false} VisibleRight(s: string)
    ensures Visible(TrimRight(s), 0) == Visible(s, 0)
  {
    var n := |s| - 1;
    if s != "" && IsSpace(s[n]) {
      VisibleRight(s[..n]);
      assert s == s[..n] + [s[n]];
      VisibleFrom(s[..n], [s[n]], 0);
      assert Visible([s[n]], 0) == "";
    }
  }

  /** The text that a step is matched by has all the characters but white space. */
  lemma {:induction false} MatchedVisible(out: string)
    ensures Visible(Parameterized(out), 0) == Visible(out, 0)
  {
    var c := Collapse(out, 0, false);
    VisibleCollapse(out, 0, false);
    VisibleLeft(c);
    VisibleRight(TrimLeft(c));
  }

  lemma {:induction false} SomethingMeant(ps: seq<Piece>, k: nat)
    requires k <= |ps| && !AllOk(ps, k)
    ensures Visible(Skeleton(ps, k), 0) != ""
    decreases |ps| - k
  {
    hide Visible, PieceText, PieceOk;
    VisibleFrom(PieceText(ps[k]), Skeleton(ps, k + 1), 0);
    if PieceOk(ps, k) { SomethingMeant(ps, k + 1); } else { PieceMeans(ps, k); }
  }

  lemma {:induction false} PieceMeans(ps: seq<Piece>, k: nat)
    requires k < |ps| && !PieceOk(ps, k)
    ensures Visible(PieceText(ps[k]), 0) != ""
  {
    hide Visible;
    if ps[k].Literal? {
      var text := ps[k].text;
      VisibleAt(text, text[..|text| - 1], '\\');
    } else {
      VisibleAt("{}", "", '{');
    }
  }

  /** A written step is read as it was meant exactly if no parameter holds a '>' and no literal text
      ends in a backslash directly before a quote or a bracket. */
  lemma {:induction false} StepReadBackIff(text: string, ps: seq<Piece>)
    requires Trim(text) == Write(ps, 0)
    ensures ParseStepText(text) == Meant(ps) <==> AllOk(ps, 0)
  {
    hide AllOk, Differs, Scan, Skeleton, ArgsOf, Parameterized;
    if AllOk(ps, 0) {
      StepReadBack(text, ps);
    } else {
      StartsAll(Write(ps, 0));
      PiecesFail(Write(ps, 0), 0, ps, 0, Scanned("", []));
      NotMeant(ps, Scan(Write(ps, 0), 0, Scanned("", [])));
    }
  }

  lemma {:induction false} NotMeant(ps: seq<Piece>, r: Option<Scanned>)
    requires !AllOk(ps, 0) && (r.Some? ==> Differs(r.value, Expected(ps, 0, Scanned("", []))))
    ensures Meant(ps).Some? && (r.Some? ==> Meant(ps).value != Scanned(Parameterized(r.value.out), r.value.args))
  {
    assert "" + Skeleton(ps, 0) == Skeleton(ps, 0) && [] + ArgsOf(ps, 0) == ArgsOf(ps, 0);
    SomethingMeant(ps, 0);
    MatchedVisible(Skeleton(ps, 0));
    if r.Some? { MatchedVisible(r.value.out); }
  }

  /** The same literal text at the same places. */
  predicate SameLiterals(ps: seq<Piece>, qs: seq<Piece>) {
    |ps| == |qs| && forall j :: 0 <= j < |ps| ==> if ps[j].Literal? then ps[j] == qs[j] else !qs[j].Literal?
  }

  lemma {:induction false} SameSkeleton(ps: seq<Piece>, qs: seq<Piece>, k: nat)
    requires SameLiterals(ps, qs) && k <= |ps|
    ensures Skeleton(ps, k) == Skeleton(qs, k)
    decreases |ps| - k
  {
    if k < |ps| { SameSkeleton(ps, qs, k + 1); }
  }

  /** Steps that differ in their values and parameters only are matched by the same text. */
  lemma {:induction false} MatchedAlike(text: string, other: string, ps: seq<Piece>, qs: seq<Piece>)
    requires AllOk(ps, 0) && Trim(text) == Write(ps, 0)
    requires AllOk(qs, 0) && Trim(other) == Write(qs, 0)
    requires SameLiterals(ps, qs)
    ensures ParseStepText(text).Some? <==> ParseStepText(other).Some?
    ensures ParseStepText(text).Some? ==> ParseStepText(text).value.out == ParseStepText(other).value.out
  {
    StepReadBack(text, ps);
    StepReadBack(other, qs);
    SameSkeleton(ps, qs, 0);
  }

  // ---------------------------------------------------------------- what a step is matched by

  /** The words with one space between any two. */
  function JoinWords(words: seq<string>): string {
    if words == [] then ""
    else if |words| == 1 then words[0]
    else words[0] + (" " + JoinWords(words[1..]))
  }

  predicate Word(w: string) {
    w != "" && forall i :: 0 <= i < |w| ==> !IsSpace(w[i])
  }

  lemma {:induction false} TrimRightTail(a: string, b: string)
    requires TrimRight(b) != ""
    ensures TrimRight(a + b) == a + TrimRight(b)
    decreases |b|
  {
    if b != "" && IsSpace(b[|b| - 1]) {
      assert (a + b)[..|a + b| - 1] == a + b[..|b| - 1];
      TrimRightTail(a, b[..|b| - 1]);
    }
  }

  lemma {:induction false} JoinNext(w: string, words: seq<string>)
    requires words != []
    ensures JoinWords([w] + words) == w + (" " + JoinWords(words))
  {
    assert ([w] + words)[1..] == words;
  }

  /** The words of `s` from `k` on, if `w` is what the first of them begins with. */
  lemma {:induction false} FoldsInWord(s: string, k: nat, w: string)
    requires k <= |s| && Word(w)
    ensures TrimRight(w + Collapse(s, k, false)) == JoinWords(Words(s, k, w))
    decreases |s| - k, 1
  {
    if k == |s| {
      assert w + "" == w;
    } else if IsSpace(s[k]) {
      FoldsAtSpace(s, k, w);
    } else {
      FoldsInWord(s, k + 1, w + [s[k]]);
      Associate(w, [s[k]], Collapse(s, k + 1, false));
    }
  }

  lemma {:induction false} FoldsAtSpace(s: string, k: nat, w: string)
    requires k < |s| && Word(w) && IsSpace(s[k])
    ensures TrimRight(w + Collapse(s, k, false)) == JoinWords(Words(s, k, w))
    decreases |s| - k, 0
  {
    var words, c := Words(s, k + 1, ""), Collapse(s, k + 1, true);
    FoldsAfterSpace(s, k + 1);
    assert Words(s, k, w) == [w] + words && Collapse(s, k, false) == " " + c;
    if words == [] {
      assert (w + " ")[..|w|] == w && w + (" " + c) == w + " ";
    } else {
      JoinNext(w, words);
      TrimRightTail(w + " ", c);
      Associate(w, " ", c);
      Associate(w, " ", JoinWords(words));
    }
  }

  /** Behind a space, the rest begins with its first word or is empty. */
  lemma {:induction false} FoldsAfterSpace(s: string, k: nat)
    requires k <= |s|
    ensures var words, c := Words(s, k, ""), Collapse(s, k, true);
            && TrimRight(c) == JoinWords(words)
            && (words == [] ==> c == "")
            && (words != [] ==> c != "" && !IsSpace(c[0]) && TrimRight(c) != "")
    decreases |s| - k, 2
  {
    if k < |s| {
      if IsSpace(s[k]) {
        assert [] + Words(s, k + 1, "") == Words(s, k + 1, "");
        assert "" + Collapse(s, k + 1, true) == Collapse(s, k + 1, true);
        FoldsAfterSpace(s, k + 1);
      } else {
        assert "" + [s[k]] == [s[k]];
        FoldsInWord(s, k + 1, [s[k]]);
        WordsBegin(s, k + 1, [s[k]]);
        SomethingLeft([s[k]] + Collapse(s, k + 1, false));
      }
    }
  }

  lemma {:induction false} SomethingLeft(c: string)
    requires c != "" && !IsSpace(c[0])
    ensures TrimRight(c) != ""
    decreases |c|
  {
    if IsSpace(c[|c| - 1]) { SomethingLeft(c[..|c| - 1]); }
  }

  lemma {:induction false} WordsBegin(s: string, k: nat, w: string)
    requires k <= |s| && w != ""
    ensures Words(s, k, w) != []
    decreases |s| - k
  {
    if k < |s| && !IsSpace(s[k]) { WordsBegin(s, k + 1, w + [s[k]]); }
  }

  /** The text that a step is matched by consists of its words, with one space between any two. */
  lemma {:induction false} FoldedIsWords(out: string)
    ensures Parameterized(out) == JoinWords(Words(out, 0, ""))
  {
    FoldsAfterSpace(out, 0);
    var c, d := Collapse(out, 0, false), Collapse(out, 0, true);
    if out != "" && IsSpace(out[0]) {
      assert c == " " + d && c[1..] == d;
      assert TrimLeft(c) == TrimLeft(d);
    } else {
      assert c == d;
    }
    assert TrimLeft(d) == d;
  }

  /** Every word is free of white space, and the words are the other characters in their order. */
  lemma {:induction false} WordsAreWords(s: string, k: nat, w: string)
    requires k <= |s| && (w == "" || Word(w))
    ensures forall i :: 0 <= i < |Words(s, k, w)| ==> Word(Words(s, k, w)[i])
    ensures Concat(Words(s, k, w)) == w + Visible(s, k)
    decreases |s| - k
  {
    if k == |s| {
      assert [w][1..] == [] && w + "" == w;
    } else if IsSpace(s[k]) {
      WordsAreWords(s, k + 1, "");
      assert "" + Visible(s, k + 1) == Visible(s, k + 1);
      if w == "" {
        assert [] + Words(s, k + 1, "") == Words(s, k + 1, "");
      } else {
        assert ([w] + Words(s, k + 1, ""))[1..] == Words(s, k + 1, "");
      }
    } else {
      WordsAreWords(s, k + 1, w + [s[k]]);
      Associate(w, [s[k]], Visible(s, k + 1));
    }
  }

  function Concat(words: seq<string>): string {
    if words == [] then "" else words[0] + Concat(words[1..])
  }

  /** The characters that are not white space. */
  function Visible(s: string, k: nat): string
    requires k <= |s|
    decreases |s| - k
  {
    if k == |s| then "" else (if IsSpace(s[k]) then "" else [s[k]]) + Visible(s, k + 1)
  }

  // ---------------------------------------------------------------- the loops

  method ReadValue(s: string, start: nat) returns (r: Quoted)
    requires start <= |s|
    ensures r == ReadQuoted(s, start, "")
  {
    var j, value := start, "";
    while j < |s|
      invariant start <= j <= |s| && ReadQuoted(s, j, value) == ReadQuoted(s, start, "")
    {
      if s[j] == '\\' && j + 1 < |s| {
        var e := s[j + 1];
        if e == '"' { value := value + "\""; }
        else if e == 'n' { value := value + "\n"; }
        else if e == 't' { value := value + "\t"; }
        else if e == '\\' { value := value + ['\\']; }
        else { value := value + ['\\', e]; }
        j := j + 2;
      } else if s[j] == '"' {
        return Closed(value, j + 1);
      } else {
        value := value + [s[j]];
        j := j + 1;
      }
    }
    r := Unclosed;
  }

  method FoldSpace(out: string) returns (collapsed: string)
    ensures collapsed == Collapse(out, 0, false) && Trim(collapsed) == JoinWords(Words(out, 0, ""))
  {
    FoldedIsWords(out);
    collapsed := "";
    var lastSpace := false;
    var k := 0;
    while k < |out|
      invariant 0 <= k <= |out| && collapsed + Collapse(out, k, lastSpace) == Collapse(out, 0, false)
    {
      var space := IsSpace(out[k]);
      var c := if space then (if lastSpace then "" else " ") else [out[k]];
      Associate(collapsed, c, Collapse(out, k + 1, space));
      collapsed := collapsed + c;
      lastSpace := space;
      k := k + 1;
    }
  }

  method Parse(text: string) returns (r: Option<Scanned>)
    ensures r == ParseStepText(text)
  {
    var s := Trim(text);
    var out, args := "", [];
    var i := 0;
    while i < |s|
      invariant 0 <= i <= |s| && Scan(s, i, Scanned(out, args)) == Scan(s, 0, Scanned("", []))
      decreases |s| - i
    {
      var c := s[i];
      if c == '\\' && i + 1 < |s| && (s[i + 1] == '"' || s[i + 1] == '<') {
        out, i := out + [s[i + 1]], i + 2;
      } else if c == '"' {
        var q := ReadValue(s, i + 1);
        if q.Unclosed? { return None; }
        out, args, i := out + "{}", args + [Static(q.value)], q.next;
      } else if c == '<' {
        var j := FindChar(s, '>', i + 1);
        if j == |s| { return None; }
        out, args, i := out + "{}", args + [AngleArg(s[i + 1..j])], j + 1;
      } else {
        out, i := out + [c], i + 1;
      }
    }
    var collapsed := FoldSpace(out);
    var matched := Trim(collapsed);
    if matched == "" { return None; }
    r := Some(Scanned(matched, args));
  }
}
