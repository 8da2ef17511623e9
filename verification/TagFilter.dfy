/** Tag filter expressions (src/engine/tag_filter.h): the recursive-descent parser,
    the evaluator, and `all`, which combines filters by joining their texts. */
module TagFilter {
  import opened Text

  datatype Node = Tag(tag: string) | And(left: Node, right: Node) | Or(left: Node, right: Node) | Not(operand: Node) {
    predicate Eval(tags: seq<string>) {
      match this
      case Tag(tag) => HasTag(tag, tags)
      case And(l, r) => l.Eval(tags) && r.Eval(tags)
      case Or(l, r) => l.Eval(tags) || r.Eval(tags)
      case Not(n) => !n.Eval(tags)
    }
  }

  predicate HasTag(tag: string, tags: seq<string>) {
    tags != [] && (ToLower(Trim(tags[0])) == ToLower(tag) || HasTag(tag, tags[1..]))
  }

  // ---------------------------------------------------------------- grammar as functions

  function SkipWs(s: string, pos: nat): (p: nat)
    requires pos <= |s|
    ensures pos <= p <= |s|
    decreases |s| - pos
  {
    if pos < |s| && IsSpace(s[pos]) then SkipWs(s, pos + 1) else pos
  }

  predicate WordChar(c: char) {
    IsAlpha(c) || IsDigit(c) || c == '_'
  }

  /** `tok` stands at `pos`; a keyword must not run on into a longer word. */
  predicate TokenAt(s: string, pos: nat, tok: string)
    requires tok != ""
  {
    && pos + |tok| <= |s|
    && s[pos..pos + |tok|] == tok
    && !(IsAlpha(tok[0]) && pos + |tok| < |s| && WordChar(s[pos + |tok|]))
  }

  predicate Tokens(toks: seq<string>) {
    forall i :: 0 <= i < |toks| ==> toks[i] != ""
  }

  /** The first of `toks` that stands behind the white space at `pos`: the position behind it. */
  function ConsumeAny(s: string, pos: nat, toks: seq<string>): (r: Option<nat>)
    requires pos <= |s|
    requires Tokens(toks)
    ensures r.Some? ==> pos < r.value <= |s|
  {
    if toks == [] then None
    else
      if TokenAt(s, SkipWs(s, pos), toks[0]) then Some(SkipWs(s, pos) + |toks[0]|)
      else ConsumeAny(s, pos, toks[1..])
  }

  /** The spellings of the three operators, in the order they are tried. */
  datatype Lexicon = Lexicon(ors: seq<string>, ands: seq<string>, nots: seq<string>)

  const LEXICON := Lexicon(["||", "|", "or", "OR"], ["&&", "&", ",", "and", "AND"], ["!", "not", "NOT"])

  type Spellings = l: Lexicon | Tokens(l.ors) && Tokens(l.ands) && Tokens(l.nots)
    witness Lexicon([], [], [])

  predicate Delimiter(c: char) {
    c == '&' || c == '|' || c == '!' || c == '(' || c == ')' || c == ',' || IsSpace(c)
  }

  function TagEnd(s: string, pos: nat): (p: nat)
    requires pos <= |s|
    ensures pos <= p <= |s|
    decreases |s| - pos
  {
    if pos < |s| && !Delimiter(s[pos]) then TagEnd(s, pos + 1) else pos
  }

  /** A parsed tree and the position where the parser stopped; `None` is a reported error. */
  type Parse = Option<(Node, nat)>

  function ParseOr(lex: Spellings, s: string, pos: nat): (r: Parse)
    requires pos <= |s|
    ensures r.Some? ==> pos < r.value.1 <= |s|
    decreases |s| - pos, 3
  {
    match ParseAnd(lex, s, pos)
    case None => None
    case Some((left, p)) => OrTail(lex, s, left, p)
  }

  function OrTail(lex: Spellings, s: string, left: Node, pos: nat): (r: Parse)
    requires pos <= |s|
    ensures r.Some? ==> pos <= r.value.1 <= |s|
    decreases |s| - pos, 2
  {
    match ConsumeAny(s, pos, lex.ors)
    case None => Some((left, SkipWs(s, pos)))
    case Some(p) =>
      match ParseAnd(lex, s, p)
      case None => None
      case Some((right, q)) => OrTail(lex, s, Or(left, right), q)
  }

  function ParseAnd(lex: Spellings, s: string, pos: nat): (r: Parse)
    requires pos <= |s|
    ensures r.Some? ==> pos < r.value.1 <= |s|
    decreases |s| - pos, 1
  {
    match ParseUnary(lex, s, pos)
    case None => None
    case Some((left, p)) => AndTail(lex, s, left, p)
  }

  function AndTail(lex: Spellings, s: string, left: Node, pos: nat): (r: Parse)
    requires pos <= |s|
    ensures r.Some? ==> pos <= r.value.1 <= |s|
    decreases |s| - pos, 0
  {
    match ConsumeAny(s, pos, lex.ands)
    case None => Some((left, SkipWs(s, pos)))
    case Some(p) =>
      match ParseUnary(lex, s, p)
      case None => None
      case Some((right, q)) => AndTail(lex, s, And(left, right), q)
  }

  function ParseUnary(lex: Spellings, s: string, pos: nat): (r: Parse)
    requires pos <= |s|
    ensures r.Some? ==> pos < r.value.1 <= |s|
    decreases |s| - pos, 0
  {
    match ConsumeAny(s, pos, lex.nots)
    case Some(p) => (
      match ParseUnary(lex, s, p)
      case None => None
      case Some((n, q)) => Some((Not(n), q)))
    case None =>
      match ConsumeAny(s, pos, ["("])
      case Some(p) => (
        match ParseOr(lex, s, p)
        case None => None
        case Some((n, q)) =>
          match ConsumeAny(s, q, [")"])
          case None => None
          case Some(e) => Some((n, e)))
      case None =>
        var start := SkipWs(s, pos);
        var stop := TagEnd(s, start);
        if stop == start then None else Some((Tag(s[start..stop]), stop))
  }

  /** `root_` of a filter; `invalid_` means the expression was rejected. */
  datatype Filter = Filter(root: Option<Node>, invalid: bool) {
    predicate Matches(tags: seq<string>) {
      root.None? || root.value.Eval(tags)
    }
  }

  function ParseFilter(expression: string): Filter {
    var e := Trim(expression);
    if e == "" then Filter(None, false)
    else
      match ParseOr(LEXICON, e, 0)
      case None => Filter(None, true)
      case Some((n, p)) => if SkipWs(e, p) >= |e| then Filter(Some(n), false) else Filter(None, true)
  }

  /** The text that `all` builds. */
  function Joined(expressions: seq<string>): string {
    if expressions == [] then ""
    else
      var last := |expressions| - 1;
      var t := Trim(expressions[last]);
      var before := Joined(expressions[..last]);
      if t == "" then before
      else before + (if before == "" then "" else " & ") + "(" + t + ")"
  }

  lemma {:induction false} JoinedNext(es: seq<string>, i: nat)
    requires i < |es|
    ensures Joined(es[..i + 1]) ==
            var t := Trim(es[i]); var before := Joined(es[..i]);
            if t == "" then before else before + (if before == "" then "" else " & ") + "(" + t + ")"
  {
    assert es[..i + 1][..i] == es[..i];
  }

  // ---------------------------------------------------------------- the parser object

  class Parser {
    const s: string
    var pos: nat

    constructor (text: string)
      ensures s == text && pos == 0
    {
      s := text;
      pos := 0;
    }

    method Skip()
      requires pos <= |s|
      modifies this
      ensures pos == SkipWs(s, old(pos))
    {
      while pos < |s| && IsSpace(s[pos])
        invariant pos <= |s| && SkipWs(s, pos) == SkipWs(s, old(pos))
      {
        pos := pos + 1;
      }
    }

    method Consume(tok: string) returns (ok: bool)
      requires pos <= |s| && tok != ""
      modifies this
      ensures pos <= |s|
      ensures ok == TokenAt(s, SkipWs(s, old(pos)), tok)
      ensures pos == SkipWs(s, old(pos)) + if ok then |tok| else 0
    {
      Skip();
      if pos + |tok| <= |s| && s[pos..pos + |tok|] == tok {
        var word := IsAlpha(tok[0]);
        if word && pos + |tok| < |s| && WordChar(s[pos + |tok|]) {
          return false;
        }
        pos := pos + |tok|;
        return true;
      }
      return false;
    }

    /** The source's `consume(a) || consume(b) || ...`. */
    method ConsumeFirst(toks: seq<string>) returns (ok: bool)
      requires pos <= |s| && toks != []
      requires Tokens(toks)
      modifies this
      ensures pos <= |s|
      ensures ok <==> ConsumeAny(s, old(pos), toks).Some?
      ensures ok ==> pos == ConsumeAny(s, old(pos), toks).value
      ensures !ok ==> pos == SkipWs(s, old(pos))
    {
      ok := false;
      var i := 0;
      while i < |toks| && !ok
        invariant 0 <= i <= |toks| && pos <= |s|
        invariant !ok ==> ConsumeAny(s, old(pos), toks) == ConsumeAny(s, old(pos), toks[i..])
        invariant !ok ==> SkipWs(s, pos) == SkipWs(s, old(pos)) && (i > 0 ==> pos == SkipWs(s, old(pos)))
        invariant ok ==> ConsumeAny(s, old(pos), toks) == Some(pos)
      {
        SkipSkipped(s, old(pos));
        ok := Consume(toks[i]);
        i := i + 1;
      }
    }

    method Or() returns (r: Option<Node>)
      requires pos <= |s|
      modifies this
      ensures pos <= |s|
      ensures Outcome(r, ParseOr(LEXICON, s, old(pos)))
      decreases |s| - pos, 2
    {
      r := AndExpr();
      if r.None? { return; }
      while true
        invariant old(pos) < pos <= |s| && r.Some?
        invariant ParseOr(LEXICON, s, old(pos)) == OrTail(LEXICON, s, r.value, pos)
        decreases |s| - pos
      {
        label Top:
        var more := ConsumeFirst(LEXICON.ors);
        if !more { return; }
        var right := AndExpr();
        if right.None? { return None; }
        r := Some(Node.Or(r.value, right.value));
      }
    }

    method AndExpr() returns (r: Option<Node>)
      requires pos <= |s|
      modifies this
      ensures pos <= |s|
      ensures Outcome(r, ParseAnd(LEXICON, s, old(pos)))
      decreases |s| - pos, 1
    {
      r := Unary();
      if r.None? { return; }
      while true
        invariant old(pos) < pos <= |s| && r.Some?
        invariant ParseAnd(LEXICON, s, old(pos)) == AndTail(LEXICON, s, r.value, pos)
        decreases |s| - pos
      {
        var more := ConsumeFirst(LEXICON.ands);
        if !more { return; }
        var right := Unary();
        if right.None? { return None; }
        r := Some(Node.And(r.value, right.value));
      }
    }

    method Unary() returns (r: Option<Node>)
      requires pos <= |s|
      modifies this
      ensures pos <= |s|
      ensures Outcome(r, ParseUnary(LEXICON, s, old(pos)))
      decreases |s| - pos, 0
    {
      SkipSkipped(s, pos);
      SkippedConsume(s, pos, ["("]);
      var negated := ConsumeFirst(LEXICON.nots);
      if negated {
        var operand := Unary();
        if operand.None? { return None; }
        return Some(Node.Not(operand.value));
      }
      var open := ConsumeFirst(["("]);
      if open {
        var inner := Or();
        if inner.None? { return None; }
        var close := ConsumeFirst([")"]);
        if !close { return None; }
        return inner;
      }
      Skip();
      var start := pos;
      while pos < |s| && !Delimiter(s[pos])
        invariant start <= pos <= |s| && TagEnd(s, pos) == TagEnd(s, start)
      {
        pos := pos + 1;
      }
      if pos == start { return None; }
      return Some(Node.Tag(s[start..pos]));
    }

    /** A returned tree and the reader's position agree with the grammar function. */
    predicate Outcome(r: Option<Node>, spec: Parse)
      reads this
    {
      && (r.Some? <==> spec.Some?)
      && (r.Some? ==> spec.value == (r.value, pos))
    }
  }

  method ParseExpression(expression: string) returns (f: Filter)
    ensures f == ParseFilter(expression)
  {
    var e := Trim(expression);
    if e == "" { return Filter(None, false); }
    var p := new Parser(e);
    var root := p.Or();
    if root.None? { return Filter(None, true); }
    p.Skip();
    if p.pos < |e| { return Filter(None, true); }
    return Filter(root, false);
  }

  method All(expressions: seq<string>) returns (f: Filter)
    ensures f == ParseFilter(Joined(expressions))
  {
    var combined := "";
    var i := 0;
    while i < |expressions|
      invariant 0 <= i <= |expressions|
      invariant combined == Joined(expressions[..i])
    {
      var t := Trim(expressions[i]);
      JoinedNext(expressions, i);
      if t != "" {
        if combined != "" { combined := combined + " & "; }
        combined := combined + "(" + t + ")";
      }
      i := i + 1;
    }
    assert expressions[..i] == expressions;
    f := ParseExpression(combined);
  }

  // ---------------------------------------------------------------- locality

  lemma {:induction false} SkipSkipped(s: string, pos: nat)
    requires pos <= |s|
    ensures SkipWs(s, SkipWs(s, pos)) == SkipWs(s, pos)
    decreases |s| - pos
  {
    if pos < |s| && IsSpace(s[pos]) { SkipSkipped(s, pos + 1); }
  }

  lemma {:induction false} SkippedConsume(s: string, pos: nat, toks: seq<string>)
    requires pos <= |s| && Tokens(toks)
    ensures ConsumeAny(s, SkipWs(s, pos), toks) == ConsumeAny(s, pos, toks)
  {
    SkipSkipped(s, pos);
    if toks != [] {
      SkippedConsume(s, pos, toks[1..]);
    }
  }

  /** `s` stands at offset `k` of `t`, and a closing parenthesis follows it. */
  ghost predicate Enclosed(s: string, t: string, k: nat) {
    && k + |s| < |t|
    && t[k + |s|] == ')'
    && forall i :: 0 <= i < |s| ==> t[k + i] == s[i]
  }

  lemma {:induction false} SkipLocal(s: string, t: string, k: nat, pos: nat)
    requires Enclosed(s, t, k) && pos <= |s|
    ensures SkipWs(t, k + pos) == k + SkipWs(s, pos)
    decreases |s| - pos
  {
    if pos < |s| {
      assert t[k + pos] == s[pos];
      if IsSpace(s[pos]) { SkipLocal(s, t, k, pos + 1); }
    }
  }

  lemma {:induction false} TagEndLocal(s: string, t: string, k: nat, pos: nat)
    requires Enclosed(s, t, k) && pos <= |s|
    ensures TagEnd(t, k + pos) == k + TagEnd(s, pos)
    decreases |s| - pos
  {
    if pos < |s| {
      assert t[k + pos] == s[pos];
      if !Delimiter(s[pos]) { TagEndLocal(s, t, k, pos + 1); }
    }
  }

  /** A token that runs past the end of `s` contains the closing parenthesis. */
  lemma {:induction false} PastTheEnd(s: string, t: string, k: nat, pos: nat, tok: string)
    requires Enclosed(s, t, k) && pos <= |s| && tok != ""
    ensures pos + |tok| > |s| && TokenAt(t, k + pos, tok) ==> ')' in tok
  {
    if pos + |tok| > |s| && TokenAt(t, k + pos, tok) {
      assert t[k + pos..k + pos + |tok|][|s| - pos] == t[k + |s|];
    }
  }

  /** A token without ")" is seen in the enclosed text exactly where it is seen alone. */
  lemma {:induction false} TokenLocal(s: string, t: string, k: nat, pos: nat, tok: string)
    requires Enclosed(s, t, k) && pos <= |s| && tok != ""
    ensures TokenAt(s, pos, tok) ==> TokenAt(t, k + pos, tok)
    ensures ')' !in tok && TokenAt(t, k + pos, tok) ==> TokenAt(s, pos, tok)
  {
    PastTheEnd(s, t, k, pos, tok);
    if pos + |tok| <= |s| {
      SliceLocal(s, t, k, pos, pos + |tok|);
      if pos + |tok| < |s| { assert t[k + (pos + |tok|)] == s[pos + |tok|]; }
    }
  }

  predicate NoParenthesis(toks: seq<string>) {
    forall i :: 0 <= i < |toks| ==> ')' !in toks[i]
  }

  predicate Plain(lex: Spellings) {
    NoParenthesis(lex.ors) && NoParenthesis(lex.ands) && NoParenthesis(lex.nots)
  }

  function Shifted(r: Option<nat>, k: nat): Option<nat> {
    match r case None => None case Some(p) => Some(k + p)
  }

  lemma {:induction false} ConsumeLocal(s: string, t: string, k: nat, pos: nat, toks: seq<string>)
    requires Enclosed(s, t, k) && pos <= |s|
    requires Tokens(toks) && NoParenthesis(toks)
    ensures ConsumeAny(t, k + pos, toks) == Shifted(ConsumeAny(s, pos, toks), k)
  {
    if toks != [] {
      SkipLocal(s, t, k, pos);
      TokenLocal(s, t, k, SkipWs(s, pos), toks[0]);
      ConsumeLocal(s, t, k, pos, toks[1..]);
    }
  }

  lemma {:induction false} CloseLocal(s: string, t: string, k: nat, pos: nat)
    requires Enclosed(s, t, k) && pos <= |s| && ConsumeAny(s, pos, [")"]).Some?
    ensures ConsumeAny(t, k + pos, [")"]) == Shifted(ConsumeAny(s, pos, [")"]), k)
  {
    SkipLocal(s, t, k, pos);
    TokenLocal(s, t, k, SkipWs(s, pos), ")");
    assert [")"][1..] == [];
  }

  function ShiftedParse(r: Parse, k: nat): Parse {
    match r case None => None case Some((n, p)) => Some((n, k + p))
  }

  // One unfolding of each grammar function, in the branch its first token selects.

  lemma {:induction false} OrStep(lex: Spellings, s: string, left: Node, pos: nat, p: nat, right: Node, q: nat)
    requires pos <= |s| && ConsumeAny(s, pos, lex.ors) == Some(p) && ParseAnd(lex, s, p) == Some((right, q))
    ensures OrTail(lex, s, left, pos) == OrTail(lex, s, Or(left, right), q)
  {
    hide ConsumeAny, SkipWs, TagEnd;
  }

  lemma {:induction false} AndStep(lex: Spellings, s: string, left: Node, pos: nat, p: nat, right: Node, q: nat)
    requires pos <= |s| && ConsumeAny(s, pos, lex.ands) == Some(p) && ParseUnary(lex, s, p) == Some((right, q))
    ensures AndTail(lex, s, left, pos) == AndTail(lex, s, And(left, right), q)
  {
    hide ConsumeAny, SkipWs, TagEnd;
  }

  lemma {:induction false} NotStep(lex: Spellings, s: string, pos: nat, p: nat)
    requires pos <= |s| && ConsumeAny(s, pos, lex.nots) == Some(p)
    ensures ParseUnary(lex, s, pos).Some? <==> ParseUnary(lex, s, p).Some?
    ensures ParseUnary(lex, s, p).Some? ==>
              ParseUnary(lex, s, pos) == Some((Not(ParseUnary(lex, s, p).value.0), ParseUnary(lex, s, p).value.1))
  {
    hide ConsumeAny, SkipWs, TagEnd;
  }

  lemma {:induction false} GroupStep(lex: Spellings, s: string, pos: nat, p: nat, n: Node, q: nat)
    requires pos <= |s| && ConsumeAny(s, pos, lex.nots).None? && ConsumeAny(s, pos, ["("]) == Some(p)
    requires ParseOr(lex, s, p) == Some((n, q))
    ensures ParseUnary(lex, s, pos) ==
            match ConsumeAny(s, q, [")"]) case None => None case Some(e) => Some((n, e))
  {
    hide ConsumeAny, SkipWs, TagEnd;
  }

  lemma {:induction false} GroupFails(lex: Spellings, s: string, pos: nat, p: nat)
    requires pos <= |s| && ConsumeAny(s, pos, lex.nots).None? && ConsumeAny(s, pos, ["("]) == Some(p)
    ensures ParseUnary(lex, s, pos).Some? ==> ParseOr(lex, s, p).Some?
  {
    hide ConsumeAny, SkipWs, TagEnd;
  }

  lemma {:induction false} TagStep(lex: Spellings, s: string, pos: nat)
    requires pos <= |s| && ConsumeAny(s, pos, lex.nots).None? && ConsumeAny(s, pos, ["("]).None?
    ensures var start := SkipWs(s, pos); var stop := TagEnd(s, start);
            ParseUnary(lex, s, pos) == if stop == start then None else Some((Tag(s[start..stop]), stop))
  {
    hide ConsumeAny, SkipWs, TagEnd;
  }

  lemma {:induction false} OrLocal(lex: Spellings, s: string, t: string, k: nat, pos: nat)
    requires Plain(lex) && Enclosed(s, t, k) && pos <= |s| && ParseOr(lex, s, pos).Some?
    ensures ParseOr(lex, t, k + pos) == ShiftedParse(ParseOr(lex, s, pos), k)
    decreases |s| - pos, 5
  {
    hide ConsumeAny, SkipWs, TagEnd;
    AndLocal(lex, s, t, k, pos);
    var (left, p) := ParseAnd(lex, s, pos).value;
    OrTailLocal(lex, s, t, k, left, p);
  }

  lemma {:induction false} OrTailLocal(lex: Spellings, s: string, t: string, k: nat, left: Node, pos: nat)
    requires Plain(lex) && Enclosed(s, t, k) && pos <= |s| && OrTail(lex, s, left, pos).Some?
    ensures OrTail(lex, t, left, k + pos) == ShiftedParse(OrTail(lex, s, left, pos), k)
    decreases |s| - pos, 4
  {
    hide ConsumeAny, SkipWs, TagEnd;
    ConsumeLocal(s, t, k, pos, lex.ors);
    match ConsumeAny(s, pos, lex.ors) {
      case None => SkipLocal(s, t, k, pos);
      case Some(p) => OrMoreLocal(lex, s, t, k, left, pos, p);
    }
  }

  lemma {:induction false} OrMoreLocal(lex: Spellings, s: string, t: string, k: nat, left: Node, pos: nat, p: nat)
    requires Plain(lex) && Enclosed(s, t, k) && pos <= |s| && OrTail(lex, s, left, pos).Some?
    requires ConsumeAny(s, pos, lex.ors) == Some(p) && ConsumeAny(t, k + pos, lex.ors) == Some(k + p)
    ensures OrTail(lex, t, left, k + pos) == ShiftedParse(OrTail(lex, s, left, pos), k)
    decreases |s| - pos, 3
  {
    hide ConsumeAny, SkipWs, TagEnd;
    AndLocal(lex, s, t, k, p);
    var (right, q) := ParseAnd(lex, s, p).value;
    OrStep(lex, s, left, pos, p, right, q);
    OrTailLocal(lex, s, t, k, Or(left, right), q);
    OrStep(lex, t, left, k + pos, k + p, right, k + q);
  }

  lemma {:induction false} AndLocal(lex: Spellings, s: string, t: string, k: nat, pos: nat)
    requires Plain(lex) && Enclosed(s, t, k) && pos <= |s| && ParseAnd(lex, s, pos).Some?
    ensures ParseAnd(lex, t, k + pos) == ShiftedParse(ParseAnd(lex, s, pos), k)
    decreases |s| - pos, 2
  {
    hide ConsumeAny, SkipWs, TagEnd;
    UnaryLocal(lex, s, t, k, pos);
    var (left, p) := ParseUnary(lex, s, pos).value;
    AndTailLocal(lex, s, t, k, left, p);
  }

  lemma {:induction false} AndTailLocal(lex: Spellings, s: string, t: string, k: nat, left: Node, pos: nat)
    requires Plain(lex) && Enclosed(s, t, k) && pos <= |s| && AndTail(lex, s, left, pos).Some?
    ensures AndTail(lex, t, left, k + pos) == ShiftedParse(AndTail(lex, s, left, pos), k)
    decreases |s| - pos, 1
  {
    hide ConsumeAny, SkipWs, TagEnd;
    ConsumeLocal(s, t, k, pos, lex.ands);
    match ConsumeAny(s, pos, lex.ands) {
      case None => SkipLocal(s, t, k, pos);
      case Some(p) => AndMoreLocal(lex, s, t, k, left, pos, p);
    }
  }

  lemma {:induction false} AndMoreLocal(lex: Spellings, s: string, t: string, k: nat, left: Node, pos: nat, p: nat)
    requires Plain(lex) && Enclosed(s, t, k) && pos <= |s| && AndTail(lex, s, left, pos).Some?
    requires ConsumeAny(s, pos, lex.ands) == Some(p) && ConsumeAny(t, k + pos, lex.ands) == Some(k + p)
    ensures AndTail(lex, t, left, k + pos) == ShiftedParse(AndTail(lex, s, left, pos), k)
    decreases |s| - pos, 0
  {
    hide ConsumeAny, SkipWs, TagEnd;
    UnaryLocal(lex, s, t, k, p);
    var (right, q) := ParseUnary(lex, s, p).value;
    AndStep(lex, s, left, pos, p, right, q);
    AndTailLocal(lex, s, t, k, And(left, right), q);
    AndStep(lex, t, left, k + pos, k + p, right, k + q);
  }

  lemma {:induction false} UnaryLocal(lex: Spellings, s: string, t: string, k: nat, pos: nat)
    requires Plain(lex) && Enclosed(s, t, k) && pos <= |s| && ParseUnary(lex, s, pos).Some?
    ensures ParseUnary(lex, t, k + pos) == ShiftedParse(ParseUnary(lex, s, pos), k)
    decreases |s| - pos, 1
  {
    hide ConsumeAny, SkipWs, TagEnd;
    ConsumeLocal(s, t, k, pos, lex.nots);
    ConsumeLocal(s, t, k, pos, ["("]);
    if ConsumeAny(s, pos, lex.nots).Some? {
      NotLocal(lex, s, t, k, pos, ConsumeAny(s, pos, lex.nots).value);
    } else if ConsumeAny(s, pos, ["("]).Some? {
      GroupLocal(lex, s, t, k, pos, ConsumeAny(s, pos, ["("]).value);
    } else {
      TagLocal(lex, s, t, k, pos);
    }
  }

  lemma {:induction false} SliceLocal(s: string, t: string, k: nat, from: nat, to: nat)
    requires Enclosed(s, t, k) && from <= to <= |s|
    ensures t[k + from..k + to] == s[from..to]
  {
    forall i | 0 <= i < to - from ensures t[k + from..k + to][i] == s[from..to][i] {
      assert t[k + (from + i)] == s[from + i];
    }
  }

  lemma {:induction false} TagLocal(lex: Spellings, s: string, t: string, k: nat, pos: nat)
    requires Enclosed(s, t, k) && pos <= |s|
    requires ConsumeAny(s, pos, lex.nots).None? && ConsumeAny(t, k + pos, lex.nots).None?
    requires ConsumeAny(s, pos, ["("]).None? && ConsumeAny(t, k + pos, ["("]).None?
    ensures ParseUnary(lex, t, k + pos) == ShiftedParse(ParseUnary(lex, s, pos), k)
  {
    hide ConsumeAny, SkipWs, TagEnd;
    SkipLocal(s, t, k, pos);
    var start := SkipWs(s, pos);
    TagEndLocal(s, t, k, start);
    SliceLocal(s, t, k, start, TagEnd(s, start));
    TagStep(lex, s, pos);
    TagStep(lex, t, k + pos);
  }

  lemma {:induction false} NotLocal(lex: Spellings, s: string, t: string, k: nat, pos: nat, p: nat)
    requires Plain(lex) && Enclosed(s, t, k) && pos <= |s| && ParseUnary(lex, s, pos).Some?
    requires ConsumeAny(s, pos, lex.nots) == Some(p) && ConsumeAny(t, k + pos, lex.nots) == Some(k + p)
    ensures ParseUnary(lex, t, k + pos) == ShiftedParse(ParseUnary(lex, s, pos), k)
    decreases |s| - pos, 0
  {
    hide ConsumeAny, SkipWs, TagEnd;
    NotStep(lex, s, pos, p);
    NotStep(lex, t, k + pos, k + p);
    UnaryLocal(lex, s, t, k, p);
  }

  lemma {:induction false} GroupLocal(lex: Spellings, s: string, t: string, k: nat, pos: nat, p: nat)
    requires Plain(lex) && Enclosed(s, t, k) && pos <= |s| && ParseUnary(lex, s, pos).Some?
    requires ConsumeAny(s, pos, lex.nots).None? && ConsumeAny(t, k + pos, lex.nots).None?
    requires ConsumeAny(s, pos, ["("]) == Some(p) && ConsumeAny(t, k + pos, ["("]) == Some(k + p)
    ensures ParseUnary(lex, t, k + pos) == ShiftedParse(ParseUnary(lex, s, pos), k)
    decreases |s| - pos, 0
  {
    hide ConsumeAny, SkipWs, TagEnd;
    GroupFails(lex, s, pos, p);
    OrLocal(lex, s, t, k, p);
    var (n, q) := ParseOr(lex, s, p).value;
    GroupStep(lex, s, pos, p, n, q);
    GroupStep(lex, t, k + pos, k + p, n, k + q);
    CloseLocal(s, t, k, q);
  }

  // ---------------------------------------------------------------- joining filters

  function NonBlank(expressions: seq<string>): (r: seq<string>)
    ensures forall i :: 0 <= i < |r| ==> r[i] != "" && Trimmed(r[i])
  {
    if expressions == [] then []
    else
      var last := |expressions| - 1;
      var t := Trim(expressions[last]);
      NonBlank(expressions[..last]) + if t == "" then [] else [t]
  }

  function JoinText(ts: seq<string>): string {
    if ts == [] then ""
    else JoinText(ts[..|ts| - 1]) + (if |ts| == 1 then "" else " & ") + "(" + ts[|ts| - 1] + ")"
  }

  lemma {:induction false} JoinedIsJoinText(es: seq<string>)
    ensures Joined(es) == JoinText(NonBlank(es))
    ensures (Joined(es) == "") == (NonBlank(es) == [])
  {
    if es != [] {
      var before := es[..|es| - 1];
      JoinedIsJoinText(before);
      var t := Trim(es[|es| - 1]);
      var ts := NonBlank(es);
      if t == "" {
        assert ts == NonBlank(before);
      } else {
        assert ts == NonBlank(before) + [t];
        assert ts[..|ts| - 1] == NonBlank(before) && ts[|ts| - 1] == t;
      }
    }
  }

  lemma {:induction false} JoinPrefix(ts: seq<string>, i: nat)
    requires i <= |ts|
    ensures JoinText(ts[..i]) <= JoinText(ts)
  {
    if i == |ts| {
      assert ts[..i] == ts;
    } else {
      var init := ts[..|ts| - 1];
      assert init[..i] == ts[..i];
      JoinPrefix(init, i);
    }
  }

  /** The i-th text stands, parenthesised, behind the joined text of those before it. */
  lemma {:induction false} Placed(ts: seq<string>, i: nat)
    requires i < |ts|
    ensures var j := JoinText(ts);
            var p := |JoinText(ts[..i])|;
            var k := p + (if i == 0 then 1 else 4);
            && k < |j| && j[k - 1] == '('
            && (i > 0 ==> j[p] == ' ' && j[p + 1] == '&' && j[p + 2] == ' ')
            && Enclosed(ts[i], j, k)
            && |JoinText(ts[..i + 1])| == k + |ts[i]| + 1
  {
    JoinPrefix(ts, i + 1);
    var upto := ts[..i + 1];
    assert upto[..|upto| - 1] == ts[..i] && upto[|upto| - 1] == ts[i];
    var x := JoinText(ts[..i]) + if i == 0 then "" else " & ";
    assert JoinText(upto) == x + "(" + ts[i] + ")";
    EnclosedIn(x, ts[i], JoinText(ts));
    if i > 0 { assert x <= JoinText(ts); }
  }

  lemma {:induction false} EnclosedIn(x: string, e: string, j: string)
    requires x + "(" + e + ")" <= j
    ensures Enclosed(e, j, |x| + 1) && j[|x|] == '('
  {
    var y := x + "(" + e + ")";
    assert forall i :: 0 <= i < |y| ==> j[i] == y[i];
  }

  predicate Valid(e: string) {
    !ParseFilter(e).invalid
  }

  /** `e` is a trimmed text that parses on its own, to `n`. */
  ghost predicate ParsesTo(lex: Spellings, e: string, n: Node) {
    && e != "" && Trimmed(e)
    && ParseOr(lex, e, 0).Some?
    && ParseOr(lex, e, 0).value.0 == n
    && SkipWs(e, ParseOr(lex, e, 0).value.1) == |e|
  }

  ghost predicate AllParse(lex: Spellings, ts: seq<string>, ns: seq<Node>) {
    |ts| == |ns| && forall i :: 0 <= i < |ts| ==> ParsesTo(lex, ts[i], ns[i])
  }

  /** What joining relies on: no operator contains ")" or begins with "(", and "&" is one. */
  predicate Usual(lex: Spellings) {
    && Plain(lex)
    && (forall i :: 0 <= i < |lex.nots| ==> lex.nots[i][0] != '(')
    && |lex.ands| > 1 && lex.ands[0] == "&&" && lex.ands[1] == "&"
  }

  lemma {:induction false} LexiconUsual()
    ensures Usual(LEXICON)
  {
  }

  function Conjunction(ns: seq<Node>): Node
    requires ns != []
  {
    var last := |ns| - 1;
    if last == 0 then ns[0] else And(Conjunction(ns[..last]), ns[last])
  }

  lemma {:induction false} ConjunctionEval(ns: seq<Node>, tags: seq<string>)
    requires ns != []
    ensures Conjunction(ns).Eval(tags) <==> forall i :: 0 <= i < |ns| ==> ns[i].Eval(tags)
  {
    var last := |ns| - 1;
    if last > 0 {
      var init := ns[..last];
      ConjunctionEval(init, tags);
      assert forall i :: 0 <= i < last ==> init[i] == ns[i];
    }
  }

  /** No token of `toks` begins with the first visible character. */
  lemma {:induction false} NoneAt(s: string, pos: nat, toks: seq<string>)
    requires pos <= |s| && Tokens(toks)
    requires var p := SkipWs(s, pos);
             p == |s| || forall i :: 0 <= i < |toks| ==> toks[i][0] != s[p]
    ensures ConsumeAny(s, pos, toks).None?
  {
    if toks != [] {
      NoneAt(s, pos, toks[1..]);
    }
  }

  lemma {:induction false} SingleAt(s: string, pos: nat, c: char)
    requires pos <= |s| && SkipWs(s, pos) < |s| && s[SkipWs(s, pos)] == c && !IsAlpha(c)
    ensures ConsumeAny(s, pos, [[c]]) == Some(SkipWs(s, pos) + 1)
  {
    var p := SkipWs(s, pos);
    assert s[p..p + 1] == [c];
    assert TokenAt(s, p, [c]);
  }

  lemma {:induction false} AmpersandAt(lex: Spellings, j: string, p: nat)
    requires Usual(lex) && p + 3 < |j| && j[p] == ' ' && j[p + 1] == '&' && j[p + 2] == ' '
    ensures ConsumeAny(j, p, lex.ands) == Some(p + 2)
  {
    assert SkipWs(j, p) == p + 1;
    assert j[p + 1..p + 3][1] == ' ';
    assert j[p + 1..p + 2] == "&";
    var rest := lex.ands[1..];
    assert rest[0] == "&" && TokenAt(j, p + 1, "&");
    assert ConsumeAny(j, p, rest) == Some(p + 2);
  }

  /** A parenthesised valid text is read as one operand, with the tree it has on its own. */
  lemma {:induction false} UnitParse(lex: Spellings, j: string, q: nat, k: nat, e: string, n: Node)
    requires Usual(lex) && ParsesTo(lex, e, n)
    requires Enclosed(e, j, k) && k >= 1 && j[k - 1] == '(' && q <= k - 1 && SkipWs(j, q) == k - 1
    ensures ParseUnary(lex, j, q) == Some((n, k + |e| + 1))
  {
    hide ConsumeAny, SkipWs, TagEnd;
    NoneAt(j, q, lex.nots);
    SingleAt(j, q, '(');
    var p := InnerParse(lex, j, k, e, n);
    GroupStep(lex, j, q, k, n, p);
  }

  lemma {:induction false} InnerParse(lex: Spellings, j: string, k: nat, e: string, n: Node) returns (p: nat)
    requires Usual(lex) && ParsesTo(lex, e, n) && Enclosed(e, j, k)
    ensures p <= |j| && ParseOr(lex, j, k) == Some((n, p))
    ensures ConsumeAny(j, p, [")"]) == Some(k + |e| + 1)
  {
    hide ConsumeAny, SkipWs, TagEnd;
    var p0 := ParseOr(lex, e, 0).value.1;
    p := k + p0;
    OrLocal(lex, e, j, k, 0);
    SkipLocal(e, j, k, p0);
    SingleAt(j, p, ')');
  }

  /** " & (e)" stands between `p` and `q`. */
  ghost predicate Operand(j: string, p: nat, e: string, q: nat) {
    && p + 4 <= |j| && j[p] == ' ' && j[p + 1] == '&' && j[p + 2] == ' ' && j[p + 3] == '('
    && Enclosed(e, j, p + 4) && q == p + |e| + 5
  }

  ghost predicate Layout(ts: seq<string>, j: string, ps: seq<nat>) {
    |ps| == |ts| + 1 && ps[|ts|] == |j| && forall i :: 1 <= i < |ts| ==> Operand(j, ps[i], ts[i], ps[i + 1])
  }

  lemma {:induction false} JoinLayout(ts: seq<string>) returns (ps: seq<nat>)
    requires ts != []
    ensures Layout(ts, JoinText(ts), ps) && ps[1] == |ts[0]| + 2
  {
    ps := seq(|ts| + 1, i requires 0 <= i <= |ts| => |JoinText(ts[..i])|);
    assert ts[..|ts|] == ts && ts[..0] == [];
    Placed(ts, 0);
    forall i | 1 <= i < |ts| ensures Operand(JoinText(ts), ps[i], ts[i], ps[i + 1]) {
      Placed(ts, i);
    }
  }

  lemma {:induction false} AndRest(lex: Spellings, ts: seq<string>, ns: seq<Node>, j: string, ps: seq<nat>, i: nat, left: Node)
    requires Usual(lex) && AllParse(lex, ts, ns) && Layout(ts, j, ps) && 1 <= i <= |ts|
    requires left == Conjunction(ns[..i])
    ensures ps[i] <= |j| && AndTail(lex, j, left, ps[i]) == Some((Conjunction(ns), |j|))
    decreases |ts| - i
  {
    hide ConsumeAny, SkipWs, TagEnd;
    if i == |ts| {
      assert ns[..i] == ns;
      NoneAt(j, |j|, lex.ands);
    } else {
      assert Operand(j, ps[i], ts[i], ps[i + 1]);
      AndNext(lex, j, ps[i], ts[i], ns[i], left);
      ConjunctionNext(ns, i);
      AndRest(lex, ts, ns, j, ps, i + 1, And(left, ns[i]));
    }
  }

  lemma {:induction false} ConjunctionNext(ns: seq<Node>, i: nat)
    requires 1 <= i < |ns|
    ensures Conjunction(ns[..i + 1]) == And(Conjunction(ns[..i]), ns[i])
  {
    var upto := ns[..i + 1];
    assert upto[..i] == ns[..i] && upto[i] == ns[i];
  }

  lemma {:induction false} AndNext(lex: Spellings, j: string, p: nat, e: string, n: Node, left: Node)
    requires Usual(lex) && ParsesTo(lex, e, n)
    requires p + 4 <= |j| && j[p] == ' ' && j[p + 1] == '&' && j[p + 2] == ' ' && j[p + 3] == '('
    requires Enclosed(e, j, p + 4)
    ensures AndTail(lex, j, left, p) == AndTail(lex, j, And(left, n), p + |e| + 5)
  {
    hide ConsumeAny, TagEnd;
    AmpersandAt(lex, j, p);
    UnitParse(lex, j, p + 2, p + 4, e, n);
    AndStep(lex, j, left, p, p + 2, n, p + |e| + 5);
  }

  lemma {:induction false} JoinEnds(ts: seq<string>)
    requires ts != []
    ensures Enclosed(ts[0], JoinText(ts), 1) && JoinText(ts)[0] == '('
    ensures JoinText(ts) != "" && Trimmed(JoinText(ts))
  {
    Placed(ts, 0);
    assert ts[..0] == [];
    Placed(ts, |ts| - 1);
    assert ts[..|ts|] == ts;
  }

  lemma {:induction false} JoinedParses(lex: Spellings, ts: seq<string>, ns: seq<Node>)
    requires Usual(lex) && ts != [] && AllParse(lex, ts, ns)
    ensures ParseOr(lex, JoinText(ts), 0) == Some((Conjunction(ns), |JoinText(ts)|))
  {
    var ps := JoinLayout(ts);
    JoinEnds(ts);
    LaidOutParses(lex, ts, ns, JoinText(ts), ps);
  }

  lemma {:induction false} LaidOutParses(lex: Spellings, ts: seq<string>, ns: seq<Node>, j: string, ps: seq<nat>)
    requires Usual(lex) && ts != [] && AllParse(lex, ts, ns) && Layout(ts, j, ps)
    requires Enclosed(ts[0], j, 1) && j[0] == '(' && ps[1] == |ts[0]| + 2
    ensures ParseOr(lex, j, 0) == Some((Conjunction(ns), |j|))
  {
    LaidOutAnd(lex, ts, ns, j, ps);
    NoneAt(j, |j|, lex.ors);
    OrFirst(lex, j, Conjunction(ns));
  }

  lemma {:induction false} LaidOutAnd(lex: Spellings, ts: seq<string>, ns: seq<Node>, j: string, ps: seq<nat>)
    requires Usual(lex) && ts != [] && AllParse(lex, ts, ns) && Layout(ts, j, ps)
    requires Enclosed(ts[0], j, 1) && j[0] == '(' && ps[1] == |ts[0]| + 2
    ensures ParseAnd(lex, j, 0) == Some((Conjunction(ns), |j|))
  {
    assert ns[..1] == [ns[0]];
    UnitParse(lex, j, 0, 1, ts[0], ns[0]);
    AndRest(lex, ts, ns, j, ps, 1, ns[0]);
    AndFirst(lex, j, ns[0], ps[1], Conjunction(ns));
  }

  lemma {:induction false} AndFirst(lex: Spellings, j: string, n: Node, p: nat, all: Node)
    requires p <= |j| && ParseUnary(lex, j, 0) == Some((n, p)) && AndTail(lex, j, n, p) == Some((all, |j|))
    ensures ParseAnd(lex, j, 0) == Some((all, |j|))
  {
  }

  lemma {:induction false} OrFirst(lex: Spellings, j: string, all: Node)
    requires ParseAnd(lex, j, 0) == Some((all, |j|)) && ConsumeAny(j, |j|, lex.ors).None?
    ensures ParseOr(lex, j, 0) == Some((all, |j|))
  {
  }

  ghost predicate EveryEval(ns: seq<Node>, tags: seq<string>) {
    forall i :: 0 <= i < |ns| ==> ns[i].Eval(tags)
  }

  ghost predicate EveryMatches(es: seq<string>, tags: seq<string>) {
    forall i :: 0 <= i < |es| ==> ParseFilter(es[i]).Matches(tags)
  }

  lemma {:induction false} EveryEvalLast(ns: seq<Node>, n: Node, tags: seq<string>)
    ensures EveryEval(ns + [n], tags) <==> EveryEval(ns, tags) && n.Eval(tags)
  {
    assert forall i :: 0 <= i < |ns| ==> ns[i] == (ns + [n])[i];
    assert (ns + [n])[|ns|] == n;
  }

  lemma {:induction false} EveryMatchesLast(es: seq<string>, tags: seq<string>)
    requires es != []
    ensures var last := |es| - 1;
            EveryMatches(es, tags) <==> EveryMatches(es[..last], tags) && ParseFilter(es[last]).Matches(tags)
  {
    var last := |es| - 1;
    assert forall i :: 0 <= i < last ==> es[..last][i] == es[i];
  }

  lemma {:induction false} NonBlankTrees(es: seq<string>, tags: seq<string>) returns (ns: seq<Node>)
    requires forall i :: 0 <= i < |es| ==> Valid(es[i])
    ensures AllParse(LEXICON, NonBlank(es), ns)
    ensures EveryMatches(es, tags) <==> EveryEval(ns, tags)
  {
    if es == [] {
      ns := [];
    } else {
      var last := |es| - 1;
      var before := NonBlankTrees(es[..last], tags);
      EveryMatchesLast(es, tags);
      ns := before;
      if Trim(es[last]) != "" {
        var n := SameTrimmed(es[last]);
        ns := before + [n];
        EveryEvalLast(before, n, tags);
      }
    }
  }

  lemma {:induction false} SameTrimmed(e: string) returns (n: Node)
    requires Valid(e) && Trim(e) != ""
    ensures ParseFilter(e).root == Some(n) && ParsesTo(LEXICON, Trim(e), n)
  {
    n := ParseFilter(e).root.value;
  }

  lemma {:induction false} FilterOf(e: string, n: Node, p: nat)
    requires e != "" && Trimmed(e) && ParseOr(LEXICON, e, 0) == Some((n, p))
    ensures ParseFilter(e) == if SkipWs(e, p) >= |e| then Filter(Some(n), false) else Filter(None, true)
  {
    TrimOfTrimmed(e);
  }

  lemma {:induction false} JoinedFilter(ts: seq<string>, ns: seq<Node>)
    requires AllParse(LEXICON, ts, ns)
    ensures ParseFilter(JoinText(ts)) == Filter(if ts == [] then None else Some(Conjunction(ns)), false)
  {
    if ts == [] {
      assert Trim("") == "";
    } else {
      LexiconUsual();
      JoinedParses(LEXICON, ts, ns);
      JoinEnds(ts);
      FilterOf(JoinText(ts), Conjunction(ns), |JoinText(ts)|);
    }
  }

  /** Filters that parse one by one parse when joined, and the joined filter is their conjunction. */
  lemma {:induction false} AllIsConjunction(es: seq<string>, tags: seq<string>)
    requires forall i :: 0 <= i < |es| ==> Valid(es[i])
    ensures Valid(Joined(es))
    ensures ParseFilter(Joined(es)).Matches(tags) <==> EveryMatches(es, tags)
  {
    var ns := NonBlankTrees(es, tags);
    JoinedText(es);
    JoinedFilter(NonBlank(es), ns);
    if ns != [] { ConjunctionEval(ns, tags); }
  }

  lemma {:induction false} JoinedText(es: seq<string>)
    ensures ParseFilter(Joined(es)) == ParseFilter(JoinText(NonBlank(es)))
  {
    JoinedIsJoinText(es);
  }

  // ---------------------------------------------------------------- the converse fails

  /** A tag that a closing parenthesis follows. */
  lemma {:induction false} TagThenParen(lex: Spellings, s: string, pos: nat)
    requires pos + 1 < |s| && (s[pos] == 'a' || s[pos] == 'b') && s[pos + 1] == ')'
    requires Plain(lex) && forall i :: 0 <= i < |lex.nots| ==> lex.nots[i][0] != s[pos]
    ensures ParseOr(lex, s, pos) == Some((Tag([s[pos]]), pos + 1))
  {
    assert SkipWs(s, pos) == pos && TagEnd(s, pos) == pos + 1;
    assert s[pos..pos + 1] == [s[pos]];
    NoneAt(s, pos, lex.nots);
    NoneAt(s, pos, ["("]);
    TagStep(lex, s, pos);
    NoneAt(s, pos + 1, lex.ands);
    NoneAt(s, pos + 1, lex.ors);
    assert ParseAnd(lex, s, pos) == Some((Tag([s[pos]]), pos + 1));
  }

  lemma {:induction false} GroupOf(lex: Spellings, s: string, pos: nat)
    requires pos + 2 < |s| && s[pos] == '(' && (s[pos + 1] == 'a' || s[pos + 1] == 'b') && s[pos + 2] == ')'
    requires Usual(lex) && forall i :: 0 <= i < |lex.nots| ==> lex.nots[i][0] != s[pos + 1]
    ensures ParseUnary(lex, s, pos) == Some((Tag([s[pos + 1]]), pos + 3))
  {
    NoneAt(s, pos, lex.nots);
    SingleAt(s, pos, '(');
    TagThenParen(lex, s, pos + 1);
    GroupStep(lex, s, pos, pos + 1, Tag([s[pos + 1]]), pos + 2);
    SingleAt(s, pos + 2, ')');
  }

  lemma {:induction false} OrOfTwo(lex: Spellings, j: string, a: Node, p: nat, q: nat, b: Node)
    requires p <= q <= |j| && ParseUnary(lex, j, 0) == Some((a, p)) && ParseUnary(lex, j, q) == Some((b, |j|))
    requires ConsumeAny(j, p, lex.ands).None? && ConsumeAny(j, |j|, lex.ands).None?
    requires ConsumeAny(j, p, lex.ors) == Some(q) && ConsumeAny(j, |j|, lex.ors).None?
    requires SkipWs(j, p) == p
    ensures ParseOr(lex, j, 0) == Some((Or(a, b), |j|))
  {
    assert ParseAnd(lex, j, 0) == Some((a, p));
    assert ParseAnd(lex, j, q) == Some((b, |j|));
    OrStep(lex, j, a, p, q, b, |j|);
  }

  lemma {:induction false} UnbalancedAlone(lex: Spellings, e: string)
    requires e == "a)|(b" && Plain(lex) && forall i :: 0 <= i < |lex.nots| ==> lex.nots[i][0] != 'a'
    ensures ParseOr(lex, e, 0) == Some((Tag("a"), 1)) && SkipWs(e, 1) == 1
  {
    TagThenParen(lex, e, 0);
  }

  lemma {:induction false} UnbalancedJoined(lex: Spellings, j: string)
    requires j == "(a)|(b)" && Usual(lex)
    requires forall i :: 0 <= i < |lex.nots| ==> lex.nots[i][0] != 'a' && lex.nots[i][0] != 'b'
    requires forall i :: 0 <= i < |lex.ands| ==> lex.ands[i][0] != '|'
    requires |lex.ors| > 1 && lex.ors[0] == "||" && lex.ors[1] == "|"
    ensures ParseOr(lex, j, 0) == Some((Or(Tag("a"), Tag("b")), 7))
  {
    GroupOf(lex, j, 0);
    GroupOf(lex, j, 4);
    NoneAt(j, 3, lex.ands);
    NoneAt(j, 7, lex.ands);
    NoneAt(j, 7, lex.ors);
    BarAt(j, 3, lex.ors);
    OrOfTwo(lex, j, Tag("a"), 3, 4, Tag("b"));
  }

  lemma {:induction false} BarAt(j: string, p: nat, ors: seq<string>)
    requires p + 1 < |j| && j[p] == '|' && j[p + 1] == '('
    requires Tokens(ors) && |ors| > 1 && ors[0] == "||" && ors[1] == "|"
    ensures ConsumeAny(j, p, ors) == Some(p + 1)
  {
    assert SkipWs(j, p) == p;
    if p + 2 <= |j| { assert j[p..p + 2][1] == '('; }
    assert j[p..p + 1] == "|";
    var rest := ors[1..];
    assert rest[0] == "|" && TokenAt(j, p, "|");
    assert ConsumeAny(j, p, rest) == Some(p + 1);
  }

  lemma {:induction false} JoinedOne(e: string)
    requires e != "" && Trimmed(e)
    ensures Joined([e]) == "(" + e + ")"
  {
    TrimOfTrimmed(e);
    assert [e][..0] == [];
  }

  lemma {:induction false} RejectedAlone(e: string)
    requires e == "a)|(b"
    ensures !Valid(e)
  {
    UnbalancedAlone(LEXICON, e);
    FilterOf(e, Tag("a"), 1);
  }

  lemma {:induction false} AcceptedJoined(j: string)
    requires j == "(a)|(b)"
    ensures Valid(j)
  {
    LexiconUsual();
    UnbalancedJoined(LEXICON, j);
    FilterOf(j, Or(Tag("a"), Tag("b")), 7);
  }

  /** `all` accepts "a)|(b", which is rejected on its own. */
  lemma {:induction false} JoiningAcceptsUnbalanced(e: string)
    requires e == "a)|(b"
    ensures !Valid(e)
    ensures Valid(Joined([e]))
  {
    RejectedAlone(e);
    JoinedOne(e);
    AcceptedJoined(Joined([e]));
  }
}
