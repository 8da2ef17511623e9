/** When joining filters as text (src/engine/tag_filter.h) accepts no more than parsing each one
    alone: exactly if the parentheses of every filter are balanced. */
module TagBalance {
  import opened Text
  import opened TagFilter

  /** How many of the parentheses opened between `a` and `b` are still open. */
  function Depth(s: string, a: nat, b: nat): int
    requires a <= b <= |s|
    decreases b - a
  {
    if a == b then 0
    else Depth(s, a, b - 1) + (if s[b - 1] == '(' then 1 else if s[b - 1] == ')' then -1 else 0)
  }

  /** Between `from` and `to` every parenthesis is matched by another one in between. */
  predicate Span(s: string, from: nat, to: nat) {
    && from <= to <= |s|
    && (forall m :: from <= m <= to ==> Depth(s, from, m) >= 0)
    && Depth(s, from, to) == 0
  }

  predicate Balanced(e: string) {
    Span(e, 0, |e|)
  }

  lemma {:induction false} DepthSplit(s: string, a: nat, b: nat, c: nat)
    requires a <= b <= c <= |s|
    ensures Depth(s, a, c) == Depth(s, a, b) + Depth(s, b, c)
    decreases c
  {
    if b < c { DepthSplit(s, a, b, c - 1); }
  }

  lemma {:induction false} DepthLocal(s: string, t: string, k: nat, to: nat)
    requires Enclosed(s, t, k) && to <= |s|
    ensures Depth(t, k, k + to) == Depth(s, 0, to)
  {
    if to > 0 {
      DepthLocal(s, t, k, to - 1);
      assert t[k + (to - 1)] == s[to - 1];
    }
  }

  lemma {:induction false} JoinSpans(s: string, a: nat, b: nat, c: nat)
    requires Span(s, a, b) && Span(s, b, c)
    ensures Span(s, a, c)
  {
    forall m | a <= m <= c ensures Depth(s, a, m) >= 0 {
      if m > b { DepthSplit(s, a, b, m); }
    }
    DepthSplit(s, a, b, c);
  }

  lemma {:induction false} FlatSpan(s: string, a: nat, b: nat)
    requires a <= b <= |s| && forall i :: a <= i < b ==> s[i] != '(' && s[i] != ')'
    ensures Span(s, a, b)
    decreases b
  {
    if a < b { FlatSpan(s, a, b - 1); }
  }

  lemma {:induction false} GroupSpan(s: string, p: nat, q: nat)
    requires p < q < |s| && s[p] == '(' && Span(s, p + 1, q) && s[q] == ')'
    ensures Span(s, p, q + 1)
  {
    assert Depth(s, p, p + 1) == 1;
    forall m | p <= m <= q ensures Depth(s, p, m) >= if m == p then 0 else 1 {
      if m > p { DepthSplit(s, p, p + 1, m); }
    }
    DepthSplit(s, p, p + 1, q);
  }

  lemma {:induction false} SkipSpan(s: string, pos: nat)
    requires pos <= |s|
    ensures Span(s, pos, SkipWs(s, pos))
  {
    SkipsSpace(s, pos);
    FlatSpan(s, pos, SkipWs(s, pos));
  }

  lemma {:induction false} SkipsSpace(s: string, pos: nat)
    requires pos <= |s|
    ensures forall i :: pos <= i < SkipWs(s, pos) ==> IsSpace(s[i])
    decreases |s| - pos
  {
    if pos < |s| && IsSpace(s[pos]) { SkipsSpace(s, pos + 1); }
  }

  lemma {:induction false} TagSpan(s: string, pos: nat)
    requires pos <= |s|
    ensures Span(s, pos, TagEnd(s, pos))
  {
    TagsPlain(s, pos);
    FlatSpan(s, pos, TagEnd(s, pos));
  }

  lemma {:induction false} TagsPlain(s: string, pos: nat)
    requires pos <= |s|
    ensures forall i :: pos <= i < TagEnd(s, pos) ==> !Delimiter(s[i])
    decreases |s| - pos
  {
    if pos < |s| && !Delimiter(s[pos]) { TagsPlain(s, pos + 1); }
  }

  // ---------------------------------------------------------------- what is parsed is balanced

  predicate FlatTokens(toks: seq<string>) {
    forall i :: 0 <= i < |toks| ==> '(' !in toks[i] && ')' !in toks[i]
  }

  /** No operator contains a parenthesis. */
  predicate Flat(lex: Spellings) {
    FlatTokens(lex.ors) && FlatTokens(lex.ands) && FlatTokens(lex.nots)
  }

  lemma {:induction false} ConsumeSpan(s: string, pos: nat, toks: seq<string>)
    requires pos <= |s| && Tokens(toks) && FlatTokens(toks) && ConsumeAny(s, pos, toks).Some?
    ensures Span(s, pos, ConsumeAny(s, pos, toks).value)
  {
    var p := SkipWs(s, pos);
    if TokenAt(s, p, toks[0]) {
      var q := p + |toks[0]|;
      forall i | p <= i < q ensures s[i] != '(' && s[i] != ')' { assert s[i] == s[p..q][i - p] == toks[0][i - p]; }
      SkipSpan(s, pos);
      FlatSpan(s, p, q);
      JoinSpans(s, pos, p, q);
    } else {
      ConsumeSpan(s, pos, toks[1..]);
    }
  }

  lemma {:induction false} SingleSeen(s: string, pos: nat, c: char)
    requires pos <= |s| && ConsumeAny(s, pos, [[c]]).Some?
    ensures ConsumeAny(s, pos, [[c]]).value == SkipWs(s, pos) + 1
    ensures SkipWs(s, pos) < |s| && s[SkipWs(s, pos)] == c
  {
    var p := SkipWs(s, pos);
    assert [[c]][1..] == [];
    assert s[p..p + 1][0] == s[p];
  }

  lemma {:induction false} OrSpan(lex: Spellings, s: string, pos: nat)
    requires Flat(lex) && pos <= |s| && ParseOr(lex, s, pos).Some?
    ensures Span(s, pos, ParseOr(lex, s, pos).value.1)
    decreases |s| - pos, 3
  {
    hide ConsumeAny, SkipWs, TagEnd;
    AndSpan(lex, s, pos);
    var (left, p) := ParseAnd(lex, s, pos).value;
    OrTailSpan(lex, s, left, p);
    JoinSpans(s, pos, p, OrTail(lex, s, left, p).value.1);
  }

  lemma {:induction false} OrTailSpan(lex: Spellings, s: string, left: Node, pos: nat)
    requires Flat(lex) && pos <= |s| && OrTail(lex, s, left, pos).Some?
    ensures Span(s, pos, OrTail(lex, s, left, pos).value.1)
    decreases |s| - pos, 2
  {
    hide ConsumeAny, SkipWs, TagEnd;
    match ConsumeAny(s, pos, lex.ors) {
      case None => SkipSpan(s, pos);
      case Some(p) =>
        ConsumeSpan(s, pos, lex.ors);
        AndSpan(lex, s, p);
        var (right, q) := ParseAnd(lex, s, p).value;
        OrStep(lex, s, left, pos, p, right, q);
        OrTailSpan(lex, s, Or(left, right), q);
        JoinSpans(s, pos, p, q);
        JoinSpans(s, pos, q, OrTail(lex, s, Or(left, right), q).value.1);
    }
  }

  lemma {:induction false} AndSpan(lex: Spellings, s: string, pos: nat)
    requires Flat(lex) && pos <= |s| && ParseAnd(lex, s, pos).Some?
    ensures Span(s, pos, ParseAnd(lex, s, pos).value.1)
    decreases |s| - pos, 2
  {
    hide ConsumeAny, SkipWs, TagEnd;
    UnarySpan(lex, s, pos);
    var (left, p) := ParseUnary(lex, s, pos).value;
    AndTailSpan(lex, s, left, p);
    JoinSpans(s, pos, p, AndTail(lex, s, left, p).value.1);
  }

  lemma {:induction false} AndTailSpan(lex: Spellings, s: string, left: Node, pos: nat)
    requires Flat(lex) && pos <= |s| && AndTail(lex, s, left, pos).Some?
    ensures Span(s, pos, AndTail(lex, s, left, pos).value.1)
    decreases |s| - pos, 0
  {
    hide ConsumeAny, SkipWs, TagEnd;
    match ConsumeAny(s, pos, lex.ands) {
      case None => SkipSpan(s, pos);
      case Some(p) =>
        ConsumeSpan(s, pos, lex.ands);
        UnarySpan(lex, s, p);
        var (right, q) := ParseUnary(lex, s, p).value;
        AndStep(lex, s, left, pos, p, right, q);
        AndTailSpan(lex, s, And(left, right), q);
        JoinSpans(s, pos, p, q);
        JoinSpans(s, pos, q, AndTail(lex, s, And(left, right), q).value.1);
    }
  }

  lemma {:induction false} UnarySpan(lex: Spellings, s: string, pos: nat)
    requires Flat(lex) && pos <= |s| && ParseUnary(lex, s, pos).Some?
    ensures Span(s, pos, ParseUnary(lex, s, pos).value.1)
    decreases |s| - pos, 1
  {
    hide ConsumeAny, SkipWs, TagEnd;
    if ConsumeAny(s, pos, lex.nots).Some? {
      var p := ConsumeAny(s, pos, lex.nots).value;
      ConsumeSpan(s, pos, lex.nots);
      NotStep(lex, s, pos, p);
      UnarySpan(lex, s, p);
      JoinSpans(s, pos, p, ParseUnary(lex, s, p).value.1);
    } else if ConsumeAny(s, pos, ["("]).Some? {
      GroupedSpan(lex, s, pos);
    } else {
      TagStep(lex, s, pos);
      var start := SkipWs(s, pos);
      SkipSpan(s, pos);
      TagSpan(s, start);
      JoinSpans(s, pos, start, TagEnd(s, start));
    }
  }

  lemma {:induction false} GroupedSpan(lex: Spellings, s: string, pos: nat)
    requires Flat(lex) && pos <= |s| && ParseUnary(lex, s, pos).Some?
    requires ConsumeAny(s, pos, lex.nots).None? && ConsumeAny(s, pos, ["("]).Some?
    ensures Span(s, pos, ParseUnary(lex, s, pos).value.1)
    decreases |s| - pos, 0
  {
    hide ConsumeAny, SkipWs, TagEnd;
    var open := SkipWs(s, pos);
    var q := GroupParts(lex, s, pos);
    var close := SkipWs(s, q);
    OrSpan(lex, s, open + 1);
    SkipSpan(s, q);
    JoinSpans(s, open + 1, q, close);
    GroupSpan(s, open, close);
    SkipSpan(s, pos);
    JoinSpans(s, pos, open, close + 1);
  }

  /** What a parenthesised operand consists of: an expression that ends at `q`, and the ")" behind it. */
  lemma {:induction false} GroupParts(lex: Spellings, s: string, pos: nat) returns (q: nat)
    requires pos <= |s| && ParseUnary(lex, s, pos).Some?
    requires ConsumeAny(s, pos, lex.nots).None? && ConsumeAny(s, pos, ["("]).Some?
    ensures SkipWs(s, pos) < |s| && s[SkipWs(s, pos)] == '('
    ensures q <= |s| && ParseOr(lex, s, SkipWs(s, pos) + 1) == Some((ParseUnary(lex, s, pos).value.0, q))
    ensures SkipWs(s, q) < |s| && s[SkipWs(s, q)] == ')' && ParseUnary(lex, s, pos).value.1 == SkipWs(s, q) + 1
  {
    hide ConsumeAny, SkipWs, TagEnd;
    var p := SkipWs(s, pos) + 1;
    SingleSeen(s, pos, '(');
    GroupFails(lex, s, pos, p);
    var n := ParseOr(lex, s, p).value.0;
    q := ParseOr(lex, s, p).value.1;
    GroupStep(lex, s, pos, p, n, q);
    SingleSeen(s, q, ')');
  }

  // ---------------------------------------------------------------- a parse inside parentheses, alone

  lemma {:induction false} OrAlone(lex: Spellings, s: string, t: string, k: nat, pos: nat, n: Node, q: nat)
    requires Plain(lex) && Enclosed(s, t, k) && pos <= |s|
    requires ParseOr(lex, t, k + pos) == Some((n, q)) && q <= k + |s|
    ensures k <= q && ParseOr(lex, s, pos) == Some((n, q - k))
    decreases |s| - pos, 6
  {
    hide ConsumeAny, SkipWs, TagEnd;
    var (left, p) := ParseAnd(lex, t, k + pos).value;
    AndAlone(lex, s, t, k, pos, left, p);
    OrTailAlone(lex, s, t, k, left, p - k, n, q);
  }

  lemma {:induction false} OrTailAlone(lex: Spellings, s: string, t: string, k: nat, left: Node, pos: nat, n: Node, q: nat)
    requires Plain(lex) && Enclosed(s, t, k) && pos <= |s|
    requires OrTail(lex, t, left, k + pos) == Some((n, q)) && q <= k + |s|
    ensures k <= q && OrTail(lex, s, left, pos) == Some((n, q - k))
    decreases |s| - pos, 5
  {
    hide ConsumeAny, SkipWs, TagEnd;
    ConsumeLocal(s, t, k, pos, lex.ors);
    match ConsumeAny(s, pos, lex.ors) {
      case None => SkipLocal(s, t, k, pos);
      case Some(p) => OrMoreAlone(lex, s, t, k, left, pos, p, n, q);
    }
  }

  lemma {:induction false} OrMoreAlone(lex: Spellings, s: string, t: string, k: nat, left: Node, pos: nat, p: nat,
                                       n: Node, q: nat)
    requires Plain(lex) && Enclosed(s, t, k) && pos <= |s|
    requires ConsumeAny(s, pos, lex.ors) == Some(p) && ConsumeAny(t, k + pos, lex.ors) == Some(k + p)
    requires OrTail(lex, t, left, k + pos) == Some((n, q)) && q <= k + |s|
    ensures k <= q && OrTail(lex, s, left, pos) == Some((n, q - k))
    decreases |s| - pos, 4
  {
    hide ConsumeAny, SkipWs, TagEnd;
    var (right, e) := ParseAnd(lex, t, k + p).value;
    OrStep(lex, t, left, k + pos, k + p, right, e);
    AndAlone(lex, s, t, k, p, right, e);
    OrStep(lex, s, left, pos, p, right, e - k);
    OrTailAlone(lex, s, t, k, Or(left, right), e - k, n, q);
  }

  lemma {:induction false} AndAlone(lex: Spellings, s: string, t: string, k: nat, pos: nat, n: Node, q: nat)
    requires Plain(lex) && Enclosed(s, t, k) && pos <= |s|
    requires ParseAnd(lex, t, k + pos) == Some((n, q)) && q <= k + |s|
    ensures k <= q && ParseAnd(lex, s, pos) == Some((n, q - k))
    decreases |s| - pos, 3
  {
    hide ConsumeAny, SkipWs, TagEnd;
    var (left, p) := ParseUnary(lex, t, k + pos).value;
    UnaryAlone(lex, s, t, k, pos, left, p);
    AndTailAlone(lex, s, t, k, left, p - k, n, q);
  }

  lemma {:induction false} AndTailAlone(lex: Spellings, s: string, t: string, k: nat, left: Node, pos: nat, n: Node, q: nat)
    requires Plain(lex) && Enclosed(s, t, k) && pos <= |s|
    requires AndTail(lex, t, left, k + pos) == Some((n, q)) && q <= k + |s|
    ensures k <= q && AndTail(lex, s, left, pos) == Some((n, q - k))
    decreases |s| - pos, 1
  {
    hide ConsumeAny, SkipWs, TagEnd;
    ConsumeLocal(s, t, k, pos, lex.ands);
    match ConsumeAny(s, pos, lex.ands) {
      case None => SkipLocal(s, t, k, pos);
      case Some(p) => AndMoreAlone(lex, s, t, k, left, pos, p, n, q);
    }
  }

  lemma {:induction false} AndMoreAlone(lex: Spellings, s: string, t: string, k: nat, left: Node, pos: nat, p: nat,
                                        n: Node, q: nat)
    requires Plain(lex) && Enclosed(s, t, k) && pos <= |s|
    requires ConsumeAny(s, pos, lex.ands) == Some(p) && ConsumeAny(t, k + pos, lex.ands) == Some(k + p)
    requires AndTail(lex, t, left, k + pos) == Some((n, q)) && q <= k + |s|
    ensures k <= q && AndTail(lex, s, left, pos) == Some((n, q - k))
    decreases |s| - pos, 0
  {
    hide ConsumeAny, SkipWs, TagEnd;
    var (right, e) := ParseUnary(lex, t, k + p).value;
    AndStep(lex, t, left, k + pos, k + p, right, e);
    UnaryAlone(lex, s, t, k, p, right, e);
    AndStep(lex, s, left, pos, p, right, e - k);
    AndTailAlone(lex, s, t, k, And(left, right), e - k, n, q);
  }

  lemma {:induction false} UnaryAlone(lex: Spellings, s: string, t: string, k: nat, pos: nat, n: Node, q: nat)
    requires Plain(lex) && Enclosed(s, t, k) && pos <= |s|
    requires ParseUnary(lex, t, k + pos) == Some((n, q)) && q <= k + |s|
    ensures k <= q && ParseUnary(lex, s, pos) == Some((n, q - k))
    decreases |s| - pos, 2
  {
    hide ConsumeAny, SkipWs, TagEnd;
    ConsumeLocal(s, t, k, pos, lex.nots);
    ConsumeLocal(s, t, k, pos, ["("]);
    if ConsumeAny(s, pos, lex.nots).Some? {
      NotAlone(lex, s, t, k, pos, ConsumeAny(s, pos, lex.nots).value, n, q);
    } else if ConsumeAny(s, pos, ["("]).Some? {
      GroupAlone(lex, s, t, k, pos, n, q);
    } else {
      TagLocal(lex, s, t, k, pos);
      TagStep(lex, s, pos);
    }
  }

  lemma {:induction false} NotAlone(lex: Spellings, s: string, t: string, k: nat, pos: nat, p: nat, n: Node, q: nat)
    requires Plain(lex) && Enclosed(s, t, k) && pos <= |s|
    requires ConsumeAny(s, pos, lex.nots) == Some(p) && ConsumeAny(t, k + pos, lex.nots) == Some(k + p)
    requires ParseUnary(lex, t, k + pos) == Some((n, q)) && q <= k + |s|
    ensures k <= q && ParseUnary(lex, s, pos) == Some((n, q - k))
    decreases |s| - pos, 0
  {
    hide ConsumeAny, SkipWs, TagEnd;
    NotStep(lex, t, k + pos, k + p);
    var (operand, e) := ParseUnary(lex, t, k + p).value;
    UnaryAlone(lex, s, t, k, p, operand, e);
    NotStep(lex, s, pos, p);
  }

  lemma {:induction false} GroupAlone(lex: Spellings, s: string, t: string, k: nat, pos: nat, n: Node, q: nat)
    requires Plain(lex) && Enclosed(s, t, k) && pos <= |s|
    requires ParseUnary(lex, t, k + pos) == Some((n, q)) && q <= k + |s|
    requires ConsumeAny(s, pos, lex.nots).None? && ConsumeAny(t, k + pos, lex.nots).None?
    requires ConsumeAny(s, pos, ["("]).Some? && ConsumeAny(t, k + pos, ["("]).Some?
    ensures k <= q && ParseUnary(lex, s, pos) == Some((n, q - k))
    decreases |s| - pos, 1
  {
    hide ConsumeAny, SkipWs, TagEnd;
    SkipLocal(s, t, k, pos);
    SingleSeen(s, pos, '(');
    var e := GroupParts(lex, t, k + pos);
    InnerAlone(lex, s, t, k, pos, SkipWs(s, pos) + 1, n, e, q);
  }

  lemma {:induction false} InnerAlone(lex: Spellings, s: string, t: string, k: nat, pos: nat, p: nat, n: Node, e: nat, q: nat)
    requires Plain(lex) && Enclosed(s, t, k) && pos < p <= |s|
    requires ConsumeAny(s, pos, lex.nots).None? && ConsumeAny(s, pos, ["("]) == Some(p)
    requires e <= |t| && ParseOr(lex, t, k + p) == Some((n, e))
    requires SkipWs(t, e) + 1 == q <= k + |s| && t[q - 1] == ')'
    ensures k <= q && ParseUnary(lex, s, pos) == Some((n, q - k))
    decreases |s| - pos, 0
  {
    hide ConsumeAny, SkipWs, TagEnd;
    OrAlone(lex, s, t, k, p, n, e);
    CloseAlone(s, t, k, e - k, q - 1);
    GroupStep(lex, s, pos, p, n, e - k);
  }

  lemma {:induction false} CloseAlone(s: string, t: string, k: nat, pos: nat, close: nat)
    requires Enclosed(s, t, k) && pos <= |s| && close == SkipWs(t, k + pos) < k + |s| && t[close] == ')'
    ensures ConsumeAny(s, pos, [")"]) == Some(close - k + 1)
  {
    hide ConsumeAny, SkipWs, TagEnd;
    SkipLocal(s, t, k, pos);
    assert t[k + (close - k)] == s[close - k];
    SingleAt(s, pos, ')');
  }

  // ---------------------------------------------------------------- a joined text, taken apart

  /** A balanced text behind "(" can only be left at its own ")". */
  lemma {:induction false} ClosesOutside(e: string, j: string, k: nat, close: nat)
    requires Enclosed(e, j, k) && Balanced(e) && Span(j, k, close) && close < |j| && j[close] == ')'
    ensures close == k + |e|
  {
    if close < k + |e| {
      DepthLocal(e, j, k, close + 1 - k);
    } else if close > k + |e| {
      assert Depth(j, k, k + |e| + 1) >= 0;
      DepthLocal(e, j, k, |e|);
    }
  }

  lemma {:induction false} UnitAlone(lex: Spellings, j: string, q: nat, k: nat, e: string) returns (n: Node)
    requires Usual(lex) && Flat(lex) && e != "" && Trimmed(e) && Balanced(e)
    requires Enclosed(e, j, k) && k >= 1 && j[k - 1] == '(' && q <= k - 1 && SkipWs(j, q) == k - 1
    requires ParseUnary(lex, j, q).Some?
    ensures ParsesTo(lex, e, n) && ParseUnary(lex, j, q) == Some((n, k + |e| + 1))
  {
    hide ConsumeAny, SkipWs, TagEnd;
    NoneAt(j, q, lex.nots);
    SingleAt(j, q, '(');
    var r := GroupParts(lex, j, q);
    n := ParseUnary(lex, j, q).value.0;
    InnerCloses(lex, j, k, e, r, n);
    OrAlone(lex, e, j, k, 0, n, r);
    SkipLocal(e, j, k, r - k);
  }

  lemma {:induction false} InnerCloses(lex: Spellings, j: string, k: nat, e: string, r: nat, n: Node)
    requires Flat(lex) && Enclosed(e, j, k) && Balanced(e)
    requires r <= |j| && ParseOr(lex, j, k) == Some((n, r)) && SkipWs(j, r) < |j| && j[SkipWs(j, r)] == ')'
    ensures SkipWs(j, r) == k + |e|
  {
    hide ConsumeAny, SkipWs, TagEnd;
    var close := SkipWs(j, r);
    OrSpan(lex, j, k);
    SkipSpan(j, r);
    JoinSpans(j, k, r, close);
    ClosesOutside(e, j, k, close);
  }

  ghost predicate AllBalanced(ts: seq<string>) {
    forall i :: 0 <= i < |ts| ==> ts[i] != "" && Trimmed(ts[i]) && Balanced(ts[i])
  }

  ghost predicate Parses(lex: Spellings, e: string) {
    exists n :: ParsesTo(lex, e, n)
  }

  ghost predicate EachParses(lex: Spellings, ts: seq<string>, from: nat) {
    forall i :: from <= i < |ts| ==> Parses(lex, ts[i])
  }

  lemma {:induction false} RestAlone(lex: Spellings, ts: seq<string>, j: string, ps: seq<nat>, i: nat, left: Node)
    requires Usual(lex) && Flat(lex) && AllBalanced(ts) && Layout(ts, j, ps) && 1 <= i <= |ts|
    requires ps[i] <= |j| && AndTail(lex, j, left, ps[i]).Some?
    ensures EachParses(lex, ts, i)
    decreases |ts| - i
  {
    hide ConsumeAny, TagEnd;
    if i < |ts| {
      var p, e := ps[i], ts[i];
      assert Operand(j, p, e, ps[i + 1]);
      AmpersandAt(lex, j, p);
      var n := UnitAlone(lex, j, p + 2, p + 4, e);
      AndStep(lex, j, left, p, p + 2, n, p + |e| + 5);
      RestAlone(lex, ts, j, ps, i + 1, And(left, n));
    }
  }

  lemma {:induction false} JoinAlone(lex: Spellings, ts: seq<string>)
    requires Usual(lex) && Flat(lex) && ts != [] && AllBalanced(ts) && ParseOr(lex, JoinText(ts), 0).Some?
    ensures EachParses(lex, ts, 0)
  {
    hide ConsumeAny, TagEnd;
    var j := JoinText(ts);
    var ps := JoinLayout(ts);
    JoinEnds(ts);
    var n := UnitAlone(lex, j, 0, 1, ts[0]);
    RestAlone(lex, ts, j, ps, 1, n);
  }

  lemma {:induction false} LexiconFlat()
    ensures Usual(LEXICON) && Flat(LEXICON)
  {
    LexiconUsual();
  }

  lemma {:induction false} ValidIsBalanced(e: string)
    requires Valid(e)
    ensures Balanced(Trim(e))
  {
    var t := Trim(e);
    if t != "" {
      LexiconFlat();
      var p := ParseOr(LEXICON, t, 0).value.1;
      OrSpan(LEXICON, t, 0);
      SkipSpan(t, p);
      JoinSpans(t, 0, p, |t|);
    }
  }

  lemma {:induction false} NonBlankAt(es: seq<string>, i: nat)
    requires i < |es| && Trim(es[i]) != ""
    ensures Trim(es[i]) in NonBlank(es)
  {
    var last := |es| - 1;
    if i < last {
      assert es[..last][i] == es[i];
      NonBlankAt(es[..last], i);
    }
  }

  lemma {:induction false} NonBlankBalanced(es: seq<string>)
    requires forall i :: 0 <= i < |es| ==> Balanced(Trim(es[i]))
    ensures AllBalanced(NonBlank(es))
  {
    if es != [] {
      var last := |es| - 1;
      assert forall i :: 0 <= i < last ==> es[..last][i] == es[i];
      NonBlankBalanced(es[..last]);
    }
  }

  lemma {:induction false} BalancedJoinIsValid(es: seq<string>)
    requires Valid(Joined(es)) && forall i :: 0 <= i < |es| ==> Balanced(Trim(es[i]))
    ensures forall i :: 0 <= i < |es| ==> Valid(es[i])
  {
    var ts := NonBlank(es);
    JoinedText(es);
    NonBlankBalanced(es);
    if ts != [] { JoinedAlone(ts); }
    forall i | 0 <= i < |es| ensures Valid(es[i]) {
      if Trim(es[i]) != "" {
        NonBlankAt(es, i);
        var k :| 0 <= k < |ts| && ts[k] == Trim(es[i]);
        assert Parses(LEXICON, ts[k]);
      }
    }
  }

  lemma {:induction false} JoinedAlone(ts: seq<string>)
    requires ts != [] && AllBalanced(ts) && Valid(JoinText(ts))
    ensures EachParses(LEXICON, ts, 0)
  {
    LexiconFlat();
    JoinEnds(ts);
    TrimOfTrimmed(JoinText(ts));
    JoinAlone(LEXICON, ts);
  }

  /** Joining accepts filters that are rejected alone exactly if their parentheses are not balanced. */
  lemma {:induction false} JoiningIsExactIff(es: seq<string>)
    ensures Valid(Joined(es)) ==>
              ((forall i :: 0 <= i < |es| ==> Valid(es[i])) <==> (forall i :: 0 <= i < |es| ==> Balanced(Trim(es[i]))))
    ensures (forall i :: 0 <= i < |es| ==> Valid(es[i])) <==>
            Valid(Joined(es)) && forall i :: 0 <= i < |es| ==> Balanced(Trim(es[i]))
  {
    if forall i :: 0 <= i < |es| ==> Valid(es[i]) {
      AllIsConjunction(es, []);
      forall i | 0 <= i < |es| ensures Balanced(Trim(es[i])) { ValidIsBalanced(es[i]); }
    } else if Valid(Joined(es)) && forall i :: 0 <= i < |es| ==> Balanced(Trim(es[i])) {
      BalancedJoinIsValid(es);
    }
  }
}
