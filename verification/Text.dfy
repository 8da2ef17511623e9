/** Character classes and trimming, as the C locale and `StringUtil` define them.
    A `std::string` is a `string` whose characters stand for bytes. */
module Text {

  datatype Option<+T> = None | Some(value: T)

  type Byte = b: int | 0 <= b < 256

  type Bytes = seq<Byte>

  predicate IsSpace(c: char) {
    c == ' ' || c == '\t' || c == '\n' || c == '\r' || c == 11 as char || c == 12 as char
  }

  predicate IsDigit(c: char) {
    '0' <= c <= '9'
  }

  predicate IsAlpha(c: char) {
    'a' <= c <= 'z' || 'A' <= c <= 'Z'
  }

  function ToLowerChar(c: char): char {
    if 'A' <= c <= 'Z' then c - 'A' + 'a' else c
  }

  function ToLower(s: string): string {
    if s == "" then "" else [ToLowerChar(s[0])] + ToLower(s[1..])
  }

  function ToUpperChar(c: char): char {
    if 'a' <= c <= 'z' then c - 'a' + 'A' else c
  }

  function ToUpper(s: string): string {
    seq(|s|, i requires 0 <= i < |s| => ToUpperChar(s[i]))
  }

  /** The first `c` in `s` from `start` on, or the end of `s`. */
  function Find(s: string, c: char, start: nat): (r: nat)
    requires start <= |s|
    ensures start <= r <= |s|
    decreases |s| - start
  {
    if start == |s| || s[start] == c then start else Find(s, c, start + 1)
  }

  /** `find`. */
  method FindChar(s: string, c: char, start: nat) returns (r: nat)
    requires start <= |s|
    ensures r == Find(s, c, start)
  {
    r := start;
    while r < |s| && s[r] != c
      invariant start <= r <= |s| && Find(s, c, r) == Find(s, c, start)
    {
      r := r + 1;
    }
  }

  /** The words of `s` from `k` on, the first of which began with `word`. */
  function Words(s: string, k: nat, word: string): seq<string>
    requires k <= |s|
    decreases |s| - k
  {
    var done := if word == "" then [] else [word];
    if k == |s| then done
    else if IsSpace(s[k]) then done + Words(s, k + 1, "")
    else Words(s, k + 1, word + [s[k]])
  }

  function DigitsValue(t: string, n: nat): nat
    requires n <= |t|
  {
    if n == 0 then 0
    else 10 * DigitsValue(t, n - 1) + if IsDigit(t[n - 1]) then t[n - 1] as int - '0' as int else 0
  }

  predicate AllDigits(t: string) {
    forall i :: 0 <= i < |t| ==> IsDigit(t[i])
  }

  function TrimLeft(s: string): (r: string)
    ensures r == "" || !IsSpace(r[0])
  {
    if s == "" || !IsSpace(s[0]) then s else TrimLeft(s[1..])
  }

  function TrimRight(s: string): (r: string)
    ensures r == "" || (s != "" && r[0] == s[0] && !IsSpace(r[|r| - 1]))
  {
    if s == "" || !IsSpace(s[|s| - 1]) then s else TrimRight(s[..|s| - 1])
  }

  function Trim(s: string): (r: string)
    ensures Trimmed(r)
  {
    TrimRight(TrimLeft(s))
  }

  /** Neither end is white space. */
  predicate Trimmed(s: string) {
    s == "" || (!IsSpace(s[0]) && !IsSpace(s[|s| - 1]))
  }

  lemma {:induction false} TrimOfTrimmed(s: string)
    requires Trimmed(s)
    ensures Trim(s) == s
  {
  }

  // ---------------------------------------------------------------- small change

  function Min(a: nat, b: nat): nat {
    if a < b then a else b
  }

  function Unit(b: bool): nat {
    if b then 1 else 0
  }

  function Power2(k: nat): nat {
    if k == 0 then 1 else 2 * Power2(k - 1)
  }

  lemma {:induction false} Associate<T>(a: seq<T>, b: seq<T>, c: seq<T>)
    ensures (a + b) + c == a + (b + c)
  {
  }

  lemma {:induction false} MoveOne<T>(out: seq<T>, s: seq<T>, k: nat)
    requires k < |s|
    ensures (out + [s[k]]) + s[k + 1..] == out + s[k..]
  {
    assert s[k..] == [s[k]] + s[k + 1..];
  }

  // ---------------------------------------------------------------- where a sequence occurs

  /** `lit` occurs in `t` at `p`. */
  predicate Starts<T(==)>(t: seq<T>, p: nat, lit: seq<T>) {
    p + |lit| <= |t| && forall i :: 0 <= i < |lit| ==> t[p + i] == lit[i]
  }

  lemma {:induction false} StartsSplit<T>(t: seq<T>, p: nat, a: seq<T>, b: seq<T>)
    requires Starts(t, p, a + b)
    ensures Starts(t, p, a) && Starts(t, p + |a|, b)
  {
    var s := a + b;
    forall i | 0 <= i < |a| ensures t[p + i] == a[i] { assert t[p + i] == s[i]; }
    forall i | 0 <= i < |b| ensures t[p + |a| + i] == b[i] { assert t[p + (|a| + i)] == s[|a| + i]; }
  }

  lemma {:induction false} StartsAt<T>(t: seq<T>, p: nat, s: seq<T>, k: nat)
    requires Starts(t, p, s) && k < |s|
    ensures t[p + k] == s[k]
  {
  }

  lemma {:induction false} StartsSlice<T>(t: seq<T>, p: nat, s: seq<T>)
    requires Starts(t, p, s)
    ensures t[p..p + |s|] == s
  {
  }

  lemma {:induction false} StartsAll<T>(t: seq<T>)
    ensures Starts(t, 0, t)
  {
  }
}
