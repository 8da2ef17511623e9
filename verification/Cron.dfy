/** Five-field cron expressions: what their text denotes, and how it is parsed into sets of values
    (src/util/cron.h). */
module Cron {
  import opened Text

  datatype Kind = Minute | Hour | MonthDay | Month | Weekday

  function Low(kind: Kind): nat {
    if kind.MonthDay? || kind.Month? then 1 else 0
  }

  function High(kind: Kind): nat {
    match kind
    case Minute => 59
    case Hour => 23
    case MonthDay => 31
    case Month => 12
    case Weekday => 7
  }

  function Names(kind: Kind): seq<string> {
    match kind
    case Month => ["JAN", "FEB", "MAR", "APR", "MAY", "JUN", "JUL", "AUG", "SEP", "OCT", "NOV", "DEC"]
    case Weekday => ["SUN", "MON", "TUE", "WED", "THU", "FRI", "SAT"]
    case _ => []
  }

  /** The value of a kind's first name. */
  function NameBase(kind: Kind): nat {
    if kind.Month? then 1 else 0
  }

  // ---------------------------------------------------------------- what a field denotes

  function NameIndex(word: string, names: seq<string>, i: nat): Option<nat>
    requires i <= |names|
    decreases |names| - i
  {
    if i == |names| then None else if word == names[i] then Some(i) else NameIndex(word, names, i + 1)
  }

  function NumberIn(token: string, low: nat, high: nat): Option<nat> {
    var v := DigitsValue(token, |token|);
    if token != "" && AllDigits(token) && low <= v <= high then Some(v) else None
  }

  /** A name in any case, or a number within the bounds of the field. */
  function TokenValue(token: string, kind: Kind): Option<nat> {
    var i := NameIndex(ToUpper(token), Names(kind), 0);
    if i.None? then NumberIn(token, Low(kind), High(kind))
    else if Low(kind) <= i.value + NameBase(kind) <= High(kind) then Some(i.value + NameBase(kind))
    else None
  }

  function ItemStep(item: string, kind: Kind): Option<nat> {
    var slash := Find(item, '/', 0);
    if slash == |item| then Some(1) else NumberIn(item[slash + 1..], 1, High(kind) - Low(kind) + 1)
  }

  /** The first and the last value of an item: everything, a range, or a single value. */
  function RangeBounds(range: string, kind: Kind): Option<(nat, nat)> {
    var dash := Find(range, '-', 0);
    if range == "*" then Some((Low(kind), High(kind)))
    else if dash < |range| then
      var begin, end := TokenValue(range[..dash], kind), TokenValue(range[dash + 1..], kind);
      if begin.Some? && end.Some? && begin.value <= end.value then Some((begin.value, end.value)) else None
    else
      var v := TokenValue(range, kind);
      if v.Some? then Some((v.value, v.value)) else None
  }

  function ItemBounds(item: string, kind: Kind): Option<(nat, nat)> {
    RangeBounds(item[..Find(item, '/', 0)], kind)
  }

  predicate ItemOk(item: string, kind: Kind) {
    item != "" && ItemStep(item, kind).Some? && ItemBounds(item, kind).Some?
  }

  predicate ItemHas(item: string, kind: Kind, v: nat) {
    && ItemOk(item, kind)
    && var (begin, end) := ItemBounds(item, kind).value;
       begin <= v <= end && InSteps(v, begin, ItemStep(item, kind).value)
  }

  /** `v` is a whole number of steps from `begin`. */
  predicate InSteps(v: nat, begin: nat, step: nat) {
    v == begin || (step > 0 && v >= begin + step && InSteps(v - step, begin, step))
  }

  /** The items of a list, from `start` on. */
  function Items(field: string, start: nat): (r: seq<string>)
    requires start <= |field|
    ensures r != []
    decreases |field| - start
  {
    var comma := Find(field, ',', start);
    [field[start..comma]] + if comma < |field| then Items(field, comma + 1) else []
  }

  predicate FieldOk(field: string, kind: Kind) {
    field != "" && forall i :: 0 <= i < |Items(field, 0)| ==> ItemOk(Items(field, 0)[i], kind)
  }

  predicate FieldHas(field: string, kind: Kind, v: nat) {
    exists i :: 0 <= i < |Items(field, 0)| && ItemHas(Items(field, 0)[i], kind, v)
  }

  // ---------------------------------------------------------------- what an expression denotes

  function ExpandAlias(raw: string): string {
    if raw == "" || raw[0] != '@' then raw
    else if raw == "@yearly" || raw == "@annually" then "0 0 1 1 *"
    else if raw == "@monthly" then "0 0 1 * *"
    else if raw == "@weekly" then "0 0 * * 0"
    else if raw == "@daily" || raw == "@midnight" then "0 0 * * *"
    else if raw == "@hourly" then "0 * * * *"
    else ""
  }

  function Fields(text: string): seq<string> {
    var expanded := ExpandAlias(Trim(text));
    Words(expanded, 0, "")
  }

  predicate Accepted(text: string) {
    var f := Fields(text);
    && |f| == 5
    && FieldOk(f[0], Minute) && FieldOk(f[1], Hour) && FieldOk(f[2], MonthDay) && FieldOk(f[3], Month) && FieldOk(f[4], Weekday)
  }

  /** A parsed expression: a set of values per field, and whether a day field is a bare `*`. */
  datatype Expr = Expr(minute: set<nat>, hour: set<nat>, dom: set<nat>, month: set<nat>, dow: set<nat>,
                       domAll: bool, dowAll: bool)

  ghost predicate SetIs(bits: set<nat>, field: string, kind: Kind) {
    forall v :: v in bits <==> FieldHas(field, kind, v)
  }

  /** 0 and 7 both stand for Sunday. */
  predicate WeekdayHas(field: string, v: nat) {
    FieldHas(field, Weekday, v) || (v == 0 && FieldHas(field, Weekday, 7)) || (v == 7 && FieldHas(field, Weekday, 0))
  }

  ghost predicate Denotes(c: Expr, text: string) {
    var f := Fields(text);
    && |f| == 5
    && SetIs(c.minute, f[0], Minute) && SetIs(c.hour, f[1], Hour) && SetIs(c.dom, f[2], MonthDay) && SetIs(c.month, f[3], Month)
    && (forall v :: v in c.dow <==> WeekdayHas(f[4], v))
    && (c.domAll <==> f[2] == "*") && (c.dowAll <==> f[4] == "*")
  }

  // ---------------------------------------------------------------- parsing

  method ParseName(token: string, names: seq<string>) returns (i: Option<nat>)
    ensures i == NameIndex(ToUpper(token), names, 0)
  {
    var word := ToUpper(token);
    var k := 0;
    while k < |names|
      invariant 0 <= k <= |names| && NameIndex(word, names, k) == NameIndex(word, names, 0)
    {
      if word == names[k] { return Some(k); }
      k := k + 1;
    }
    i := None;
  }

  lemma {:induction false} ValueGrows(t: string, k: nat, n: nat)
    requires k <= n <= |t|
    ensures DigitsValue(t, k) <= DigitsValue(t, n)
  {
    if k < n { ValueGrows(t, k, n - 1); }
  }

  /** The number of at most two digits; anything longer is out of every range. */
  method ParseNumber(token: string, low: nat, high: nat) returns (v: Option<nat>)
    requires high <= 99
    ensures v == NumberIn(token, low, high)
  {
    if token == "" { return None; }
    var n: nat := 0;
    var k := 0;
    while k < |token|
      invariant 0 <= k <= |token| && n == DigitsValue(token, k)
      invariant forall i :: 0 <= i < k ==> IsDigit(token[i])
    {
      if !IsDigit(token[k]) { return None; }
      n := n * 10 + (token[k] as int - '0' as int);
      k := k + 1;
      if n > 99 { break; }
    }
    ValueGrows(token, k, |token|);
    if n < low || n > high { return None; }
    v := Some(n);
  }

  method ParseInt(token: string, kind: Kind) returns (v: Option<nat>)
    ensures v == TokenValue(token, kind)
  {
    var i := ParseName(token, Names(kind));
    if i.Some? {
      var n := i.value + NameBase(kind);
      if n < Low(kind) || n > High(kind) { return None; }
      return Some(n);
    }
    v := ParseNumber(token, Low(kind), High(kind));
  }

  method ParseRange(range: string, kind: Kind) returns (bounds: Option<(nat, nat)>)
    ensures bounds == RangeBounds(range, kind)
  {
    if range == "*" { return Some((Low(kind), High(kind))); }
    var dash := FindChar(range, '-', 0);
    if dash < |range| {
      var begin := ParseInt(range[..dash], kind);
      if begin == None { return None; }
      var end := ParseInt(range[dash + 1..], kind);
      if end == None || end.value < begin.value { return None; }
      return Some((begin.value, end.value));
    }
    var v := ParseInt(range, kind);
    if v == None { return None; }
    bounds := Some((v.value, v.value));
  }

  lemma {:induction false} NoneBetween(begin: nat, v: nat, w: nat, step: nat)
    requires InSteps(v, begin, step) && v < w < v + step
    ensures !InSteps(w, begin, step)
    decreases v
  {
    if v != begin { NoneBetween(begin, v - step, w - step, step); }
  }

  lemma {:induction false} NextInSteps(begin: nat, v: nat, step: nat)
    requires InSteps(v, begin, step) && step > 0 && v >= begin
    ensures InSteps(v + step, begin, step) && forall w: nat :: v < w < v + step ==> !InSteps(w, begin, step)
  {
    forall w: nat | v < w < v + step ensures !InSteps(w, begin, step) { NoneBetween(begin, v, w, step); }
  }

  /** `for (v = begin; v <= end; v += step) bits |= 1 << v`. */
  method SetBits(bits: set<nat>, begin: nat, end: nat, step: nat) returns (r: set<nat>)
    requires step > 0
    ensures forall v: nat :: v in r <==> v in bits || (v <= end && InSteps(v, begin, step))
  {
    r := bits;
    var v := begin;
    while v <= end
      invariant v >= begin && InSteps(v, begin, step)
      invariant forall w: nat :: w in r <==> w in bits || (w < v && w <= end && InSteps(w, begin, step))
      decreases end + step - v
    {
      NextInSteps(begin, v, step);
      r := r + {v};
      v := v + step;
    }
  }

  method ParseItem(item: string, kind: Kind, bits: set<nat>) returns (r: Option<set<nat>>)
    ensures r.Some? <==> ItemOk(item, kind)
    ensures r.Some? ==> forall v :: v in r.value <==> v in bits || ItemHas(item, kind, v)
  {
    if item == "" { return None; }
    var step := Some(1);
    var slash := FindChar(item, '/', 0);
    if slash < |item| {
      step := ParseNumber(item[slash + 1..], 1, High(kind) - Low(kind) + 1);
      if step == None { return None; }
    }
    var bounds := ParseRange(item[..slash], kind);
    if bounds == None { return None; }
    var set_ := SetBits(bits, bounds.value.0, bounds.value.1, step.value);
    r := Some(set_);
  }

  method ParseField(field: string, kind: Kind) returns (r: Option<set<nat>>)
    ensures r.Some? <==> FieldOk(field, kind)
    ensures r.Some? ==> SetIs(r.value, field, kind)
  {
    if field == "" { return None; }
    var bits: set<nat> := {};
    var start := 0;
    ghost var items, done := Items(field, 0), 0;
    while true
      invariant start <= |field| && done < |items| && items[done..] == Items(field, start)
      invariant forall i :: 0 <= i < done ==> ItemOk(items[i], kind)
      invariant forall v :: v in bits <==> exists i :: 0 <= i < done && ItemHas(items[i], kind, v)
      decreases |field| - start
    {
      var comma := FindChar(field, ',', start);
      assert items[done..][0] == field[start..comma];
      var more := ParseItem(field[start..comma], kind, bits);
      if more == None { return None; }
      bits := more.value;
      ghost var rest := items[done..][1..];
      assert rest == items[done + 1..];
      done := done + 1;
      if comma == |field| { break; }
      start := comma + 1;
    }
    r := Some(bits);
  }

  method SplitWords(s: string) returns (words: seq<string>)
    ensures words == Words(s, 0, "")
  {
    words := [];
    var word := "";
    var k := 0;
    while k < |s|
      invariant 0 <= k <= |s| && words + Words(s, k, word) == Words(s, 0, "")
    {
      if IsSpace(s[k]) {
        if word != "" {
          assert words + ([word] + Words(s, k + 1, "")) == (words + [word]) + Words(s, k + 1, "");
          words, word := words + [word], "";
        }
      } else {
        word := word + [s[k]];
      }
      k := k + 1;
    }
    if word != "" { words := words + [word]; }
  }

  method Parse(text: string) returns (c: Option<Expr>)
    ensures c.Some? <==> Accepted(text)
    ensures c.Some? ==> Denotes(c.value, text)
  {
    var raw := Trim(text);
    if raw == "" { return None; }
    var expanded := ExpandAlias(raw);
    if expanded == "" { return None; }
    var f := SplitWords(expanded);
    if |f| != 5 { return None; }
    var minute := ParseField(f[0], Minute);
    if minute == None { return None; }
    var hour := ParseField(f[1], Hour);
    if hour == None { return None; }
    var dom := ParseField(f[2], MonthDay);
    if dom == None { return None; }
    var month := ParseField(f[3], Month);
    if month == None { return None; }
    var dow := ParseField(f[4], Weekday);
    if dow == None { return None; }
    var days := dow.value;
    if 7 in days { days := days + {0}; }
    if 0 in days { days := days + {7}; }
    c := Some(Expr(minute.value, hour.value, dom.value, month.value, days, f[2] == "*", f[4] == "*"));
  }
}
