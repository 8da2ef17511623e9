/** `executeParallel` (src/engine/execution_engine.cpp): scenarios are dealt round-robin onto
    streams, run in any interleaving, collected in any order, and sorted back. */
module Parallel {
  import opened Text
  import opened Steps
  import opened Runs
  import opened Sequential

  datatype Place = Place(spec: nat, cell: Cell)

  datatype Work = Work(at: Place, order: nat)

  // ---------------------------------------------------------------- the work items

  function SpecItems(i: nat, cells: seq<Cell>, base: nat): (r: seq<Work>)
    ensures |r| == |cells| && forall j :: 0 <= j < |cells| ==> r[j] == Work(Place(i, cells[j]), base + j)
  {
    seq(|cells|, j requires 0 <= j < |cells| => Work(Place(i, cells[j]), base + j))
  }

  function Items(loaded: seq<LoadedSpec>, n: nat): seq<Work>
    requires n <= |loaded|
  {
    if n == 0 then []
    else
      var before := Items(loaded, n - 1);
      before + SpecItems(n - 1, Cells(loaded[n - 1]), |before|)
  }

  lemma {:induction false} ItemsSize(loaded: seq<LoadedSpec>, n: nat)
    requires n <= |loaded|
    ensures |Items(loaded, n)| == TotalCells(loaded, n)
  {
    hide Cells;
    if n > 0 { ItemsSize(loaded, n - 1); }
  }

  /** The items of specification `i` are exactly those from `base` on, one per cell, in order. */
  ghost predicate SpecLaidOut(items: seq<Work>, i: nat, cells: seq<Cell>, base: nat) {
    && base + |cells| <= |items|
    && (forall k :: 0 <= k < |items| ==> (items[k].at.spec == i <==> base <= k < base + |cells|))
    && (forall j :: 0 <= j < |cells| ==> items[base + j].at.cell == cells[j])
  }

  ghost predicate LaidOut(items: seq<Work>, loaded: seq<LoadedSpec>) {
    && |items| == TotalCells(loaded, |loaded|)
    && (forall k :: 0 <= k < |items| ==> items[k].order == k && items[k].at.spec < |loaded|)
    && (forall i {:trigger SpecLaidOut(items, i, Cells(loaded[i]), TotalCells(loaded, i))} ::
          0 <= i < |loaded| ==> SpecLaidOut(items, i, Cells(loaded[i]), TotalCells(loaded, i)))
  }

  lemma {:induction false} BasesGrow(loaded: seq<LoadedSpec>, i: nat, j: nat)
    requires i <= j <= |loaded|
    ensures TotalCells(loaded, i) <= TotalCells(loaded, j)
  {
    hide Cells;
    if i < j { BasesGrow(loaded, i, j - 1); }
  }

  /** Item `k` is cell `k - base` of its specification. */
  ghost predicate InPlace(w: Work, loaded: seq<LoadedSpec>, k: nat) {
    && w.order == k && w.at.spec < |loaded|
    && TotalCells(loaded, w.at.spec) <= k < TotalCells(loaded, w.at.spec + 1)
    && w.at.cell == Cells(loaded[w.at.spec])[k - TotalCells(loaded, w.at.spec)]
  }

  lemma {:induction false} ItemsInPlace(loaded: seq<LoadedSpec>, n: nat, k: nat)
    requires n <= |loaded| && k < |Items(loaded, n)|
    ensures InPlace(Items(loaded, n)[k], loaded, k)
  {
    hide Cells;
    if k < |Items(loaded, n - 1)| {
      ItemsInPlace(loaded, n - 1, k);
    } else {
      LastItem(loaded, n - 1, k);
    }
  }

  lemma {:induction false} LastItem(loaded: seq<LoadedSpec>, i: nat, k: nat)
    requires i < |loaded| && |Items(loaded, i)| <= k < |Items(loaded, i + 1)|
    ensures InPlace(Items(loaded, i + 1)[k], loaded, k)
  {
    hide Cells;
    ItemsSize(loaded, i);
    ItemsSize(loaded, i + 1);
    var base, cells := |Items(loaded, i)|, Cells(loaded[i]);
    var w := SpecItems(i, cells, base)[k - base];
    assert Items(loaded, i + 1)[k] == w && w.at == Place(i, cells[k - base]);
  }

  lemma {:induction false} LayoutOfItems(loaded: seq<LoadedSpec>)
    ensures LaidOut(Items(loaded, |loaded|), loaded)
  {
    hide Cells;
    var items := Items(loaded, |loaded|);
    ItemsSize(loaded, |loaded|);
    forall k | 0 <= k < |items| ensures InPlace(items[k], loaded, k) { ItemsInPlace(loaded, |loaded|, k); }
    forall i | 0 <= i < |loaded| ensures SpecLaidOut(items, i, Cells(loaded[i]), TotalCells(loaded, i)) {
      LayoutOfSpec(items, loaded, i);
    }
  }

  lemma {:induction false} LayoutOfSpec(items: seq<Work>, loaded: seq<LoadedSpec>, i: nat)
    requires i < |loaded| && |items| == TotalCells(loaded, |loaded|)
    requires forall k :: 0 <= k < |items| ==> InPlace(items[k], loaded, k)
    ensures SpecLaidOut(items, i, Cells(loaded[i]), TotalCells(loaded, i))
  {
    hide Cells;
    var cells, base := Cells(loaded[i]), TotalCells(loaded, i);
    CellsFit(loaded, i);
    forall k | 0 <= k < |items| ensures items[k].at.spec == i <==> base <= k < base + |cells| {
      assert InPlace(items[k], loaded, k);
      InOneSpec(loaded, items[k].at.spec, k, i);
    }
    forall j | 0 <= j < |cells| ensures items[base + j].at.cell == cells[j] {
      assert InPlace(items[base + j], loaded, base + j);
    }
  }

  lemma {:induction false} InOneSpec(loaded: seq<LoadedSpec>, j: nat, k: nat, i: nat)
    requires i < |loaded| && j < |loaded| && TotalCells(loaded, j) <= k < TotalCells(loaded, j + 1)
    ensures j == i <==> TotalCells(loaded, i) <= k < TotalCells(loaded, i + 1)
  {
    hide Cells;
    if j != i { Elsewhere(loaded, j, k, i); }
  }

  lemma {:induction false} Elsewhere(loaded: seq<LoadedSpec>, j: nat, k: nat, i: nat)
    requires i < |loaded| && j < |loaded| && j != i && TotalCells(loaded, j) <= k < TotalCells(loaded, j + 1)
    ensures !(TotalCells(loaded, i) <= k < TotalCells(loaded, i + 1))
  {
    hide Cells;
    if j < i { BasesGrow(loaded, j + 1, i); } else { BasesGrow(loaded, i + 1, j); }
  }

  method BuildItems(loaded: seq<LoadedSpec>) returns (items: seq<Work>)
    ensures items == Items(loaded, |loaded|)
  {
    hide Cells;
    items := [];
    var i := 0;
    while i < |loaded|
      invariant 0 <= i <= |loaded| && items == Items(loaded, i)
    {
      ItemsStep(loaded, i, items);
      if loaded[i].parsed {
        items := AppendSpec(items, loaded[i], i);
      }
      i := i + 1;
    }
  }

  lemma {:induction false} ItemsStep(loaded: seq<LoadedSpec>, i: nat, before: seq<Work>)
    requires i < |loaded| && before == Items(loaded, i)
    ensures loaded[i].parsed ==> Items(loaded, i + 1) == before + SpecItems(i, Cells(loaded[i]), |before|)
    ensures !loaded[i].parsed ==> Items(loaded, i + 1) == before
  {
  }

  method AppendSpec(before: seq<Work>, l: LoadedSpec, i: nat) returns (items: seq<Work>)
    requires l.parsed
    ensures items == before + SpecItems(i, Cells(l), |before|)
  {
    items := before;
    var row := 0;
    while row < RowCount(l)
      invariant 0 <= row <= RowCount(l)
      invariant items == before + SpecItems(i, CellsOf(l, row), |before|)
    {
      var k := 0;
      ghost var cells := CellsOf(l, row);
      assert cells + RowCells(l, row, k) == cells;
      while k < |l.selected|
        invariant 0 <= k <= |l.selected|
        invariant items == before + SpecItems(i, cells + RowCells(l, row, k), |before|)
      {
        if l.selected[k] {
          var c := Cell(k, RowIndex(l, row));
          assert cells + RowCells(l, row, k + 1) == (cells + RowCells(l, row, k)) + [c];
          items := items + [Work(Place(i, c), |items|)];
        } else {
          assert RowCells(l, row, k + 1) == RowCells(l, row, k);
        }
        k := k + 1;
      }
      row := row + 1;
    }
  }

  // ---------------------------------------------------------------- dealing and grouping

  /** Where each item lies: at `index[k]` of the queue of stream `stream[k]`. */
  datatype Plan = Plan(queues: seq<seq<Work>>, stream: seq<nat>, index: seq<nat>)

  ghost predicate Dealt(items: seq<Work>, p: Plan) {
    && |p.stream| == |p.index| == |items|
    && (forall k :: 0 <= k < |items| ==> Placed(items, p, k))
    && (forall s, j :: 0 <= s < |p.queues| && 0 <= j < |p.queues[s]| ==> Owned(items, p, p.queues[s][j], s, j))
  }

  ghost predicate Placed(items: seq<Work>, p: Plan, k: nat)
    requires k < |items| == |p.stream| == |p.index|
  {
    p.stream[k] < |p.queues| && p.index[k] < |p.queues[p.stream[k]]| && p.queues[p.stream[k]][p.index[k]] == items[k]
  }

  ghost predicate Owned(items: seq<Work>, p: Plan, w: Work, s: nat, j: nat)
    requires |items| == |p.stream| == |p.index|
  {
    w.order < |items| && items[w.order] == w && p.stream[w.order] == s && p.index[w.order] == j
  }

  /** Item `k` goes to bucket `k % n`. */
  method Deal(items: seq<Work>, n: nat) returns (buckets: seq<seq<Work>>, ghost p: Plan)
    requires n > 0 && forall k :: 0 <= k < |items| ==> items[k].order == k
    ensures |buckets| == n && p.queues == buckets && Dealt(items, p)
    ensures forall k :: 0 <= k < |items| ==> p.stream[k] == k % n
    ensures forall s :: 0 <= s < n ==> Ascending(buckets[s])
  {
    buckets := seq(n, s => []);
    p := Plan(buckets, [], []);
    var i := 0;
    while i < |items|
      invariant 0 <= i <= |items| && |buckets| == n && p.queues == buckets
      invariant Dealt(items[..i], p)
      invariant forall k :: 0 <= k < i ==> p.stream[k] == k % n
      invariant forall s :: 0 <= s < n ==> Ascending(buckets[s])
    {
      var s := i % n;
      ghost var q := Plan(buckets[s := buckets[s] + [items[i]]], p.stream + [s], p.index + [|buckets[s]|]);
      DealOne(items, i, p, q, s);
      AscendingSnoc(buckets[s], items[i]);
      buckets := buckets[s := buckets[s] + [items[i]]];
      p := q;
      i := i + 1;
    }
    assert items[..i] == items;
  }

  lemma {:induction false} DealOne(items: seq<Work>, i: nat, p: Plan, q: Plan, s: nat)
    requires i < |items| && items[i].order == i && Dealt(items[..i], p) && s < |p.queues|
    requires q == Plan(p.queues[s := p.queues[s] + [items[i]]], p.stream + [s], p.index + [|p.queues[s]|])
    ensures Dealt(items[..i + 1], q)
  {
    var upto := items[..i + 1];
    forall k | 0 <= k < |upto| ensures Placed(upto, q, k) {
      if k < i { assert Placed(items[..i], p, k); }
    }
    forall r, j | 0 <= r < |q.queues| && 0 <= j < |q.queues[r]| ensures Owned(upto, q, q.queues[r][j], r, j)
    {
      if r != s || j < |p.queues[s]| { assert Owned(items[..i], p, p.queues[r][j], r, j); }
    }
  }

  /** The numbers of the items in a queue go up. */
  ghost predicate Ascending(q: seq<Work>) {
    forall a, b :: 0 <= a < b < |q| ==> q[a].order < q[b].order
  }

  lemma {:induction false} AscendingSnoc(q: seq<Work>, w: Work)
    requires Ascending(q) && forall a :: 0 <= a < |q| ==> q[a].order < w.order
    ensures Ascending(q + [w])
  {
  }

  function Flatten(groups: seq<seq<Work>>, n: nat): seq<Work>
    requires n <= |groups|
  {
    if n == 0 then [] else Flatten(groups, n - 1) + groups[n - 1]
  }

  ghost predicate InOrder(bucket: seq<Work>, m: nat) {
    && (forall j :: 0 <= j < |bucket| ==> bucket[j].at.spec < m)
    && (forall a, b :: 0 <= a < b < |bucket| ==> bucket[a].at.spec <= bucket[b].at.spec)
  }

  /** Grouping a stream's bucket by specification, in ascending order, leaves it as it was. */
  method GroupBySpec(bucket: seq<Work>, m: nat) returns (queue: seq<Work>)
    requires InOrder(bucket, m)
    ensures queue == bucket
  {
    var groups := seq(m, i => []);
    var j := 0;
    EmptyGroups(groups, m);
    while j < |bucket|
      invariant 0 <= j <= |bucket| && |groups| == m
      invariant Flatten(groups, m) == bucket[..j]
      invariant forall i :: 0 <= i < m && groups[i] != [] ==> exists a :: 0 <= a < j && bucket[a].at.spec == i
    {
      var w := bucket[j];
      FlattenPush(groups, w.at.spec, w, m);
      groups := groups[w.at.spec := groups[w.at.spec] + [w]];
      j := j + 1;
    }
    queue := [];
    var i := 0;
    while i < m
      invariant 0 <= i <= m && queue == Flatten(groups, i)
    {
      queue := queue + groups[i];
      i := i + 1;
    }
    assert bucket[..j] == bucket;
  }

  lemma {:induction false} EmptyGroups(groups: seq<seq<Work>>, n: nat)
    requires n <= |groups| && forall i :: 0 <= i < n ==> groups[i] == []
    ensures Flatten(groups, n) == []
  {
    if n > 0 { EmptyGroups(groups, n - 1); }
  }

  lemma {:induction false} FlattenPush(groups: seq<seq<Work>>, i: nat, w: Work, n: nat)
    requires i < |groups| && n <= |groups| && forall k :: i < k < |groups| ==> groups[k] == []
    ensures Flatten(groups[i := groups[i] + [w]], n) == Flatten(groups, n) + if i < n then [w] else []
  {
    if n > 0 {
      FlattenPush(groups, i, w, n - 1);
      if i == n - 1 {
        assert Flatten(groups, n - 1) + (groups[i] + [w]) == Flatten(groups, n) + [w];
      } else if i < n - 1 {
        assert groups[n - 1] == [];
      }
    }
  }

  // ---------------------------------------------------------------- the streams at work

  type Entry = (nat, ScenarioResult)

  /** Per stream: how many items it has taken, and a result it has not handed in yet. */
  datatype Board = Board(next: seq<nat>, held: seq<Option<ScenarioResult>>,
                         collected: seq<seq<Entry>>, hookErrors: seq<bool>)

  /** The outcome of each item once it ran, and where its entry lies. */
  datatype Log = Log(outcome: seq<Option<ScenarioResult>>, posn: seq<nat>)

  ghost predicate Fits(w: Work, r: ScenarioResult, exec: Oracle, quiet: bool) {
    Faithful(r, w.at.cell) && (quiet ==> r == exec(w.at.spec, w.at.cell))
  }

  /** Item `k` has run and its result is handed in. */
  predicate Gone(p: Plan, b: Board, k: nat)
    requires k < |p.stream| == |p.index| && p.stream[k] < |b.next| == |b.held|
  {
    var s, j := p.stream[k], p.index[k];
    j < b.next[s] && !(b.held[s].Some? && j == b.next[s] - 1)
  }

  ghost predicate Sized(items: seq<Work>, m: nat, p: Plan, b: Board, g: Log) {
    && Dealt(items, p)
    && |b.next| == |b.held| == |p.queues|
    && |b.collected| == |b.hookErrors| == m
    && |g.outcome| == |g.posn| == |items|
    && forall k :: 0 <= k < |items| ==> items[k].at.spec < m && items[k].order == k
  }

  ghost predicate StreamOk(items: seq<Work>, m: nat, p: Plan, b: Board, g: Log, s: nat)
    requires Sized(items, m, p, b, g) && s < |p.queues|
  {
    && b.next[s] <= |p.queues[s]|
    && (b.held[s].Some? ==>
          && b.next[s] > 0
          && p.queues[s][b.next[s] - 1].order < |g.outcome|
          && g.outcome[p.queues[s][b.next[s] - 1].order] == b.held[s])
  }

  ghost predicate ItemOk(items: seq<Work>, m: nat, p: Plan, b: Board, g: Log, k: nat, exec: Oracle, quiet: bool)
    requires Sized(items, m, p, b, g) && k < |items|
  {
    && p.stream[k] < |p.queues|
    && (g.outcome[k].Some? <==> p.index[k] < b.next[p.stream[k]])
    && (g.outcome[k].Some? ==> Fits(items[k], g.outcome[k].value, exec, quiet))
    && (Gone(p, b, k) ==>
          && g.posn[k] < |b.collected[items[k].at.spec]|
          && b.collected[items[k].at.spec][g.posn[k]] == (k, g.outcome[k].value))
  }

  ghost predicate EntryOk(items: seq<Work>, m: nat, p: Plan, b: Board, g: Log, e: Entry, i: nat, a: nat)
    requires Sized(items, m, p, b, g)
  {
    && e.0 < |items| && items[e.0].at.spec == i && g.posn[e.0] == a
    && p.stream[e.0] < |p.queues| && Gone(p, b, e.0)
  }

  ghost predicate Inv(items: seq<Work>, m: nat, p: Plan, b: Board, g: Log, exec: Oracle, quiet: bool) {
    && Sized(items, m, p, b, g)
    && (forall s :: 0 <= s < |p.queues| ==> StreamOk(items, m, p, b, g, s))
    && (forall k :: 0 <= k < |items| ==> ItemOk(items, m, p, b, g, k, exec, quiet))
    && (forall i, a :: 0 <= i < m && 0 <= a < |b.collected[i]| ==> EntryOk(items, m, p, b, g, b.collected[i][a], i, a))
  }

  function Executed(b: Board, g: Log, s: nat, w: Work, r: ScenarioResult): (Board, Log)
    requires s < |b.next| == |b.held| && w.order < |g.outcome|
  {
    (b.(next := b.next[s := b.next[s] + 1], held := b.held[s := Some(r)]),
     g.(outcome := g.outcome[w.order := Some(r)]))
  }

  function HandedIn(b: Board, g: Log, s: nat, w: Work): (Board, Log)
    requires s < |b.held| && b.held[s].Some? && w.at.spec < |b.collected| && w.order < |g.posn|
  {
    (b.(held := b.held[s := None], collected := b.collected[w.at.spec := b.collected[w.at.spec] + [(w.order, b.held[s].value)]]),
     g.(posn := g.posn[w.order := |b.collected[w.at.spec]|]))
  }

  lemma {:induction false} SamePlace(items: seq<Work>, p: Plan, k: nat, s: nat, j: nat)
    requires Dealt(items, p) && k < |items| && s < |p.queues| && j < |p.queues[s]|
    requires forall k :: 0 <= k < |items| ==> items[k].order == k
    ensures p.stream[k] == s && p.index[k] == j <==> k == p.queues[s][j].order
  {
    assert Placed(items, p, k);
    assert Owned(items, p, p.queues[s][j], s, j);
  }

  lemma {:induction false} ExecuteKeepsInv(items: seq<Work>, m: nat, p: Plan, b: Board, g: Log, exec: Oracle, quiet: bool,
                                           s: nat, r: ScenarioResult)
    requires Inv(items, m, p, b, g, exec, quiet)
    requires s < |p.queues| && b.held[s].None? && b.next[s] < |p.queues[s]|
    requires Fits(p.queues[s][b.next[s]], r, exec, quiet)
    ensures p.queues[s][b.next[s]].order < |items| == |g.outcome|
    ensures g.outcome[p.queues[s][b.next[s]].order].None?
    ensures var (b', g') := Executed(b, g, s, p.queues[s][b.next[s]], r);
            Inv(items, m, p, b', g', exec, quiet)
  {
    var w := p.queues[s][b.next[s]];
    assert Owned(items, p, w, s, b.next[s]);
    assert ItemOk(items, m, p, b, g, w.order, exec, quiet);
    var (b', g') := Executed(b, g, s, w, r);
    forall k | 0 <= k < |items| ensures ItemOk(items, m, p, b', g', k, exec, quiet) {
      assert ItemOk(items, m, p, b, g, k, exec, quiet);
      SamePlace(items, p, k, s, b.next[s]);
    }
    forall t | 0 <= t < |p.queues| ensures StreamOk(items, m, p, b', g', t) {
      assert StreamOk(items, m, p, b, g, t);
      if t != s && b.held[t].Some? { assert Owned(items, p, p.queues[t][b.next[t] - 1], t, b.next[t] - 1); }
    }
    forall i, a | 0 <= i < m && 0 <= a < |b'.collected[i]| ensures EntryOk(items, m, p, b', g', b'.collected[i][a], i, a) {
      assert EntryOk(items, m, p, b, g, b.collected[i][a], i, a);
    }
  }

  lemma {:induction false} HandInKeepsInv(items: seq<Work>, m: nat, p: Plan, b: Board, g: Log, exec: Oracle, quiet: bool,
                                          s: nat)
    requires Inv(items, m, p, b, g, exec, quiet)
    requires s < |p.queues| && b.held[s].Some?
    ensures 0 < b.next[s] <= |p.queues[s]|
    ensures var w := p.queues[s][b.next[s] - 1];
            && w.order < |items| && w.at.spec < m
            && var (b', g') := HandedIn(b, g, s, w);
               Inv(items, m, p, b', g', exec, quiet)
  {
    assert StreamOk(items, m, p, b, g, s);
    var j := b.next[s] - 1;
    var w := p.queues[s][j];
    assert Owned(items, p, w, s, j);
    var (b', g') := HandedIn(b, g, s, w);
    forall k | 0 <= k < |items| ensures ItemOk(items, m, p, b', g', k, exec, quiet) {
      assert ItemOk(items, m, p, b, g, k, exec, quiet);
      SamePlace(items, p, k, s, j);
    }
    forall t | 0 <= t < |p.queues| ensures StreamOk(items, m, p, b', g', t) {
      assert StreamOk(items, m, p, b, g, t);
    }
    forall i, a | 0 <= i < m && 0 <= a < |b'.collected[i]| ensures EntryOk(items, m, p, b', g', b'.collected[i][a], i, a) {
      if i != w.at.spec || a < |b.collected[i]| { assert EntryOk(items, m, p, b, g, b.collected[i][a], i, a); }
    }
  }
}
