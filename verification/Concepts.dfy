/** Concept expansion (src/spec/spec_parser.cpp) and the resolution of the arguments that
    remain dynamic when a step runs (src/engine/execution_engine.cpp). */
module Concepts {
  import opened Text


  /** `<table:..>` and `<file:..>` arguments are `Special`: expansion never looks at them. */
  datatype Arg =
    | Static(value: string)
    | Dynamic(name: string)
    | Special(isTable: bool, path: string)
    | Table(cells: seq<seq<string>>)

  datatype Step = Step(parameterizedText: string, args: seq<Arg>, isConcept: bool, conceptSteps: seq<Step>)

  datatype Concept = Concept(params: seq<string>, steps: seq<Step>)

  type Dictionary = map<string, Concept>

  const MAX_DEPTH := 16

  // ---------------------------------------------------------------- expansion

  /** Parameter name to argument; of equal names the last one wins. */
  function Binding(params: seq<string>, args: seq<Arg>, n: nat): map<string, Arg>
    requires n <= |params| && n <= |args|
  {
    if n == 0 then map[] else Binding(params, args, n - 1)[params[n - 1] := args[n - 1]]
  }

  /** A parameter stands for the argument at its own position, or at the last position of its name. */
  lemma {:induction false} BindingMeaning(params: seq<string>, args: seq<Arg>, n: nat, i: nat)
    requires i < n <= |params| && n <= |args|
    requires forall j :: i < j < n ==> params[j] != params[i]
    ensures params[i] in Binding(params, args, n) && Binding(params, args, n)[params[i]] == args[i]
  {
    if i < n - 1 { BindingMeaning(params, args, n - 1, i); }
  }

  lemma {:induction false} OnlyParamsBound(params: seq<string>, args: seq<Arg>, n: nat, x: string)
    requires n <= |params| && n <= |args| && x in Binding(params, args, n)
    ensures exists i :: 0 <= i < n && params[i] == x
  {
    if params[n - 1] != x { OnlyParamsBound(params, args, n - 1, x); }
  }

  function Bind(def: Concept, args: seq<Arg>): map<string, Arg> {
    Binding(def.params, args, Min(|def.params|, |args|))
  }

  function Substituted(a: Arg, binding: map<string, Arg>): Arg {
    if a.Dynamic? && a.name in binding then binding[a.name] else a
  }

  function SubstitutedAll(args: seq<Arg>, binding: map<string, Arg>): (r: seq<Arg>)
    ensures |r| == |args| && forall i :: 0 <= i < |args| ==> r[i] == Substituted(args[i], binding)
  {
    if args == [] then [] else [Substituted(args[0], binding)] + SubstitutedAll(args[1..], binding)
  }

  function Expand(dict: Dictionary, step: Step, depth: nat): Step
    decreases if depth > MAX_DEPTH then 0 else MAX_DEPTH + 1 - depth, 0
  {
    if depth > MAX_DEPTH || step.parameterizedText !in dict then step
    else
      var def := dict[step.parameterizedText];
      step.(isConcept := true, conceptSteps := ExpandBody(dict, def.steps, Bind(def, step.args), depth))
  }

  function ExpandBody(dict: Dictionary, steps: seq<Step>, binding: map<string, Arg>, depth: nat): (r: seq<Step>)
    requires depth <= MAX_DEPTH
    ensures |r| == |steps|
    decreases MAX_DEPTH - depth, |steps| + 1
  {
    if steps == [] then []
    else
      var s := steps[0].(args := SubstitutedAll(steps[0].args, binding));
      [Expand(dict, s, depth + 1)] + ExpandBody(dict, steps[1..], binding, depth)
  }

  /** The source rewrites `step` in place; here the rewritten step is returned. */
  method ExpandConcept(dict: Dictionary, step: Step, depth: nat) returns (r: Step)
    ensures r == Expand(dict, step, depth)
    decreases if depth > MAX_DEPTH then 0 else MAX_DEPTH + 1 - depth, 1
  {
    r := step;
    if depth > MAX_DEPTH { return; }
    if step.parameterizedText !in dict { return; }
    var def := dict[step.parameterizedText];
    var binding := BindParams(def, step.args);
    var inner := ExpandSteps(dict, def.steps, binding, depth);
    r := step.(isConcept := true, conceptSteps := inner);
  }

  method ExpandSteps(dict: Dictionary, steps: seq<Step>, binding: map<string, Arg>, depth: nat) returns (out: seq<Step>)
    requires depth <= MAX_DEPTH
    ensures out == ExpandBody(dict, steps, binding, depth)
    decreases MAX_DEPTH + 1 - depth, 0
  {
    ghost var all := ExpandBody(dict, steps, binding, depth);
    out := [];
    var k := 0;
    while k < |steps|
      invariant 0 <= k <= |steps| == |all|
      invariant out == all[..k]
    {
      var resolved := Substitute(steps[k], binding);
      var expanded := ExpandConcept(dict, resolved, depth + 1);
      BodyAt(dict, steps, k, binding, depth);
      out := out + [expanded];
      k := k + 1;
    }
  }

  method BindParams(def: Concept, args: seq<Arg>) returns (binding: map<string, Arg>)
    ensures binding == Bind(def, args)
  {
    binding := map[];
    var i := 0;
    while i < |def.params| && i < |args|
      invariant 0 <= i <= Min(|def.params|, |args|)
      invariant binding == Binding(def.params, args, i)
    {
      binding := binding[def.params[i] := args[i]];
      i := i + 1;
    }
  }

  method Substitute(inner: Step, binding: map<string, Arg>) returns (resolved: Step)
    ensures resolved == inner.(args := SubstitutedAll(inner.args, binding))
  {
    resolved := inner;
    var j := 0;
    while j < |resolved.args|
      invariant 0 <= j <= |resolved.args| == |inner.args|
      invariant resolved == inner.(args := resolved.args)
      invariant forall m :: 0 <= m < j ==> resolved.args[m] == Substituted(inner.args[m], binding)
      invariant resolved.args[j..] == inner.args[j..]
    {
      assert resolved.args[j] == resolved.args[j..][0] == inner.args[j];
      if resolved.args[j].Dynamic? && resolved.args[j].name in binding {
        resolved := resolved.(args := resolved.args[j := binding[resolved.args[j].name]]);
      }
      j := j + 1;
    }
    assert resolved.args == SubstitutedAll(inner.args, binding);
  }

  lemma {:induction false} BodyAt(dict: Dictionary, steps: seq<Step>, k: nat, binding: map<string, Arg>, depth: nat)
    requires k < |steps| && depth <= MAX_DEPTH
    ensures var s := steps[k].(args := SubstitutedAll(steps[k].args, binding));
            ExpandBody(dict, steps, binding, depth)[k] == Expand(dict, s, depth + 1)
  {
    if k > 0 { BodyAt(dict, steps[1..], k - 1, binding, depth); }
  }

  // ---------------------------------------------------------------- running an expanded step

  /** What reaches the runner: the text it matches on and the argument values. */
  datatype Call = Call(parameterizedText: string, args: seq<Arg>)

  /** `files` gives the content of the special arguments that can be read. */
  function Resolve(a: Arg, row: map<string, string>, files: map<Arg, Arg>): Arg {
    match a
    case Dynamic(name) => if name in row then Static(row[name]) else a
    case Special(_, _) => if a in files then files[a] else a
    case _ => a
  }

  function ResolveAll(args: seq<Arg>, row: map<string, string>, files: map<Arg, Arg>): (r: seq<Arg>)
    ensures |r| == |args| && forall i :: 0 <= i < |args| ==> r[i] == Resolve(args[i], row, files)
  {
    if args == [] then [] else [Resolve(args[0], row, files)] + ResolveAll(args[1..], row, files)
  }

  method ResolveArgs(args: seq<Arg>, row: map<string, string>, files: map<Arg, Arg>) returns (r: seq<Arg>)
    ensures r == ResolveAll(args, row, files)
  {
    r := args;
    var i := 0;
    while i < |r|
      invariant 0 <= i <= |r| == |args|
      invariant forall m :: 0 <= m < i ==> r[m] == Resolve(args[m], row, files)
      invariant r[i..] == args[i..]
    {
      assert r[i] == r[i..][0] == args[i];
      match r[i] {
        case Dynamic(name) => if name in row { r := r[i := Static(row[name])]; }
        case Special(_, _) => if r[i] in files { r := r[i := files[r[i]]]; }
        case _ =>
      }
      i := i + 1;
    }
    assert r == ResolveAll(args, row, files);
  }

  /** The calls made by a step that never fails, in order: a concept runs its inner steps. */
  function Calls(step: Step, row: map<string, string>, files: map<Arg, Arg>): seq<Call>
    decreases step, 0
  {
    if step.isConcept then CallsAll(step.conceptSteps, row, files)
    else [Call(step.parameterizedText, ResolveAll(step.args, row, files))]
  }

  function CallsAll(steps: seq<Step>, row: map<string, string>, files: map<Arg, Arg>): seq<Call>
    decreases steps, 1
  {
    if steps == [] then [] else Calls(steps[0], row, files) + CallsAll(steps[1..], row, files)
  }

  // ---------------------------------------------------------------- the environment semantics

  /** A name means its value in the concept's scope, and otherwise the cell of the data row. */
  function Eval(a: Arg, env: map<string, Arg>, row: map<string, string>, files: map<Arg, Arg>): Arg {
    if a.Dynamic? && a.name in env then env[a.name] else Resolve(a, row, files)
  }

  function EvalAll(args: seq<Arg>, env: map<string, Arg>, row: map<string, string>, files: map<Arg, Arg>): (r: seq<Arg>)
    ensures |r| == |args| && forall i :: 0 <= i < |args| ==> r[i] == Eval(args[i], env, row, files)
  {
    if args == [] then [] else [Eval(args[0], env, row, files)] + EvalAll(args[1..], env, row, files)
  }

  /** A step named by `text` and called with the values `vals`, nested `depth` concepts deep. */
  function Meaning(dict: Dictionary, text: string, vals: seq<Arg>, depth: nat,
                   row: map<string, string>, files: map<Arg, Arg>): seq<Call>
    decreases if depth > MAX_DEPTH then 0 else MAX_DEPTH + 1 - depth, 0
  {
    if depth > MAX_DEPTH || text !in dict then [Call(text, vals)]
    else MeaningBody(dict, dict[text].steps, Bind(dict[text], vals), depth, row, files)
  }

  function MeaningBody(dict: Dictionary, steps: seq<Step>, env: map<string, Arg>, depth: nat,
                       row: map<string, string>, files: map<Arg, Arg>): seq<Call>
    requires depth <= MAX_DEPTH
    decreases MAX_DEPTH - depth, |steps| + 1
  {
    if steps == [] then []
    else
      Meaning(dict, steps[0].parameterizedText, EvalAll(steps[0].args, env, row, files), depth + 1, row, files)
      + MeaningBody(dict, steps[1..], env, depth, row, files)
  }

  /** Dictionary steps are as parsed: not yet expanded. */
  ghost predicate Raw(dict: Dictionary) {
    forall c :: c in dict ==> RawSteps(dict[c].steps)
  }

  ghost predicate RawSteps(steps: seq<Step>) {
    forall i :: 0 <= i < |steps| ==> !steps[i].isConcept
  }

  // ---------------------------------------------------------------- expansion preserves meaning

  ghost predicate SameNames(binding: map<string, Arg>, env: map<string, Arg>,
                            row: map<string, string>, files: map<Arg, Arg>) {
    binding.Keys == env.Keys && forall x :: x in binding ==> env[x] == Resolve(binding[x], row, files)
  }

  lemma {:induction false} BindingCommutes(params: seq<string>, args: seq<Arg>, n: nat,
                                           row: map<string, string>, files: map<Arg, Arg>)
    requires n <= |params| && n <= |args|
    ensures SameNames(Binding(params, args, n), Binding(params, ResolveAll(args, row, files), n), row, files)
  {
    if n > 0 { BindingCommutes(params, args, n - 1, row, files); }
  }

  lemma {:induction false} SubstituteThenResolve(args: seq<Arg>, binding: map<string, Arg>, env: map<string, Arg>,
                              row: map<string, string>, files: map<Arg, Arg>)
    requires SameNames(binding, env, row, files)
    ensures ResolveAll(SubstitutedAll(args, binding), row, files) == EvalAll(args, env, row, files)
  {
  }

  lemma {:induction false} ExpansionMeaning(dict: Dictionary, step: Step, depth: nat,
                                            row: map<string, string>, files: map<Arg, Arg>)
    requires Raw(dict) && !step.isConcept
    ensures Calls(Expand(dict, step, depth), row, files)
         == Meaning(dict, step.parameterizedText, ResolveAll(step.args, row, files), depth, row, files)
    decreases if depth > MAX_DEPTH then 0 else MAX_DEPTH + 1 - depth, 0
  {
    if depth <= MAX_DEPTH && step.parameterizedText in dict {
      var def := dict[step.parameterizedText];
      var binding, env := Bind(def, step.args), Bind(def, ResolveAll(step.args, row, files));
      BindingCommutes(def.params, step.args, Min(|def.params|, |step.args|), row, files);
      BodyMeaning(dict, def.steps, binding, env, depth, row, files);
    }
  }

  lemma {:induction false} BodyMeaning(dict: Dictionary, steps: seq<Step>, binding: map<string, Arg>, env: map<string, Arg>,
                                       depth: nat, row: map<string, string>, files: map<Arg, Arg>)
    requires Raw(dict) && RawSteps(steps) && depth <= MAX_DEPTH && SameNames(binding, env, row, files)
    ensures CallsAll(ExpandBody(dict, steps, binding, depth), row, files)
         == MeaningBody(dict, steps, env, depth, row, files)
    decreases MAX_DEPTH - depth, |steps| + 1
  {
    if steps != [] {
      FirstMeaning(dict, steps[0], binding, env, depth, row, files);
      BodyMeaning(dict, steps[1..], binding, env, depth, row, files);
      var s := steps[0].(args := SubstitutedAll(steps[0].args, binding));
      CallsCons(Expand(dict, s, depth + 1), ExpandBody(dict, steps[1..], binding, depth), row, files);
    }
  }

  lemma {:induction false} FirstMeaning(dict: Dictionary, inner: Step, binding: map<string, Arg>, env: map<string, Arg>,
                                        depth: nat, row: map<string, string>, files: map<Arg, Arg>)
    requires Raw(dict) && !inner.isConcept && depth <= MAX_DEPTH && SameNames(binding, env, row, files)
    ensures Calls(Expand(dict, inner.(args := SubstitutedAll(inner.args, binding)), depth + 1), row, files)
         == Meaning(dict, inner.parameterizedText, EvalAll(inner.args, env, row, files), depth + 1, row, files)
    decreases MAX_DEPTH - depth, 1
  {
    SubstituteThenResolve(inner.args, binding, env, row, files);
    ExpansionMeaning(dict, inner.(args := SubstitutedAll(inner.args, binding)), depth + 1, row, files);
  }

  lemma {:induction false} CallsCons(first: Step, rest: seq<Step>, row: map<string, string>, files: map<Arg, Arg>)
    ensures CallsAll([first] + rest, row, files) == Calls(first, row, files) + CallsAll(rest, row, files)
  {
    assert ([first] + rest)[0] == first && ([first] + rest)[1..] == rest;
  }

  // ---------------------------------------------------------------- the depth bound

  /** No call reached from `text` is nested in more than `n` concepts. */
  predicate Nests(dict: Dictionary, text: string, n: nat)
    decreases n, 0
  {
    text !in dict || (n > 0 && NestsAll(dict, dict[text].steps, n - 1))
  }

  predicate NestsAll(dict: Dictionary, steps: seq<Step>, n: nat)
    decreases n, |steps| + 1
  {
    steps == [] || (Nests(dict, steps[0].parameterizedText, n) && NestsAll(dict, steps[1..], n))
  }

  /** Every leaf of the tree is an ordinary step. */
  predicate FullyExpanded(dict: Dictionary, step: Step)
    decreases step, 0
  {
    if step.isConcept then FullyExpandedAll(dict, step.conceptSteps) else step.parameterizedText !in dict
  }

  predicate FullyExpandedAll(dict: Dictionary, steps: seq<Step>)
    decreases steps, 1
  {
    steps == [] || (FullyExpanded(dict, steps[0]) && FullyExpandedAll(dict, steps[1..]))
  }

  /** Expansion always ends; it leaves no concept unexpanded exactly when concepts nest at most 17 deep. */
  lemma {:induction false} CompleteIff(dict: Dictionary, step: Step, depth: nat)
    requires Raw(dict) && !step.isConcept && depth <= MAX_DEPTH + 1
    ensures FullyExpanded(dict, Expand(dict, step, depth))
       <==> Nests(dict, step.parameterizedText, MAX_DEPTH + 1 - depth)
    decreases MAX_DEPTH + 1 - depth, 0
  {
    if depth <= MAX_DEPTH && step.parameterizedText in dict {
      var def := dict[step.parameterizedText];
      CompleteBody(dict, def.steps, Bind(def, step.args), depth);
    }
  }

  lemma {:induction false} CompleteBody(dict: Dictionary, steps: seq<Step>, binding: map<string, Arg>, depth: nat)
    requires Raw(dict) && RawSteps(steps) && depth <= MAX_DEPTH
    ensures FullyExpandedAll(dict, ExpandBody(dict, steps, binding, depth)) <==> NestsAll(dict, steps, MAX_DEPTH - depth)
    decreases MAX_DEPTH - depth, |steps| + 1
  {
    if steps != [] {
      var s := steps[0].(args := SubstitutedAll(steps[0].args, binding));
      CompleteIff(dict, s, depth + 1);
      CompleteBody(dict, steps[1..], binding, depth);
      var first, rest := Expand(dict, s, depth + 1), ExpandBody(dict, steps[1..], binding, depth);
      assert ([first] + rest)[0] == first && ([first] + rest)[1..] == rest;
    }
  }

  /** The height of the tree of nested concepts. */
  function Height(step: Step): nat
    decreases step, 0
  {
    if step.isConcept then 1 + HeightAll(step.conceptSteps) else 0
  }

  function HeightAll(steps: seq<Step>): nat
    decreases steps, 1
  {
    if steps == [] then 0
    else var h, r := Height(steps[0]), HeightAll(steps[1..]); if h > r then h else r
  }

  lemma {:induction false} ExpansionIsBounded(dict: Dictionary, step: Step, depth: nat)
    requires Raw(dict) && !step.isConcept && depth <= MAX_DEPTH + 1
    ensures Height(Expand(dict, step, depth)) <= MAX_DEPTH + 1 - depth
    decreases MAX_DEPTH + 1 - depth, 0
  {
    if depth <= MAX_DEPTH && step.parameterizedText in dict {
      var def := dict[step.parameterizedText];
      BodyIsBounded(dict, def.steps, Bind(def, step.args), depth);
    }
  }

  lemma {:induction false} BodyIsBounded(dict: Dictionary, steps: seq<Step>, binding: map<string, Arg>, depth: nat)
    requires Raw(dict) && RawSteps(steps) && depth <= MAX_DEPTH
    ensures HeightAll(ExpandBody(dict, steps, binding, depth)) <= MAX_DEPTH - depth
    decreases MAX_DEPTH - depth, |steps| + 1
  {
    if steps != [] {
      var s := steps[0].(args := SubstitutedAll(steps[0].args, binding));
      ExpansionIsBounded(dict, s, depth + 1);
      BodyIsBounded(dict, steps[1..], binding, depth);
      var first, rest := Expand(dict, s, depth + 1), ExpandBody(dict, steps[1..], binding, depth);
      assert ([first] + rest)[0] == first && ([first] + rest)[1..] == rest;
    }
  }

  // ---------------------------------------------------------------- cycles

  predicate CallsStep(dict: Dictionary, text: string, called: string) {
    text in dict && exists i :: 0 <= i < |dict[text].steps| && dict[text].steps[i].parameterizedText == called
  }

  /** Each concept of the path has a step that names the next one. */
  predicate Path(dict: Dictionary, path: seq<string>) {
    && (forall i :: 0 <= i < |path| ==> path[i] in dict)
    && (forall i :: 0 <= i < |path| - 1 ==> CallsStep(dict, path[i], path[i + 1]))
  }

  /** The path leads from `text` into a cycle: its last concept occurs at `c` already. */
  predicate IntoCycle(dict: Dictionary, text: string, path: seq<string>, c: nat) {
    Path(dict, path) && c < |path| - 1 && path[0] == text && path[|path| - 1] == path[c]
  }

  lemma {:induction false} NotAlongPath(dict: Dictionary, text: string, path: seq<string>, c: nat, i: nat, n: nat)
    requires IntoCycle(dict, text, path, c) && i < |path|
    ensures !Nests(dict, path[i], n)
    decreases n
  {
    var k := if i == |path| - 1 then c else i;
    if n > 0 {
      NotAlongPath(dict, text, path, c, k + 1, n - 1);
      assert CallsStep(dict, path[k], path[k + 1]);
      var j :| 0 <= j < |dict[path[k]].steps| && dict[path[k]].steps[j].parameterizedText == path[k + 1];
      OneTooDeep(dict, dict[path[k]].steps, j, n - 1);
    }
  }

  lemma {:induction false} OneTooDeep(dict: Dictionary, steps: seq<Step>, i: nat, n: nat)
    requires i < |steps| && !Nests(dict, steps[i].parameterizedText, n)
    ensures !NestsAll(dict, steps, n)
  {
    if i > 0 { OneTooDeep(dict, steps[1..], i - 1, n); }
  }

  lemma {:induction false} DeepOne(dict: Dictionary, steps: seq<Step>, n: nat) returns (i: nat)
    requires !NestsAll(dict, steps, n)
    ensures i < |steps| && !Nests(dict, steps[i].parameterizedText, n)
    decreases |steps|
  {
    i := 0;
    if Nests(dict, steps[0].parameterizedText, n) {
      i := DeepOne(dict, steps[1..], n);
      i := i + 1;
    }
  }

  /** What nests more than `n` deep has a path of more than `n` concepts. */
  lemma {:induction false} DeepPath(dict: Dictionary, text: string, n: nat) returns (path: seq<string>)
    requires !Nests(dict, text, n)
    ensures Path(dict, path) && |path| == n + 1 && path[0] == text
    decreases n
  {
    path := [text];
    if n > 0 {
      var steps := dict[text].steps;
      var i := DeepOne(dict, steps, n - 1);
      var rest := DeepPath(dict, steps[i].parameterizedText, n - 1);
      path := [text] + rest;
      forall j | 0 <= j < |path| - 1 ensures CallsStep(dict, path[j], path[j + 1]) {
        if j > 0 { assert CallsStep(dict, rest[j - 1], rest[j]); }
      }
    }
  }

  /** More names than there are concepts contain one twice. */
  lemma {:induction false} NameTwice(names: seq<string>, keys: set<string>) returns (a: nat, b: nat)
    requires |names| > |keys| && forall i :: 0 <= i < |names| ==> names[i] in keys
    ensures a < b < |names| && names[a] == names[b]
    decreases |names|
  {
    b := |names| - 1;
    var last, init := names[b], names[..b];
    if i :| 0 <= i < b && init[i] == last {
      a := i;
    } else {
      forall i | 0 <= i < b ensures init[i] in keys - {last} { assert init[i] == names[i] && init[i] in keys; }
      a, b := NameTwice(init, keys - {last});
    }
  }

  /** No depth is enough to expand the concept fully. */
  ghost predicate Endless(dict: Dictionary, text: string) {
    forall n: nat :: !Nests(dict, text, n)
  }

  ghost predicate LeadsIntoCycle(dict: Dictionary, text: string) {
    exists path: seq<string>, c: nat :: IntoCycle(dict, text, path, c)
  }

  /** A concept is cut off at every depth exactly if it leads into a cycle, of whatever length. */
  lemma {:induction false} CutOffIffCycle(dict: Dictionary, text: string)
    ensures Endless(dict, text) <==> LeadsIntoCycle(dict, text)
  {
    if LeadsIntoCycle(dict, text) {
      var path: seq<string>, c: nat :| IntoCycle(dict, text, path, c);
      forall n: nat ensures !Nests(dict, text, n) { NotAlongPath(dict, text, path, c, 0, n); }
    } else if Endless(dict, text) {
      assert !Nests(dict, text, |dict.Keys|);
      var path, c := FindCycle(dict, text);
    }
  }

  lemma {:induction false} FindCycle(dict: Dictionary, text: string) returns (path: seq<string>, c: nat)
    requires !Nests(dict, text, |dict.Keys|)
    ensures IntoCycle(dict, text, path, c)
  {
    var long := DeepPath(dict, text, |dict.Keys|);
    assert forall i :: 0 <= i < |long| ==> long[i] in dict.Keys;
    var b;
    c, b := NameTwice(long, dict.Keys);
    path := long[..b + 1];
    PathPrefix(dict, long, b + 1);
  }

  lemma {:induction false} PathPrefix(dict: Dictionary, path: seq<string>, n: nat)
    requires Path(dict, path) && n <= |path|
    ensures Path(dict, path[..n])
  {
    forall i | 0 <= i < n - 1 ensures CallsStep(dict, path[..n][i], path[..n][i + 1]) {
      assert CallsStep(dict, path[i], path[i + 1]);
    }
  }
}
