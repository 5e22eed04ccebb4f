/** The generated JavaScript of an expression evaluates to the meaning of the expression. */
module HandlebarsMeaning {
  import opened Outcomes
  import opened HandlebarsAst
  import opened HandlebarsCompiler
  import opened HandlebarsMachine
  import opened HandlebarsTranslation

  datatype CallOptionValues<V> = CallOptionValues(name: Option<string>, hash: V, programs: Option<(V, V)>)

  /** The runtime a template runs in. Helpers are taken as functions of what they receive.
      `isText` tells values that `+` turns into a string: strings, and the objects whose
      primitive value is one; `text` is the string that `+` makes of a value next to one. */
  datatype World<!V> = World(
    context: nat -> V, data: nat -> V, blockParam: (nat, nat) -> V,
    quoted: string -> V, word: string -> V, number: real -> V, boolean: bool -> V,
    record: map<string, V> -> V, program: nat -> V,
    member: (V, string) -> V, nullish: V -> bool, truthy: V -> bool, isFunction: V -> bool,
    lambda: V -> V, helper: string -> V, helperMissing: V,
    call: (V, seq<V>, CallOptionValues<V>) -> V,
    blockHelperMissing: (V, Option<CallOptionValues<V>>) -> V,
    partial: string -> V, invokePartial: (V, V, CallOptionValues<V>, string) -> V,
    escaped: V -> V, plus: (V, V) -> V, isText: V -> bool, text: V -> string)

  /** The values of the stack variables, and what the variable `options` holds. */
  datatype Env<V> = Env(vars: map<nat, V>, options: Option<CallOptionValues<V>>)

  // ---------- evaluation of generated code ----------

  function Read<V>(env: Env<V>, slot: nat, w: World<V>): V {
    if slot in env.vars then env.vars[slot] else w.word("undefined")
  }

  function Assign<V>(env: Env<V>, slot: nat, v: V): Env<V> {
    env.(vars := env.vars[slot := v])
  }

  function Eval<V>(c: JsExpr, env: Env<V>, w: World<V>): (V, Env<V>)
    decreases c, 1
  {
    match c
    case Context(depth) => (w.context(depth), env)
    case Data(depth) => (w.data(depth), env)
    case BlockParam(frame, index) => (w.blockParam(frame, index), env)
    case Quoted(text) => (w.quoted(text), env)
    case Word(word) => (w.word(word), env)
    case Number(number) => (w.number(number), env)
    case Boolean(truth) => (w.boolean(truth), env)
    case NoProgram => (w.word("null"), env)
    case ProgramRef(guid) => (w.program(guid), env)
    case Undefined => (w.word("undefined"), env)
    case EmptyObject => (w.record(map[]), env)
    case ObjectLiteral(fields) => var r := EvalFields(fields, map[], env, w); (w.record(r.0), r.1)
    case StackVar(slot) => (Read(env, slot, w), env)
    case AssignStack(slot, value) => var r := Eval(value, env, w); (r.0, Assign(r.1, slot, r.0))
    case Member(base, name) => var r := Eval(base, env, w); (w.member(r.0, name), r.1)
    case IfNotNull(test, yes, no) =>
      var r := Eval(test, env, w);
      if w.nullish(r.0) then Eval(no, r.1, w) else Eval(yes, r.1, w)
    case And(left, right) => var r := Eval(left, env, w); if w.truthy(r.0) then Eval(right, r.1, w) else r
    case Or(left, right) => var r := Eval(left, env, w); if w.truthy(r.0) then r else Eval(right, r.1, w)
    case Lambda(lambda) => var r := Eval(lambda, env, w); (w.lambda(r.0), r.1)
    case HelperRef(helper) => (w.helper(helper), env)
    case HelperMissing => (w.helperMissing, env)
    case HelperCall(callee, args, options) =>
      var f := Eval(callee, env, w);
      var a := EvalAll(args, f.1, w);
      var o := EvalOptions(options, a.1, w);
      (w.call(f.0, a.0, o.0), o.1)
    case AmbiguousCall(helper, nonHelper, options, keepsOptions) =>
      var found := w.helper(helper);
      var h := if w.truthy(found) then (found, env) else Eval(nonHelper, env, w);
      var f := if w.nullish(h.0) then w.helperMissing else h.0;
      var o := EvalOptions(options, h.1, w);
      if keepsOptions then (if w.isFunction(f) then w.call(f, [], o.0) else f, o.1.(options := Some(o.0)))
      else if w.isFunction(f) then (w.call(f, [], o.0), o.1)
      else (f, h.1)
    case BlockHelperMissing(value, Kept) =>
      var v := Eval(value, env, w);
      (w.blockHelperMissing(v.0, v.1.options), v.1)
    case BlockHelperMissing(value, Literally(options)) =>
      var v := Eval(value, env, w);
      var o := EvalOptions(options, v.1, w);
      (w.blockHelperMissing(v.0, Some(o.0)), o.1)
    case PartialRef(partial) => (w.partial(partial), env)
    case PartialCall(callee, context, options, dynamic, indent) =>
      var f := Eval(callee, env, w);
      var x := Eval(context, f.1, w);
      var o := EvalOptions(options, x.1, w);
      (w.invokePartial(f.0, x.0, o.0, indent), o.1)
  }

  function EvalOptions<V>(o: CallOptions, env: Env<V>, w: World<V>): (CallOptionValues<V>, Env<V>)
    decreases o, 2
  {
    var hash := Eval(o.hash, env, w);
    match o.programs
    case None => (CallOptionValues(o.name, hash.0, None), hash.1)
    case Some(p) =>
      var f := Eval(p.0, hash.1, w);
      var i := Eval(p.1, f.1, w);
      (CallOptionValues(o.name, hash.0, Some((f.0, i.0))), i.1)
  }

  function EvalAll<V>(cs: seq<JsExpr>, env: Env<V>, w: World<V>): (seq<V>, Env<V>)
    decreases cs, 0
  {
    if cs == [] then ([], env)
    else
      var head := Eval(cs[0], env, w);
      var tail := EvalAll(cs[1..], head.1, w);
      ([head.0] + tail.0, tail.1)
  }

  function EvalFields<V>(fields: seq<Field>, known: map<string, V>, env: Env<V>, w: World<V>): (map<string, V>, Env<V>)
    decreases fields, 0
  {
    if fields == [] then (known, env)
    else
      var head := Eval(fields[0].value, env, w);
      EvalFields(fields[1..], known[fields[0].key := head.0], head.1, w)
  }

  // ---------- the meaning of a template ----------

  /** One step of a path: a null value, or with `falsy` any falsy value, is kept. */
  function Find<V>(v: V, name: string, falsy: bool, w: World<V>): V {
    if (if falsy then !w.truthy(v) else w.nullish(v)) then v else w.member(v, name)
  }

  function FindAll<V>(v: V, parts: seq<string>, falsy: bool, w: World<V>): V
    decreases |parts|
  {
    if parts == [] then v else FindAll(Find(v, parts[0], falsy, w), parts[1..], falsy, w)
  }

  function MeanPath<V>(path: Path, falsy: bool, scope: Scope, w: World<V>): V {
    var blockParam :=
      if path.depth == 0 && !ScopedId(path) && path.parts != []
      then BlockParamIndex(scope.blockParams, path.parts[0]) else None;
    if blockParam.Some? then FindAll(w.blockParam(blockParam.value.0, blockParam.value.1), path.parts[1..], false, w)
    else if path.parts == [] || path.parts[0] == "" then w.context(path.depth)
    else if path.data then FindAll(w.data(path.depth), path.parts, true, w)
    else FindAll(w.context(path.depth), path.parts, falsy, w)
  }

  function MeanExpr<V>(e: Expr, scope: Scope, w: World<V>): V
    decreases e, 1
  {
    match e
    case PathExpression(path) => MeanPath(path, false, scope, w)
    case StringLiteral(text) => w.quoted(text)
    case NumberLiteral(number) => w.number(number)
    case BooleanLiteral(truth) => w.boolean(truth)
    case UndefinedLiteral => w.word("undefined")
    case NullLiteral => w.word("null")
    case SubExpression(call) => MeanCall(call, true, None, None, scope, w)
  }

  function ProgramOrNoop<V>(program: Option<nat>, w: World<V>): V {
    match program case None => w.word("container.noop") case Some(guid) => w.program(guid)
  }

  function MeanOptions<V>(name: string, hash: V, program: Option<nat>, inverse: Option<nat>,
                          w: World<V>): CallOptionValues<V> {
    CallOptionValues(Some(name), hash,
      if program.Some? || inverse.Some? then Some((ProgramOrNoop(program, w), ProgramOrNoop(inverse, w))) else None)
  }

  function MeanCall<V>(call: Call, isSubExpression: bool, program: Option<nat>, inverse: Option<nat>, scope: Scope,
                       w: World<V>): V
    decreases call, 2
  {
    var path := HeadToPath(call.head);
    match ClassifySexpr(call, isSubExpression, scope)
    case Simple => w.lambda(MeanPath(path, false, scope, w))
    case Ambiguous =>
      MeanAmbiguous(FirstPart(path), MeanPath(path, false, scope, w),
                    MeanOptions(FirstPart(path), w.record(map[]), program, inverse, w), w)
    case Helper =>
      MeanInvoke(path, MeanParams(call.params, scope, w), MeanHash(call.hash, false, scope, w), program,
                 inverse, scope, w)
  }

  /** A helper of that name, else the value of the path, else `helperMissing`; called if a function. */
  function MeanAmbiguous<V>(name: string, value: V, options: CallOptionValues<V>, w: World<V>): V {
    var h := if w.truthy(w.helper(name)) then w.helper(name) else value;
    var f := if w.nullish(h) then w.helperMissing else h;
    if w.isFunction(f) then w.call(f, [], options) else f
  }

  function MeanInvoke<V>(path: Path, args: seq<V>, hash: V, program: Option<nat>, inverse: Option<nat>,
                         scope: Scope, w: World<V>): V
  {
    if FirstPart(path) in scope.options.knownHelpers then
      w.call(w.helper(FirstPart(path)), args, MeanOptions(FirstPart(path), hash, program, inverse, w))
    else
      var value := MeanPath(path, true, scope, w);
      var f := if SimpleId(path) && w.truthy(w.helper(path.original)) then w.helper(path.original)
               else if w.truthy(value) then value else w.helperMissing;
      w.call(f, args, MeanOptions(path.original, hash, program, inverse, w))
  }

  function MeanParams<V>(params: seq<Expr>, scope: Scope, w: World<V>): seq<V>
    decreases params, 0
  {
    if params == [] then [] else [MeanExpr(params[0], scope, w)] + MeanParams(params[1..], scope, w)
  }

  function MeanHash<V>(hash: Hash, omitEmpty: bool, scope: Scope, w: World<V>): V
    decreases hash, 3
  {
    match hash
    case NoHash => if omitEmpty then w.word("undefined") else w.record(map[])
    case Hash(pairs) => w.record(MeanPairs(pairs, scope, w))
  }

  /** The first pair of a key wins; one that passes `undefined` leaves the key out. */
  function MeanPairs<V>(pairs: seq<Pair>, scope: Scope, w: World<V>): map<string, V>
    decreases pairs, 0
  {
    if pairs == [] then map[]
    else if pairs[0].value.UndefinedLiteral? then MeanPairs(pairs[1..], scope, w) - {pairs[0].key}
    else MeanPairs(pairs[1..], scope, w)[pairs[0].key := MeanExpr(pairs[0].value, scope, w)]
  }

  /** No hash of the expression has a key that the generated array cannot hold. */
  predicate Bindable(e: Expr)
    decreases e, 1
  {
    e.SubExpression? ==> BindableCall(e.call)
  }

  predicate BindableCall(call: Call)
    decreases call, 2
  {
    BindableAll(call.params) && BindableHash(call.hash)
  }

  predicate BindableAll(params: seq<Expr>)
    decreases params, 0
  {
    forall e <- params :: Bindable(e)
  }

  predicate BindableHash(hash: Hash)
    decreases hash, 3
  {
    hash.Hash? ==> forall p <- hash.pairs :: !SpecialKey(p.key) && Bindable(p.value)
  }

  // ---------- the translation evaluates to the meaning ----------

  /** Only the variable `slot` may differ. */
  ghost predicate Untouched<V(!new)>(after: Env<V>, before: Env<V>, slot: nat) {
    after.vars - {slot} == before.vars - {slot} && after.options == before.options
  }

  ghost predicate ComputesIn<V(!new)>(c: JsExpr, slot: nat, v: V, env: Env<V>, w: World<V>) {
    Eval(c, env, w).0 == v && Untouched(Eval(c, env, w).1, env, slot)
  }

  /** In every environment `c` evaluates to `v` and changes no variable but `slot`. */
  ghost predicate Computes<V(!new)>(c: JsExpr, slot: nat, v: V, w: World<V>) {
    forall env: Env<V> :: ComputesIn(c, slot, v, env, w)
  }

  lemma ApplyComputes<V(!new)>(entry: Entry, name: string, falsy: bool, slot: nat, v: V, w: World<V>)
    requires Computes(entry.value, slot, v, w)
    ensures var use := Use.Lookup(name, falsy);
            var code := if entry.Inlined? then Apply(entry.value, entry.value, use)
                        else Apply(AssignStack(slot, entry.value), StackVar(slot), use);
            Computes(code, slot, Find(v, name, falsy, w), w)
  {
    hide Eval;
    var e, use := entry.value, Use.Lookup(name, falsy);
    var code := if entry.Inlined? then Apply(e, e, use) else Apply(AssignStack(slot, e), StackVar(slot), use);
    forall env: Env<V> ensures ComputesIn(code, slot, Find(v, name, falsy, w), env, w) {
      assert ComputesIn(e, slot, v, env, w);
      if entry.Inlined? {
        InlinedApply(e, name, falsy, slot, v, env, w);
      } else {
        AssignedApply(e, name, falsy, slot, env, w);
        var r := Eval(e, env, w);
        assert Untouched(Assign(r.1, slot, r.0), r.1, slot);
      }
    }
  }

  lemma EvalMember<V(!new)>(base: JsExpr, name: string, env: Env<V>, w: World<V>)
    ensures Eval(Member(base, name), env, w) == (w.member(Eval(base, env, w).0, name), Eval(base, env, w).1)
  {
  }

  lemma EvalApply<V(!new)>(first: JsExpr, again: JsExpr, name: string, falsy: bool, env: Env<V>, w: World<V>)
    ensures var r := Eval(first, env, w);
            Eval(Apply(first, again, Use.Lookup(name, falsy)), env, w)
            == if falsy then (if w.truthy(r.0) then Eval(Member(again, name), r.1, w) else r)
               else if w.nullish(r.0) then Eval(again, r.1, w) else Eval(Member(again, name), r.1, w)
  {
  }

  lemma EvalAssign<V(!new)>(slot: nat, value: JsExpr, env: Env<V>, w: World<V>)
    ensures var r := Eval(value, env, w); Eval(AssignStack(slot, value), env, w) == (r.0, Assign(r.1, slot, r.0))
  {
  }

  lemma EvalStackVar<V(!new)>(slot: nat, env: Env<V>, w: World<V>)
    ensures Eval(StackVar(slot), env, w) == (Read(env, slot, w), env)
  {
  }

  lemma EvalObject<V(!new)>(fields: seq<Field>, env: Env<V>, w: World<V>)
    ensures var r := EvalFields(fields, map[], env, w); Eval(ObjectLiteral(fields), env, w) == (w.record(r.0), r.1)
  {
  }

  lemma InlinedApply<V(!new)>(e: JsExpr, name: string, falsy: bool, slot: nat, v: V, env: Env<V>, w: World<V>)
    requires Computes(e, slot, v, w)
    ensures ComputesIn(Apply(e, e, Use.Lookup(name, falsy)), slot, Find(v, name, falsy, w), env, w)
  {
    hide Eval, Apply;
    assert ComputesIn(e, slot, v, env, w);
    var r := Eval(e, env, w);
    assert ComputesIn(e, slot, v, r.1, w);
    EvalApply(e, e, name, falsy, env, w);
    EvalMember(e, name, r.1, w);
  }

  lemma AssignedApply<V(!new)>(e: JsExpr, name: string, falsy: bool, slot: nat, env: Env<V>, w: World<V>)
    ensures var r := Eval(e, env, w);
            Eval(Apply(AssignStack(slot, e), StackVar(slot), Use.Lookup(name, falsy)), env, w)
            == (Find(r.0, name, falsy, w), Assign(r.1, slot, r.0))
  {
    hide Eval, Apply;
    var r := Eval(e, env, w);
    var env1 := Assign(r.1, slot, r.0);
    EvalAssign(slot, e, env, w);
    EvalApply(AssignStack(slot, e), StackVar(slot), name, falsy, env, w);
    EvalStackVar(slot, env1, w);
    EvalMember(StackVar(slot), name, env1, w);
  }

  lemma {:induction false} LookupsCompute<V(!new)>(entry: Entry, parts: seq<string>, falsy: bool, slot: nat,
                                                   v: V, w: World<V>)
    requires Computes(entry.value, slot, v, w)
    ensures Computes(Lookups(entry, parts, falsy, slot).value, slot, FindAll(v, parts, falsy, w), w)
    decreases |parts|
  {
    if parts != [] {
      ApplyComputes(entry, parts[0], falsy, slot, v, w);
      var use := Use.Lookup(parts[0], falsy);
      var next := Code(if entry.Inlined? then Apply(entry.value, entry.value, use)
                       else Apply(AssignStack(slot, entry.value), StackVar(slot), use));
      LookupsCompute(next, parts[1..], falsy, slot, Find(v, parts[0], falsy, w), w);
    }
  }

  lemma PathComputes<V(!new)>(path: Path, falsy: bool, slot: nat, scope: Scope, w: World<V>)
    ensures Computes(TransPath(path, falsy, slot, scope).value, slot, MeanPath(path, falsy, scope, w), w)
  {
    var blockParam :=
      if path.depth == 0 && !ScopedId(path) && path.parts != []
      then BlockParamIndex(scope.blockParams, path.parts[0]) else None;
    if blockParam.Some? {
      var (frame, index) := blockParam.value;
      LookupsCompute(Code(BlockParam(frame, index)), path.parts[1..], false, slot, w.blockParam(frame, index), w);
    } else if path.parts != [] && path.parts[0] != "" {
      LookupsCompute(Inlined(Data(path.depth)), path.parts, true, slot, w.data(path.depth), w);
      LookupsCompute(Inlined(Context(path.depth)), path.parts, falsy, slot, w.context(path.depth), w);
    }
  }

  ghost predicate ComputesAll<V(!new)>(cs: seq<JsExpr>, slot: nat, vs: seq<V>, w: World<V>) {
    |cs| == |vs| && forall i :: 0 <= i < |cs| ==> Computes(cs[i], slot, vs[i], w)
  }

  lemma {:induction false} AllCompute<V(!new)>(cs: seq<JsExpr>, slot: nat, vs: seq<V>, env: Env<V>, w: World<V>)
    requires ComputesAll(cs, slot, vs, w)
    ensures EvalAll(cs, env, w).0 == vs && Untouched(EvalAll(cs, env, w).1, env, slot)
    decreases |cs|
  {
    hide Eval;
    if cs != [] {
      assert ComputesIn(cs[0], slot, vs[0], env, w);
      AllCompute(cs[1..], slot, vs[1..], Eval(cs[0], env, w).1, w);
    }
  }

  lemma OptionsCompute<V(!new)>(name: string, hash: JsExpr, hashed: V, program: Option<nat>, inverse: Option<nat>,
                                slot: nat, env: Env<V>, w: World<V>)
    requires Computes(hash, slot, hashed, w)
    ensures var r := EvalOptions(MakeOptions(name, hash, ProgramExpr(program), ProgramExpr(inverse)), env, w);
            r.0 == MeanOptions(name, hashed, program, inverse, w) && Untouched(r.1, env, slot)
  {
    assert ComputesIn(hash, slot, hashed, env, w);
  }

  /** As `env`, with `kept` in the variable `options` if something is. */
  function Keeping<V>(env: Env<V>, kept: Option<CallOptionValues<V>>): Env<V> {
    if kept.Some? then env.(options := kept) else env
  }

  ghost predicate ComputesKeepingIn<V(!new)>(c: JsExpr, slot: nat, v: V, kept: Option<CallOptionValues<V>>,
                                             env: Env<V>, w: World<V>) {
    Eval(c, env, w).0 == v && Untouched(Eval(c, env, w).1, Keeping(env, kept), slot)
  }

  /** As `Computes`, but `kept` stays behind in the variable `options`. */
  ghost predicate ComputesKeeping<V(!new)>(c: JsExpr, slot: nat, v: V, kept: Option<CallOptionValues<V>>, w: World<V>) {
    forall env: Env<V> :: ComputesKeepingIn(c, slot, v, kept, env, w)
  }

  lemma ComputesKeepsNothing<V(!new)>(c: JsExpr, slot: nat, v: V, w: World<V>)
    ensures ComputesKeeping(c, slot, v, None, w) <==> Computes(c, slot, v, w)
  {
    hide Eval;
    if Computes(c, slot, v, w) {
      forall env: Env<V> ensures ComputesKeepingIn(c, slot, v, None, env, w) {
        assert ComputesIn(c, slot, v, env, w);
      }
    }
    if ComputesKeeping(c, slot, v, None, w) {
      forall env: Env<V> ensures ComputesIn(c, slot, v, env, w) {
        assert ComputesKeepingIn(c, slot, v, None, env, w);
      }
    }
  }

  lemma AmbiguousComputes<V(!new)>(name: string, value: JsExpr, v: V, program: Option<nat>, inverse: Option<nat>,
                                   keeps: bool, slot: nat, w: World<V>)
    requires Computes(value, slot, v, w)
    ensures var options := MeanOptions(name, w.record(map[]), program, inverse, w);
            var code := MakeOptions(name, EmptyObject, ProgramExpr(program), ProgramExpr(inverse));
            ComputesKeeping(AmbiguousCall(name, value, code, keeps), slot, MeanAmbiguous(name, v, options, w),
                            if keeps then Some(options) else None, w)
  {
    var code := MakeOptions(name, EmptyObject, ProgramExpr(program), ProgramExpr(inverse));
    var options := MeanOptions(name, w.record(map[]), program, inverse, w);
    var kept := if keeps then Some(options) else None;
    forall env: Env<V>
      ensures ComputesKeepingIn(AmbiguousCall(name, value, code, keeps), slot,
                                MeanAmbiguous(name, v, options, w), kept, env, w)
    {
      AmbiguousIn(name, value, v, program, inverse, keeps, slot, env, w);
    }
  }

  lemma AmbiguousIn<V(!new)>(name: string, value: JsExpr, v: V, program: Option<nat>, inverse: Option<nat>,
                             keeps: bool, slot: nat, env: Env<V>, w: World<V>)
    requires Computes(value, slot, v, w)
    ensures var options := MeanOptions(name, w.record(map[]), program, inverse, w);
            var code := MakeOptions(name, EmptyObject, ProgramExpr(program), ProgramExpr(inverse));
            ComputesKeepingIn(AmbiguousCall(name, value, code, keeps), slot, MeanAmbiguous(name, v, options, w),
                              if keeps then Some(options) else None, env, w)
  {
    hide MakeOptions, MeanOptions, EvalOptions, Eval;
    EmptyComputes(slot, w);
    assert ComputesIn(value, slot, v, env, w);
    var options := MakeOptions(name, EmptyObject, ProgramExpr(program), ProgramExpr(inverse));
    OptionsCompute(name, EmptyObject, w.record(map[]), program, inverse, slot,
                   if w.truthy(w.helper(name)) then env else Eval(value, env, w).1, w);
    EvalAmbiguous(name, value, options, keeps, env, w);
  }

  lemma EvalAmbiguous<V(!new)>(name: string, value: JsExpr, options: CallOptions, keeps: bool, env: Env<V>, w: World<V>)
    ensures var h := if w.truthy(w.helper(name)) then (w.helper(name), env) else Eval(value, env, w);
            var f := if w.nullish(h.0) then w.helperMissing else h.0;
            var o := EvalOptions(options, h.1, w);
            Eval(AmbiguousCall(name, value, options, keeps), env, w)
            == if keeps then (if w.isFunction(f) then w.call(f, [], o.0) else f, o.1.(options := Some(o.0)))
               else if w.isFunction(f) then (w.call(f, [], o.0), o.1)
               else (f, h.1)
  {
    hide EvalOptions;
  }

  lemma EmptyComputes<V(!new)>(slot: nat, w: World<V>)
    ensures Computes(EmptyObject, slot, w.record(map[]), w)
  {
  }

  lemma OrComputes<V(!new)>(a: JsExpr, x: V, b: JsExpr, y: V, slot: nat, w: World<V>)
    requires Computes(a, slot, x, w) && Computes(b, slot, y, w)
    ensures Computes(Or(a, b), slot, if w.truthy(x) then x else y, w)
  {
    var either := if w.truthy(x) then x else y;
    forall env: Env<V> ensures ComputesIn(Or(a, b), slot, either, env, w) {
      assert ComputesIn(a, slot, x, env, w);
      assert ComputesIn(b, slot, y, Eval(a, env, w).1, w);
    }
  }

  lemma HelpersCompute<V(!new)>(name: string, slot: nat, w: World<V>)
    ensures Computes(HelperRef(name), slot, w.helper(name), w) && Computes(HelperMissing, slot, w.helperMissing, w)
  {
  }

  lemma InvokeComputes<V(!new)>(path: Path, args: seq<Entry>, vs: seq<V>, hash: JsExpr, hashed: V, program: Option<nat>,
                                inverse: Option<nat>, slot: nat, scope: Scope, w: World<V>)
    requires ComputesAll(Values(args), slot, vs, w) && Computes(hash, slot, hashed, w)
    ensures Computes(TransInvoke(path, args, ProgramExpr(program), ProgramExpr(inverse), hash, slot, scope), slot,
                     MeanInvoke(path, vs, hashed, program, inverse, scope, w), w)
  {
    hide Eval, Computes, MakeOptions, MeanOptions;
    var value := TransPath(path, true, slot, scope).value;
    var v := MeanPath(path, true, scope, w);
    PathComputes(path, true, slot, scope, w);
    HelpersCompute(FirstPart(path), slot, w);
    HelpersCompute(path.original, slot, w);
    if FirstPart(path) in scope.options.knownHelpers {
      CallComputes(HelperRef(FirstPart(path)), w.helper(FirstPart(path)), args, vs, FirstPart(path), hash, hashed,
                   program, inverse, slot, w);
    } else {
      var lookup := if SimpleId(path) then Or(HelperRef(path.original), value) else value;
      var looked := if SimpleId(path) && w.truthy(w.helper(path.original)) then w.helper(path.original) else v;
      OrComputes(HelperRef(path.original), w.helper(path.original), value, v, slot, w);
      OrComputes(lookup, looked, HelperMissing, w.helperMissing, slot, w);
      var f := if w.truthy(looked) then looked else w.helperMissing;
      CallComputes(Or(lookup, HelperMissing), f, args, vs, path.original, hash, hashed, program, inverse, slot, w);
    }
  }

  lemma CallComputes<V(!new)>(callee: JsExpr, f: V, args: seq<Entry>, vs: seq<V>, name: string, hash: JsExpr, hashed: V,
                              program: Option<nat>, inverse: Option<nat>, slot: nat, w: World<V>)
    requires Computes(callee, slot, f, w) && ComputesAll(Values(args), slot, vs, w) && Computes(hash, slot, hashed, w)
    ensures Computes(HelperCall(callee, Values(args),
                                MakeOptions(name, hash, ProgramExpr(program), ProgramExpr(inverse))),
                     slot, w.call(f, vs, MeanOptions(name, hashed, program, inverse, w)), w)
  {
    var options := MakeOptions(name, hash, ProgramExpr(program), ProgramExpr(inverse));
    var v := w.call(f, vs, MeanOptions(name, hashed, program, inverse, w));
    forall env: Env<V> ensures ComputesIn(HelperCall(callee, Values(args), options), slot, v, env, w) {
      hide MakeOptions, MeanOptions, EvalOptions, EvalAll;
      assert ComputesIn(callee, slot, f, env, w);
      var env1 := Eval(callee, env, w).1;
      AllCompute(Values(args), slot, vs, env1, w);
      OptionsCompute(name, hash, hashed, program, inverse, slot, EvalAll(Values(args), env1, w).1, w);
    }
  }

  // ---------- hashes ----------

  /** `fields` has no key twice and, fields of the word `undefined` aside, evaluates to `m`. */
  ghost predicate Represents<V(!new)>(fields: seq<Field>, m: map<string, V>, slot: nat, w: World<V>) {
    && UniqueKeys(fields)
    && (forall f <- fields :: f.value != Word("undefined") ==> f.key in m && Computes(f.value, slot, m[f.key], w))
    && (forall key <- m :: exists f <- fields :: f.key == key && f.value != Word("undefined"))
  }

  predicate UniqueKeys(fields: seq<Field>) {
    fields == [] || ((forall f <- fields[1..] :: f.key != fields[0].key) && UniqueKeys(fields[1..]))
  }

  lemma {:induction false} PutFieldMembers(fields: seq<Field>, key: string, value: JsExpr)
    requires UniqueKeys(fields)
    ensures UniqueKeys(PutField(fields, key, value))
    ensures forall f :: f in PutField(fields, key, value) <==> f == Field(key, value) || (f in fields && f.key != key)
  {
    if fields != [] {
      assert fields == [fields[0]] + fields[1..];
      if fields[0].key == key {
        assert PutField(fields, key, value)[1..] == fields[1..];
      } else {
        PutFieldMembers(fields[1..], key, value);
        assert PutField(fields, key, value)[1..] == PutField(fields[1..], key, value);
      }
    }
  }

  lemma {:induction false} DefinedMembers(fields: seq<Field>)
    ensures forall f :: f in Defined(fields) <==> f in fields && f.value != Word("undefined")
  {
    if fields != [] {
      assert fields == [fields[0]] + fields[1..];
      DefinedMembers(fields[1..]);
    }
  }

  function KeySet(fields: seq<Field>): set<string> {
    if fields == [] then {} else {fields[0].key} + KeySet(fields[1..])
  }

  lemma {:induction false} KeySetMembers(fields: seq<Field>)
    ensures forall key :: key in KeySet(fields) <==> exists f <- fields :: f.key == key
  {
    if fields != [] {
      KeySetMembers(fields[1..]);
      forall key ensures key in KeySet(fields) <==> exists f <- fields :: f.key == key {
        if key == fields[0].key {
          assert fields[0] in fields;
        } else if key in KeySet(fields[1..]) {
          var f :| f in fields[1..] && f.key == key;
          assert f in fields;
        }
      }
    }
  }

  /** `known` with the values of `m` for `keys` on top. */
  ghost predicate Overlays<V(!new)>(result: map<string, V>, known: map<string, V>, keys: set<string>, m: map<string, V>)
    requires keys <= m.Keys
  {
    result.Keys == known.Keys + keys && forall key <- result ::
        result[key] == if key in keys then m[key] else known[key]
  }

  lemma {:induction false} FieldsCompute<V(!new)>(fields: seq<Field>, m: map<string, V>, known: map<string, V>,
                                                  slot: nat, env: Env<V>, w: World<V>)
    requires KeySet(fields) <= m.Keys
    requires forall f <- fields :: f.key in m && Computes(f.value, slot, m[f.key], w)
    ensures Overlays(EvalFields(fields, known, env, w).0, known, KeySet(fields), m)
    ensures Untouched(EvalFields(fields, known, env, w).1, env, slot)
    decreases |fields|
  {
    hide Eval;
    if fields != [] {
      var f0 := fields[0];
      assert ComputesIn(f0.value, slot, m[f0.key], env, w);
      FieldsCompute(fields[1..], m, known[f0.key := m[f0.key]], slot, Eval(f0.value, env, w).1, w);
    }
  }

  lemma ComputesEverywhere<V(!new)>(c: JsExpr, slot: nat, v: V, w: World<V>)
    requires forall env: Env<V> :: ComputesIn(c, slot, v, env, w)
    ensures Computes(c, slot, v, w)
  {
  }

  lemma RepresentsComputes<V(!new)>(fields: seq<Field>, m: map<string, V>, slot: nat, w: World<V>)
    requires Represents(fields, m, slot, w)
    ensures Computes(ObjectLiteral(Defined(fields)), slot, w.record(m), w)
  {
    hide Eval, EvalFields, Computes, Defined, KeySet;
    DefinedMembers(fields);
    var defined := Defined(fields);
    KeySetMembers(defined);
    assert KeySet(defined) == m.Keys;
    forall env: Env<V> ensures ComputesIn(ObjectLiteral(defined), slot, w.record(m), env, w) {
      FieldsCompute(defined, m, map[], slot, env, w);
      assert EvalFields(defined, map[], env, w).0 == m;
      EvalObject(defined, env, w);
    }
    ComputesEverywhere(ObjectLiteral(defined), slot, w.record(m), w);
  }

  lemma PutRepresents<V(!new)>(fields: seq<Field>, m: map<string, V>, key: string, value: JsExpr, v: V,
                               slot: nat, w: World<V>)
    requires Represents(fields, m, slot, w)
    requires value != Word("undefined") ==> Computes(value, slot, v, w)
    ensures Represents(PutField(fields, key, value),
                       if value == Word("undefined") then m - {key} else m[key := v], slot, w)
  {
    hide Computes, PutField, UniqueKeys;
    PutFieldMembers(fields, key, value);
    var put := PutField(fields, key, value);
    assert Field(key, value) in put;
    var m' := if value == Word("undefined") then m - {key} else m[key := v];
    forall k | k in m' ensures exists f <- put :: f.key == k && f.value != Word("undefined") {
      if k != key {
        var f :| f in fields && f.key == k && f.value != Word("undefined");
        assert f in put;
      }
    }
  }

  lemma NeverUndefined(e: Expr, slot: nat, scope: Scope)
    requires TransExpr(e, slot, scope).Ok?
    ensures TransExpr(e, slot, scope).value.value == Word("undefined") <==> e.UndefinedLiteral?
  {
    match e
    case PathExpression(path) => PathNotWord(path, slot, scope);
    case SubExpression(call) =>
    case _ =>
  }

  lemma {:induction false} LookupsNotWord(entry: Entry, parts: seq<string>, falsy: bool, slot: nat)
    requires !entry.value.Word?
    ensures !Lookups(entry, parts, falsy, slot).value.Word?
    decreases |parts|
  {
    if parts != [] {
      var use := Use.Lookup(parts[0], falsy);
      LookupsNotWord(Code(if entry.Inlined? then Apply(entry.value, entry.value, use)
                          else Apply(AssignStack(slot, entry.value), StackVar(slot), use)), parts[1..], falsy, slot);
    }
  }

  lemma PathNotWord(path: Path, slot: nat, scope: Scope)
    ensures !TransPath(path, false, slot, scope).value.Word?
  {
    var blockParam :=
      if path.depth == 0 && !ScopedId(path) && path.parts != []
      then BlockParamIndex(scope.blockParams, path.parts[0]) else None;
    if blockParam.Some? {
      LookupsNotWord(Code(BlockParam(blockParam.value.0, blockParam.value.1)), path.parts[1..], false, slot);
    } else {
      LookupsNotWord(Inlined(Data(path.depth)), path.parts, true, slot);
      LookupsNotWord(Inlined(Context(path.depth)), path.parts, false, slot);
    }
  }

  // ---------- main theorems ----------

  /** The code of an expression evaluates to its meaning, whatever the stack variables
      hold, and the only one it touches is the next free one. */
  lemma {:induction false} ExprMeans<V(!new)>(e: Expr, slot: nat, scope: Scope, w: World<V>)
    requires Bindable(e)
    ensures TransExpr(e, slot, scope).Ok?
    ensures Computes(TransExpr(e, slot, scope).value.value, slot, MeanExpr(e, scope, w), w)
    decreases e, 1
  {
    match e
    case PathExpression(path) => PathComputes(path, false, slot, scope, w);
    case SubExpression(call) => PlainCallMeans(call, true, slot, scope, w);
    case _ =>
  }

  /** What a call leaves in the variable `options`: an ambiguous block its options. */
  function MeanKept<V>(call: Call, isSubExpression: bool, program: Option<nat>, inverse: Option<nat>,
                       scope: Scope, w: World<V>): Option<CallOptionValues<V>>
  {
    if ClassifySexpr(call, isSubExpression, scope) == Ambiguous && (program.Some? || inverse.Some?) then
      Some(MeanOptions(FirstPart(HeadToPath(call.head)), w.record(map[]), program, inverse, w))
    else None
  }

  lemma {:induction false} CallMeans<V(!new)>(call: Call, isSubExpression: bool, program: Option<nat>,
                                              inverse: Option<nat>,
                                              slot: nat, scope: Scope, w: World<V>)
    requires BindableCall(call)
    ensures TransCall(call, isSubExpression, program, inverse, slot, scope).Ok?
    ensures ComputesKeeping(TransCall(call, isSubExpression, program, inverse, slot, scope).value, slot,
                            MeanCall(call, isSubExpression, program, inverse, scope, w),
                            MeanKept(call, isSubExpression, program, inverse, scope, w), w)
    decreases call, 2
  {
    hide Eval, Computes, ComputesKeeping, MakeOptions, MeanOptions;
    var path := HeadToPath(call.head);
    var v := MeanCall(call, isSubExpression, program, inverse, scope, w);
    match ClassifySexpr(call, isSubExpression, scope)
    case Simple =>
      PathComputes(path, false, slot, scope, w);
      LambdaComputes(TransPath(path, false, slot, scope).value, MeanPath(path, false, scope, w), slot, w);
      ComputesKeepsNothing(TransCall(call, isSubExpression, program, inverse, slot, scope).value, slot, v, w);
    case Ambiguous =>
      PathComputes(path, false, slot, scope, w);
      AmbiguousComputes(FirstPart(path), TransPath(path, false, slot, scope).value, MeanPath(path, false, scope, w),
                        program, inverse, program.Some? || inverse.Some?, slot, w);
    case Helper =>
      ParamsMean(call.params, slot, scope, w);
      HashMeans(call.hash, false, slot, scope, w);
      InvokeComputes(path, TransParams(call.params, slot, scope).value, MeanParams(call.params, scope, w),
                     TransHash(call.hash, false, slot, scope).value.value, MeanHash(call.hash, false, scope, w),
                     program, inverse, slot, scope, w);
      ComputesKeepsNothing(TransCall(call, isSubExpression, program, inverse, slot, scope).value, slot, v, w);
  }

  /** A call that is no block computes its meaning and keeps nothing. */
  lemma {:induction false} PlainCallMeans<V(!new)>(call: Call, isSubExpression: bool, slot: nat,
                                                   scope: Scope, w: World<V>)
    requires BindableCall(call)
    ensures TransCall(call, isSubExpression, None, None, slot, scope).Ok?
    ensures Computes(TransCall(call, isSubExpression, None, None, slot, scope).value, slot,
                     MeanCall(call, isSubExpression, None, None, scope, w), w)
    decreases call, 3
  {
    hide ComputesKeeping, Computes;
    CallMeans(call, isSubExpression, None, None, slot, scope, w);
    ComputesKeepsNothing(TransCall(call, isSubExpression, None, None, slot, scope).value, slot,
                         MeanCall(call, isSubExpression, None, None, scope, w), w);
  }

  lemma LambdaComputes<V(!new)>(c: JsExpr, v: V, slot: nat, w: World<V>)
    requires Computes(c, slot, v, w)
    ensures Computes(Lambda(c), slot, w.lambda(v), w)
  {
    forall env: Env<V> ensures ComputesIn(Lambda(c), slot, w.lambda(v), env, w) {
      assert ComputesIn(c, slot, v, env, w);
    }
  }

  lemma {:induction false} ParamsMean<V(!new)>(params: seq<Expr>, slot: nat, scope: Scope, w: World<V>)
    requires BindableAll(params)
    ensures TransParams(params, slot, scope).Ok?
    ensures ComputesAll(Values(TransParams(params, slot, scope).value), slot, MeanParams(params, scope, w), w)
    decreases params, 0
  {
    hide Computes, TransExpr, MeanExpr, Bindable;
    if params != [] {
      ExprMeans(params[0], slot, scope, w);
      ParamsMean(params[1..], slot, scope, w);
    }
  }

  lemma {:induction false} HashMeans<V(!new)>(hash: Hash, omitEmpty: bool, slot: nat, scope: Scope, w: World<V>)
    requires BindableHash(hash)
    ensures TransHash(hash, omitEmpty, slot, scope).Ok?
    ensures Computes(TransHash(hash, omitEmpty, slot, scope).value.value, slot, MeanHash(hash, omitEmpty, scope, w), w)
    decreases hash, 3
  {
    if hash.Hash? {
      PairsMean(hash.pairs, slot, scope, w);
      var values := Values(TransPairs(hash.pairs, slot, scope).value);
      RepresentsComputes(Bind(hash.pairs, values, []).value, MeanPairs(hash.pairs, scope, w), slot, w);
      HashBindsFirstPair(hash.pairs, values);
    }
  }

  lemma {:induction false} PairsMean<V(!new)>(pairs: seq<Pair>, slot: nat, scope: Scope, w: World<V>)
    requires forall p <- pairs :: !SpecialKey(p.key) && Bindable(p.value)
    ensures var values := TransPairs(pairs, slot, scope);
            values.Ok? && Bind(pairs, Values(values.value), []).Ok?
            && Represents(Bind(pairs, Values(values.value), []).value, MeanPairs(pairs, scope, w), slot, w)
    decreases pairs, 0
  {
    hide Computes;
    if pairs != [] {
      ExprMeans(pairs[0].value, slot, scope, w);
      NeverUndefined(pairs[0].value, slot, scope);
      PairsMean(pairs[1..], slot, scope, w);
      var head := TransExpr(pairs[0].value, slot, scope).value.value;
      var values := Values(TransPairs(pairs, slot, scope).value);
      assert values[1..] == Values(TransPairs(pairs[1..], slot, scope).value);
      PutRepresents(Bind(pairs[1..], values[1..], []).value, MeanPairs(pairs[1..], scope, w), pairs[0].key, head,
                    MeanExpr(pairs[0].value, scope, w), slot, w);
    }
  }
}
