/** What the names and calls of a template mean, told by its tree alone. */
module HandlebarsCalls {
  import opened Outcomes
  import opened HandlebarsAst
  import opened HandlebarsCompiler
  import opened HandlebarsMeaning

  // ---------- names ----------

  ghost predicate EndsWord(rest: string) {
    rest == "" || !('a' <= rest[0] <= 'z' || 'A' <= rest[0] <= 'Z' || '0' <= rest[0] <= '9' || rest[0] == '_')
  }

  ghost predicate HoldsThis(text: string, before: string, after: string) {
    text == before + "this" + after && EndsWord(after)
  }

  /** The text starts with a dot or has a `this` that ends a word. */
  ghost predicate Scoped(text: string) {
    "." <= text || exists before: string, after: string :: HoldsThis(text, before, after)
  }

  lemma ThisWordIs(text: string, before: string, after: string)
    requires text == before + "this" + after
    ensures ThisWordAt(text, |before|) <==> EndsWord(after)
  {
    assert text[|before|..|before| + 4] == "this";
    assert text[|before| + 4..] == after;
    if after != "" { assert text[|before| + 4] == after[0]; }
  }

  lemma ScopedIff(path: Path)
    ensures ScopedId(path) <==> Scoped(path.original)
  {
    hide ThisWordAt, EndsWord;
    var o := path.original;
    if before: string, after: string :| HoldsThis(o, before, after) { ThisWordIs(o, before, after); }
    if i :| 0 <= i < |o| && ThisWordAt(o, i) {
      ThisSplits(o, i);
      ThisWordIs(o, o[..i], o[i + 4..]);
      assert HoldsThis(o, o[..i], o[i + 4..]);
    }
  }

  lemma ThisSplits(text: string, i: nat)
    requires ThisWordAt(text, i)
    ensures i + 4 <= |text| && text == text[..i] + "this" + text[i + 4..]
  {
    assert text == text[..i] + text[i..i + 4] + text[i + 4..];
  }

  /** One part, of this context, and not scoped. */
  ghost predicate PlainName(path: Path) {
    |path.parts| == 1 && path.depth == 0 && !Scoped(path.original)
  }

  /** The path that a call names; a literal is a name itself. */
  ghost predicate Names(head: Head, path: Path) {
    match head
    case HeadPath(named) => path == named
    case HeadLiteral(text) => path == Path([text], 0, false, text)
  }

  // ---------- block parameters ----------

  /** The innermost block that has a parameter of that name, and the first such parameter of it. */
  ghost predicate Binds(frames: seq<Option<seq<string>>>, name: string, frame: nat, index: nat) {
    && frame < |frames| && frames[frame].Some? && index < |frames[frame].value|
    && frames[frame].value[index] == name && name !in frames[frame].value[..index]
    && forall f :: 0 <= f < frame && frames[f].Some? ==> name !in frames[f].value
  }

  ghost predicate Bound(frames: seq<Option<seq<string>>>, name: string) {
    exists f :: 0 <= f < |frames| && frames[f].Some? && name in frames[f].value
  }

  lemma {:induction false} IndexOfIs(names: seq<string>, name: string)
    ensures match IndexOf(names, name)
            case None => name !in names
            case Some(i) => i < |names| && names[i] == name && name !in names[..i]
  {
    if names != [] && names[0] != name {
      IndexOfIs(names[1..], name);
      match IndexOf(names[1..], name)
      case None =>
      case Some(i) => assert names[..i + 1] == [names[0]] + names[1..][..i];
    }
  }

  lemma {:induction false} BlockParamIs(frames: seq<Option<seq<string>>>, name: string)
    ensures match BlockParamIndex(frames, name)
            case None => !Bound(frames, name)
            case Some(p) => Binds(frames, name, p.0, p.1) && Bound(frames, name)
  {
    hide IndexOf;
    if frames != [] {
      if frames[0].Some? { IndexOfIs(frames[0].value, name); }
      var rest := frames[1..];
      BlockParamIs(rest, name);
      var here := if frames[0].Some? then IndexOf(frames[0].value, name) else None;
      if here.None? {
        match BlockParamIndex(rest, name)
        case None =>
        case Some(p) =>
          forall f | 0 <= f < p.0 + 1 && frames[f].Some? ensures name !in frames[f].value {
            if f > 0 { assert frames[f] == rest[f - 1]; }
          }
      }
    }
  }

  lemma BlockParamIff(frames: seq<Option<seq<string>>>, name: string, frame: nat, index: nat)
    ensures BlockParamIndex(frames, name) == Some((frame, index)) <==> Binds(frames, name, frame, index)
    ensures BlockParamIndex(frames, name).None? <==> !Bound(frames, name)
  {
    hide BlockParamIndex;
    BlockParamIs(frames, name);
    if Binds(frames, name, frame, index) {
      var p := BlockParamIndex(frames, name);
      assert name in frames[frame].value;
      if p.Some? {
        var found := p.value;
        assert found.0 == frame;
      }
    }
  }

  // ---------- kinds of calls ----------

  ghost predicate IsBlockParam(path: Path, scope: Scope) {
    PlainName(path) && Bound(scope.blockParams, path.parts[0])
  }

  ghost predicate Passes(call: Call) {
    call.params != [] || call.hash.Hash?
  }

  /** A subexpression, a call that passes something, and a name of a known helper. */
  ghost predicate CallsHelper(call: Call, path: Path, isSubExpression: bool, scope: Scope) {
    && !IsBlockParam(path, scope)
    && (isSubExpression || Passes(call) || (PlainName(path) && path.parts[0] in scope.options.knownHelpers))
  }

  /** A name alone: of a helper that is not known, or of a value. */
  ghost predicate MayCallHelper(call: Call, path: Path, isSubExpression: bool, scope: Scope) {
    && !IsBlockParam(path, scope) && !isSubExpression && !Passes(call)
    && PlainName(path) && path.parts[0] !in scope.options.knownHelpers
  }

  lemma KindIs(call: Call, path: Path, isSubExpression: bool, scope: Scope)
    requires Names(call.head, path)
    ensures ClassifySexpr(call, isSubExpression, scope)
            == if CallsHelper(call, path, isSubExpression, scope) then Helper
               else if MayCallHelper(call, path, isSubExpression, scope) then Ambiguous
               else Simple
  {
    hide BlockParamIndex, ScopedId, Scoped, Bound;
    ScopedIff(path);
    if SimpleId(path) { BlockParamIff(scope.blockParams, path.parts[0], 0, 0); }
  }

  // ---------- what calls mean ----------

  /** Programs go by number; where only one of the two is given, the other does nothing. */
  ghost predicate GivesPrograms<V>(given: Option<(V, V)>, program: Option<nat>, inverse: Option<nat>, w: World<V>) {
    match (program, inverse)
    case (None, None) => given == None
    case (Some(p), None) => given == Some((w.program(p), w.word("container.noop")))
    case (None, Some(i)) => given == Some((w.word("container.noop"), w.program(i)))
    case (Some(p), Some(i)) => given == Some((w.program(p), w.program(i)))
  }

  /** `i` is the first pair of its key. */
  ghost predicate FirstOfKey(pairs: seq<Pair>, i: nat) {
    i < |pairs| && forall j :: 0 <= j < i ==> pairs[j].key != pairs[i].key
  }

  /** The record holds the first pair of each key, unless that pair passes `undefined`. */
  ghost predicate Records<V>(m: map<string, V>, pairs: seq<Pair>, scope: Scope, w: World<V>) {
    && (forall i: nat :: FirstOfKey(pairs, i) ==>
          if pairs[i].value.UndefinedLiteral? then pairs[i].key !in m
          else pairs[i].key in m && m[pairs[i].key] == MeanExpr(pairs[i].value, scope, w))
    && forall key :: key in m ==> exists i: nat :: FirstOfKey(pairs, i) && pairs[i].key == key
  }

  lemma {:induction false} PairsAreRecorded<V>(pairs: seq<Pair>, scope: Scope, w: World<V>)
    ensures Records(MeanPairs(pairs, scope, w), pairs, scope, w)
    decreases |pairs|
  {
    hide MeanExpr;
    if pairs != [] {
      var rest := pairs[1..];
      PairsAreRecorded(rest, scope, w);
      var m, all := MeanPairs(rest, scope, w), MeanPairs(pairs, scope, w);
      assert FirstOfKey(pairs, 0);
      forall i: nat | FirstOfKey(pairs, i)
        ensures if pairs[i].value.UndefinedLiteral? then pairs[i].key !in all
                else pairs[i].key in all && all[pairs[i].key] == MeanExpr(pairs[i].value, scope, w)
      {
        if i > 0 { FirstOfRest(pairs, i, i - 1); }
      }
      forall key | key in all ensures exists i: nat :: FirstOfKey(pairs, i) && pairs[i].key == key {
        if key == pairs[0].key {
        } else {
          var i: nat :| FirstOfKey(rest, i) && rest[i].key == key;
          FirstOfRest(pairs, i + 1, i);
        }
      }
    }
  }

  lemma FirstOfRest(pairs: seq<Pair>, n: nat, i: nat)
    requires n == i + 1 && n < |pairs|
    ensures FirstOfKey(pairs, n) <==> FirstOfKey(pairs[1..], i) && pairs[0].key != pairs[n].key
    ensures pairs[n] == pairs[1..][i]
  {
    if FirstOfKey(pairs, n) {
      forall j | 0 <= j < i ensures pairs[1..][j].key != pairs[n].key { assert pairs[1..][j] == pairs[j + 1]; }
    }
    if FirstOfKey(pairs[1..], i) && pairs[0].key != pairs[n].key {
      forall j | 0 <= j < n ensures pairs[j].key != pairs[n].key {
        if j > 0 { assert pairs[j] == pairs[1..][j - 1]; }
      }
    }
  }

  ghost predicate HashIs<V(!new)>(hash: V, given: Hash, scope: Scope, w: World<V>) {
    match given
    case NoHash => hash == w.record(map[])
    case Hash(pairs) => exists m :: Records(m, pairs, scope, w) && hash == w.record(m)
  }

  ghost predicate ArgumentsAre<V>(args: seq<V>, params: seq<Expr>, scope: Scope, w: World<V>) {
    |args| == |params| && forall i :: 0 <= i < |params| ==> args[i] == MeanExpr(params[i], scope, w)
  }

  lemma {:induction false} ParamsAreArguments<V>(params: seq<Expr>, scope: Scope, w: World<V>)
    ensures ArgumentsAre(MeanParams(params, scope, w), params, scope, w)
    decreases |params|
  {
    hide MeanExpr;
    if params != [] { ParamsAreArguments(params[1..], scope, w); }
  }

  lemma HashIsRecord<V(!new)>(hash: Hash, scope: Scope, w: World<V>)
    ensures HashIs(MeanHash(hash, false, scope, w), hash, scope, w)
  {
    hide MeanPairs, Records;
    if hash.Hash? { PairsAreRecorded(hash.pairs, scope, w); }
  }

  /** A helper call calls the known helper of its first part, else a helper of its plain name, else
      the value of its path, else `helperMissing`; on its parameters in order, with its name, the
      record of its pairs and its programs. */
  lemma HelperCallMeans<V(!new)>(call: Call, path: Path, isSubExpression: bool, program: Option<nat>,
                                 inverse: Option<nat>, scope: Scope, w: World<V>)
    requires Names(call.head, path) && CallsHelper(call, path, isSubExpression, scope)
    ensures exists args: seq<V>, hash: V, programs: Option<(V, V)> ::
              && ArgumentsAre(args, call.params, scope, w) && HashIs(hash, call.hash, scope, w)
              && GivesPrograms(programs, program, inverse, w)
              && MeanCall(call, isSubExpression, program, inverse, scope, w)
                 == var first := if path.parts == [] then "undefined" else path.parts[0];
                    if first in scope.options.knownHelpers then
                      w.call(w.helper(first), args, CallOptionValues(Some(first), hash, programs))
                    else
                      var value := MeanPath(path, true, scope, w);
                      w.call(if PlainName(path) && w.truthy(w.helper(path.original)) then w.helper(path.original)
                             else if w.truthy(value) then value else w.helperMissing,
                             args, CallOptionValues(Some(path.original), hash, programs))
  {
    hide MeanPath, MeanParams, MeanHash, ScopedId, Scoped, ClassifySexpr, CallsHelper, MayCallHelper,
        HashIs, ArgumentsAre;
    KindIs(call, path, isSubExpression, scope);
    ScopedIff(path);
    var args, hash := MeanParams(call.params, scope, w), MeanHash(call.hash, false, scope, w);
    ParamsAreArguments(call.params, scope, w);
    HashIsRecord(call.hash, scope, w);
    var programs := MeanOptions("", hash, program, inverse, w).programs;
    assert GivesPrograms(programs, program, inverse, w);
  }

  /** A name alone is the helper of that name, else its value, else `helperMissing`; what is a
      function is called without arguments, what is none is the value. */
  lemma AmbiguousCallMeans<V(!new)>(call: Call, path: Path, program: Option<nat>, inverse: Option<nat>,
                                    scope: Scope, w: World<V>)
    requires Names(call.head, path) && MayCallHelper(call, path, false, scope)
    ensures exists programs: Option<(V, V)> ::
              && GivesPrograms(programs, program, inverse, w)
              && MeanCall(call, false, program, inverse, scope, w)
                 == var name, value := path.parts[0], MeanPath(path, false, scope, w);
                    var f := if w.truthy(w.helper(name)) then w.helper(name) else value;
                    var g := if w.nullish(f) then w.helperMissing else f;
                    if w.isFunction(g) then w.call(g, [], CallOptionValues(Some(name), w.record(map[]), programs))
                    else g
  {
    hide MeanPath, Scoped, Bound, ClassifySexpr;
    KindIs(call, path, false, scope);
    var options := MeanOptions(path.parts[0], w.record(map[]), program, inverse, w);
    assert GivesPrograms(options.programs, program, inverse, w);
    assert options == CallOptionValues(Some(path.parts[0]), w.record(map[]), options.programs);
    assert HeadToPath(call.head) == path && FirstPart(path) == path.parts[0];
  }

  /** Any other call is the value of its path, called if it is a function. */
  lemma LookupMeans<V(!new)>(call: Call, path: Path, isSubExpression: bool, program: Option<nat>, inverse: Option<nat>,
                             scope: Scope, w: World<V>)
    requires Names(call.head, path)
    requires !CallsHelper(call, path, isSubExpression, scope) && !MayCallHelper(call, path, isSubExpression, scope)
    ensures MeanCall(call, isSubExpression, program, inverse, scope, w) == w.lambda(MeanPath(path, false, scope, w))
  {
    hide MeanPath, Scoped, ClassifySexpr, CallsHelper, MayCallHelper;
    KindIs(call, path, isSubExpression, scope);
  }

  // ---------- what paths mean ----------

  /** A path starts at a block parameter of its first part, at its context, or at the data. */
  lemma PathMeans<V>(path: Path, falsy: bool, scope: Scope, frame: nat, index: nat, w: World<V>)
    ensures var known := path.depth == 0 && !Scoped(path.original) && path.parts != [];
            && (known && Binds(scope.blockParams, path.parts[0], frame, index) ==>
                  MeanPath(path, falsy, scope, w) == FindAll(w.blockParam(frame, index), path.parts[1..], false, w))
            && (!(known && Bound(scope.blockParams, path.parts[0])) ==>
                  MeanPath(path, falsy, scope, w)
                  == if path.parts == [] || path.parts[0] == "" then w.context(path.depth)
                     else if path.data then FindAll(w.data(path.depth), path.parts, true, w)
                     else FindAll(w.context(path.depth), path.parts, falsy, w))
  {
    hide BlockParamIndex, ScopedId, Scoped, FindAll;
    ScopedIff(path);
    if path.parts != [] { BlockParamIff(scope.blockParams, path.parts[0], frame, index); }
  }

  /** Each part is looked up in what the parts before it gave, which stays what it is if it is null,
      or in a `falsy` lookup if it is false. */
  lemma {:induction false} FoundStepwise<V>(v: V, parts: seq<string>, name: string, falsy: bool, w: World<V>)
    ensures FindAll(v, [], falsy, w) == v
    ensures var u := FindAll(v, parts, falsy, w);
            FindAll(v, parts + [name], falsy, w)
            == if (if falsy then w.truthy(u) else !w.nullish(u)) then w.member(u, name) else u
    decreases |parts|
  {
    if parts == [] {
      assert [name][1..] == [] && [] + [name] == [name];
    } else {
      assert (parts + [name])[1..] == parts[1..] + [name];
      FoundStepwise(Find(v, parts[0], falsy, w), parts[1..], name, falsy, w);
    }
  }
}
