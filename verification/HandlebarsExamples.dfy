/** Unescaped values without content between them: the generated function adds them. */
module HandlebarsExamples {
  import opened Outcomes
  import opened HandlebarsAst
  import opened HandlebarsCompiler
  import opened HandlebarsTranslation
  import opened HandlebarsStatements
  import opened HandlebarsMerge
  import opened HandlebarsMeaning
  import opened HandlebarsSums
  import opened HandlebarsRendering
  import Numerals
  import TextOrder

  function TwoValues(a: Call, b: Call): Program {
    Program([MustacheStatement(a, false), MustacheStatement(b, false)], None)
  }

  /** `{{{a}}}{{{b}}}` returns the sum of its two values, null ones taken for the empty string. */
  lemma TwoValuesAreAdded<V(!new)>(a: Call, b: Call, scope: Scope, w: World<V>)
    requires BindableCall(a) && BindableCall(b)
    ensures var p := TwoValues(a, b);
            var x := OrNothing(MeanCall(a, false, None, None, Inside(p, scope), w), w);
            var y := OrNothing(MeanCall(b, false, None, None, Inside(p, scope), w), w);
            && CompileProgram(p, scope).Ok? && AllSupported(p)
            && MeanPieces(p, scope, w) == [Joined(x), Joined(y)]
            && Generated(CompileProgram(p, scope).value).Ok?
            && Returned(Generated(CompileProgram(p, scope).value).value, Fresh(), w) == w.plus(x, y)
  {
    hide MeanCall, CallOps, Generated, Returned;
    var p := TwoValues(a, b);
    var s, t := p.body[0], p.body[1];
    assert p.body[1..] == [t] && p.body[1..][1..] == [];
    var inner := Inside(p, scope);
    assert StatementOps(s, 0, inner).Ok? && StatementOps(t, 0, inner).Ok?;
    assert BodyOps([t], 0, inner).Ok?;
    ProgramMeans(p, scope, w);
    var x := OrNothing(MeanCall(a, false, None, None, inner, w), w);
    var y := OrNothing(MeanCall(b, false, None, None, inner, w), w);
    TwoPieces(s, t, inner, w);
    assert MeanPieces(p, scope, w) == [Joined(x), Joined(y)];
    PageOfTwo(x, y, w);
  }

  lemma TwoPieces<V(!new)>(s: Statement, t: Statement, scope: Scope, w: World<V>)
    requires s.MustacheStatement? && t.MustacheStatement?
    ensures MeanBody([s, t], 0, None, scope, w)
            == MeanStatement(s, 0, None, scope, w) + MeanStatement(t, 0, None, scope, w)
  {
    hide MeanStatement;
    assert [s, t][1..] == [t] && [t][1..] == [];
    var none: Option<CallOptionValues<V>> := None;
    assert MeanBody([t], 0, none, scope, w) == MeanStatement(t, 0, none, scope, w) + [];
  }

  lemma PageOfTwo<V(!new)>(x: V, y: V, w: World<V>)
    ensures Answer(PutAll(Page([], [], ""), [Joined(x), Joined(y)], w), w) == w.plus(x, y)
  {
    var p: Page<V> := Page([], [], "");
    assert [Joined(x)] + [Joined(y)] == [Joined(x), Joined(y)];
    PutAllConcat(p, [Joined(x)], [Joined(y)], w);
    PutJust(p, Joined(x), w);
    PutJust(Page([], [x], ""), Joined(y), w);
    assert [] + [x] == [x] && [x] + [y] == [x, y];
    assert SumEach([[x, y]], w) == [Sum([x, y], w)];
    assert [x, y][1..] == [y] && [y][1..] == [];
    assert Sum([x, y], w) == SumFrom(w.plus(x, y), [], w) == w.plus(x, y);
  }

  // ---------- a small runtime ----------

  datatype Small = Text(text: string) | Number(n: nat) | NaN | Object | Undefined

  function SmallText(v: Small): string {
    match v
    case Text(s) => s
    case Number(n) => Numerals.Numeral(n)
    case NaN => "NaN"
    case Object => "[object Object]"
    case Undefined => "undefined"
  }

  predicate IsText(v: Small) {
    v.Text? || v.Object?
  }

  function SmallPlus(a: Small, b: Small): Small {
    if IsText(a) || IsText(b) then Text(SmallText(a) + SmallText(b))
    else if a.Number? && b.Number? then Number(a.n + b.n) else NaN
  }

  /** What the conditions of the rendering theorems suppose of a runtime holds of this one. */
  lemma SmallSums()
    ensures AddsLikeJavaScript(SmallWorld()) && SumsPrintSmaller(SmallWorld()) && SumsAreNoTexts(SmallWorld())
  {
    var w := SmallWorld();
    forall a: Small, b: Small | !IsText(a) && !IsText(b)
      ensures TextOrder.Below(SmallText(SmallPlus(a, b)), SmallText(a) + SmallText(b))
    {
      if a.Number? && b.Number? { TextOrder.SumBelow(a.n, b.n); }
    }
    assert SumsPrintSmaller(w);
    assert AddsLikeJavaScript(w);
    hide AddsLikeJavaScript, SumsPrintSmaller, SumsAreNoTexts, SmallWorld;
    SmallerIsNoText(w);
  }

  /** The context has the properties `a` with value 1 and `b` with value 2; no helpers. */
  function SmallMember(v: Small, name: string): Small {
    if v.Object? && name == "a" then Number(1) else if v.Object? && name == "b" then Number(2) else Undefined
  }

  function SmallWorld(): World<Small> {
    World(_ => Object, _ => Undefined, (_, _) => Undefined, s => Text(s), _ => Undefined, _ => NaN, _ => Undefined,
          _ => Object, _ => Object, (v, name) => SmallMember(v, name), v => v == Undefined, v => v == Object,
          _ => false, v => v, _ => Undefined, Undefined, (_, _, _) => Undefined, (v, _) => v, _ => Undefined,
          (_, _, _, _) => Undefined, v => Text(SmallText(v)), (a, b) => SmallPlus(a, b), v => IsText(v),
              v => SmallText(v))
  }

  function Name(name: string): Call {
    Call(HeadPath(Path([name], 0, false, name)), [], NoHash)
  }

  const NO_SCOPE := Scope(Options({}, false, false, false), [])

  lemma NameMeans(name: string, scope: Scope)
    requires name == "a" || name == "b"
    requires scope == NO_SCOPE.(blockParams := [None])
    ensures MeanCall(Name(name), false, None, None, scope, SmallWorld()) == SmallMember(Object, name)
  {
    var path := Path([name], 0, false, name);
    assert !ScopedId(path);
    var frames := scope.blockParams;
    assert frames[1..] == [];
    assert BlockParamIndex(frames, name).None?;
    assert ClassifySexpr(Name(name), false, scope) == Ambiguous;
    assert path.parts[1..] == [];
    var w := SmallWorld();
    assert FindAll(Object, [name], false, w) == FindAll(Find(Object, name, false, w), [], false, w);
  }

  lemma OneAndTwo()
    ensures var pieces, w := [Joined(Number(1)), Joined(Number(2))], SmallWorld();
            Plain(pieces, w) == "12" && !NothingAdded(PutAll(Page([], [], ""), pieces, w), w)
    ensures SmallText(Number(3)) == "3"
  {
    var w := SmallWorld();
    var pieces: seq<Piece<Small>> := [Joined(Number(1)), Joined(Number(2))];
    assert pieces[1..] == [Joined(Number(2))] && pieces[1..][1..] == [];
    assert Numerals.Numeral(1) == "1" && Numerals.Numeral(2) == "2" && Numerals.Numeral(3) == "3";
    assert Plain(pieces, w) == "1" + ("2" + "");
    var page := Page([], [Number(1), Number(2)], "");
    assert PutAll(Page([], [], ""), pieces, w) == page;
    assert [Number(1), Number(2)] in Summands(page, w);
  }

  /** With a = 1 and b = 2 the template `{{{a}}}{{{b}}}` shows 3, where its values are 1 and 2. */
  lemma NumbersAreAdded()
    ensures AddsLikeJavaScript(SmallWorld())
    ensures var p := TwoValues(Name("a"), Name("b"));
            && CompileProgram(p, NO_SCOPE).Ok? && AllSupported(p) && Generated(CompileProgram(p, NO_SCOPE).value).Ok?
            && Plain(MeanPieces(p, NO_SCOPE, SmallWorld()), SmallWorld()) == "12"
            && SmallWorld().text(Returned(Generated(CompileProgram(p, NO_SCOPE).value).value, Fresh(),
                                          SmallWorld())) == "3"
            && !ShowsTexts(p, NO_SCOPE, SmallWorld())
  {
    SmallSums();
    OneAndTwo();
    hide Generated, Returned, CompileProgram, MeanCall, Plain, NothingAdded, PutAll, AddsLikeJavaScript, MeanPieces;
    var p, w := TwoValues(Name("a"), Name("b")), SmallWorld();
    var inner := Inside(p, NO_SCOPE);
    TwoValuesAreAdded(Name("a"), Name("b"), NO_SCOPE, w);
    NameMeans("a", inner);
    NameMeans("b", inner);
  }
}
