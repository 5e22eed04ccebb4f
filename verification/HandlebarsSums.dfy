/** What JavaScript's `+` makes of the values a template appends, and when that is their texts. */
module HandlebarsSums {
  import opened Outcomes
  import opened HandlebarsMeaning
  import opened TextOrder

  // ---------- sums of values ----------

  /** `total + v + v ...`, from the left. */
  function SumFrom<V>(total: V, vs: seq<V>, w: World<V>): V
    decreases |vs|
  {
    if vs == [] then total else SumFrom(w.plus(total, vs[0]), vs[1..], w)
  }

  function Sum<V>(vs: seq<V>, w: World<V>): V
    requires vs != []
  {
    SumFrom(vs[0], vs[1..], w)
  }

  /** The texts of the values in a row. */
  function Texts<V>(vs: seq<V>, w: World<V>): string {
    if vs == [] then "" else w.text(vs[0]) + Texts(vs[1..], w)
  }

  /** A sum from the left is a concatenation if one of its first two summands is a text. */
  predicate Concatenates<V>(vs: seq<V>, w: World<V>) {
    |vs| <= 1 || w.isText(vs[0]) || w.isText(vs[1])
  }

  /** `+` concatenates exactly if one side is a text; else the sum is no text either. */
  ghost predicate AddsLikeJavaScript<V(!new)>(w: World<V>) {
    && (forall s: string :: w.isText(w.quoted(s)) && w.text(w.quoted(s)) == s)
    && (forall a: V, b: V :: w.isText(a) || w.isText(b) ==> w.plus(a, b) == w.quoted(w.text(a) + w.text(b)))
    && (forall a: V, b: V :: !w.isText(a) && !w.isText(b) ==> !w.isText(w.plus(a, b)))
  }

  lemma PlusIs<V(!new)>(a: V, b: V, w: World<V>)
    requires AddsLikeJavaScript(w)
    ensures w.isText(a) || w.isText(b) <==> w.isText(w.plus(a, b))
    ensures w.isText(a) || w.isText(b) ==>
              w.plus(a, b) == w.quoted(w.text(a) + w.text(b)) && w.text(w.plus(a, b)) == w.text(a) + w.text(b)
  {
    if w.isText(a) || w.isText(b) {
      var sum := w.text(a) + w.text(b);
      assert w.plus(a, b) == w.quoted(sum);
      assert w.isText(w.quoted(sum)) && w.text(w.quoted(sum)) == sum;
    }
  }

  lemma QuotedIs<V(!new)>(s: string, w: World<V>)
    requires AddsLikeJavaScript(w)
    ensures w.isText(w.quoted(s)) && w.text(w.quoted(s)) == s
  {
  }

  /** Adding numbers never prints their digits in a row. */
  ghost predicate SumsAreNoTexts<V(!new)>(w: World<V>) {
    forall vs: seq<V> :: |vs| >= 2 && (forall v <- vs :: !w.isText(v)) ==> w.text(Sum(vs, w)) != Texts(vs, w)
  }

  lemma {:induction false} SumFromConcat<V(!new)>(total: V, a: seq<V>, b: seq<V>, w: World<V>)
    ensures SumFrom(total, a + b, w) == SumFrom(SumFrom(total, a, w), b, w)
    decreases |a|
  {
    if a == [] {
      assert a + b == b;
    } else {
      assert (a + b)[1..] == a[1..] + b;
      SumFromConcat(w.plus(total, a[0]), a[1..], b, w);
    }
  }

  lemma SumConcat<V(!new)>(a: seq<V>, b: seq<V>, w: World<V>)
    requires a != []
    ensures Sum(a + b, w) == SumFrom(Sum(a, w), b, w)
  {
    assert (a + b)[1..] == a[1..] + b;
    SumFromConcat(a[0], a[1..], b, w);
  }

  lemma {:induction false} TextsConcat<V(!new)>(a: seq<V>, b: seq<V>, w: World<V>)
    ensures Texts(a + b, w) == Texts(a, w) + Texts(b, w)
  {
    if a == [] {
      assert a + b == b;
    } else {
      assert (a + b)[1..] == a[1..] + b;
      TextsConcat(a[1..], b, w);
    }
  }

  /** Whatever is added to a text is concatenated to it. */
  lemma {:induction false} TextPlus<V(!new)>(total: V, vs: seq<V>, w: World<V>)
    requires AddsLikeJavaScript(w) && w.isText(total)
    ensures w.isText(SumFrom(total, vs, w)) && w.text(SumFrom(total, vs, w)) == w.text(total) + Texts(vs, w)
    decreases |vs|
  {
    hide AddsLikeJavaScript;
    if vs == [] {
      assert w.text(total) + "" == w.text(total);
    } else {
      var next := w.plus(total, vs[0]);
      PlusIs(total, vs[0], w);
      TextPlus(next, vs[1..], w);
      assert w.text(total) + w.text(vs[0]) + Texts(vs[1..], w) == w.text(total) + (w.text(vs[0]) + Texts(vs[1..], w));
    }
  }

  /** From the first text on a sum concatenates. */
  lemma TextsFollow<V(!new)>(total: V, rest: seq<V>, w: World<V>)
    requires AddsLikeJavaScript(w) && rest != [] && w.isText(rest[0])
    ensures w.isText(SumFrom(total, rest, w)) && w.text(SumFrom(total, rest, w)) == w.text(total) + Texts(rest, w)
  {
    hide AddsLikeJavaScript;
    var next := w.plus(total, rest[0]);
    PlusIs(total, rest[0], w);
    TextPlus(next, rest[1..], w);
    assert w.text(total) + w.text(rest[0]) + Texts(rest[1..], w)
        == w.text(total) + (w.text(rest[0]) + Texts(rest[1..], w));
  }

  lemma SumShows<V(!new)>(vs: seq<V>, w: World<V>)
    requires AddsLikeJavaScript(w) && vs != [] && Concatenates(vs, w)
    ensures w.text(Sum(vs, w)) == Texts(vs, w)
    ensures w.isText(Sum(vs, w)) <==> |vs| >= 2 || w.isText(vs[0])
  {
    hide AddsLikeJavaScript, Texts, SumFrom;
    FirstText(vs, w);
    if |vs| == 1 {
      OneSummand(vs[0], w);
      assert vs[1..] == [];
    } else if w.isText(vs[0]) {
      TextPlus(vs[0], vs[1..], w);
    } else {
      TextsFollow(vs[0], vs[1..], w);
    }
  }

  lemma FirstText<V(!new)>(vs: seq<V>, w: World<V>)
    requires vs != []
    ensures Texts(vs, w) == w.text(vs[0]) + Texts(vs[1..], w)
  {
  }

  lemma OneSummand<V(!new)>(v: V, w: World<V>)
    ensures SumFrom(v, [], w) == v && w.text(v) + Texts([], w) == w.text(v)
  {
  }

  /** How many values there are before the first text. */
  function NumbersBefore<V>(vs: seq<V>, w: World<V>): (n: nat)
    ensures n <= |vs|
    ensures forall i :: 0 <= i < n ==> !w.isText(vs[i])
    ensures n < |vs| ==> w.isText(vs[n])
  {
    if vs == [] || w.isText(vs[0]) then 0 else 1 + NumbersBefore(vs[1..], w)
  }

  /** A sum that starts with two numbers shows their sum in place of their digits. */
  lemma SumMisses<V(!new)>(vs: seq<V>, w: World<V>)
    requires AddsLikeJavaScript(w) && SumsAreNoTexts(w) && !Concatenates(vs, w)
    ensures w.text(Sum(vs, w)) != Texts(vs, w)
  {
    hide AddsLikeJavaScript, Texts, SumFrom;
    var n := NumbersBefore(vs, w);
    var numbers, rest := vs[..n], vs[n..];
    assert numbers + rest == vs && n >= 2;
    SumConcat(numbers, rest, w);
    TextsConcat(numbers, rest, w);
    var total := Sum(numbers, w);
    assert w.text(total) != Texts(numbers, w);
    if rest != [] {
      TextsFollow(total, rest, w);
      SameEnd(w.text(total), Texts(numbers, w), Texts(rest, w));
    } else {
      assert vs == numbers;
    }
  }

  lemma SameEnd(a: string, b: string, c: string)
    ensures a + c == b + c ==> a == b
  {
    if a + c == b + c {
      assert |a| == |b|;
      assert a == (a + c)[..|a|] && b == (b + c)[..|b|];
    }
  }

  /** A sum shows the texts of its summands if and only if one of the first two is a text. */
  lemma SumShowsIff<V(!new)>(vs: seq<V>, w: World<V>)
    requires AddsLikeJavaScript(w) && SumsAreNoTexts(w) && vs != []
    ensures w.text(Sum(vs, w)) == Texts(vs, w) <==> Concatenates(vs, w)
  {
    if Concatenates(vs, w) { SumShows(vs, w); } else { SumMisses(vs, w); }
  }

  // ---------- sums that print smaller ----------

  /** Two values that are no texts add up to what is printed shorter than, or as long as and before,
      the two in a row: so do whole numbers that are printed in full. */
  ghost predicate SumsPrintSmaller<V(!new)>(w: World<V>) {
    forall a: V, b: V :: !w.isText(a) && !w.isText(b) ==> Below(w.text(w.plus(a, b)), w.text(a) + w.text(b))
  }

  /** Then a sum from the left is printed as its texts in a row, or as less from the first
      addition on. */
  lemma {:induction false} SumFromPrints<V(!new)>(total: V, vs: seq<V>, w: World<V>)
    requires AddsLikeJavaScript(w) && SumsPrintSmaller(w)
    ensures var sum, texts := w.text(SumFrom(total, vs, w)), w.text(total) + Texts(vs, w);
            if vs == [] || w.isText(total) || w.isText(vs[0]) then sum == texts else Below(sum, texts)
    decreases |vs|
  {
    hide AddsLikeJavaScript, SumsPrintSmaller, Below, Texts, SumFrom;
    if vs == [] {
      OneSummand(total, w);
    } else if w.isText(total) {
      TextPlus(total, vs, w);
    } else if w.isText(vs[0]) {
      TextsFollow(total, vs, w);
    } else {
      SumFromPrints(w.plus(total, vs[0]), vs[1..], w);
      PrintsLess(total, vs, w);
    }
  }

  lemma PrintsLess<V(!new)>(total: V, vs: seq<V>, w: World<V>)
    requires SumsPrintSmaller(w) && vs != [] && !w.isText(total) && !w.isText(vs[0])
    requires var next := w.plus(total, vs[0]);
             AtMost(w.text(SumFrom(next, vs[1..], w)), w.text(next) + Texts(vs[1..], w))
    ensures Below(w.text(SumFrom(total, vs, w)), w.text(total) + Texts(vs, w))
  {
    var next, rest := w.plus(total, vs[0]), Texts(vs[1..], w);
    var both := w.text(total) + w.text(vs[0]);
    FirstText(vs, w);
    assert Below(w.text(next), both);
    assert SumFrom(total, vs, w) == SumFrom(next, vs[1..], w);
    hide Below, SumsPrintSmaller, Texts, SumFrom;
    ConcatAtMost(w.text(next), both, rest, rest);
    AtMostTransitive(w.text(SumFrom(next, vs[1..], w)), w.text(next) + rest, both + rest);
    assert both + rest == w.text(total) + (w.text(vs[0]) + rest);
  }

  lemma SumPrints<V(!new)>(vs: seq<V>, w: World<V>)
    requires AddsLikeJavaScript(w) && SumsPrintSmaller(w) && vs != []
    ensures if Concatenates(vs, w) then w.text(Sum(vs, w)) == Texts(vs, w) else Below(w.text(Sum(vs, w)), Texts(vs, w))
  {
    hide AddsLikeJavaScript, SumsPrintSmaller, Below;
    SumFromPrints(vs[0], vs[1..], w);
  }

  lemma SmallerIsNoText<V(!new)>(w: World<V>)
    requires AddsLikeJavaScript(w) && SumsPrintSmaller(w)
    ensures SumsAreNoTexts(w)
  {
    hide AddsLikeJavaScript, SumsPrintSmaller, Below, Sum, Texts;
    forall vs: seq<V> | |vs| >= 2 && (forall v <- vs :: !w.isText(v)) ensures w.text(Sum(vs, w)) != Texts(vs, w) {
      SumPrints(vs, w);
      NotBelowItself(Texts(vs, w));
    }
  }

  // ---------- pages ----------

  /** What a statement shows: content, a value joined to its neighbours, or by itself a value
      or nothing. */
  datatype Piece<V> = Literal(text: string) | Joined(value: V) | Apart(shown: Option<V>)

  /** The sums that are complete, the summands of the one that is not, content to be added. */
  datatype Page<V> = Page(sums: seq<seq<V>>, run: seq<V>, pending: string)

  function Settle<V>(p: Page<V>, w: World<V>): Page<V> {
    if p.pending == "" then p else p.(run := p.run + [w.quoted(p.pending)], pending := "")
  }

  /** Ends the current run; the first thing in the buffer may be the empty string. */
  function Close<V>(p: Page<V>, w: World<V>): Page<V> {
    p.(sums := if p.run != [] then p.sums + [p.run] else if p.sums == [] then [[w.quoted("")]] else p.sums, run := [])
  }

  function Put<V>(p: Page<V>, piece: Piece<V>, w: World<V>): Page<V> {
    match piece
    case Literal(text) => p.(pending := p.pending + text)
    case Joined(value) => var q := Settle(p, w); q.(run := q.run + [value])
    case Apart(None) => Close(Settle(p, w), w)
    case Apart(Some(value)) => var q := Close(Settle(p, w), w); q.(sums := q.sums + [[value]])
  }

  function PutAll<V>(p: Page<V>, pieces: seq<Piece<V>>, w: World<V>): Page<V>
    decreases |pieces|
  {
    if pieces == [] then p else PutAll(Put(p, pieces[0], w), pieces[1..], w)
  }

  function Singles<V>(vs: seq<V>): (sums: seq<seq<V>>)
    ensures |sums| == |vs| && forall i :: 0 <= i < |vs| ==> sums[i] == [vs[i]]
  {
    seq(|vs|, i requires 0 <= i < |vs| => [vs[i]])
  }

  /** The sums whose sum is returned. Appends at the end are added to the buffer one by one. */
  function Summands<V>(p: Page<V>, w: World<V>): seq<seq<V>> {
    var q := Settle(p, w);
    if q.sums != [] then q.sums + Singles(q.run) else if q.run == [] then [[w.quoted("")]] else [q.run]
  }

  function SumEach<V>(sums: seq<seq<V>>, w: World<V>): (vs: seq<V>)
    ensures |vs| == |sums|
    ensures forall i :: 0 <= i < |vs| && sums[i] != [] ==> vs[i] == Sum(sums[i], w)
  {
    if sums == [] then []
    else [if sums[0] == [] then w.quoted("") else Sum(sums[0], w)] + SumEach(sums[1..], w)
  }

  /** The value a page is returned as. */
  function Answer<V>(p: Page<V>, w: World<V>): V {
    var vs := SumEach(Summands(p, w), w);
    if vs == [] then w.quoted("") else Sum(vs, w)
  }

  /** No sum of the page, and not the sum of its sums, starts with two values that are no texts. */
  ghost predicate NothingAdded<V(!new)>(p: Page<V>, w: World<V>) {
    && (forall s <- Summands(p, w) :: Concatenates(s, w))
    && Concatenates(SumEach(Summands(p, w), w), w)
  }

  function Plain<V>(pieces: seq<Piece<V>>, w: World<V>): string {
    if pieces == [] then "" else PlainOne(pieces[0], w) + Plain(pieces[1..], w)
  }

  function PlainOne<V>(piece: Piece<V>, w: World<V>): string {
    match piece
    case Literal(text) => text
    case Joined(value) => w.text(value)
    case Apart(None) => ""
    case Apart(Some(value)) => w.text(value)
  }

  /** The texts on a page. */
  function PageText<V>(p: Page<V>, w: World<V>): string {
    AllTexts(p.sums, w) + Texts(p.run, w) + p.pending
  }

  function AllTexts<V>(sums: seq<seq<V>>, w: World<V>): string {
    if sums == [] then "" else Texts(sums[0], w) + AllTexts(sums[1..], w)
  }

  lemma {:induction false} AllTextsConcat<V(!new)>(a: seq<seq<V>>, b: seq<seq<V>>, w: World<V>)
    ensures AllTexts(a + b, w) == AllTexts(a, w) + AllTexts(b, w)
  {
    if a == [] {
      assert a + b == b;
    } else {
      assert (a + b)[1..] == a[1..] + b;
      AllTextsConcat(a[1..], b, w);
    }
  }

  lemma OneText<V(!new)>(v: V, w: World<V>)
    ensures Texts([v], w) == w.text(v) && AllTexts([[v]], w) == w.text(v)
  {
    assert [v][1..] == [] && [[v]][1..] == [];
    assert w.text(v) + "" == w.text(v);
  }

  lemma OneRun<V(!new)>(run: seq<V>, w: World<V>)
    ensures AllTexts([run], w) == Texts(run, w)
  {
    assert [run][1..] == [];
    assert Texts(run, w) + "" == Texts(run, w);
  }

  lemma {:induction false} SinglesTexts<V(!new)>(vs: seq<V>, w: World<V>)
    ensures AllTexts(Singles(vs), w) == Texts(vs, w)
    decreases |vs|
  {
    if vs == [] {
      assert Singles(vs) == [];
    } else {
      SinglesTexts(vs[1..], w);
      assert Singles(vs) == [[vs[0]]] + Singles(vs[1..]);
      AllTextsConcat([[vs[0]]], Singles(vs[1..]), w);
      OneText(vs[0], w);
    }
  }

  lemma SettleText<V(!new)>(p: Page<V>, w: World<V>)
    requires AddsLikeJavaScript(w)
    ensures PageText(Settle(p, w), w) == PageText(p, w)
  {
    hide AddsLikeJavaScript;
    QuotedIs(p.pending, w);
    TextsConcat(p.run, [w.quoted(p.pending)], w);
    OneText(w.quoted(p.pending), w);
    assert AllTexts(p.sums, w) + (Texts(p.run, w) + p.pending) + ""
        == AllTexts(p.sums, w) + Texts(p.run, w) + p.pending;
  }

  lemma CloseText<V(!new)>(p: Page<V>, w: World<V>)
    requires AddsLikeJavaScript(w) && p.pending == ""
    ensures PageText(Close(p, w), w) == PageText(p, w)
  {
    hide AddsLikeJavaScript;
    QuotedIs("", w);
    OneText(w.quoted(""), w);
    AllTextsConcat(p.sums, [p.run], w);
    OneRun(p.run, w);
    assert AllTexts(p.sums, w) + Texts(p.run, w) + "" + "" == AllTexts(p.sums, w) + Texts(p.run, w) + "";
  }

  lemma RunText<V(!new)>(p: Page<V>, v: V, w: World<V>)
    requires p.pending == ""
    ensures PageText(p.(run := p.run + [v]), w) == PageText(p, w) + w.text(v)
  {
    hide Texts, AllTexts;
    TextsConcat(p.run, [v], w);
    OneText(v, w);
    assert AllTexts(p.sums, w) + (Texts(p.run, w) + w.text(v)) + ""
        == AllTexts(p.sums, w) + Texts(p.run, w) + "" + w.text(v);
  }

  lemma ApartText<V(!new)>(p: Page<V>, v: V, w: World<V>)
    requires p.run == [] && p.pending == ""
    ensures PageText(p.(sums := p.sums + [[v]]), w) == PageText(p, w) + w.text(v)
  {
    hide AllTexts;
    AllTextsConcat(p.sums, [[v]], w);
    OneText(v, w);
    assert AllTexts(p.sums, w) + w.text(v) + "" + "" == AllTexts(p.sums, w) + "" + "" + w.text(v);
  }

  /** Every piece adds its own text to a page and changes no other. */
  lemma PutText<V(!new)>(p: Page<V>, piece: Piece<V>, w: World<V>)
    requires AddsLikeJavaScript(w)
    ensures PageText(Put(p, piece, w), w) == PageText(p, w) + PlainOne(piece, w)
  {
    hide AddsLikeJavaScript, Texts, AllTexts;
    var q := Settle(p, w);
    SettleText(p, w);
    match piece
    case Literal(text) =>
      assert AllTexts(p.sums, w) + Texts(p.run, w) + (p.pending + text) == PageText(p, w) + text;
    case Joined(value) => RunText(q, value, w);
    case Apart(None) =>
      CloseText(q, w);
      assert PageText(p, w) + "" == PageText(p, w);
    case Apart(Some(value)) =>
      CloseText(q, w);
      ApartText(Close(q, w), value, w);
  }

  lemma {:induction false} PutAllText<V(!new)>(p: Page<V>, pieces: seq<Piece<V>>, w: World<V>)
    requires AddsLikeJavaScript(w)
    ensures PageText(PutAll(p, pieces, w), w) == PageText(p, w) + Plain(pieces, w)
    decreases |pieces|
  {
    hide AddsLikeJavaScript, Put, PageText;
    if pieces == [] {
      assert PageText(p, w) + "" == PageText(p, w);
    } else {
      PutText(p, pieces[0], w);
      PutAllText(Put(p, pieces[0], w), pieces[1..], w);
      assert PageText(p, w) + PlainOne(pieces[0], w) + Plain(pieces[1..], w) == PageText(p, w) + Plain(pieces, w);
    }
  }

  lemma SummandsText<V(!new)>(p: Page<V>, w: World<V>)
    requires AddsLikeJavaScript(w)
    ensures AllTexts(Summands(p, w), w) == PageText(p, w)
  {
    hide AddsLikeJavaScript;
    SettleText(p, w);
    var q := Settle(p, w);
    AllTextsConcat(q.sums, Singles(q.run), w);
    SinglesTexts(q.run, w);
    OneRun(q.run, w);
    OneText(w.quoted(""), w);
    QuotedIs("", w);
    assert PageText(q, w) == AllTexts(q.sums, w) + Texts(q.run, w);
  }

  lemma {:induction false} SumEachTexts<V(!new)>(sums: seq<seq<V>>, w: World<V>)
    requires AddsLikeJavaScript(w) && forall s <- sums :: Concatenates(s, w)
    ensures Texts(SumEach(sums, w), w) == AllTexts(sums, w)
  {
    hide AddsLikeJavaScript;
    if sums != [] {
      if sums[0] != [] { SumShows(sums[0], w); } else { QuotedIs("", w); }
      SumEachTexts(sums[1..], w);
      assert SumEach(sums, w)[1..] == SumEach(sums[1..], w);
    }
  }

  /** A page on which no two numbers are added is returned as its texts in a row. */
  lemma AnswerShows<V(!new)>(p: Page<V>, w: World<V>)
    requires AddsLikeJavaScript(w) && NothingAdded(p, w)
    ensures w.text(Answer(p, w)) == PageText(p, w)
  {
    hide AddsLikeJavaScript;
    SummandsText(p, w);
    var sums := Summands(p, w);
    SumEachTexts(sums, w);
    SumShows(SumEach(sums, w), w);
  }

  /** For one sum the condition is exact. */
  lemma AnswerShowsIff<V(!new)>(p: Page<V>, w: World<V>)
    requires AddsLikeJavaScript(w) && SumsAreNoTexts(w) && p.sums == []
    ensures w.text(Answer(p, w)) == PageText(p, w) <==> NothingAdded(p, w)
  {
    hide AddsLikeJavaScript, SumsAreNoTexts;
    SummandsText(p, w);
    var sums := Summands(p, w);
    OneRun(sums[0], w);
    SumShowsIff(sums[0], w);
    assert SumEach(sums, w) == [Sum(sums[0], w)];
  }

  lemma {:induction false} SumEachPrints<V(!new)>(sums: seq<seq<V>>, w: World<V>)
    requires AddsLikeJavaScript(w) && SumsPrintSmaller(w)
    ensures var texts, all := Texts(SumEach(sums, w), w), AllTexts(sums, w);
            if forall s <- sums :: Concatenates(s, w) then texts == all else Below(texts, all)
  {
    hide AddsLikeJavaScript, SumsPrintSmaller, Below, Concatenates, Texts, Sum;
    if sums == [] {
      NoTexts(w);
    } else {
      SumEachPrints(sums[1..], w);
      FirstSum(sums, w);
      ConcatAtMost(w.text(SumEach(sums, w)[0]), Texts(sums[0], w), Texts(SumEach(sums[1..], w), w),
                   AllTexts(sums[1..], w));
      assert forall s :: s in sums <==> s == sums[0] || s in sums[1..];
    }
  }

  lemma NoTexts<V(!new)>(w: World<V>)
    ensures Texts(SumEach([], w), w) == AllTexts([], w)
  {
  }

  lemma FirstSum<V(!new)>(sums: seq<seq<V>>, w: World<V>)
    requires AddsLikeJavaScript(w) && SumsPrintSmaller(w) && sums != []
    ensures var vs := SumEach(sums, w);
            && Texts(vs, w) == w.text(vs[0]) + Texts(SumEach(sums[1..], w), w)
            && if Concatenates(sums[0], w) then w.text(vs[0]) == Texts(sums[0], w)
               else Below(w.text(vs[0]), Texts(sums[0], w))
  {
    hide AddsLikeJavaScript, SumsPrintSmaller, Below, Sum;
    QuotedIs("", w);
    assert SumEach(sums, w)[1..] == SumEach(sums[1..], w);
    if sums[0] != [] { SumPrints(sums[0], w); }
  }

  /** Where sums print smaller the condition is exact for every page: no two wrong sums make up
      for each other. */
  lemma AnswerShowsExactly<V(!new)>(p: Page<V>, w: World<V>)
    requires AddsLikeJavaScript(w) && SumsPrintSmaller(w)
    ensures w.text(Answer(p, w)) == PageText(p, w) <==> NothingAdded(p, w)
  {
    hide AddsLikeJavaScript, SumsPrintSmaller, Below, Texts, Sum, PageText;
    SummandsText(p, w);
    var sums := Summands(p, w);
    var vs := SumEach(sums, w);
    SumEachPrints(sums, w);
    SumPrints(vs, w);
    AtMostTransitive(w.text(Sum(vs, w)), Texts(vs, w), AllTexts(sums, w));
    NotBelowItself(AllTexts(sums, w));
  }

  // ---------- pages of texts ----------

  ghost predicate OfTexts<V(!new)>(vs: seq<V>, w: World<V>) {
    forall v <- vs :: w.isText(v)
  }

  ghost predicate PageOfTexts<V(!new)>(p: Page<V>, w: World<V>) {
    (forall s <- p.sums :: OfTexts(s, w)) && OfTexts(p.run, w)
  }

  predicate ShowsText<V>(piece: Piece<V>, w: World<V>) {
    match piece
    case Literal(_) => true
    case Joined(value) => w.isText(value)
    case Apart(None) => true
    case Apart(Some(value)) => w.isText(value)
  }

  lemma {:induction false} PutTexts<V(!new)>(p: Page<V>, pieces: seq<Piece<V>>, w: World<V>)
    requires AddsLikeJavaScript(w) && PageOfTexts(p, w) && forall piece <- pieces :: ShowsText(piece, w)
    ensures PageOfTexts(PutAll(p, pieces, w), w)
    decreases |pieces|
  {
    hide AddsLikeJavaScript;
    if pieces != [] {
      QuotedIs(p.pending, w);
      QuotedIs("", w);
      assert pieces[0] in pieces;
      PutTexts(Put(p, pieces[0], w), pieces[1..], w);
    }
  }

  lemma {:induction false} SumEachOfTexts<V(!new)>(sums: seq<seq<V>>, w: World<V>)
    requires AddsLikeJavaScript(w) && forall s <- sums :: OfTexts(s, w)
    ensures OfTexts(SumEach(sums, w), w)
  {
    hide AddsLikeJavaScript;
    if sums != [] {
      assert sums[0] in sums;
      if sums[0] == [] { QuotedIs("", w); } else { TextPlus(sums[0][0], sums[0][1..], w); }
      SumEachOfTexts(sums[1..], w);
    }
  }

  /** Where every value shown is a text, nothing is added. */
  lemma TextsAreNotAdded<V(!new)>(pieces: seq<Piece<V>>, w: World<V>)
    requires AddsLikeJavaScript(w) && forall piece <- pieces :: ShowsText(piece, w)
    ensures NothingAdded(PutAll(Page([], [], ""), pieces, w), w)
  {
    hide AddsLikeJavaScript, PutAll;
    var p := PutAll(Page([], [], ""), pieces, w);
    PutTexts(Page([], [], ""), pieces, w);
    QuotedIs(p.pending, w);
    QuotedIs("", w);
    var sums := Summands(p, w);
    forall s | s in sums ensures OfTexts(s, w) {
    }
    SumEachOfTexts(sums, w);
  }
}
