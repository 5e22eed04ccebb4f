/** Lines, fields and surrounding space of texts, as Go's `strings` package sees them. */
module TextLines {
  /** White space by `unicode.IsSpace`. */
  predicate IsSpace(c: char) {
    var n := c as int;
    9 <= n <= 13 || n == 32 || n == 0x85 || n == 0xA0 || n == 0x1680 || 0x2000 <= n <= 0x200A
    || n == 0x2028 || n == 0x2029 || n == 0x202F || n == 0x205F || n == 0x3000
  }

  /** The pieces between separators. */
  function SplitOn(s: string, sep: char): (pieces: seq<string>)
    ensures |pieces| >= 1 && forall i :: 0 <= i < |pieces| ==> sep !in pieces[i]
  {
    if s == "" then [""]
    else
      var rest := SplitOn(s[1..], sep);
      if s[0] == sep then [""] + rest else [[s[0]] + rest[0]] + rest[1..]
  }

  function JoinOn(pieces: seq<string>, sep: char): string {
    if pieces == [] then "" else if |pieces| == 1 then pieces[0] else pieces[0] + [sep] + JoinOn(pieces[1..], sep)
  }

  function Split(s: string): (lines: seq<string>)
    ensures |lines| >= 1 && forall i :: 0 <= i < |lines| ==> '\n' !in lines[i]
  {
    SplitOn(s, '\n')
  }

  function Join(lines: seq<string>): string {
    JoinOn(lines, '\n')
  }

  /** Every CR LF becomes LF. */
  function Normalize(s: string): (r: string)
    ensures |r| <= |s|
  {
    if |s| < 2 then s
    else if s[0] == '\r' && s[1] == '\n' then "\n" + Normalize(s[2..])
    else [s[0]] + Normalize(s[1..])
  }

  function Lines(s: string): (lines: seq<string>)
    ensures |lines| >= 1
  {
    Split(Normalize(s))
  }

  function TrimLeft(s: string): string {
    if s == "" || !IsSpace(s[0]) then s else TrimLeft(s[1..])
  }

  function TrimRight(s: string): string {
    if s == "" || !IsSpace(s[|s| - 1]) then s else TrimRight(s[..|s| - 1])
  }

  function Trim(s: string): string {
    TrimRight(TrimLeft(s))
  }

  /** The first word of a text that does not start with space. */
  function Word(s: string): (w: string)
    ensures w <= s && |w| <= |s|
    ensures s != "" && !IsSpace(s[0]) ==> w != ""
  {
    if s == "" || IsSpace(s[0]) then "" else [s[0]] + Word(s[1..])
  }

  /** The words between white space. */
  function Fields(s: string): seq<string>
    decreases |s|
  {
    if s == "" then []
    else if IsSpace(s[0]) then Fields(s[1..])
    else [Word(s)] + Fields(s[|Word(s)|..])
  }

  predicate EndsInReturn(s: string) {
    s != "" && s[|s| - 1] == '\r'
  }

  // ---------- splitting and joining ----------

  lemma SplitOnFirst(c: char, s: string, sep: char)
    ensures var rest := SplitOn(s, sep);
            SplitOn([c] + s, sep) == if c == sep then [""] + rest else [[c] + rest[0]] + rest[1..]
  {
    assert ([c] + s)[1..] == s;
  }

  lemma FrontConcat(a: string, c: char, b: string)
    requires a != ""
    ensures a + [c] + b == [a[0]] + (a[1..] + [c] + b) && a == [a[0]] + a[1..]
  {
  }

  lemma PiecesConcat(c: char, p: seq<string>, q: seq<string>)
    requires p != []
    ensures [[c] + (p + q)[0]] + (p + q)[1..] == [[c] + p[0]] + p[1..] + q && [""] + (p + q) == [""] + p + q
  {
  }

  lemma {:induction false} SplitOnConcat(a: string, b: string, sep: char)
    ensures SplitOn(a + [sep] + b, sep) == SplitOn(a, sep) + SplitOn(b, sep)
  {
    if a == "" {
      SplitOnFirst(sep, b, sep);
      assert a + [sep] + b == [sep] + b;
    } else {
      hide SplitOn;
      var rest := a[1..] + [sep] + b;
      SplitOnConcat(a[1..], b, sep);
      SplitOnFirst(a[0], rest, sep);
      SplitOnFirst(a[0], a[1..], sep);
      FrontConcat(a, sep, b);
      PiecesConcat(a[0], SplitOn(a[1..], sep), SplitOn(b, sep));
    }
  }

  lemma {:induction false} SplitOnPiece(s: string, sep: char)
    requires sep !in s
    ensures SplitOn(s, sep) == [s]
  {
    if s != "" {
      SplitOnPiece(s[1..], sep);
      assert s[0] in s && [s[0]] + s[1..] == s;
    }
  }

  lemma {:induction false} SplitOnJoin(pieces: seq<string>, sep: char)
    requires pieces != [] && forall i :: 0 <= i < |pieces| ==> sep !in pieces[i]
    ensures SplitOn(JoinOn(pieces, sep), sep) == pieces
  {
    SplitOnPiece(pieces[0], sep);
    if |pieces| > 1 {
      SplitOnJoin(pieces[1..], sep);
      SplitOnConcat(pieces[0], JoinOn(pieces[1..], sep), sep);
    }
  }

  lemma SplitConcat(a: string, b: string)
    ensures Split(a + "\n" + b) == Split(a) + Split(b)
  {
    SplitOnConcat(a, b, '\n');
  }

  lemma SplitLine(s: string)
    requires '\n' !in s
    ensures Split(s) == [s]
  {
    SplitOnPiece(s, '\n');
  }

  lemma SplitJoin(lines: seq<string>)
    requires lines != [] && forall i :: 0 <= i < |lines| ==> '\n' !in lines[i]
    ensures Split(Join(lines)) == lines
  {
    SplitOnJoin(lines, '\n');
  }

  lemma {:induction false} JoinSplit(s: string)
    ensures Join(Split(s)) == s
  {
    if s != "" {
      JoinSplit(s[1..]);
      var rest := Split(s[1..]);
      if s[0] == '\n' {
        assert Split(s)[1..] == rest;
      } else {
        assert Split(s)[1..] == rest[1..];
      }
    }
  }

  lemma {:induction false} JoinConcat(a: seq<string>, b: seq<string>)
    requires a != [] && b != []
    ensures Join(a + b) == Join(a) + "\n" + Join(b)
  {
    if |a| == 1 {
      assert (a + b)[1..] == b;
    } else {
      assert (a + b)[1..] == a[1..] + b;
      JoinConcat(a[1..], b);
      assert Join(a + b) == a[0] + "\n" + (Join(a[1..]) + "\n" + Join(b));
    }
  }

  // ---------- carriage returns ----------

  lemma NormalizeCons(c: char, s: string)
    requires !(c == '\r' && s != "" && s[0] == '\n')
    ensures Normalize([c] + s) == [c] + Normalize(s)
  {
    assert ([c] + s)[1..] == s;
  }

  lemma NormalizePair(s: string)
    ensures Normalize("\r\n" + s) == "\n" + Normalize(s)
  {
    assert ("\r\n" + s)[2..] == s;
  }

  lemma Associate(a: string, b: string, c: string)
    ensures a + b + c == a + (b + c)
  {
  }

  lemma ConsConcat(x: char, a: string, b: string)
    requires Normalize(a + b) == Normalize(a) + Normalize(b)
    requires !(x == '\r' && a != "" && a[0] == '\n') && !(x == '\r' && a == "" && b != "" && b[0] == '\n')
    ensures Normalize([x] + a + b) == Normalize([x] + a) + Normalize(b)
  {
    hide Normalize;
    NormalizeCons(x, a);
    NormalizeCons(x, a + b);
    Associate([x], a, b);
    Associate([x], Normalize(a), Normalize(b));
  }

  lemma PairConcat(a: string, b: string)
    requires Normalize(a + b) == Normalize(a) + Normalize(b)
    ensures Normalize("\r\n" + a + b) == Normalize("\r\n" + a) + Normalize(b)
  {
    hide Normalize;
    NormalizePair(a);
    NormalizePair(a + b);
    Associate("\r\n", a, b);
    Associate("\n", Normalize(a), Normalize(b));
  }

  lemma {:induction false} NormalizeConcat(a: string, b: string)
    requires !(EndsInReturn(a) && b != "" && b[0] == '\n')
    ensures Normalize(a + b) == Normalize(a) + Normalize(b)
    decreases |a|
  {
    assert Normalize("") == "";
    hide Normalize;
    if a == "" {
      assert a + b == b;
    } else if |a| >= 2 && a[0] == '\r' && a[1] == '\n' {
      NormalizeConcat(a[2..], b);
      PairConcat(a[2..], b);
      assert a == "\r\n" + a[2..];
    } else {
      NormalizeConcat(a[1..], b);
      ConsConcat(a[0], a[1..], b);
      assert a == [a[0]] + a[1..];
    }
  }

  lemma NormalizeNewline(b: string)
    ensures Normalize("\n" + b) == "\n" + Normalize(b)
  {
    assert ("\n" + b)[1..] == b;
  }

  lemma LinesConcat(a: string, b: string)
    requires !EndsInReturn(a)
    ensures Lines(a + "\n" + b) == Lines(a) + Lines(b)
  {
    hide Normalize, Split;
    NormalizeConcat(a, "\n" + b);
    NormalizeNewline(b);
    Associate(a, "\n", b);
    Associate(Normalize(a), "\n", Normalize(b));
    SplitConcat(Normalize(a), Normalize(b));
  }

  predicate HasReturnNewline(s: string) {
    exists i :: 0 <= i < |s| - 1 && s[i] == '\r' && s[i + 1] == '\n'
  }

  lemma ReturnNewlineCons(s: string)
    requires |s| >= 2
    ensures HasReturnNewline(s) <==> (s[0] == '\r' && s[1] == '\n') || HasReturnNewline(s[1..])
  {
    if i :| 0 <= i < |s[1..]| - 1 && s[1..][i] == '\r' && s[1..][i + 1] == '\n' {
      assert s[i + 1] == '\r' && s[i + 2] == '\n';
    }
    if i :| 0 < i < |s| - 1 && s[i] == '\r' && s[i + 1] == '\n' {
      assert s[1..][i - 1] == '\r' && s[1..][i] == '\n';
    }
  }

  lemma {:induction false} NormalizeIdle(s: string)
    ensures !HasReturnNewline(s) ==> Normalize(s) == s
    ensures HasReturnNewline(s) ==> |Normalize(s)| < |s|
  {
    if |s| >= 2 {
      ReturnNewlineCons(s);
      if !(s[0] == '\r' && s[1] == '\n') { NormalizeIdle(s[1..]); }
    }
  }

  /** No line of the text ends in a carriage return once CR LF has become LF. */
  ghost predicate CleanText(s: string) {
    forall i :: 0 <= i < |Lines(s)| ==> !EndsInReturn(Lines(s)[i])
  }

  lemma {:induction false} NormalizeLast(s: string)
    requires EndsInReturn(s)
    ensures EndsInReturn(Normalize(s))
    decreases |s|
  {
    if |s| >= 2 {
      if s[0] == '\r' && s[1] == '\n' { NormalizeLast(s[2..]); } else { NormalizeLast(s[1..]); }
    }
  }

  lemma {:induction false} SplitLast(s: string)
    requires EndsInReturn(s)
    ensures EndsInReturn(Split(s)[|Split(s)| - 1])
  {
    if |s| > 1 { SplitLast(s[1..]); } else { assert SplitOn(s[1..], '\n') == [""]; }
  }

  lemma CleanEnd(s: string)
    requires CleanText(s)
    ensures !EndsInReturn(s)
  {
    var last := |Lines(s)| - 1;
    assert !EndsInReturn(Lines(s)[last]);
    if EndsInReturn(s) {
      NormalizeLast(s);
      SplitLast(Normalize(s));
      assert false;
    }
  }

  /** Joined lines hold CR LF exactly where a line before the last ends in CR. */
  lemma {:induction false} JoinedReturns(lines: seq<string>)
    requires forall i :: 0 <= i < |lines| ==> '\n' !in lines[i]
    ensures HasReturnNewline(Join(lines)) <==> exists i :: 0 <= i < |lines| - 1 && EndsInReturn(lines[i])
  {
    if |lines| > 1 {
      var first, rest := lines[0], lines[1..];
      JoinedReturns(rest);
      var s, r := Join(lines), Join(rest);
      assert s == first + "\n" + r;
      if i :| 0 <= i < |s| - 1 && s[i] == '\r' && s[i + 1] == '\n' {
        if i + 1 == |first| {
          assert EndsInReturn(lines[0]);
        } else if i > |first| {
          assert r[i - |first| - 1] == '\r' && r[i - |first|] == '\n';
          assert HasReturnNewline(r);
          var j :| 0 <= j < |rest| - 1 && EndsInReturn(rest[j]);
          assert EndsInReturn(lines[j + 1]);
        }
      }
      if i :| 0 <= i < |lines| - 1 && EndsInReturn(lines[i]) {
        if i == 0 {
          assert s[|first| - 1] == '\r' && s[|first|] == '\n';
        } else {
          assert EndsInReturn(rest[i - 1]);
          assert HasReturnNewline(r);
          var j :| 0 <= j < |r| - 1 && r[j] == '\r' && r[j + 1] == '\n';
          assert s[|first| + 1 + j] == '\r' && s[|first| + 1 + j + 1] == '\n';
        }
      }
    }
  }

  // ---------- fields and surrounding space ----------

  lemma {:induction false} FieldsSkip(s: string)
    ensures Fields(TrimLeft(s)) == Fields(s)
  {
    if s != "" && IsSpace(s[0]) { FieldsSkip(s[1..]); }
  }

  lemma {:induction false} WordSnoc(s: string, c: char)
    requires IsSpace(c)
    ensures Word(s + [c]) == Word(s)
  {
    if s != "" && !IsSpace(s[0]) {
      assert (s + [c])[1..] == s[1..] + [c];
      WordSnoc(s[1..], c);
    }
  }

  lemma {:induction false} FieldsSnoc(s: string, c: char)
    requires IsSpace(c)
    ensures Fields(s + [c]) == Fields(s)
    decreases |s|
  {
    var t := s + [c];
    if s == "" {
      assert Fields(t) == Fields(t[1..]) && t[1..] == "";
    } else if IsSpace(s[0]) {
      assert t[1..] == s[1..] + [c];
      FieldsSnoc(s[1..], c);
    } else {
      WordSnoc(s, c);
      var n := |Word(s)|;
      assert t[n..] == s[n..] + [c];
      FieldsSnoc(s[n..], c);
    }
  }

  lemma {:induction false} FieldsCut(s: string)
    ensures Fields(TrimRight(s)) == Fields(s)
  {
    if s != "" && IsSpace(s[|s| - 1]) {
      FieldsCut(s[..|s| - 1]);
      FieldsSnoc(s[..|s| - 1], s[|s| - 1]);
      assert s[..|s| - 1] + [s[|s| - 1]] == s;
    }
  }

  lemma FieldsOfTrim(s: string)
    ensures Fields(Trim(s)) == Fields(s)
  {
    FieldsSkip(s);
    FieldsCut(TrimLeft(s));
  }

  lemma {:induction false} TrimRightKeepsLeft(s: string)
    requires s == "" || !IsSpace(s[0])
    ensures TrimRight(s) == "" || !IsSpace(TrimRight(s)[0])
    ensures TrimRight(s) == "" || !IsSpace(TrimRight(s)[|TrimRight(s)| - 1])
  {
    if s != "" && IsSpace(s[|s| - 1]) { TrimRightKeepsLeft(s[..|s| - 1]); }
  }

  lemma {:induction false} TrimLeftEnds(s: string)
    ensures TrimLeft(s) == "" || !IsSpace(TrimLeft(s)[0])
  {
    if s != "" && IsSpace(s[0]) { TrimLeftEnds(s[1..]); }
  }

  lemma TrimTwice(s: string)
    ensures Trim(Trim(s)) == Trim(s) && (Trim(s) == "" || !IsSpace(Trim(s)[|Trim(s)| - 1]))
  {
    TrimLeftEnds(s);
    TrimRightKeepsLeft(TrimLeft(s));
  }

  lemma {:induction false} TrimWithin(s: string)
    requires '\n' !in s
    ensures '\n' !in TrimLeft(s) && '\n' !in TrimRight(s)
  {
    if s != "" {
      TrimWithin(s[1..]);
      TrimWithin(s[..|s| - 1]);
    }
  }

  lemma TrimHasNoNewline(s: string)
    requires '\n' !in s
    ensures '\n' !in Trim(s)
  {
    TrimWithin(s);
    TrimWithin(TrimLeft(s));
  }
}
