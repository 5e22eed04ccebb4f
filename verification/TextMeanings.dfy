/** What white space, trimming, fields and lines of a text are, told without recursion. */
module TextMeanings {
  import opened TextLines

  /** White space, character by character. */
  lemma SpaceIs(c: char)
    ensures IsSpace(c) <==> c in {'\t', '\n', '\U{B}', '\U{C}', '\r', ' ', '\U{85}', '\U{A0}', '\U{1680}', '\U{2000}',
                                  '\U{2001}', '\U{2002}', '\U{2003}', '\U{2004}', '\U{2005}', '\U{2006}', '\U{2007}',
                                  '\U{2008}', '\U{2009}', '\U{200A}', '\U{2028}', '\U{2029}', '\U{202F}', '\U{205F}',
                                  '\U{3000}'}
  {
    if IsSpace(c) { assert c == (c as int) as char; }
  }

  ghost predicate Blank(s: string) {
    forall i :: 0 <= i < |s| ==> IsSpace(s[i])
  }

  ghost predicate IsWord(s: string) {
    s != "" && forall i :: 0 <= i < |s| ==> !IsSpace(s[i])
  }

  // ---------- trimming ----------

  lemma {:induction false} TrimLeftIs(s: string)
    ensures var t := TrimLeft(s);
            && |t| <= |s| && t == s[|s| - |t|..] && Blank(s[..|s| - |t|]) && (t != "" ==> !IsSpace(t[0]))
  {
    if s != "" && IsSpace(s[0]) {
      TrimLeftIs(s[1..]);
      var n := |s| - |TrimLeft(s[1..])|;
      assert s[..n] == [s[0]] + s[1..][..n - 1];
    }
  }

  lemma {:induction false} TrimRightIs(s: string)
    ensures var t := TrimRight(s);
            && |t| <= |s| && t == s[..|t|] && Blank(s[|t|..]) && (t != "" ==> !IsSpace(t[|t| - 1]))
  {
    if s != "" && IsSpace(s[|s| - 1]) {
      var most := s[..|s| - 1];
      TrimRightIs(most);
      assert s[|TrimRight(most)|..] == most[|TrimRight(most)|..] + [s[|s| - 1]];
    }
  }

  /** Trimming cuts blank ends and leaves none. */
  lemma TrimIs(s: string)
    ensures var t := Trim(s);
            && (exists i, j :: 0 <= i <= j <= |s| && t == s[i..j] && Blank(s[..i]) && Blank(s[j..]))
            && (t != "" ==> !IsSpace(t[0]) && !IsSpace(t[|t| - 1]))
  {
    hide IsSpace, TrimLeft, TrimRight;
    TrimLeftIs(s);
    var left := TrimLeft(s);
    TrimRightIs(left);
    var i, n := |s| - |left|, |TrimRight(left)|;
    assert s[i..i + n] == left[..n] && s[i + n..] == left[n..];
  }

  // ---------- fields ----------

  lemma {:induction false} WordIs(w: string, rest: string)
    requires IsWord(w) && (rest == "" || IsSpace(rest[0]))
    ensures Word(w + rest) == w
  {
    hide IsSpace;
    if |w| == 1 {
      assert (w + rest)[1..] == rest;
    } else {
      assert (w + rest)[1..] == w[1..] + rest;
      WordIs(w[1..], rest);
    }
  }

  /** White space in front is no field, a word up to white space or the end is one. */
  lemma FieldsAre(w: string, c: char, s: string)
    ensures Fields("") == []
    ensures IsSpace(c) ==> Fields([c] + s) == Fields(s)
    ensures IsWord(w) ==> Fields(w) == [w]
    ensures IsWord(w) && IsSpace(c) ==> Fields(w + ([c] + s)) == [w] + Fields(s)
  {
    hide IsSpace;
    assert ([c] + s)[1..] == s;
    if IsWord(w) {
      WordIs(w, "");
      assert w + "" == w && w[|w|..] == "";
      if IsSpace(c) {
        WordIs(w, [c] + s);
        assert (w + ([c] + s))[|w|..] == [c] + s;
      }
    }
  }

  // ---------- lines ----------

  /** A line ends at a newline, with or without a carriage return before it. */
  lemma LineEnds(a: string, b: string)
    requires !EndsInReturn(a)
    ensures Lines(a + "\n" + b) == Lines(a) + Lines(b) == Lines(a + "\r\n" + b)
    ensures '\n' !in a ==> Lines(a) == [a]
  {
    hide Normalize, Split;
    LinesConcat(a, b);
    NormalizeConcat(a, "\r\n" + b);
    NormalizePair(b);
    Associate(a, "\r\n", b);
    Associate(Normalize(a), "\n", Normalize(b));
    SplitConcat(Normalize(a), Normalize(b));
    NormalizeIdle(a);
    if '\n' !in a {
      assert forall i :: 0 <= i < |a| ==> a[i] in a;
      SplitLine(a);
    }
  }
}
