/** The comment line above the kept lines. */
module HandHeader {

  const HEADER := "# Lines added outside the form, kept by OpenVPN UI"

  lemma Halves()
    ensures HEADER[..25] == "# Lines added outside the" && HEADER[25..] == " form, kept by OpenVPN UI"
  {
  }

  lemma FirstHalf()
    ensures var s := "# Lines added outside the"; s[0] == '#' && s[1] == ' ' && '\n' !in s
  {
    assert "# Lines added outside the" == "# Lines ad" + "ded outside the";
  }

  lemma SecondHalf()
    ensures var s := " form, kept by OpenVPN UI"; s[24] == 'I' && '\n' !in s
  {
  }

  lemma OfHalves(s: string, a: string, b: string)
    requires |a| == |b| == 25 && |s| == 50 && s[..25] == a && s[25..] == b && '\n' !in a && '\n' !in b
    ensures s[0] == a[0] && s[1] == a[1] && s[49] == b[24] && '\n' !in s
  {
    assert s == a + b;
  }

  lemma HeaderIsComment()
    ensures |HEADER| == 50 && HEADER[0] == '#' && HEADER[1] == ' ' && HEADER[49] == 'I' && '\n' !in HEADER
  {
    Halves();
    FirstHalf();
    SecondHalf();
    OfHalves(HEADER, "# Lines added outside the", " form, kept by OpenVPN UI");
  }
}
