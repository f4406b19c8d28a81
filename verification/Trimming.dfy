/** Trimming, said without the trimmer: what is left is the text between the whitespace at both ends. */
module Trimming {
  import opened Text

  predicate IsBlankText(s: string) {
    forall c :: c in s ==> IsWhitespace(c)
  }

  /** `t` is not empty and is `s` without the whitespace around it. */
  ghost predicate IsCore(s: string, t: string) {
    && t != "" && !IsWhitespace(t[0]) && !IsWhitespace(t[|t| - 1])
    && exists i: nat, j: nat :: i <= j <= |s| && s[i..j] == t && IsBlankText(s[..i]) && IsBlankText(s[j..])
  }

  lemma {:induction false} StartSkipsBlank(s: string, i: nat)
    requires i < |s| && IsBlankText(s[..i]) && !IsWhitespace(s[i])
    ensures TrimStart(s) == s[i..]
  {
    if i > 0 {
      assert s[0] == s[..i][0];
      assert s[1..][..i - 1] == s[..i][1..] && s[1..][i - 1..] == s[i..];
      StartSkipsBlank(s[1..], i - 1);
    }
  }

  lemma {:induction false} EndSkipsBlank(s: string, j: nat)
    requires 0 < j <= |s| && IsBlankText(s[j..]) && !IsWhitespace(s[j - 1])
    ensures TrimEnd(s) == s[..j]
  {
    if j < |s| {
      var n := |s| - 1;
      assert s[n] == s[j..][n - j];
      assert s[..n][j..] == s[j..][..n - j] && s[..n][..j] == s[..j];
      EndSkipsBlank(s[..n], j);
    }
  }

  lemma {:induction false} StartIsBlank(s: string)
    ensures |TrimStart(s)| <= |s| && TrimStart(s) == s[|s| - |TrimStart(s)|..]
    ensures IsBlankText(s[..|s| - |TrimStart(s)|])
  {
    TrimStartTrims(s);
    if s != [] && IsWhitespace(s[0]) {
      StartIsBlank(s[1..]);
      TrimStartTrims(s[1..]);
      var n := |s| - |TrimStart(s)|;
      assert s[..n] == [s[0]] + s[1..][..n - 1];
    }
  }

  lemma {:induction false} EndIsBlank(s: string)
    ensures |TrimEnd(s)| <= |s| && TrimEnd(s) == s[..|TrimEnd(s)|] && IsBlankText(s[|TrimEnd(s)|..])
  {
    if s != [] && IsWhitespace(s[|s| - 1]) {
      var n := |s| - 1;
      EndIsBlank(s[..n]);
      var k := |TrimEnd(s)|;
      assert s[k..] == s[..n][k..] + [s[n]];
    }
  }

  lemma TrimIsCore(s: string)
    requires Trim(s) != ""
    ensures IsCore(s, Trim(s))
  {
    TrimTrims(s);
    StartIsBlank(s);
    EndIsBlank(TrimStart(s));
    hide TrimStart, TrimEnd, IsWhitespace, IsBlankText;
    var u, t := TrimStart(s), Trim(s);
    var i := |s| - |u|;
    var j := i + |t|;
    assert s[i..j] == u[..|t|] && s[j..] == u[|t|..];
  }

  lemma CoreIsTrim(s: string, t: string, i: nat, j: nat)
    requires t != "" && !IsWhitespace(t[0]) && !IsWhitespace(t[|t| - 1])
    requires i <= j <= |s| && s[i..j] == t && IsBlankText(s[..i]) && IsBlankText(s[j..])
    ensures Trim(s) == t
  {
    hide IsWhitespace, IsBlankText, TrimStart, TrimEnd;
    assert s[i] == t[0] && s[j - 1] == t[|t| - 1];
    StartSkipsBlank(s, i);
    var u := s[i..];
    assert u[j - i..] == s[j..] && u[..j - i] == t && u[j - i - 1] == s[j - 1];
    EndSkipsBlank(u, j - i);
  }

  /** Trimming gives exactly the core, and nothing when there is none. */
  lemma TrimIff(s: string, t: string)
    ensures t != "" ==> (Trim(s) == t <==> IsCore(s, t))
  {
    hide Trim, IsWhitespace, IsBlankText;
    if t != "" && Trim(s) == t {
      TrimIsCore(s);
    }
    if IsCore(s, t) {
      var i: nat, j: nat :| i <= j <= |s| && s[i..j] == t && IsBlankText(s[..i]) && IsBlankText(s[j..]);
      CoreIsTrim(s, t, i, j);
    }
  }
}
