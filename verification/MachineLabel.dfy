/** The label a machine is mirrored under, made from its host name. */
module MachineLabel {
  import opened Text

  const LOCAL: string := ".local"

  /** `trim_end_matches(".local")`. */
  function DropLocal(s: string): string {
    if |s| >= 6 && s[|s| - 6..] == LOCAL then DropLocal(s[..|s| - 6]) else s
  }

  function DropDotsStart(s: string): string {
    if s != "" && s[0] == '.' then DropDotsStart(s[1..]) else s
  }

  function DropDotsEnd(s: string): string {
    if s != "" && s[|s| - 1] == '.' then DropDotsEnd(s[..|s| - 1]) else s
  }

  predicate IsLabelChar(c: char) {
    '0' <= c <= '9' || 'a' <= c <= 'z' || c == '.' || c == '_' || c == '-'
  }

  /** Lower case, and a dash for what a label does not hold. */
  function LabelChar(c: char): char {
    if 'A' <= c <= 'Z' then (c as int + 32) as char else if IsLabelChar(c) then c else '-'
  }

  function LabelChars(s: string): (t: string)
    ensures |t| == |s| && forall i :: 0 <= i < |s| ==> t[i] == LabelChar(s[i])
  {
    if s == "" then "" else [LabelChar(s[0])] + LabelChars(s[1..])
  }

  /** `sanitize_machine_label`. */
  function Sanitize(host: string): string {
    LabelChars(DropDotsEnd(DropDotsStart(DropLocal(Trim(host)))))
  }

  /** One directory name over the label's alphabet. */
  predicate IsLabel(s: string) {
    && (forall c :: c in s ==> IsLabelChar(c))
    && (s != "" ==> s[0] != '.' && s[|s| - 1] != '.')
  }

  predicate EndsInLocal(s: string) {
    |s| >= 6 && s[|s| - 6..] == ".local"
  }

  // ----- what a label is

  lemma {:induction false} DotsDropped(s: string)
    ensures |DropDotsStart(s)| <= |s| && |DropDotsEnd(s)| <= |s| && DropDotsEnd(s) <= s
    ensures DropDotsStart(s) != "" ==> DropDotsStart(s)[0] != '.'
    ensures DropDotsEnd(s) != "" ==> DropDotsEnd(s)[|DropDotsEnd(s)| - 1] != '.'
    decreases |s|
  {
    if s != "" {
      DotsDropped(s[1..]);
      DotsDropped(s[..|s| - 1]);
    }
  }

  /** A sanitized label is one directory name, and holds no slash and no colon. */
  lemma SanitizedIsLabel(host: string)
    ensures IsLabel(Sanitize(host))
    ensures '/' !in Sanitize(host) && ':' !in Sanitize(host)
  {
    var s := DropLocal(Trim(host));
    var t := DropDotsStart(s);
    DotsDropped(s);
    DotsDropped(t);
    var u := DropDotsEnd(t);
    assert u != "" ==> u[0] == t[0];
    forall i | 0 <= i < |u|
      ensures IsLabelChar(LabelChar(u[i])) && (LabelChar(u[i]) == '.' <==> u[i] == '.')
    {
    }
    hide Trim, DropLocal, DropDotsStart, DropDotsEnd;
  }

  /** Capital letters become small ones, and what a label does not hold becomes a dash, each in its place. */
  lemma CharactersAre(s: string, i: nat)
    requires i < |s|
    ensures var c, d := s[i], LabelChars(s)[i];
            && (IsLabelChar(c) ==> d == c)
            && ('A' <= c <= 'Z' ==> IsLabelChar(d) && d as int == c as int + 32)
            && (!IsLabelChar(c) && !('A' <= c <= 'Z') ==> d == '-')
  {
  }

  // ----- sanitizing twice

  lemma LabelIsFixed(s: string)
    requires IsLabel(s)
    ensures Trim(s) == s && DropDotsStart(s) == s && DropDotsEnd(s) == s && LabelChars(s) == s
  {
    assert forall c :: IsLabelChar(c) ==> !IsWhitespace(c) && LabelChar(c) == c;
    assert forall i :: 0 <= i < |s| ==> s[i] in s;
    TrimmedIsFixed(s);
  }

  lemma LocalDropped(s: string)
    ensures |DropLocal(s)| <= |s| && (DropLocal(s) == s <==> !EndsInLocal(s))
    decreases |s|
  {
    if EndsInLocal(s) {
      LocalDropped(s[..|s| - 6]);
    }
  }

  /** A label sanitized again stays what it is if and only if it does not end in `.local`. */
  lemma SanitizedTwiceIff(host: string)
    ensures Sanitize(Sanitize(host)) == Sanitize(host) <==> !EndsInLocal(Sanitize(host))
  {
    var r := Sanitize(host);
    SanitizedIsLabel(host);
    LabelIsFixed(r);
    LocalDropped(r);
    hide Trim;
    var s := DropLocal(r);
    DotsDropped(s);
    DotsDropped(DropDotsStart(s));
    if EndsInLocal(r) {
      assert |s| < |r| by {
        LocalDropped(r[..|r| - 6]);
      }
    }
  }

  /** A name with six more characters that are no dot at the end and no white space at either. */
  lemma SuffixStands(name: string, suffix: string)
    requires IsLabel(name) && name != "" && |suffix| == 6 && suffix[5] != '.' && !IsWhitespace(suffix[5])
    ensures var s := name + suffix;
            && s[|s| - 6..] == suffix && s[..|s| - 6] == name
            && Trim(s) == s && DropDotsStart(s) == s && DropDotsEnd(s) == s
  {
    var s := name + suffix;
    assert name[0] in name && IsLabelChar(name[0]) && s[0] == name[0];
    TrimmedIsFixed(s);
  }

  lemma SmallSuffixGoes(name: string)
    requires IsLabel(name) && name != "" && !EndsInLocal(name)
    ensures Sanitize(name + ".local") == name
  {
    hide Trim, DropDotsStart, DropDotsEnd;
    SuffixStands(name, ".local");
    LabelIsFixed(name);
    LocalDropped(name);
  }

  lemma CapitalSuffixStays(name: string)
    requires IsLabel(name) && name != ""
    ensures Sanitize(name + ".LOCAL") == name + ".local"
  {
    hide Trim, DropDotsStart, DropDotsEnd;
    SuffixStands(name, ".LOCAL");
    LabelIsFixed(name);
    var s := name + ".LOCAL";
    assert s[|s| - 6..][1] == 'L';
    assert DropLocal(s) == s;
    hide DropLocal, IsLabel;
    SuffixLowered(name);
  }

  lemma SuffixLowered(name: string)
    requires LabelChars(name) == name
    ensures LabelChars(name + ".LOCAL") == name + ".local"
  {
    var s, t := name + ".LOCAL", name + ".local";
    forall i | 0 <= i < |s|
      ensures LabelChar(s[i]) == t[i]
    {
      if i < |name| {
        assert s[i] == name[i] && t[i] == name[i];
      } else {
        assert s[i] == ".LOCAL"[i - |name|] && t[i] == ".local"[i - |name|];
      }
    }
  }

  /** One machine can get two labels: a suffix in capital letters stays where one in small letters goes. */
  lemma CapitalsKeepTheSuffix(name: string)
    requires IsLabel(name) && name != "" && !EndsInLocal(name)
    ensures Sanitize(name + ".local") == name
    ensures Sanitize(name + ".LOCAL") == name + ".local"
  {
    hide Sanitize;
    SmallSuffixGoes(name);
    CapitalSuffixStays(name);
  }
}
