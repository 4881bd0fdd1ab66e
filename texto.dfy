/** A model of `java.lang.String.trim()`: it drops every leading and every
    trailing character whose code is at most U+0020 (space and the control
    characters). */
module Texto {

  /** A character `trim()` removes. */
  predicate EhEspaco(c: char)
  {
    c <= ' '
  }

  /** True when every character of `s` is one `trim()` removes. */
  predicate SoEspacos(s: string)
  {
    forall i :: 0 <= i < |s| ==> EhEspaco(s[i])
  }

  /** `s` without its leading trimmable characters: a suffix of `s`, whatever
      was dropped was trimmable, and what is kept starts with a character
      that is not. */
  function TiraInicio(s: string): (r: string)
    ensures |r| <= |s| && r == s[|s| - |r|..]
    ensures SoEspacos(s[..|s| - |r|])
    ensures |r| > 0 ==> !EhEspaco(r[0])
  {
    if |s| > 0 && EhEspaco(s[0]) then
      var t := TiraInicio(s[1..]);
      assert s[..|s| - |t|] == [s[0]] + s[1..][..|s[1..]| - |t|];
      t
    else
      s
  }

  /** `s` without its trailing trimmable characters: a prefix of `s`, whatever
      was dropped was trimmable, and what is kept ends with a character that
      is not. */
  function TiraFim(s: string): (r: string)
    ensures |r| <= |s| && r == s[..|r|]
    ensures SoEspacos(s[|r|..])
    ensures |r| > 0 ==> !EhEspaco(r[|r| - 1])
  {
    if |s| > 0 && EhEspaco(s[|s| - 1]) then
      var p := s[..|s| - 1];
      var t := TiraFim(p);
      assert s[|t|..] == p[|t|..] + [s[|s| - 1]];
      t
    else
      s
  }

  /** `s.trim()`. */
  function Trim(s: string): string
  {
    TiraFim(TiraInicio(s))
  }

  /** `s.trim().isEmpty()` exactly when every character of `s` is trimmable. */
  lemma {:induction false} TrimVazioSeSoEspacos(s: string)
    ensures |Trim(s)| == 0 <==> SoEspacos(s)
  {
    var a := TiraInicio(s);
    var b := TiraFim(a);
    if |b| == 0 {
      // nothing survives the trailing pass, so the leading pass kept nothing
      assert a[0..] == a;
      assert |a| == 0;
      assert s[..|s| - |a|] == s;
    } else {
      // the first kept character is not trimmable
      assert |a| > 0 && !EhEspaco(a[0]);
      assert a[0] == s[|s| - |a|];
    }
  }

  /** The result of `trim()` is a contiguous piece of its input, neither of
      whose ends is trimmable, and trimming it again changes nothing. */
  lemma TrimFatia(s: string)
    ensures exists i, j :: 0 <= i <= j <= |s| && Trim(s) == s[i..j]
    ensures |Trim(s)| > 0 ==> !EhEspaco(Trim(s)[0]) && !EhEspaco(Trim(s)[|Trim(s)| - 1])
    ensures Trim(Trim(s)) == Trim(s)
  {
    var a := TiraInicio(s);
    var b := TiraFim(a);
    var i := |s| - |a|;
    assert b == s[i..i + |b|];
    if |b| > 0 {
      assert b[0] == a[0];
    }
  }
}
