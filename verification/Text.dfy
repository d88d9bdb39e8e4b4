/** The string helpers of the Go standard library that the commands use, for ASCII letters and spaces. */
module Text {

  function Upper(c: char): char {
    if 'a' <= c <= 'z' then (c as int - 'a' as int + 'A' as int) as char else c
  }

  function ToUpper(s: string): string {
    seq(|s|, i requires 0 <= i < |s| => Upper(s[i]))
  }

  lemma UpperTwice(s: string)
    ensures ToUpper(ToUpper(s)) == ToUpper(s)
  {
    forall i | 0 <= i < |s|
      ensures Upper(Upper(s[i])) == Upper(s[i])
    {
    }
  }

  predicate EqualFold(a: string, b: string) {
    ToUpper(a) == ToUpper(b)
  }

  predicate FoldAt(s: string, part: string, i: nat) {
    i + |part| <= |s| && EqualFold(s[i..i + |part|], part)
  }

  predicate FoldContains(s: string, part: string) {
    exists i | 0 <= i <= |s| :: FoldAt(s, part, i)
  }

  predicate IsSpace(c: char) {
    c == ' ' || '\t' <= c <= '\r'
  }

  function TrimLeft(s: string): string {
    if s != "" && IsSpace(s[0]) then TrimLeft(s[1..]) else s
  }

  function TrimRight(s: string): string {
    if s != "" && IsSpace(s[|s| - 1]) then TrimRight(s[..|s| - 1]) else s
  }

  function Trim(s: string): string {
    TrimRight(TrimLeft(s))
  }

  predicate Blank(s: string) {
    forall c <- s :: IsSpace(c)
  }

  /** strings.TrimSpace(s) == "" asks for exactly this. */
  lemma {:induction false} BlankIsTrimmedAway(s: string)
    ensures Trim(s) == "" <==> Blank(s)
  {
    TrimLeftKeeps(s);
    TrimRightKeeps(TrimLeft(s));
  }

  lemma {:induction false} TrimLeftKeeps(s: string)
    ensures Blank(TrimLeft(s)) <==> Blank(s)
    ensures TrimLeft(s) == "" || !IsSpace(TrimLeft(s)[0])
  {
    if s != "" && IsSpace(s[0]) {
      TrimLeftKeeps(s[1..]);
      assert s == [s[0]] + s[1..];
    }
  }

  lemma {:induction false} TrimRightKeeps(s: string)
    ensures Blank(TrimRight(s)) <==> Blank(s)
    ensures TrimRight(s) == "" ==> Blank(s)
    ensures Blank(s) ==> TrimRight(s) == ""
  {
    if s != "" {
      assert s == s[..|s| - 1] + [s[|s| - 1]];
      if IsSpace(s[|s| - 1]) {
        TrimRightKeeps(s[..|s| - 1]);
      } else {
        assert s[|s| - 1] in s;
      }
    }
  }

  // ---- What the helpers mean --------------------------------------------------------------------

  /** The two characters are the same, or the small and the large form of one letter, 32 apart in ASCII. */
  predicate SameLetter(a: char, b: char) {
    || a == b
    || ('a' <= a <= 'z' && a as int - b as int == 32)
    || ('a' <= b <= 'z' && b as int - a as int == 32)
  }

  lemma {:induction false} UpperIsLetter(c: char)
    ensures SameLetter(c, Upper(c)) && !('a' <= Upper(c) <= 'z')
    ensures !('a' <= c <= 'z') ==> Upper(c) == c
  {
  }

  lemma {:induction false} SameUpper(a: char, b: char)
    ensures Upper(a) == Upper(b) <==> SameLetter(a, b)
  {
    assert 'a' as int == 97 && 'z' as int == 122 && 'A' as int == 65;
  }

  /** Case is folded letter by letter: two strings are equal under it exactly when their characters are, case aside. */
  lemma {:induction false} EqualFoldExactly(a: string, b: string)
    ensures EqualFold(a, b) <==> |a| == |b| && forall i :: 0 <= i < |a| ==> SameLetter(a[i], b[i])
  {
    assert |ToUpper(a)| == |a| && |ToUpper(b)| == |b|;
    forall i | 0 <= i < |a| && i < |b|
      ensures ToUpper(a)[i] == ToUpper(b)[i] <==> SameLetter(a[i], b[i])
    {
      SameUpper(a[i], b[i]);
    }
    if |a| == |b| && forall i :: 0 <= i < |a| ==> SameLetter(a[i], b[i]) {
      assert ToUpper(a) == ToUpper(b);
    }
    if EqualFold(a, b) {
      forall i | 0 <= i < |a|
        ensures SameLetter(a[i], b[i])
      {
        assert ToUpper(a)[i] == ToUpper(b)[i];
      }
    }
  }

  /** The upper-case form is equal to the string, case aside, and has no small letter. */
  lemma {:induction false} ToUpperFolds(s: string)
    ensures EqualFold(ToUpper(s), s) && |ToUpper(s)| == |s|
    ensures forall c <- ToUpper(s) :: !('a' <= c <= 'z')
  {
    UpperTwice(s);
    forall i | 0 <= i < |s|
      ensures !('a' <= ToUpper(s)[i] <= 'z')
    {
      UpperIsLetter(s[i]);
    }
  }

  /** The white space that is trimmed: blank, tab, line feed, vertical tab, form feed and carriage return. */
  lemma SpaceExactly(c: char)
    ensures IsSpace(c) <==> c as int in {32, 9, 10, 11, 12, 13}
  {
  }

  lemma {:induction false} TrimLeftCuts(s: string) returns (i: nat)
    ensures i <= |s| && TrimLeft(s) == s[i..] && Blank(s[..i])
  {
    if s != "" && IsSpace(s[0]) {
      var j := TrimLeftCuts(s[1..]);
      i := j + 1;
      assert s[..i] == [s[0]] + s[1..][..j] && s[i..] == s[1..][j..];
    } else {
      i := 0;
    }
  }

  lemma {:induction false} TrimRightCuts(s: string) returns (j: nat)
    ensures j <= |s| && TrimRight(s) == s[..j] && Blank(s[j..])
    ensures TrimRight(s) != "" ==> !IsSpace(TrimRight(s)[|TrimRight(s)| - 1])
  {
    if s != "" && IsSpace(s[|s| - 1]) {
      j := TrimRightCuts(s[..|s| - 1]);
      assert s[j..] == s[..|s| - 1][j..] + [s[|s| - 1]];
    } else {
      j := |s|;
    }
  }

  /** Trimming cuts white space off both ends, and all of it. */
  lemma {:induction false} TrimExactly(s: string) returns (i: nat, j: nat)
    ensures i <= j <= |s| && Trim(s) == s[i..j] && Blank(s[..i]) && Blank(s[j..])
    ensures Trim(s) != "" ==> !IsSpace(Trim(s)[0]) && !IsSpace(Trim(s)[|Trim(s)| - 1])
  {
    i := TrimLeftCuts(s);
    TrimLeftKeeps(s);
    var k := TrimRightCuts(s[i..]);
    j := i + k;
    assert s[i..][..k] == s[i..j] && s[i..][k..] == s[j..];
  }
}
