/** The string operations the scripts apply to user-supplied names and to
    column names: str.upper(), str.title() and str.find(sub) >= 0, on ASCII. */
module Text {

  predicate IsUpperChar(c: char) { 'A' <= c <= 'Z' }
  predicate IsLowerChar(c: char) { 'a' <= c <= 'z' }
  /** A cased character: the only characters title() and upper() change. */
  predicate IsLetter(c: char) { IsUpperChar(c) || IsLowerChar(c) }

  function UpperChar(c: char): (u: char)
    ensures IsLetter(u) == IsLetter(c) && !IsLowerChar(u)
    ensures !IsLetter(c) ==> u == c
  {
    if IsLowerChar(c) then (c as int - 'a' as int + 'A' as int) as char else c
  }

  function LowerChar(c: char): (l: char)
    ensures IsLetter(l) == IsLetter(c) && !IsUpperChar(l)
    ensures !IsLetter(c) ==> l == c
  {
    if IsUpperChar(c) then (c as int - 'A' as int + 'a' as int) as char else c
  }

  lemma CaseRoundTrip(c: char)
    ensures UpperChar(LowerChar(c)) == UpperChar(c)
    ensures LowerChar(UpperChar(c)) == LowerChar(c)
  {
  }

  /** str.upper() */
  function Upper(s: string): (u: string)
    ensures |u| == |s|
    ensures forall i :: 0 <= i < |s| ==> IsLetter(u[i]) == IsLetter(s[i]) && !IsLowerChar(u[i])
    ensures forall i :: 0 <= i < |s| && !IsLetter(s[i]) ==> u[i] == s[i]
    ensures forall i :: 0 <= i < |s| ==> LowerChar(u[i]) == LowerChar(s[i])
  {
    assert forall i :: 0 <= i < |s| ==> LowerChar(UpperChar(s[i])) == LowerChar(s[i]) by {
      forall i | 0 <= i < |s| {
        CaseRoundTrip(s[i]);
      }
    }
    seq(|s|, i requires 0 <= i < |s| => UpperChar(s[i]))
  }

  /** The character str.title() puts in place of c, given whether the
      character before it is cased. */
  function TitleChar(c: char, afterLetter: bool): char {
    if !IsLetter(c) then c
    else if afterLetter then LowerChar(c)
    else UpperChar(c)
  }

  /** What TitleChar keeps of c: the letter, and every non-letter as is. */
  lemma TitleCharSameLetter(c: char, afterLetter: bool)
    ensures LowerChar(TitleChar(c, afterLetter)) == LowerChar(c)
    ensures !IsLetter(c) ==> TitleChar(c, afterLetter) == c
    ensures IsLetter(c) ==> IsLetter(TitleChar(c, afterLetter)) && (IsUpperChar(TitleChar(c, afterLetter)) <==> !afterLetter)
  {
    CaseRoundTrip(c);
  }

  /** str.title(): a letter that starts a word (no letter before it) is
      upper-cased, every other letter lower-cased. */
  function TitleCase(s: string): (t: string)
    ensures |t| == |s|
    ensures forall i :: 0 <= i < |s| && !IsLetter(s[i]) ==> t[i] == s[i]
    ensures forall i :: 0 <= i < |s| && IsLetter(s[i]) ==>
      IsLetter(t[i]) && (IsUpperChar(t[i]) <==> i == 0 || !IsLetter(s[i - 1]))
    ensures forall i :: 0 <= i < |s| ==> LowerChar(t[i]) == LowerChar(s[i])
  {
    var t := seq(|s|, i requires 0 <= i < |s| => TitleChar(s[i], i > 0 && IsLetter(s[i - 1])));
    forall i | 0 <= i < |s|
      ensures LowerChar(t[i]) == LowerChar(s[i])
      ensures !IsLetter(s[i]) ==> t[i] == s[i]
      ensures IsLetter(s[i]) ==> IsLetter(t[i]) && (IsUpperChar(t[i]) <==> i == 0 || !IsLetter(s[i - 1]))
    {
      TitleCharSameLetter(s[i], i > 0 && IsLetter(s[i - 1]));
    }
    t
  }

  lemma UpperIdempotent(s: string)
    ensures Upper(Upper(s)) == Upper(s)
  {
    forall i | 0 <= i < |s|
      ensures Upper(Upper(s))[i] == Upper(s)[i]
    {
      CaseRoundTrip(s[i]);
    }
  }

  /** title() does not look at the case of its input, so title-casing the
      upper-cased name gives the same result. */
  lemma TitleCaseIgnoresCase(s: string)
    ensures TitleCase(Upper(s)) == TitleCase(s)
  {
    forall i | 0 <= i < |s|
      ensures TitleCase(Upper(s))[i] == TitleCase(s)[i]
    {
      CaseRoundTrip(s[i]);
    }
  }

  /** upper() of a title-cased name is upper() of the name. */
  lemma UpperOfTitleCase(s: string)
    ensures Upper(TitleCase(s)) == Upper(s)
  {
    forall i | 0 <= i < |s|
      ensures Upper(TitleCase(s))[i] == Upper(s)[i]
    {
      CaseRoundTrip(s[i]);
    }
  }

  lemma TitleCaseIdempotent(s: string)
    ensures TitleCase(TitleCase(s)) == TitleCase(s)
  {
    var t := TitleCase(s);
    forall i | 0 <= i < |s|
      ensures TitleCase(t)[i] == t[i]
    {
      CaseRoundTrip(s[i]);
      if i > 0 {
        assert IsLetter(t[i - 1]) == IsLetter(s[i - 1]);
      }
    }
  }

  /** t occurs in s starting at position i. */
  predicate OccursAt(s: string, t: string, i: int) {
    0 <= i <= |s| - |t| && s[i..i + |t|] == t
  }

  /** s.find(t) >= 0 */
  predicate Contains(s: string, t: string)
    ensures Contains(s, t) ==> |t| <= |s|
    ensures t == [] ==> Contains(s, t)
  {
    assert t == [] ==> OccursAt(s, t, 0);
    exists i | 0 <= i <= |s| - |t| :: OccursAt(s, t, i)
  }
}
