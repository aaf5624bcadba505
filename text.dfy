/** The two string normalisations the commands apply to their argument:
    Python's `str.lower` (for `!autoclaim`) and `str.title` (for `!autodelete`),
    restricted to ASCII letters. */
module Text {

  predicate IsUpper(c: char) { 'A' <= c <= 'Z' }
  predicate IsLower(c: char) { 'a' <= c <= 'z' }

  /** A cased character; `str.title` starts a new word after any other one. */
  predicate IsCased(c: char) { IsUpper(c) || IsLower(c) }

  function LowerChar(c: char): (r: char)
    ensures IsCased(r) == IsCased(c)
    ensures !IsUpper(r)
  {
    if IsUpper(c) then (c as int + 32) as char else c
  }

  function UpperChar(c: char): (r: char)
    ensures IsCased(r) == IsCased(c)
    ensures !IsLower(r)
  {
    if IsLower(c) then (c as int - 32) as char else c
  }

  /** `s.lower()`. */
  function Lower(s: string): (r: string)
    ensures |r| == |s|
    ensures forall i :: 0 <= i < |s| ==> r[i] == LowerChar(s[i])
  {
    if s == [] then [] else [LowerChar(s[0])] + Lower(s[1..])
  }

  /** `s.title()`: a cased character that follows a cased character is
      lowered, every other character is upper-cased. */
  function Title(s: string): (r: string)
    ensures |r| == |s|
    ensures forall i :: 0 <= i < |s| ==> LowerChar(r[i]) == LowerChar(s[i])
    ensures r != [] ==> !IsLower(r[0])
  {
    LowerOfTitleAfter(s, false);
    assert forall i :: 0 <= i < |s| ==> Lower(TitleAfter(s, false))[i] == Lower(s)[i];
    TitleAfter(s, false)
  }

  function TitleAfter(s: string, prevCased: bool): (r: string)
    ensures |r| == |s|
  {
    if s == [] then []
    else
      var c := if prevCased then LowerChar(s[0]) else UpperChar(s[0]);
      [c] + TitleAfter(s[1..], IsCased(s[0]))
  }

  /** Title-casing character by character: a character right after a cased
      one is lowered, every other character is upper-cased. */
  lemma {:induction false} TitleAfterAt(s: string, prevCased: bool)
    ensures forall i :: 0 <= i < |s| ==>
              TitleAfter(s, prevCased)[i] ==
                if (if i == 0 then prevCased else IsCased(s[i - 1])) then LowerChar(s[i]) else UpperChar(s[i])
  {
    if s != [] {
      var r := TitleAfter(s, prevCased);
      TitleAfterAt(s[1..], IsCased(s[0]));
      assert r[1..] == TitleAfter(s[1..], IsCased(s[0]));
      forall i | 1 <= i < |s|
        ensures r[i] == if IsCased(s[i - 1]) then LowerChar(s[i]) else UpperChar(s[i])
      {
        assert r[i] == r[1..][i - 1];
        assert s[i] == s[1..][i - 1];
        assert s[i - 1] == (if i == 1 then s[0] else s[1..][i - 2]);
      }
    }
  }

  /** `s.title()` character by character: the first character and every one
      after an uncased character are upper-cased, the rest lowered. */
  lemma TitleAt(s: string)
    ensures forall i :: 0 <= i < |s| ==>
              Title(s)[i] == if i > 0 && IsCased(s[i - 1]) then LowerChar(s[i]) else UpperChar(s[i])
  {
    assert Title(s) == TitleAfter(s, false);
    TitleAfterAt(s, false);
  }

  /** Title-casing does not depend on the case of its input. */
  lemma {:induction false} TitleAfterIgnoresCase(s: string, t: string, prevCased: bool)
    requires Lower(s) == Lower(t)
    ensures TitleAfter(s, prevCased) == TitleAfter(t, prevCased)
  {
    if s != [] {
      assert |t| == |s|;
      assert LowerChar(s[0]) == LowerChar(t[0]);
      assert Lower(s[1..]) == Lower(s)[1..];
      assert Lower(t[1..]) == Lower(t)[1..];
      TitleAfterIgnoresCase(s[1..], t[1..], IsCased(s[0]));
    }
  }

  /** Lowering a title-cased string gives back the lowered input. */
  lemma {:induction false} LowerOfTitleAfter(s: string, prevCased: bool)
    ensures Lower(TitleAfter(s, prevCased)) == Lower(s)
  {
    if s != [] {
      LowerOfTitleAfter(s[1..], IsCased(s[0]));
      var r := TitleAfter(s, prevCased);
      assert r[1..] == TitleAfter(s[1..], IsCased(s[0]));
      assert Lower(r)[1..] == Lower(r[1..]);
    }
  }

  /** Title-casing is idempotent. */
  lemma TitleIdempotent(s: string)
    ensures Title(Title(s)) == Title(s)
  {
    LowerOfTitleAfter(s, false);
    TitleAfterIgnoresCase(Title(s), s, false);
  }

  /** For a name that title-casing leaves alone (every rarity name), `s.title()`
      yields that name exactly when `s` spells it in some mix of cases. */
  lemma TitleMatchesIff(s: string, name: string)
    requires Title(name) == name
    ensures Title(s) == name <==> Lower(s) == Lower(name)
  {
    LowerOfTitleAfter(s, false);
    if Lower(s) == Lower(name) {
      TitleAfterIgnoresCase(s, name, false);
    }
  }

  /** A capitalised word: an upper-case letter followed by lower-case ones. */
  predicate Capitalised(s: string)
  {
    s != [] && IsUpper(s[0]) && forall i :: 1 <= i < |s| ==> IsLower(s[i])
  }

  lemma {:induction false} LowerWordIsFixed(s: string)
    requires forall i :: 0 <= i < |s| ==> IsLower(s[i])
    ensures TitleAfter(s, true) == s
  {
    if s != [] {
      LowerWordIsFixed(s[1..]);
    }
  }

  /** A capitalised word is its own title case. */
  lemma CapitalisedIsTitled(s: string)
    requires Capitalised(s)
    ensures Title(s) == s
  {
    LowerWordIsFixed(s[1..]);
  }
}
