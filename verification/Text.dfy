/** The string operations the program leans on, over ASCII. */
module Text {
  function LowerChar(c: char): char {
    if 'A' <= c <= 'Z' then (c as int + 32) as char else c
  }

  function Lower(s: string): (t: string)
    ensures |t| == |s| && forall i :: 0 <= i < |s| ==> t[i] == LowerChar(s[i])
  {
    seq(|s|, i requires 0 <= i < |s| => LowerChar(s[i]))
  }

  predicate OccursAt(s: string, part: string, i: nat) {
    i + |part| <= |s| && s[i..i + |part|] == part
  }

  predicate Contains(s: string, part: string) {
    exists i: nat :: i <= |s| && OccursAt(s, part, i)
  }

  predicate IsSpace(c: char) {
    c == ' ' || '\t' <= c <= '\r' || '\U{1C}' <= c <= '\U{1F}'
  }

  function Strip(s: string): string
    decreases |s|
  {
    if s == "" then ""
    else if IsSpace(s[0]) then Strip(s[1..])
    else if IsSpace(s[|s| - 1]) then Strip(s[..|s| - 1])
    else s
  }

  // ---- what these mean -------------------------------------------------------------------------------

  const UPPER := "ABCDEFGHIJKLMNOPQRSTUVWXYZ"
  const LOWER := "abcdefghijklmnopqrstuvwxyz"

  /** Letters change case, by their place in the alphabet; nothing else changes. */
  lemma LowerByTheAlphabet(c: char)
    ensures forall i :: 0 <= i < 26 ==> LowerChar(UPPER[i]) == LOWER[i]
    ensures c !in UPPER ==> LowerChar(c) == c
  {
    assert forall i :: 0 <= i < 26 ==> UPPER[i] as int == 65 + i && LOWER[i] as int == 97 + i;
    if 'A' <= c <= 'Z' {
      assert UPPER[c as int - 65] == c;
    }
  }

  /** The text has the part somewhere. */
  ghost predicate Carries(s: string, part: string) {
    exists a: string, b: string :: s == a + part + b
  }

  lemma ContainsWhatItCarries(s: string, part: string)
    ensures Contains(s, part) <==> Carries(s, part)
  {
    if Contains(s, part) {
      var i: nat :| i <= |s| && OccursAt(s, part, i);
      assert s == s[..i] + part + s[i + |part|..];
    }
    if Carries(s, part) {
      var a: string, b: string :| s == a + part + b;
      assert s[|a|..|a| + |part|] == part;
      assert OccursAt(s, part, |a|);
    }
  }

  /** The blanks of ASCII: the space, the five layout characters and the four separators. */
  predicate IsBlank(c: char) {
    c in {' ', '\t', '\n', '\U{0B}', '\U{0C}', '\r', '\U{1C}', '\U{1D}', '\U{1E}', '\U{1F}'}
  }

  lemma SpacesAreBlanks(c: char)
    ensures IsSpace(c) <==> IsBlank(c)
  {
    if '\t' <= c <= '\r' {
      assert c as int in {9, 10, 11, 12, 13};
    }
    if '\U{1C}' <= c <= '\U{1F}' {
      assert c as int in {28, 29, 30, 31};
    }
  }

  ghost predicate AllBlank(s: string) {
    forall i :: 0 <= i < |s| ==> IsBlank(s[i])
  }

  /** `t` is `s` without some blanks at its ends. */
  ghost predicate TrimmedTo(s: string, t: string) {
    exists a: string, b: string :: s == a + t + b && AllBlank(a) && AllBlank(b)
  }

  lemma OneBlankInFront(c: char, s: string, t: string)
    requires IsBlank(c) && TrimmedTo(s, t)
    ensures TrimmedTo([c] + s, t)
  {
    var a, b :| s == a + t + b && AllBlank(a) && AllBlank(b);
    assert [c] + s == ([c] + a) + t + b;
  }

  lemma OneBlankBehind(s: string, c: char, t: string)
    requires IsBlank(c) && TrimmedTo(s, t)
    ensures TrimmedTo(s + [c], t)
  {
    var a, b :| s == a + t + b && AllBlank(a) && AllBlank(b);
    var longer := b + [c];
    assert AllBlank(longer);
    assert s + [c] == a + t + longer;
  }

  lemma NothingToTrim(s: string)
    ensures TrimmedTo(s, s)
  {
    var nothing := "";
    assert AllBlank(nothing) && s == nothing + s + nothing;
  }

  lemma {:induction false} StripTrims(s: string)
    ensures TrimmedTo(s, Strip(s))
    decreases |s|
  {
    if s == "" {
      NothingToTrim(s);
    } else if IsSpace(s[0]) {
      SpacesAreBlanks(s[0]);
      StripTrims(s[1..]);
      OneBlankInFront(s[0], s[1..], Strip(s));
      assert s == [s[0]] + s[1..];
    } else if IsSpace(s[|s| - 1]) {
      var last := |s| - 1;
      SpacesAreBlanks(s[last]);
      StripTrims(s[..last]);
      OneBlankBehind(s[..last], s[last], Strip(s));
      assert s == s[..last] + [s[last]];
    } else {
      NothingToTrim(s);
    }
  }

  lemma {:induction false} NoBlankEndsAreLeft(s: string)
    ensures Strip(s) != "" ==> !IsBlank(Strip(s)[0]) && !IsBlank(Strip(s)[|Strip(s)| - 1])
    decreases |s|
  {
    if s != "" {
      SpacesAreBlanks(s[0]);
      SpacesAreBlanks(s[|s| - 1]);
      if IsSpace(s[0]) {
        NoBlankEndsAreLeft(s[1..]);
      } else if IsSpace(s[|s| - 1]) {
        NoBlankEndsAreLeft(s[..|s| - 1]);
      }
    }
  }

  /** Stripping takes blanks off both ends, and all of them. */
  lemma StripTakesTheBlanks(s: string)
    ensures TrimmedTo(s, Strip(s))
    ensures Strip(s) != "" ==> !IsBlank(Strip(s)[0]) && !IsBlank(Strip(s)[|Strip(s)| - 1])
  {
    StripTrims(s);
    NoBlankEndsAreLeft(s);
  }
}
