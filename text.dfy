/** String helpers used by the parking service: case mapping (restricted to the
    ASCII letters) and substring containment. */
module Text {

  function LowerChar(c: char): char
  {
    if 'A' <= c <= 'Z' then (c as int + 32) as char else c
  }

  function UpperChar(c: char): char
  {
    if 'a' <= c <= 'z' then (c as int - 32) as char else c
  }

  /** `s.toLowerCase()`: every character mapped by LowerChar, position by position. */
  function ToLower(s: string): string
  {
    seq(|s|, i requires 0 <= i < |s| => LowerChar(s[i]))
  }

  /** `s.toUpperCase()`: every character mapped by UpperChar, position by position. */
  function ToUpper(s: string): string
  {
    seq(|s|, i requires 0 <= i < |s| => UpperChar(s[i]))
  }

  /** A lower-case word: ASCII lower-case letters and digits only. */
  predicate IsLowerWord(w: string)
  {
    forall i :: 0 <= i < |w| ==> 'a' <= w[i] <= 'z' || '0' <= w[i] <= '9'
  }

  /** `x` spells the lower-case word `w` in any mix of upper and lower case. */
  predicate SameIgnoringCase(x: string, w: string)
  {
    |x| == |w| && forall i :: 0 <= i < |x| ==> x[i] == w[i] || x[i] == UpperChar(w[i])
  }

  /** Lower-casing `x` yields the word `w` exactly when `x` spells `w` in any case. */
  lemma ToLowerEqualsIff(x: string, w: string)
    requires IsLowerWord(w)
    ensures ToLower(x) == w <==> SameIgnoringCase(x, w)
  {
    if SameIgnoringCase(x, w) {
      assert forall i :: 0 <= i < |x| ==> ToLower(x)[i] == w[i];
    }
    if ToLower(x) == w {
      assert |x| == |ToLower(x)| == |w|;
      forall i | 0 <= i < |x|
        ensures LowerChar(x[i]) == w[i]
      {
        assert ToLower(x)[i] == w[i];
      }
    }
  }

  /** Upper-casing `x` yields the upper-cased word exactly when `x` spells `w` in any case. */
  lemma ToUpperEqualsIff(x: string, w: string)
    requires IsLowerWord(w)
    ensures ToUpper(x) == ToUpper(w) <==> SameIgnoringCase(x, w)
  {
    if SameIgnoringCase(x, w) {
      assert forall i :: 0 <= i < |x| ==> ToUpper(x)[i] == ToUpper(w)[i];
    }
    if ToUpper(x) == ToUpper(w) {
      assert |x| == |ToUpper(x)| == |ToUpper(w)| == |w|;
      forall i | 0 <= i < |x|
        ensures UpperChar(x[i]) == UpperChar(w[i])
      {
        assert ToUpper(x)[i] == ToUpper(w)[i];
      }
    }
  }

  /** `sub` occurs in `s` starting at position 0. */
  predicate StartsWith(s: string, sub: string)
  {
    |sub| <= |s| && s[..|sub|] == sub
  }

  /** The plate filter `{ contains: search }`, modelled as an exact,
      case-sensitive substring test. */
  predicate Contains(s: string, sub: string)
  {
    StartsWith(s, sub) || (|s| > 0 && Contains(s[1..], sub))
  }

  /** `sub` occurs in `s` at offset `i`. */
  predicate OccursAt(s: string, sub: string, i: int)
  {
    0 <= i <= |s| - |sub| && s[i..i + |sub|] == sub
  }

  /** Contains holds exactly when `sub` occurs at some offset of `s`. */
  lemma {:induction false} ContainsIff(s: string, sub: string)
    ensures Contains(s, sub) <==> exists i :: OccursAt(s, sub, i)
  {
    if StartsWith(s, sub) {
      assert OccursAt(s, sub, 0);
    } else if |s| > 0 {
      ContainsIff(s[1..], sub);
      if Contains(s[1..], sub) {
        var i :| OccursAt(s[1..], sub, i);
        assert s[i + 1..i + 1 + |sub|] == s[1..][i..i + |sub|];
        assert OccursAt(s, sub, i + 1);
      }
      if exists i :: OccursAt(s, sub, i) {
        var i :| OccursAt(s, sub, i);
        assert i != 0;
        assert s[1..][i - 1..i - 1 + |sub|] == s[i..i + |sub|];
        assert OccursAt(s[1..], sub, i - 1);
      }
    }
  }
}
