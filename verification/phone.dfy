/**
 Digit handling behind the server's phone-number rule
 (src/index.tsx:44). The rule calls `replace(/[^0-9]/, "")`; without
 the `g` flag that removes only the FIRST character outside '0'..'9',
 and this module models exactly that.
 */
module PhoneDigits {

  predicate IsDigit(c: char) {
    '0' <= c <= '9'
  }

  predicate AllDigits(s: seq<char>) {
    forall i :: 0 <= i < |s| ==> IsDigit(s[i])
  }

  /** Position i holds the first character of s that is not a digit. */
  predicate IsFirstNonDigit(s: seq<char>, i: int) {
    0 <= i < |s| && !IsDigit(s[i]) && AllDigits(s[..i])
  }

  /** A string that does not start with a digit is not all digits; one that does is all digits iff its tail is. */
  lemma AllDigitsCons(s: seq<char>)
    requires |s| > 0
    ensures AllDigits(s) <==> IsDigit(s[0]) && AllDigits(s[1..])
  {
    if IsDigit(s[0]) && AllDigits(s[1..]) {
      forall i | 0 <= i < |s|
        ensures IsDigit(s[i])
      {
        if i > 0 {
          assert s[i] == s[1..][i - 1];
        }
      }
    }
  }

  /**
   The phone string after one non-global replace of `[^0-9]` by "":
   the first non-digit, if any, is removed and everything else is kept.
   */
  function StripFirstNonDigit(s: seq<char>): (r: seq<char>)
    ensures AllDigits(s) ==> r == s
    ensures !AllDigits(s) ==> |r| == |s| - 1
  {
    if |s| == 0 then s
    else if IsDigit(s[0]) then
      AllDigitsCons(s);
      [s[0]] + StripFirstNonDigit(s[1..])
    else
      AllDigitsCons(s);
      s[1..]
  }

  /** The exact content of the stripped string: the text around the first non-digit, joined. */
  lemma {:induction false} StripRemovesFirstNonDigit(s: seq<char>, i: int)
    requires IsFirstNonDigit(s, i)
    ensures StripFirstNonDigit(s) == s[..i] + s[i + 1..]
  {
    if i > 0 {
      assert s[0] == s[..i][0];
      var before := s[1..][..i - 1];
      assert AllDigits(before) by {
        forall k | 0 <= k < |before|
          ensures IsDigit(before[k])
        {
          assert before[k] == s[..i][k + 1];
        }
      }
      StripRemovesFirstNonDigit(s[1..], i - 1);
      assert s[..i] == [s[0]] + s[1..][..i - 1];
      assert s[i + 1..] == s[1..][i..];
    }
  }

  /** Searches for the first non-digit, as the regular expression engine does. */
  method FindFirstNonDigit(s: seq<char>) returns (found: bool, i: nat)
    ensures found ==> IsFirstNonDigit(s, i)
    ensures !found ==> AllDigits(s) && i == |s|
  {
    i := 0;
    while i < |s|
      invariant i <= |s|
      invariant AllDigits(s[..i])
    {
      if !IsDigit(s[i]) {
        return true, i;
      }
      assert s[..i + 1] == s[..i] + [s[i]];
      i := i + 1;
    }
    assert s[..i] == s;
    found := false;
  }

  /** Removes the first non-digit with a search followed by a splice. */
  method StripByIndex(s: seq<char>) returns (r: seq<char>)
    ensures r == StripFirstNonDigit(s)
  {
    var found, i := FindFirstNonDigit(s);
    if found {
      StripRemovesFirstNonDigit(s, i);
      r := s[..i] + s[i + 1..];
    } else {
      r := s;
    }
  }

  /** How many characters of s are not digits. */
  function NonDigitCount(s: seq<char>): (n: nat)
    ensures n <= |s|
    ensures n == 0 <==> AllDigits(s)
  {
    if |s| == 0 then 0
    else
      AllDigitsCons(s);
      (if IsDigit(s[0]) then 0 else 1) + NonDigitCount(s[1..])
  }

  /**
   The digits of s in order, every non-digit removed: what a global
   replace `/[^0-9]/g` would leave.
   */
  function DigitsOnly(s: seq<char>): (r: seq<char>)
    ensures AllDigits(r)
    ensures |r| == |s| - NonDigitCount(s)
    ensures AllDigits(s) ==> r == s
  {
    if |s| == 0 then s
    else if IsDigit(s[0]) then
      AllDigitsCons(s);
      var t := DigitsOnly(s[1..]);
      assert ([s[0]] + t)[1..] == t;
      AllDigitsCons([s[0]] + t);
      [s[0]] + t
    else DigitsOnly(s[1..])
  }

  /** A single character survives the full removal iff it is a digit. */
  lemma DigitsOnlyChar(c: char)
    ensures DigitsOnly([c]) == if IsDigit(c) then [c] else []
  {
  }

  /** The full removal works piecewise, so it keeps the digits of s in their order. */
  lemma {:induction false} DigitsOnlyAppend(a: seq<char>, b: seq<char>)
    ensures DigitsOnly(a + b) == DigitsOnly(a) + DigitsOnly(b)
  {
    if |a| == 0 {
      assert a + b == b;
    } else {
      assert (a + b)[0] == a[0];
      assert (a + b)[1..] == a[1..] + b;
      DigitsOnlyAppend(a[1..], b);
    }
  }

  /**
   Removing only the first non-digit agrees with removing all of them
   exactly when the string holds at most one non-digit.
   */
  lemma {:induction false} StripFirstMatchesDigitsOnlyIff(s: seq<char>)
    ensures StripFirstNonDigit(s) == DigitsOnly(s) <==> NonDigitCount(s) <= 1
  {
    if NonDigitCount(s) <= 1 && |s| > 0 {
      if IsDigit(s[0]) {
        StripFirstMatchesDigitsOnlyIff(s[1..]);
      } else {
        assert NonDigitCount(s[1..]) == 0;
      }
    } else if NonDigitCount(s) > 1 {
      assert |DigitsOnly(s)| < |StripFirstNonDigit(s)|;
    }
  }

  /**
   The phone shape the rule accepts, stated without the strip: eight
   digits, or nine characters of which at least one is not a digit.
   */
  predicate EightAfterStrip(s: seq<char>) {
    (AllDigits(s) && |s| == 8) || (!AllDigits(s) && |s| == 9)
  }

  /** The stripped string has length 8 exactly in the shape above. */
  lemma StripLengthEightIff(s: seq<char>)
    ensures |StripFirstNonDigit(s)| == 8 <==> EightAfterStrip(s)
  {
  }
}
