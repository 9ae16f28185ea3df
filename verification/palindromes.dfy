/** Sequences read backwards, and the language the automaton
    recognises: non-empty words of the form u ++ reverse(u). */
module Palindromes {

  /** The reversal of `s`, last element first. */
  function Reverse<T>(s: seq<T>): (r: seq<T>)
    ensures |r| == |s|
    ensures |s| > 0 ==> r[0] == s[|s| - 1]
    decreases |s|
  {
    if |s| == 0 then [] else [s[|s| - 1]] + Reverse(s[..|s| - 1])
  }

  /** Element `i` of the reversal is element `|s|-1-i` of `s`. */
  lemma {:induction false} ReverseIndices<T>(s: seq<T>)
    ensures forall i :: 0 <= i < |s| ==> Reverse(s)[i] == s[|s| - 1 - i]
    decreases |s|
  {
    if |s| > 0 {
      var t := s[..|s| - 1];
      ReverseIndices(t);
      forall i | 0 < i < |s|
        ensures Reverse(s)[i] == s[|s| - 1 - i]
      {
        assert Reverse(s)[i] == Reverse(t)[i - 1] == t[|t| - 1 - (i - 1)];
      }
    }
  }

  predicate IsPalindrome(s: string) {
    Reverse(s) == s
  }

  /** Words of the form u ++ reverse(u) with u non-empty. */
  ghost predicate InLanguage(w: string) {
    exists u :: |u| >= 1 && w == u + Reverse(u)
  }

  /** Reading a non-empty stack backwards starts with its top. */
  lemma ReverseSplit<T>(s: seq<T>)
    requires |s| > 0
    ensures Reverse(s) == [s[|s| - 1]] + Reverse(s[..|s| - 1])
  {
  }

  /** Reading a ++ b backwards reads b backwards, then a backwards. */
  lemma {:induction false} ReverseConcat<T>(a: seq<T>, b: seq<T>)
    ensures Reverse(a + b) == Reverse(b) + Reverse(a)
    decreases |b|
  {
    if |b| == 0 {
      assert a + b == a;
    } else {
      var b' := b[..|b| - 1];
      assert (a + b)[..|a + b| - 1] == a + b';
      ReverseConcat(a, b');
    }
  }

  /** Reading [x] ++ s backwards ends with x. */
  lemma ReversePrepend<T>(x: T, s: seq<T>)
    ensures Reverse([x] + s) == Reverse(s) + [x]
  {
    ReverseConcat([x], s);
  }

  /** Reversing twice gives back the sequence. */
  lemma {:induction false} ReverseReverse<T>(s: seq<T>)
    ensures Reverse(Reverse(s)) == s
    decreases |s|
  {
    if |s| > 0 {
      var t := s[..|s| - 1];
      ReverseReverse(t);
      ReversePrepend(s[|s| - 1], Reverse(t));
      assert s == t + [s[|s| - 1]];
    }
  }

  /** A word mirrors itself around position `k` exactly when it is
      w[..k] followed by its reversal; `k` is then its midpoint. */
  lemma MirroredAtIff(w: string, k: nat)
    requires k <= |w|
    ensures w[k..] == Reverse(w[..k]) <==> |w| == 2 * k && w == w[..k] + Reverse(w[..k])
  {
    if w[k..] == Reverse(w[..k]) {
      assert w == w[..k] + w[k..];
    }
    if |w| == 2 * k && w == w[..k] + Reverse(w[..k]) {
      assert w[k..] == (w[..k] + Reverse(w[..k]))[k..];
    }
  }

  /** u ++ reverse(u) reads the same backwards. */
  lemma DoubledIsPalindrome(u: string)
    ensures IsPalindrome(u + Reverse(u))
  {
    ReverseConcat(u, Reverse(u));
    ReverseReverse(u);
  }

  /** A non-empty even-length palindrome is its first half followed by that
      half reversed. */
  lemma PalindromeHalves(w: string)
    requires |w| % 2 == 0 && IsPalindrome(w)
    ensures w == w[..|w| / 2] + Reverse(w[..|w| / 2])
  {
    var k := |w| / 2;
    ReverseIndices(w);
    ReverseIndices(w[..k]);
    forall i | 0 <= i < |w| - k
      ensures w[k..][i] == Reverse(w[..k])[i]
    {
      assert Reverse(w)[k + i] == w[|w| - 1 - (k + i)];
    }
    MirroredAtIff(w, k);
  }

  /** Every word of the language is a non-empty even-length palindrome. */
  lemma LanguageIsEvenPalindromes(w: string)
    requires InLanguage(w)
    ensures |w| > 0 && |w| % 2 == 0 && IsPalindrome(w)
  {
    var u :| |u| >= 1 && w == u + Reverse(u);
    DoubledIsPalindrome(u);
  }

  lemma DoubledInLanguage(u: string)
    requires |u| >= 1
    ensures InLanguage(u + Reverse(u))
  {
  }

  /** Every non-empty even-length palindrome is in the language. */
  lemma EvenPalindromesInLanguage(w: string)
    requires |w| > 0 && |w| % 2 == 0 && IsPalindrome(w)
    ensures InLanguage(w)
  {
    PalindromeHalves(w);
    DoubledInLanguage(w[..|w| / 2]);
  }
}
