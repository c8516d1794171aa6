/** client/src/utils/helpers.js: the Fisher-Yates shuffle and the chapter-number
    extraction, plus the search for "Ch" followed by digits that the audio-path and
    chapter-label code in the card components performs with a case-sensitive regex. */
module Helpers {
  import opened Wrappers
  import opened Cards

  // ---------------------------------------------------------------- shuffleArray

  /** The index oracle standing for `Math.floor(Math.random() * (i + 1))`: for every
      step i (from n-1 down to 1) some j with 0 <= j <= i. Entry 0 is never read. */
  predicate ValidSwapOracle(js: seq<nat>, n: nat) {
    |js| == n && forall i :: 0 < i < n ==> js[i] <= i
  }

  function Swap<T>(s: seq<T>, i: nat, j: nat): (r: seq<T>)
    requires i < |s| && j < |s|
    ensures |r| == |s|
  {
    s[i := s[j]][j := s[i]]
  }

  lemma SwapMultiset<T>(s: seq<T>, i: nat, j: nat)
    requires i < |s| && j < |s|
    ensures multiset(Swap(s, i, j)) == multiset(s)
  {
  }

  /** One step of the shuffle trades the two positions and leaves the others alone. */
  lemma SwapElements<T>(s: seq<T>, i: nat, j: nat)
    requires i < |s| && j < |s|
    ensures Swap(s, i, j)[i] == s[j] && Swap(s, i, j)[j] == s[i]
    ensures forall k :: 0 <= k < |s| && k != i && k != j ==> Swap(s, i, j)[k] == s[k]
  {
  }

  /** The swaps of steps i, i-1, ..., 1 applied to s. */
  function ShuffleFrom<T>(s: seq<T>, js: seq<nat>, i: nat): (r: seq<T>)
    requires i < |s| && ValidSwapOracle(js, |s|)
    ensures |r| == |s|
    decreases i
  {
    if i == 0 then s else ShuffleFrom(Swap(s, i, js[i]), js, i - 1)
  }

  /** The whole shuffle of helpers.js:2-8 as a function of the input and the oracle. */
  function FisherYates<T>(s: seq<T>, js: seq<nat>): (r: seq<T>)
    requires ValidSwapOracle(js, |s|)
  {
    if |s| <= 1 then s else ShuffleFrom(s, js, |s| - 1)
  }

  lemma {:induction false} ShuffleFromMultiset<T>(s: seq<T>, js: seq<nat>, i: nat)
    requires i < |s| && ValidSwapOracle(js, |s|)
    ensures multiset(ShuffleFrom(s, js, i)) == multiset(s)
    decreases i
  {
    if i > 0 {
      SwapMultiset(s, i, js[i]);
      ShuffleFromMultiset(Swap(s, i, js[i]), js, i - 1);
    }
  }

  /** Whatever the oracle chooses, the shuffle is a permutation of its input. */
  lemma FisherYatesIsPermutation<T>(s: seq<T>, js: seq<nat>)
    requires ValidSwapOracle(js, |s|)
    ensures |FisherYates(s, js)| == |s|
    ensures multiset(FisherYates(s, js)) == multiset(s)
  {
    if |s| > 1 {
      ShuffleFromMultiset(s, js, |s| - 1);
    }
  }

  /** shuffleArray: copies the input, then swaps position i with js[i] for i from
      len-1 down to 1. The input is a value, so it cannot be changed. */
  method ShuffleArray<T>(items: seq<T>, js: seq<nat>) returns (shuffled: seq<T>)
    requires ValidSwapOracle(js, |items|)
    ensures shuffled == FisherYates(items, js)
    ensures multiset(shuffled) == multiset(items)
    ensures |items| <= 1 ==> shuffled == items
  {
    if |items| <= 1 {
      return items;
    }
    var a := new T[|items|](k requires 0 <= k < |items| => items[k]);
    assert a[..] == items;
    var i := |items| - 1;
    while i > 0
      invariant a.Length == |items| && 0 <= i < |items|
      invariant ShuffleFrom(a[..], js, i) == FisherYates(items, js)
    {
      ghost var before := a[..];
      var j := js[i];
      a[i], a[j] := a[j], a[i];
      assert a[..] == Swap(before, i, j);
      assert ShuffleFrom(before, js, i) == ShuffleFrom(a[..], js, i - 1);
      i := i - 1;
    }
    shuffled := a[..];
    FisherYatesIsPermutation(items, js);
  }

  // ---------------------------------------------------------------- Ch<digits> search

  /** The regex `Ch(\d+)` (with `ignoreCase`, `/Ch(\d+)/i`) can start matching at k. */
  predicate ChapterMarkAt(s: string, k: nat, ignoreCase: bool) {
    && k + 2 < |s|
    && IsDigit(s[k + 2])
    && if ignoreCase then ToUpperAscii(s[k]) == 'C' && ToUpperAscii(s[k + 1]) == 'H'
       else s[k] == 'C' && s[k + 1] == 'h'
  }

  /** The leftmost position at or after `from` where a match starts. */
  function FindChapterMark(s: string, ignoreCase: bool, from: nat): (r: Option<nat>)
    ensures r.None? ==> forall k :: from <= k < |s| ==> !ChapterMarkAt(s, k, ignoreCase)
    ensures r.Some? ==> from <= r.value && ChapterMarkAt(s, r.value, ignoreCase)
    ensures r.Some? ==> forall k :: from <= k < r.value ==> !ChapterMarkAt(s, k, ignoreCase)
    decreases |s| - from
  {
    if from >= |s| then None
    else if ChapterMarkAt(s, from, ignoreCase) then Some(from)
    else FindChapterMark(s, ignoreCase, from + 1)
  }

  /** The longest run of digits starting at `from` (what the greedy `\d+` captures). */
  function DigitRun(s: string, from: nat): (r: string)
    requires from <= |s|
    ensures from + |r| <= |s| && r == s[from..from + |r|]
    ensures forall i :: 0 <= i < |r| ==> IsDigit(r[i])
    ensures from + |r| == |s| || !IsDigit(s[from + |r|])
    decreases |s| - from
  {
    if from < |s| && IsDigit(s[from]) then [s[from]] + DigitRun(s, from + 1) else []
  }

  /** The result of `s.match(/Ch(\d+)/)`: where the match starts and the captured digits. */
  datatype ChapterMatch = ChapterMatch(start: nat, digits: string)

  function MatchChapter(s: string, ignoreCase: bool): (r: Option<ChapterMatch>)
    ensures r.None? <==> forall k :: 0 <= k < |s| ==> !ChapterMarkAt(s, k, ignoreCase)
    ensures r.Some? ==> ChapterMarkAt(s, r.value.start, ignoreCase)
    ensures r.Some? ==> forall k :: 0 <= k < r.value.start ==> !ChapterMarkAt(s, k, ignoreCase)
    ensures r.Some? ==> 1 <= |r.value.digits| && r.value.digits == DigitRun(s, r.value.start + 2)
  {
    match FindChapterMark(s, ignoreCase, 0)
    case None => None
    case Some(k) =>
      DigitRunStartsWithDigit(s, k + 2);
      Some(ChapterMatch(k, DigitRun(s, k + 2)))
  }

  lemma DigitRunStartsWithDigit(s: string, from: nat)
    requires from < |s| && IsDigit(s[from])
    ensures 1 <= |DigitRun(s, from)|
  {
    assert DigitRun(s, from) == [s[from]] + DigitRun(s, from + 1);
  }

  // ---------------------------------------------------------------- extractChapterNumber

  function DigitValue(c: char): nat
    requires IsDigit(c)
  {
    c as int - '0' as int
  }

  /** `parseInt(d, 10)` for a non-empty string of decimal digits. */
  function DecimalValue(d: string): nat
    requires forall i :: 0 <= i < |d| ==> IsDigit(d[i])
  {
    if d == [] then 0 else DecimalValue(d[..|d| - 1]) * 10 + DigitValue(d[|d| - 1])
  }

  /** extractChapterNumber: null when no case-insensitive "ch" + digit occurs, otherwise
      the base-10 value of the digit run after the leftmost such "ch". */
  function ExtractChapterNumber(category: string): (r: Option<nat>)
    ensures r.None? <==> forall k :: 0 <= k < |category| ==> !ChapterMarkAt(category, k, true)
    ensures r.Some? ==>
              && MatchChapter(category, true).Some?
              && r.value == DecimalValue(MatchChapter(category, true).value.digits)
  {
    match MatchChapter(category, true)
    case None => None
    case Some(m) => Some(DecimalValue(m.digits))
  }

  /** The decimal numeral of n, without leading zeros. */
  function DecimalNumeral(n: nat): (r: string)
    ensures 1 <= |r| && forall i :: 0 <= i < |r| ==> IsDigit(r[i])
  {
    if n < 10 then [('0' as int + n) as char]
    else DecimalNumeral(n / 10) + [('0' as int + n % 10) as char]
  }

  lemma {:induction false} DecimalValueOfNumeral(n: nat)
    ensures DecimalValue(DecimalNumeral(n)) == n
  {
    if n >= 10 {
      DecimalValueOfNumeral(n / 10);
      var d := DecimalNumeral(n);
      assert d[..|d| - 1] == DecimalNumeral(n / 10);
    }
  }

  /** The digit run starting at a position from which everything is a digit is the
      whole rest of the string. */
  lemma DigitRunToEnd(s: string, from: nat)
    requires from <= |s|
    requires forall i :: from <= i < |s| ==> IsDigit(s[i])
    ensures DigitRun(s, from) == s[from..]
  {
  }

  /** A digit run bounded by a non-digit (or the end) is exactly that stretch. */
  lemma {:induction false} DigitRunPrefix(s: string, from: nat, len: nat)
    requires from + len <= |s|
    requires forall i :: from <= i < from + len ==> IsDigit(s[i])
    requires from + len == |s| || !IsDigit(s[from + len])
    ensures DigitRun(s, from) == s[from..from + len]
    decreases len
  {
    if len > 0 {
      DigitRunPrefix(s, from + 1, len - 1);
      assert s[from..from + len] == [s[from]] + s[from + 1..from + len];
    }
  }

  /** Round trip: a category that starts with "Ch<n>" (in any letter case) followed by
      anything that does not begin with a digit has chapter number n. */
  lemma ExtractChapterNumberOfLabel(n: nat, c: char, h: char, rest: string)
    requires c == 'C' || c == 'c'
    requires h == 'H' || h == 'h'
    requires rest == [] || !IsDigit(rest[0])
    ensures ExtractChapterNumber([c, h] + DecimalNumeral(n) + rest) == Some(n)
  {
    var d := DecimalNumeral(n);
    var s := [c, h] + d + rest;
    assert s[2] == d[0];
    assert ChapterMarkAt(s, 0, true);
    assert FindChapterMark(s, true, 0) == Some(0);
    DigitRunPrefix(s, 2, |d|);
    assert s[2..2 + |d|] == d;
    DecimalValueOfNumeral(n);
  }

  /** Leading zeros are read base 10: "Ch05" gives 5. */
  lemma ExtractChapterNumberLeadingZero()
    ensures ExtractChapterNumber("Ch05") == Some(5)
  {
    var s := "Ch05";
    assert ChapterMarkAt(s, 0, true);
    assert FindChapterMark(s, true, 0) == Some(0);
    DigitRunToEnd(s, 2);
    assert s[2..] == "05";
    assert "05"[..1] == "0";
    assert DecimalValue("0") == 0;
    assert DecimalValue("05") == 5;
  }
}
