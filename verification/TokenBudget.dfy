/**
 Token estimation and the budgeted previews built on it.

 The estimate `int(c / 1.5 + o / 4) + 1` is taken over exact rationals: with `c` CJK and `o`
 other characters it is `(8c + 3o) / 12 + 1`, and 0 for the empty text.
 */
module TokenBudget {

  predicate IsCjk(c: char) {
    '\U{4E00}' <= c <= '\U{9FFF}'
  }

  /** Twelve times the token weight of one character: 12 / 1.5 or 12 / 4. */
  function Weight(c: char): nat {
    if IsCjk(c) then 8 else 3
  }

  function TotalWeight(text: string): (w: nat)
    ensures 3 * |text| <= w <= 8 * |text|
  {
    if text == "" then 0 else Weight(text[0]) + TotalWeight(text[1..])
  }

  function Estimate(text: string): nat {
    if text == "" then 0 else TotalWeight(text) / 12 + 1
  }

  /** Where the first `n` characters are CJK ones. */
  ghost function CjkAt(text: string, n: nat): set<nat>
    requires n <= |text|
  {
    set i: nat | i < n && 0x4e00 <= text[i] as int <= 0x9fff
  }

  lemma CjkAtNext(text: string, n: nat)
    requires n < |text|
    ensures |CjkAt(text, n + 1)| == |CjkAt(text, n)| + (if IsCjk(text[n]) then 1 else 0)
  {
    assert n !in CjkAt(text, n);
    if IsCjk(text[n]) {
      assert CjkAt(text, n + 1) == CjkAt(text, n) + {n};
    } else {
      assert CjkAt(text, n + 1) == CjkAt(text, n);
    }
  }

  /** Counts the two kinds of characters, character by character, and returns the estimate. */
  method EstimateTokens(text: string) returns (tokens: nat)
    ensures tokens == Estimate(text)
    ensures var c := |CjkAt(text, |text|)|;
            tokens == if text == "" then 0 else (8 * c + 3 * (|text| - c)) / 12 + 1
  {
    if text == "" {
      return 0;
    }
    var chinese := 0;
    for i := 0 to |text|
      invariant chinese <= i && chinese == |CjkAt(text, i)|
      invariant TotalWeight(text) == 8 * chinese + 3 * (i - chinese) + TotalWeight(text[i..])
    {
      CjkAtNext(text, i);
      assert text[i..][1..] == text[i + 1..];
      if IsCjk(text[i]) {
        chinese := chinese + 1;
      }
    }
    var other := |text| - chinese;
    tokens := (8 * chinese + 3 * other) / 12 + 1;
  }

  lemma {:induction false} WeightConcat(a: string, b: string)
    ensures TotalWeight(a + b) == TotalWeight(a) + TotalWeight(b)
  {
    if a == "" {
      assert a + b == b;
    } else {
      assert (a + b)[1..] == a[1..] + b;
      WeightConcat(a[1..], b);
    }
  }

  /** A part of a text never costs more than the whole. */
  lemma EstimateMonotone(a: string, b: string)
    ensures Estimate(a) <= Estimate(a + b) && Estimate(b) <= Estimate(a + b)
  {
    WeightConcat(a, b);
  }

  /** Gluing two texts never costs more than the two apart. */
  lemma EstimateSubadditive(a: string, b: string)
    ensures Estimate(a + b) <= Estimate(a) + Estimate(b)
  {
    WeightConcat(a, b);
    if a == "" {
      assert a + b == b;
    } else if b == "" {
      assert a + b == a;
    }
  }

  /** `r` is the longest prefix of `text` whose estimate stays within `target`. */
  ghost predicate LongestPrefixWithin(r: string, text: string, target: int) {
    && r <= text
    && (r == "" || Estimate(r) <= target)
    && forall n :: |r| < n <= |text| ==> Estimate(text[..n]) > target
  }

  /** The last `n` characters. */
  function Last(text: string, n: nat): string
    requires n <= |text|
  {
    text[|text| - n..]
  }

  ghost predicate LongestSuffixWithin(r: string, text: string, target: int) {
    && |r| <= |text| && r == Last(text, |r|)
    && (r == "" || Estimate(r) <= target)
    && forall n :: |r| < n <= |text| ==> Estimate(Last(text, n)) > target
  }

  lemma PrefixMonotone(text: string, m: nat, n: nat)
    requires m <= n <= |text|
    ensures Estimate(text[..m]) <= Estimate(text[..n])
  {
    assert text[..n] == text[..m] + text[m..n];
    EstimateMonotone(text[..m], text[m..n]);
  }

  lemma SuffixMonotone(text: string, m: nat, n: nat)
    requires m <= n <= |text|
    ensures Estimate(Last(text, m)) <= Estimate(Last(text, n))
  {
    assert text[|text| - n..] == text[|text| - n..|text| - m] + text[|text| - m..];
    EstimateMonotone(text[|text| - n..|text| - m], text[|text| - m..]);
  }

  method TruncateToTokens(text: string, target: int) returns (r: string)
    ensures LongestPrefixWithin(r, text, target)
  {
    if target <= 0 || text == "" {
      return "";
    }
    var whole := EstimateTokens(text);
    if whole <= target {
      return text;
    }
    assert text[..|text|] == text;
    var lo, hi := 0, |text|;
    while lo < hi
      invariant 0 <= lo <= hi <= |text|
      invariant Estimate(text[..lo]) <= target
      invariant forall n :: hi < n <= |text| ==> Estimate(text[..n]) > target
    {
      var mid := (lo + hi + 1) / 2;
      var cost := EstimateTokens(text[..mid]);
      if cost <= target {
        lo := mid;
      } else {
        forall n | mid <= n <= |text| ensures Estimate(text[..n]) > target {
          PrefixMonotone(text, mid, n);
        }
        hi := mid - 1;
      }
    }
    r := text[..lo];
  }

  method TruncateToTokensSuffix(text: string, target: int) returns (r: string)
    ensures LongestSuffixWithin(r, text, target)
  {
    if target <= 0 || text == "" {
      forall n | 0 < n <= |text| ensures Estimate(Last(text, n)) > target {
        assert Last(text, n) != "";
      }
      return "";
    }
    var whole := EstimateTokens(text);
    if whole <= target {
      return text;
    }
    assert Last(text, |text|) == text;
    var lo, hi := 0, |text|;
    while lo < hi
      invariant 0 <= lo <= hi <= |text|
      invariant Estimate(Last(text, lo)) <= target
      invariant forall n :: hi < n <= |text| ==> Estimate(Last(text, n)) > target
    {
      var mid := (lo + hi + 1) / 2;
      var cost := EstimateTokens(Last(text, mid));
      if cost <= target {
        lo := mid;
      } else {
        forall n | mid <= n <= |text| ensures Estimate(Last(text, n)) > target {
          SuffixMonotone(text, mid, n);
        }
        hi := mid - 1;
      }
    }
    r := if lo != 0 then Last(text, lo) else "";
  }

  const SEPARATOR: string := "\n\n\U{2026}[middle omitted]\U{2026}\n\n"

  lemma SeparatorCost()
    ensures Estimate(SEPARATOR) == 6
  {
    assert forall c :: c in SEPARATOR ==> !IsCjk(c);
    PlainWeight(SEPARATOR);
  }

  lemma {:induction false} PlainWeight(text: string)
    requires forall c :: c in text ==> !IsCjk(c)
    ensures TotalWeight(text) == 3 * |text|
  {
    if text != "" {
      PlainWeight(text[1..]);
    }
  }

  /** The number of CJK characters. */
  function Cjk(text: string): nat {
    if text == "" then 0 else (if IsCjk(text[0]) then 1 else 0) + Cjk(text[1..])
  }

  /** A text weighs what its length and its CJK characters say. */
  lemma {:induction false} WeightByCjk(text: string)
    ensures TotalWeight(text) == 3 * |text| + 5 * Cjk(text)
  {
    if text != "" {
      WeightByCjk(text[1..]);
    }
  }

  /** The head and the tail kept by a preview are too cheap to reach each other across an oversized text. */
  lemma HeadTailApart(text: string, head: string, tail: string, half: nat, target: int)
    requires LongestPrefixWithin(head, text, half) && LongestSuffixWithin(tail, text, half)
    requires 1 <= half && 2 * half <= target < Estimate(text)
    ensures tail != "" && head != text && tail != text
    ensures |head| + |tail| < |text|
    ensures Estimate(head) <= half && Estimate(tail) <= half
  {
    var one := text[|text| - 1..];
    assert one == Last(text, 1) && TotalWeight(one) == Weight(one[0]) + TotalWeight(one[1..]);
    if |head| + |tail| >= |text| {
      var rest := text[|head|..];
      assert tail == tail[..|tail| - |rest|] + rest;
      EstimateMonotone(tail[..|tail| - |rest|], rest);
      assert text == head + rest;
      EstimateSubadditive(head, rest);
    }
  }

  /** What a preview of `text` under `target` tokens is, around a separator that costs 6 tokens. */
  ghost predicate IsPreview(r: string, text: string, target: int, sep: string) {
    if target <= 0 || text == "" then r == ""
    else if Estimate(text) <= target then r == text
    else if target <= 8 then LongestPrefixWithin(r, text, target)
    else exists head, tail :: PreviewParts(head, tail, text, (target - 6) / 2) && r == head + sep + tail
  }

  /** A preview's two ends: as long as half the budget allows, and not overlapping. */
  ghost predicate PreviewParts(head: string, tail: string, text: string, half: int) {
    && LongestPrefixWithin(head, text, half)
    && LongestSuffixWithin(tail, text, half)
    && tail != ""
    && |head| + |tail| < |text|
  }

  lemma PreviewCost(head: string, sep: string, tail: string)
    ensures Estimate(head + sep + tail) <= Estimate(head) + Estimate(sep) + Estimate(tail)
  {
    EstimateSubadditive(head + sep, tail);
    EstimateSubadditive(head, sep);
  }

  method HeadTailPreview(text: string, target: int) returns (r: string)
    ensures IsPreview(r, text, target, SEPARATOR)
    ensures r == "" || Estimate(r) <= target
  {
    SeparatorCost();
    r := PreviewAround(text, target, SEPARATOR);
  }

  /** The three guards after the first cut and the final tightening step are never taken. */
  method PreviewAround(text: string, target: int, sep: string) returns (r: string)
    requires Estimate(sep) == 6
    ensures IsPreview(r, text, target, sep)
    ensures r == "" || Estimate(r) <= target
  {
    if target <= 0 || text == "" {
      return "";
    }
    var whole := EstimateTokens(text);
    if whole <= target {
      return text;
    }
    var sepTokens := EstimateTokens(sep);
    if target <= sepTokens + 2 {
      r := TruncateToTokens(text, target);
      return;
    }
    var half := if (target - sepTokens) / 2 >= 1 then (target - sepTokens) / 2 else 1;
    var head := TruncateToTokens(text, half);
    var tail := TruncateToTokensSuffix(text, half);
    HeadTailApart(text, head, tail, half, target);
    if tail == "" || head == text || tail == text {
      assert false;
    }
    if |head| + |tail| >= |text| {
      assert false;
    }
    r := head + sep + tail;
    PreviewCost(head, sep, tail);
    assert PreviewParts(head, tail, text, half);
    var cost := EstimateTokens(r);
    if cost > target {
      assert false;
    }
  }
}
