/**
 * The two string operations the service relies on: `str.lower` (modelled on ASCII letters)
 * and the substring test `k in s`.
 */
module Text {

  function LowerChar(c: char): (r: char)
    ensures !('A' <= r <= 'Z')
    ensures 'A' <= c <= 'Z' ==> 'a' <= r <= 'z' && r as int - c as int == 32
    ensures !('A' <= c <= 'Z') ==> r == c
  {
    if 'A' <= c <= 'Z' then (c as int - 'A' as int + 'a' as int) as char else c
  }

  /** `s.lower()`: every ASCII capital replaced by its small letter, everything else kept. */
  function Lower(s: string): (r: string)
    ensures |r| == |s|
    ensures forall i :: 0 <= i < |r| ==> !('A' <= r[i] <= 'Z')
    ensures forall i :: 0 <= i < |r| && 'A' <= s[i] <= 'Z' ==> r[i] as int == s[i] as int + 32
    ensures forall i :: 0 <= i < |r| && !('A' <= s[i] <= 'Z') ==> r[i] == s[i]
  {
    seq(|s|, i requires 0 <= i < |s| => LowerChar(s[i]))
  }

  /** `k` occurs in `s` starting at index `i`. */
  predicate OccursAt(s: string, k: string, i: int)
  {
    0 <= i && i + |k| <= |s| && s[i..i + |k|] == k
  }

  /** Python's `k in s` on strings: substring containment (the empty string is in every string). */
  predicate Contains(s: string, k: string)
    ensures Contains(s, k) ==> |k| <= |s|
    ensures k == [] ==> Contains(s, k)
    decreases |s|
  {
    if |s| < |k| then false else s[..|k|] == k || Contains(s[1..], k)
  }

  /** A text as long as `k` contains `k` only by being `k`. */
  lemma SameLengthContains(s: string, k: string)
    requires |k| == |s|
    ensures Contains(s, k) <==> s == k
  {
  }

  /** An occurrence anywhere makes `Contains` true. */
  lemma {:induction false} OccurrenceContains(s: string, k: string, i: int)
    requires OccursAt(s, k, i)
    ensures Contains(s, k)
    decreases i
  {
    if i > 0 {
      assert s[1..][i - 1..i - 1 + |k|] == s[i..i + |k|];
      OccurrenceContains(s[1..], k, i - 1);
    }
  }

  /** `Contains` is true only because of an occurrence at some index. */
  lemma {:induction false} ContainsOccurrence(s: string, k: string) returns (i: int)
    requires Contains(s, k)
    ensures OccursAt(s, k, i)
    decreases |s|
  {
    if s[..|k|] == k {
      i := 0;
    } else {
      var j := ContainsOccurrence(s[1..], k);
      assert s[1..][j..j + |k|] == s[j + 1..j + 1 + |k|];
      i := j + 1;
    }
  }

  /** Every character of a contained string occurs in the containing one. */
  lemma ContainsChar(s: string, k: string, j: int)
    requires Contains(s, k) && 0 <= j < |k|
    ensures k[j] in s
  {
    var i := ContainsOccurrence(s, k);
    assert s[i + j] == s[i..i + |k|][j];
  }

  /** A string lacking one of the characters of `k` does not contain `k`. */
  lemma MissingCharNotContained(s: string, k: string, j: int)
    requires 0 <= j < |k| && k[j] !in s
    ensures !Contains(s, k)
  {
    if Contains(s, k) {
      ContainsChar(s, k, j);
    }
  }

  /** Whoever contains `a + b` contains `b`: a keyword that ends in another keyword implies it. */
  lemma ContainsSuffix(s: string, a: string, b: string)
    requires Contains(s, a + b)
    ensures Contains(s, b)
  {
    var i := ContainsOccurrence(s, a + b);
    assert s[i + |a|..i + |a| + |b|] == s[i..i + |a + b|][|a|..];
    OccurrenceContains(s, b, i + |a|);
  }

}
