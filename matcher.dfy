/**
 * The puzzle's acceptance rule (bee.py, build_regex and its two uses). The source compiles
 * the pattern `[others]*R[R+others]*` and asks for a full match; here the pattern's language
 * is written out as a predicate and shown equal to the direct membership rule.
 */
module Matcher {
  import opened Orders
  import opened Seqs

  /** Every character of `s` is one of the characters of `letters`. */
  predicate AllFrom(s: string, letters: string) {
    forall j :: 0 <= j < |s| ==> s[j] in letters
  }

  /** The direct rule: the required letter occurs, and nothing outside the seven letters does. */
  predicate Accepts(word: string, required: char, others: string) {
    required in word && AllFrom(word, [required] + others)
  }

  /**
   * The full-match language of `[others]*R[R+others]*`: the word splits at some position `k`
   * into a prefix drawn from `others`, the required letter, and a suffix drawn from all letters.
   */
  ghost predicate InPattern(word: string, required: char, others: string) {
    exists k :: 0 <= k < |word| && word[k] == required
      && AllFrom(word[..k], others) && AllFrom(word[k + 1..], [required] + others)
  }

  /** The position of the first occurrence of `c` in `s`. */
  function FirstIndex(s: string, c: char): (k: nat)
    requires c in s
    ensures k < |s| && s[k] == c
    ensures forall j :: 0 <= j < k ==> s[j] != c
  {
    if s[0] == c then 0 else 1 + FirstIndex(s[1..], c)
  }

  /**
   * The direct rule and the pattern describe the same words: the pattern's prefix runs up to
   * the first required letter, and the remainder draws from all seven letters.
   */
  lemma AcceptsIffInPattern(word: string, required: char, others: string)
    ensures Accepts(word, required, others) <==> InPattern(word, required, others)
    ensures Accepts(word, required, others) ==> AllFrom(word[..FirstIndex(word, required)], others)
  {
    var all := [required] + others;
    if Accepts(word, required, others) {
      var k := FirstIndex(word, required);
      assert AllFrom(word[..k], others) by {
        forall j | 0 <= j < k ensures word[..k][j] in others {
          assert word[j] in all && word[j] != required;
        }
      }
      var suffix := word[k + 1..];
      assert AllFrom(suffix, all) by {
        forall j | 0 <= j < |suffix| ensures suffix[j] in all {
          assert suffix[j] == word[k + 1 + j];
        }
      }
    }
    if InPattern(word, required, others) {
      var k :| 0 <= k < |word| && word[k] == required
        && AllFrom(word[..k], others) && AllFrom(word[k + 1..], all);
      forall j | 0 <= j < |word| ensures word[j] in all {
        if j < k {
          assert word[..k][j] in others;
        } else if j > k {
          assert word[k + 1..][j - k - 1] in all;
        }
      }
    }
  }

  /** A word holding a character outside the seven letters does not fully match. */
  lemma PatternRejectsForeign(word: string, required: char, others: string, j: nat)
    requires j < |word| && word[j] != required && word[j] !in others
    ensures !InPattern(word, required, others)
  {
    AcceptsIffInPattern(word, required, others);
  }

  /** A word without the required letter, the empty word included, does not fully match. */
  lemma PatternRejectsMissingRequired(word: string, required: char, others: string)
    requires required !in word
    ensures !InPattern(word, required, others)
  {
    AcceptsIffInPattern(word, required, others);
  }

  /** The words of `words` that the puzzle accepts, in dictionary order, duplicates kept. */
  function Accepted(words: seq<string>, required: char, others: string): seq<string> {
    Filter(words, w => Accepts(w, required, others))
  }

  /** `sorted(tuple(w for w in words if pattern.fullmatch(w)))`. */
  function MatchSet(words: seq<string>, required: char, others: string): (r: seq<string>)
    ensures Sorted(r, LexLe)
    ensures forall w :: multiset(r)[w] == if Accepts(w, required, others) then multiset(words)[w] else 0
  {
    LexLeTotalOrder();
    var r := Sort(Accepted(words, required, others), LexLe);
    assert forall w :: multiset(r)[w] == if Accepts(w, required, others) then multiset(words)[w] else 0 by {
      forall w ensures multiset(r)[w] == if Accepts(w, required, others) then multiset(words)[w] else 0 {
        FilterCount(words, w => Accepts(w, required, others), w);
      }
    }
    r
  }

  /** A word is in the match list exactly when it is a dictionary word the puzzle accepts. */
  lemma MatchSetMembers(words: seq<string>, required: char, others: string, w: string)
    ensures w in MatchSet(words, required, others) <==> w in words && InPattern(w, required, others)
  {
    var r := MatchSet(words, required, others);
    AcceptsIffInPattern(w, required, others);
    assert w in r <==> multiset(r)[w] > 0;
    assert w in words <==> multiset(words)[w] > 0;
  }

  /**
   * The acceptance rule depends on the other letters only as a set, so any ordering of them
   * yields the same match list.
   */
  lemma {:induction false} MatchSetOrderIrrelevant(words: seq<string>, required: char, o1: string, o2: string)
    requires forall c :: c in o1 <==> c in o2
    ensures MatchSet(words, required, o1) == MatchSet(words, required, o2)
  {
    assert forall w :: Accepts(w, required, o1) <==> Accepts(w, required, o2) by {
      forall w ensures Accepts(w, required, o1) <==> Accepts(w, required, o2) {
        assert forall c :: c in [required] + o1 <==> c in [required] + o2;
      }
    }
    LexLeTotalOrder();
    SortedUnique(MatchSet(words, required, o1), MatchSet(words, required, o2), LexLe);
  }
}
