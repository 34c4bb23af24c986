/**
 * The dictionary filter of build_dict (bee.py): the tokens of a word file that the
 * puzzle's rules allow. Python's `str.islower` and `str.isalpha` are modelled on ASCII.
 */
module Dictionary {
  import opened Seqs

  predicate IsUpperChar(c: char) { 'A' <= c <= 'Z' }
  predicate IsLowerChar(c: char) { 'a' <= c <= 'z' }
  /** A cased character in the ASCII range is a letter of either case. */
  predicate IsCased(c: char) { IsUpperChar(c) || IsLowerChar(c) }

  /** `str.islower()`: at least one cased character, and no upper-case one. */
  predicate IsLower(w: string) {
    (exists i :: 0 <= i < |w| && IsCased(w[i])) && forall i :: 0 <= i < |w| ==> !IsUpperChar(w[i])
  }

  /** `str.isalpha()`: not empty, and letters only. */
  predicate IsAlpha(w: string) {
    |w| > 0 && forall i :: 0 <= i < |w| ==> IsCased(w[i])
  }

  /** The word rule of bee.py:144-148. */
  predicate KeepWord(w: string) {
    |w| > 3 && IsLower(w) && IsAlpha(w) && 's' !in w
  }

  /** The rule in plain words: more than three characters, all of them `a`..`z`, none of them `s`. */
  lemma KeepWordIff(w: string)
    ensures KeepWord(w) <==> |w| > 3 && forall i :: 0 <= i < |w| ==> IsLowerChar(w[i]) && w[i] != 's'
  {
    if |w| > 3 && forall i :: 0 <= i < |w| ==> IsLowerChar(w[i]) && w[i] != 's' {
      assert IsCased(w[0]);
    }
  }

  /** The words build_dict writes out, in file order; it returns their number. */
  function BuildDict(tokens: seq<string>): (words: seq<string>)
    ensures forall i :: 0 <= i < |words| ==> KeepWord(words[i])
  {
    Filter(tokens, KeepWord)
  }

  /** Exactly the allowed tokens survive, each as often as it occurs in the file. */
  lemma BuildDictCount(tokens: seq<string>, w: string)
    ensures multiset(BuildDict(tokens))[w] == if KeepWord(w) then multiset(tokens)[w] else 0
  {
    FilterCount(tokens, KeepWord, w);
  }

  /** Filtering a file in two parts gives the two filtered parts in order. */
  lemma BuildDictOrder(a: seq<string>, b: seq<string>)
    ensures BuildDict(a + b) == BuildDict(a) + BuildDict(b)
  {
    FilterConcat(a, b, KeepWord);
  }
}
