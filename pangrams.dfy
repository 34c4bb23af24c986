/**
 * Pangram discovery and the per-pangram rotation loop of analyze_pangrams (bee.py).
 * `"".join(set(pangram))` lists the distinct letters in an order Python does not specify;
 * the model takes that order as an input (`orders`), constrained only to list each distinct
 * letter of the pangram exactly once.
 */
module Pangrams {
  import opened Orders
  import opened Seqs
  import opened Matcher

  /** The distinct letters of a word: `set(word)`. */
  function Letters(w: string): set<char> {
    set c | c in w
  }

  /** bee.py:108: a pangram has exactly seven distinct letters. */
  predicate IsPangram(w: string) {
    |Letters(w)| == 7
  }

  /** The pangrams of the dictionary, in dictionary order. */
  function FindPangrams(words: seq<string>): (r: seq<string>)
    ensures forall i :: 0 <= i < |r| ==> IsPangram(r[i])
  {
    Filter(words, IsPangram)
  }

  /** Every pangram of the dictionary is found, and only pangrams are. */
  lemma PangramsMembers(words: seq<string>, w: string)
    ensures w in FindPangrams(words) <==> w in words && IsPangram(w)
  {
    FilterCount(words, IsPangram, w);
    assert w in FindPangrams(words) <==> multiset(FindPangrams(words))[w] > 0;
    assert w in words <==> multiset(words)[w] > 0;
  }

  predicate NoDup(s: string) {
    forall i, j :: 0 <= i < j < |s| ==> s[i] != s[j]
  }

  /** `letters` is one possible value of `"".join(set(w))`. */
  predicate IsArrangement(letters: string, w: string) {
    NoDup(letters) && Letters(letters) == Letters(w)
  }

  lemma {:induction false} NoDupCount(s: string, c: char)
    requires NoDup(s)
    ensures multiset(s)[c] == if c in s then 1 else 0
  {
    if s != [] {
      assert s == [s[0]] + s[1..];
      NoDupCount(s[1..], c);
    }
  }

  lemma {:induction false} NoDupCard(s: string)
    requires NoDup(s)
    ensures |Letters(s)| == |s|
  {
    if s != [] {
      assert s == [s[0]] + s[1..];
      NoDupCard(s[1..]);
      assert Letters(s) == {s[0]} + Letters(s[1..]);
      assert s[0] !in Letters(s[1..]);
    }
  }

  /** A pangram's letters, in any order, are seven characters. */
  lemma ArrangementLength(letters: string, w: string)
    requires IsArrangement(letters, w)
    ensures |letters| == |Letters(w)|
  {
    NoDupCard(letters);
  }

  /** Rotation `i`'s other letters: `pangram[:i] + pangram[i+1:]`. */
  function Others(letters: string, i: nat): (r: string)
    requires i < |letters|
    ensures |r| == |letters| - 1
    ensures forall c :: c in r ==> c in letters
  {
    letters[..i] + letters[i + 1..]
  }

  /** For a pangram, rotation `i` requires `letters[i]` and offers the six other letters. */
  lemma RotationShape(letters: string, w: string, i: nat)
    requires IsArrangement(letters, w) && IsPangram(w) && i < |letters|
    ensures |letters| == 7 && |Others(letters, i)| == 6
    ensures letters[i] in Letters(w) && letters[i] !in Others(letters, i)
    ensures Letters(Others(letters, i)) == Letters(w) - {letters[i]}
  {
    ArrangementLength(letters, w);
    var o := Others(letters, i);
    assert letters == letters[..i] + [letters[i]] + letters[i + 1..];
    forall c ensures c in o <==> c in letters && c != letters[i] {
      OthersMembers(letters, i, c);
    }
  }

  /** A pangram fully matches its own puzzle under every rotation. */
  lemma SourceWordAccepted(letters: string, w: string, i: nat)
    requires IsArrangement(letters, w) && i < |letters|
    ensures InPattern(w, letters[i], Others(letters, i))
  {
    var all := [letters[i]] + Others(letters, i);
    assert letters[i] in Letters(w);
    forall j | 0 <= j < |w| ensures w[j] in all {
      assert w[j] in Letters(letters);
      var m :| 0 <= m < |letters| && letters[m] == w[j];
      if m < i { assert all[m + 1] == w[j]; }
      else if m > i { assert all[m] == w[j]; }
    }
    AcceptsIffInPattern(w, letters[i], Others(letters, i));
  }

  /** `"".join(sorted(pangram))`: the puzzle name that a record stores. */
  function Canonical(letters: string): (r: string)
    ensures multiset(r) == multiset(letters)
    ensures Sorted(r, CharLe)
  {
    CharLeTotalOrder();
    Sort(letters, CharLe)
  }

  /** The stored puzzle name is the pangram's distinct letters, sorted, whatever the set order. */
  lemma CanonicalPuzzle(letters: string, w: string)
    requires IsArrangement(letters, w)
    ensures IsArrangement(Canonical(letters), w)
  {
    var r := Canonical(letters);
    forall c ensures c in r <==> c in letters {
      assert c in r <==> c in multiset(r);
    }
    assert Letters(r) == Letters(letters);
    forall i, j | 0 <= i < j < |r| ensures r[i] != r[j] {
      NoDupCount(letters, r[i]);
      assert multiset(r[..j]) + multiset(r[j..]) == multiset(r) by { assert r == r[..j] + r[j..]; }
      assert r[i] in r[..j];
    }
  }

  /** Two orderings of a pangram's letters give the same puzzle name. */
  lemma CanonicalIndependent(l1: string, l2: string, w: string)
    requires IsArrangement(l1, w) && IsArrangement(l2, w)
    ensures Canonical(l1) == Canonical(l2)
  {
    forall c ensures multiset(l1)[c] == multiset(l2)[c] {
      NoDupCount(l1, c);
      NoDupCount(l2, c);
      assert c in l1 <==> c in Letters(l1);
      assert c in l2 <==> c in Letters(l2);
    }
    assert multiset(l1) == multiset(l2);
    CharLeTotalOrder();
    SortedUnique(Canonical(l1), Canonical(l2), CharLe);
  }

  /** One row of the `answers` table: middle letter, puzzle, matches and the writer's pid. */
  datatype ResultRecord = ResultRecord(middle: char, puzzle: string, matches: seq<string>, pid: int)

  /** What rotation `i` of a pangram yields. */
  function RotationRecord(letters: string, i: nat, words: seq<string>, pid: int): ResultRecord
    requires i < |letters|
  {
    ResultRecord(letters[i], Canonical(letters), MatchSet(words, letters[i], Others(letters, i)), pid)
  }

  /** All rotations of one pangram, in rotation order. */
  function PangramRecords(letters: string, words: seq<string>, pid: int): seq<ResultRecord> {
    seq(|letters|, i requires 0 <= i < |letters| => RotationRecord(letters, i, words, pid))
  }

  /** The records of each pangram of a chunk, in chunk order. */
  function PangramBlocks(orders: seq<string>, words: seq<string>, pid: int): seq<seq<ResultRecord>> {
    seq(|orders|, k requires 0 <= k < |orders| => PangramRecords(orders[k], words, pid))
  }

  /** All records of a chunk: its pangrams in chunk order, each with its rotations. */
  function AnalysisRecords(orders: seq<string>, words: seq<string>, pid: int): seq<ResultRecord> {
    Flatten(PangramBlocks(orders, words, pid))
  }

  lemma PangramRecordsStep(letters: string, i: nat, words: seq<string>, pid: int)
    requires i < |letters|
    ensures PangramRecords(letters, words, pid)[..i + 1]
      == PangramRecords(letters, words, pid)[..i] + [RotationRecord(letters, i, words, pid)]
  {
  }

  lemma AnalysisRecordsStep(orders: seq<string>, k: nat, words: seq<string>, pid: int)
    requires k < |orders|
    ensures AnalysisRecords(orders[..k + 1], words, pid)
      == AnalysisRecords(orders[..k], words, pid) + PangramRecords(orders[k], words, pid)
  {
    var bs := PangramBlocks(orders[..k + 1], words, pid);
    assert bs[..k] == PangramBlocks(orders[..k], words, pid);
    assert bs[k] == PangramRecords(orders[k], words, pid);
  }

  /**
   * The worker loop of analyze_pangrams: for each pangram of its chunk and each rotation, the
   * record it writes when a database is configured. `orders[k]` is `"".join(set(pangrams[k]))`.
   */
  method AnalyzePangrams(pangrams: seq<string>, orders: seq<string>, words: seq<string>, pid: int)
    returns (records: seq<ResultRecord>)
    requires |orders| == |pangrams|
    requires forall k :: 0 <= k < |pangrams| ==> IsArrangement(orders[k], pangrams[k])
    ensures records == AnalysisRecords(orders, words, pid)
  {
    records := [];
    for k := 0 to |pangrams|
      invariant records == AnalysisRecords(orders[..k], words, pid)
    {
      var pangram := orders[k];
      for i := 0 to |pangram|
        invariant records == AnalysisRecords(orders[..k], words, pid) + PangramRecords(pangram, words, pid)[..i]
      {
        var required := pangram[i];
        var matches := MatchSet(words, required, pangram[..i] + pangram[i + 1..]);
        PangramRecordsStep(pangram, i, words, pid);
        records := records + [ResultRecord(required, Canonical(pangram), matches, pid)];
      }
      assert PangramRecords(pangram, words, pid)[..|pangram|] == PangramRecords(pangram, words, pid);
      AnalysisRecordsStep(orders, k, words, pid);
    }
    assert orders[..|pangrams|] == orders;
  }

  /** Each pangram contributes as many records as it has letters. */
  lemma AnalysisLength(orders: seq<string>, words: seq<string>, pid: int)
    requires forall k :: 0 <= k < |orders| ==> |orders[k]| == 7
    ensures |AnalysisRecords(orders, words, pid)| == 7 * |orders|
  {
    FlattenLength(PangramBlocks(orders, words, pid), 7);
  }

  /** Rotation `i` of pangram `k` is record `7*k+i`: pangrams in chunk order, rotations 0..6. */
  lemma AnalysisRecordAt(orders: seq<string>, words: seq<string>, pid: int, k: nat, i: nat)
    requires forall m :: 0 <= m < |orders| ==> |orders[m]| == 7
    requires k < |orders| && i < 7
    ensures |AnalysisRecords(orders, words, pid)| == 7 * |orders|
    ensures AnalysisRecords(orders, words, pid)[7 * k + i] == RotationRecord(orders[k], i, words, pid)
  {
    var bs := PangramBlocks(orders, words, pid);
    FlattenLength(bs, 7);
    FlattenLength(bs[..k], 7);
    FlattenAt(bs, k, i);
    assert bs[k][i] == RotationRecord(orders[k], i, words, pid);
  }

  /** A chunk of pangrams yields seven records per pangram. */
  lemma ChunkRecordCount(pangrams: seq<string>, orders: seq<string>, words: seq<string>, pid: int)
    requires |orders| == |pangrams|
    requires forall m :: 0 <= m < |pangrams| ==> IsArrangement(orders[m], pangrams[m]) && IsPangram(pangrams[m])
    ensures forall m :: 0 <= m < |orders| ==> |orders[m]| == 7
    ensures |AnalysisRecords(orders, words, pid)| == 7 * |pangrams|
  {
    forall m | 0 <= m < |orders| ensures |orders[m]| == 7 {
      ArrangementLength(orders[m], pangrams[m]);
    }
    AnalysisLength(orders, words, pid);
  }

  /**
   * What rotation `i` of a pangram records: the required letter is `letters[i]`, one of the
   * pangram's letters; the puzzle name is the pangram's distinct letters sorted; the matches
   * are sorted and are exactly the dictionary words of that puzzle, the pangram itself among
   * them when it is a dictionary word.
   */
  lemma RotationRecordMeaning(letters: string, w: string, i: nat, words: seq<string>, pid: int, x: string)
    requires IsArrangement(letters, w) && i < |letters|
    ensures var rec := RotationRecord(letters, i, words, pid);
      && rec.middle == letters[i] && rec.middle in Letters(w) && rec.pid == pid
      && IsArrangement(rec.puzzle, w) && Sorted(rec.puzzle, CharLe)
      && Sorted(rec.matches, LexLe)
      && (x in rec.matches <==> x in words && InPattern(x, rec.middle, Others(letters, i)))
      && (w in words ==> w in rec.matches)
  {
    assert letters[i] in Letters(letters);
    CanonicalPuzzle(letters, w);
    MatchSetMembers(words, letters[i], Others(letters, i), x);
    MatchSetMembers(words, letters[i], Others(letters, i), w);
    SourceWordAccepted(letters, w, i);
  }

  /**
   * The set order does not matter: whichever position a letter takes in the arrangement, the
   * rotation that requires it yields the same record.
   */
  lemma RecordIndependentOfOrder(l1: string, l2: string, w: string, i: nat, j: nat, words: seq<string>, pid: int)
    requires IsArrangement(l1, w) && IsArrangement(l2, w)
    requires i < |l1| && j < |l2| && l1[i] == l2[j]
    ensures RotationRecord(l1, i, words, pid) == RotationRecord(l2, j, words, pid)
  {
    CanonicalIndependent(l1, l2, w);
    var o1, o2 := Others(l1, i), Others(l2, j);
    forall c ensures c in o1 <==> c in o2 {
      OthersMembers(l1, i, c);
      OthersMembers(l2, j, c);
      assert c in l1 <==> c in Letters(l1);
      assert c in l2 <==> c in Letters(l2);
    }
    MatchSetOrderIrrelevant(words, l1[i], o1, o2);
  }

  /** In a duplicate-free arrangement, the other letters are all letters but the required one. */
  lemma OthersMembers(letters: string, i: nat, c: char)
    requires NoDup(letters) && i < |letters|
    ensures c in Others(letters, i) <==> c in letters && c != letters[i]
  {
    var o := Others(letters, i);
    if c in o {
      var j :| 0 <= j < |o| && o[j] == c;
      if j < i { assert o[j] == letters[j]; } else { assert o[j] == letters[j + 1]; }
    }
    if c in letters && c != letters[i] {
      var j :| 0 <= j < |letters| && letters[j] == c;
      if j < i { assert o[j] == c; } else { assert o[j - 1] == c; }
    }
  }
}
