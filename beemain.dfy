/** The single-puzzle path of bee_main (bee.py) and the argument check guarding it. */
module BeeMain {
  import opened Wrappers
  import opened Orders
  import opened Seqs
  import opened Matcher
  import opened Dictionary

  /** `os.EX_DATAERR`, the status for a missing `--letters` argument outside batch mode. */
  const ExDataErr := 65

  /** The required part and the other letters given to build_regex. */
  datatype Puzzle = Puzzle(required: string, others: string)

  /**
   * bee.py:321-324 and 280-285. An empty string stands for an absent argument, as both
   * are false in Python. Without `--middle` the first letter is the required one.
   */
  function PuzzleFromArgs(middle: string, letters: string): (r: Result<Puzzle, int>)
    ensures r.Err? <==> letters == []
    ensures r.Err? ==> r.error == ExDataErr
    ensures r.Ok? && middle == [] ==>
      |r.value.required| == 1 && r.value.required + r.value.others == letters
    ensures r.Ok? && middle != [] ==> r.value == Puzzle(middle, letters)
  {
    if letters == [] then Err(ExDataErr)
    else if middle != [] then Ok(Puzzle(middle, letters))
    else Ok(Puzzle([letters[0]], letters[1..]))
  }

  /** The printed answer: the sorted dictionary words the puzzle accepts. */
  function SolveFromArgs(words: seq<string>, middle: string, letters: string): (r: Result<seq<string>, int>)
    requires |middle| <= 1
    ensures r.Err? <==> letters == []
    ensures r.Ok? ==> var p := PuzzleFromArgs(middle, letters).value;
      r.value == MatchSet(words, p.required[0], p.others)
  {
    match PuzzleFromArgs(middle, letters)
    case Err(code) => Err(code)
    case Ok(p) => Ok(MatchSet(words, p.required[0], p.others))
  }

  /**
   * Seven letters, required letter first: the pattern's full alphabet is exactly the seven
   * letters typed, and a word matches iff it uses only them and contains the first.
   */
  lemma SevenLettersPuzzle(words: seq<string>, letters: string, w: string)
    requires |letters| == 7
    ensures var r := SolveFromArgs(words, [], letters);
      r.Ok? && (w in r.value <==> w in words && InPattern(w, letters[0], letters[1..]))
  {
    MatchSetMembers(words, letters[0], letters[1..], w);
  }

  /**
   * With `--middle`, the letters typed are all optional: a word is printed exactly when it is a
   * dictionary word in the language of `[letters]*M[M+letters]*`.
   */
  lemma MiddleLetterPuzzle(words: seq<string>, middle: string, letters: string, w: string)
    requires |middle| == 1 && letters != []
    ensures var r := SolveFromArgs(words, middle, letters);
      r.Ok? && (w in r.value <==> w in words && InPattern(w, middle[0], letters))
  {
    MatchSetMembers(words, middle[0], letters, w);
  }

  /**
   * bee_main reads its dictionary without filtering it: on the raw four-word file, `car` is
   * printed too, since `c`, `a` and `r` are all among the seven letters.
   */
  lemma RawFileExample()
    ensures var r := SolveFromArgs(["accord", "radical", "cordial", "car"], "c", "ordail");
      r.Ok? && "car" in r.value
  {
    assert Accepts("car", 'c', "ordail");
    AcceptsIffInPattern("car", 'c', "ordail");
    MatchSetMembers(["accord", "radical", "cordial", "car"], 'c', "ordail", "car");
  }

  /** The example dictionary after build_dict: "car" is too short. */
  lemma ExampleDictionary()
    ensures BuildDict(["accord", "radical", "cordial", "car"]) == ["accord", "radical", "cordial"]
  {
    KeepWordIff("accord");
    KeepWordIff("radical");
    KeepWordIff("cordial");
  }

  lemma ExampleMatchCounts(r: seq<string>)
    requires forall w :: (multiset(r)[w]
      == if Accepts(w, 'c', "ordail") then multiset(["accord", "radical", "cordial"])[w] else 0)
    ensures multiset(r) == multiset(["accord", "cordial", "radical"])
  {
    ExampleAccepted();
  }

  lemma ExampleAccepted()
    ensures Accepts("accord", 'c', "ordail") && Accepts("radical", 'c', "ordail") && Accepts("cordial", 'c', "ordail")
  {
  }

  lemma ExampleSorted()
    ensures Sorted(["accord", "cordial", "radical"], LexLe)
  {
  }

  /** Middle letter `c` with others `ordail`: all three dictionary words match, sorted. */
  lemma ExamplePuzzle()
    ensures MatchSet(BuildDict(["accord", "radical", "cordial", "car"]), 'c', "ordail")
      == ["accord", "cordial", "radical"]
  {
    ExampleDictionary();
    var r := MatchSet(["accord", "radical", "cordial"], 'c', "ordail");
    ExampleMatchCounts(r);
    ExampleSorted();
    LexLeTotalOrder();
    SortedUnique(r, ["accord", "cordial", "radical"], LexLe);
  }
}
