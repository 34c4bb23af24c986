# Spelling Bee solver and exit-code helpers: a Dafny model

This project models the core logic of two Python files.

`bee.py` solves the New York Times "Spelling Bee" puzzle. Seven letters are given and one
of them is required. A dictionary word is a solution when it uses only those seven letters
and contains the required one. The program has two modes:

- **Single-puzzle mode** takes the letters (and optionally the middle letter) from the
  command line. It prints the sorted matching words.
- **Batch mode** finds every pangram in the dictionary, meaning every word with exactly
  seven distinct letters. It deals the pangrams out to worker processes with `splitter`.
  Each worker tries every rotation of each of its pangrams: every letter in turn is the
  required one. When a database is configured, each rotation writes one result record;
  without one, the matches are computed and discarded.

The model covers:

- the pattern `[others]*R[R+others]*` as a language, proved equal to the direct rule
  (module `Matcher`);
- the dictionary word filter (`Dictionary`);
- the pangram filter and the rotation loop (`Pangrams`);
- the chunk partitioner (`Splitter`);
- the wait-status decode and the work plan (`Beehive`);
- the letters/middle split of single-puzzle mode (`BeeMain`).

Python's `sorted` on strings and characters is modelled in `Orders` and `Seqs`:

- lexicographic order, proved to be a total order;
- an insertion sort, proved to be a sorted permutation;
- a proof that a sorted permutation is unique.

`dorunrun.py` wraps a child process. The model covers its `ExitCode` enumeration (module
`ExitCodes`):

- the member values;
- the `OK`, `is_signal` and `signal` properties;
- `x in ExitCode` membership, which the `FakingIt` metaclass implements.

It also covers the pure post-processing of `dorunrun` (module `DoRunRun`):

- normalising the requested return type;
- stripping one trailing newline;
- selecting the returned value from the exit code and the output.

The child process itself is not modelled. Its exit code and its captured output are inputs.

Some choices in the model:

- `"".join(set(pangram))` lists the distinct letters in an order Python leaves unspecified.
  `Pangrams.AnalyzePangrams` therefore takes that order as an input (`orders`). Each
  arrangement must list every distinct letter of its pangram exactly once.
  `Pangrams.RecordIndependentOfOrder` proves that the record for a given required letter
  does not depend on the arrangement.
- `splitter` is modelled as the code behaves, over `seq<T>`. A dict argument is split as the
  sequence of its key/value pairs.
  - With zero chunks, `divmod` raises `ZeroDivisionError`. The model returns `Err(ZeroDivision)`.
  - A negative chunk count makes `range(num_chunks)` empty, so nothing is yielded and the
    model returns no chunks. Some descriptions of the program call every non-positive count
    an input-validation error; the code rejects only zero.
- Single-puzzle mode does not validate how many letters were given. Any non-empty
  `--letters` reaches the matcher. The only check is the missing-argument exit with
  `EX_DATAERR` at bee.py:321-324.
- The word filter of `build_dict` is a separate preprocessing step. It writes a `.bee` file
  and is not called by the solver. `bee_main` reads its dictionary with `f.read().split()`
  (bee.py:268-269) and applies no filter. `Dictionary` models the preprocessing step.
  `BeeMain.SolveFromArgs` takes whatever word list it is given.
- Take the dictionary `accord, radical, cordial, car` after `build_dict` has filtered it,
  with middle letter `c` and other letters `ordail`. Then `radical` matches too, because
  every letter of it is among the seven. `BeeMain.ExamplePuzzle` proves the answer is
  `["accord", "cordial", "radical"]`. On the raw, unfiltered file the solver also prints
  `car` (`BeeMain.RawFileExample`).
- `ExitCode` has 32 distinct values. `USAGE` is an alias of `BASEVALUE` (both 64), so it is
  the constant `ExitCodes.Usage` and not a constructor of its own. Its name is `BASEVALUE`.

## Model

| member | source | states |
|---|---|---|
| Matcher.Accepts | bee.py:164-165 | the direct acceptance rule: R occurs, and every character is R or one of the other letters; its meaning is fixed by `Matcher.AcceptsIffInPattern` |
| Matcher.InPattern | bee.py:165 | the full-match language of `[others]*R[R+others]*`: a prefix of other letters, then R, then any of the seven letters; related to the direct rule by `Matcher.AcceptsIffInPattern` |
| Matcher.AcceptsIffInPattern | bee.py:160-165 | a word fully matches `[others]*R[R+others]*` exactly when it contains R and all its characters are among R and the other letters; for an accepted word, the part before the first R uses only the other letters |
| Matcher.PatternRejectsForeign | bee.py:164-165 | a word with a character outside the seven letters never matches |
| Matcher.PatternRejectsMissingRequired | bee.py:164-165 | a word without the required letter, the empty word included, never matches |
| Matcher.MatchSet | bee.py:85 | the match list is sorted, and each word occurs in it as often as in the dictionary when the puzzle accepts it, else not at all |
| Matcher.MatchSetMembers | bee.py:84-85 | a word is in the match list exactly when it is a dictionary word in the pattern's language |
| Matcher.MatchSetOrderIrrelevant | bee.py:84-85 | the match list depends on the other letters only as a set, so reordering them changes nothing |
| Orders.LexLeTotalOrder | bee.py:85 | Python's string comparison is antisymmetric, transitive and total |
| Orders.CharLeTotalOrder | bee.py:86 | character comparison is a total order |
| Seqs.Sort | bee.py:85 | `sorted` returns a permutation of its input that is in order |
| Seqs.SortedUnique | bee.py:85 | two sorted permutations of the same elements are equal, so `sorted` has one possible result |
| Seqs.FilterCount | bee.py:108 | a comprehension filter keeps each kept element as often as it occurs and drops the others |
| Seqs.FilterConcat | bee.py:144-148 | filtering preserves order: filtering a concatenation concatenates the filtered parts |
| Dictionary.IsLower | bee.py:146 | `str.islower()` on ASCII: at least one letter and no upper-case letter; used through `Dictionary.KeepWordIff` |
| Dictionary.IsAlpha | bee.py:147 | `str.isalpha()` on ASCII: not empty, letters only; used through `Dictionary.KeepWordIff` |
| Dictionary.KeepWord | bee.py:144-148 | the four conditions of the comprehension, conjoined; restated in plain terms by `Dictionary.KeepWordIff` |
| Dictionary.KeepWordIff | bee.py:144-148 | a token is kept exactly when it has more than three characters, all of them `a`..`z`, none of them `s` |
| Dictionary.BuildDict | bee.py:144-148 | every word written out satisfies the rule |
| Dictionary.BuildDictCount | bee.py:144-148 | every allowed token survives as often as it occurs; no other token survives |
| Dictionary.BuildDictOrder | bee.py:144-148 | the kept words stay in file order |
| Splitter.Split | bee.py:197-232 | zero chunks fail with a division error; a negative count yields nothing; a positive count yields the slices `[i*q+min(i,r), (i+1)*q+min(i+1,r))` for each i in turn |
| Splitter.BoundFormula | bee.py:226-227 | the source's bound formula equals the running sum of the chunk sizes before chunk i |
| Splitter.BoundMonotone | bee.py:226-227 | the bounds never decrease, so every slice is well formed |
| Splitter.BoundEnds | bee.py:220-227 | the first chunk starts at 0 and the last one ends at `len(group)` |
| Splitter.BoundStep | bee.py:226-227 | each chunk's upper bound is at least its lower bound |
| Splitter.Chunk | bee.py:226-232 | chunk i is `group[lower:upper]` with the bounds of bee.py:226-227; its size is given by `Splitter.ChunkSize` |
| Splitter.Chunks | bee.py:225-232 | the chunks yielded for a positive `num_chunks`, in order: exactly `num_chunks` of them |
| Splitter.ChunkSize | bee.py:220-227 | the first `remainder` chunks have `quotient+1` elements and the rest have `quotient` |
| Splitter.ChunkSizesBalanced | bee.py:220-227 | no two chunk sizes differ by more than one |
| Splitter.TrailingChunksEmpty | bee.py:220-227 | with more chunks than elements, the first chunks hold one element each and the rest are empty |
| Splitter.ChunksPrefix | bee.py:225-232 | the first k chunks, concatenated, are the input up to chunk k's lower bound |
| Splitter.ChunksCover | bee.py:220-232 | concatenating all chunks in order gives back the input exactly |
| Pangrams.IsPangram | bee.py:108 | a word is a pangram when it has exactly seven distinct letters; see `Pangrams.PangramsMembers` |
| Pangrams.FindPangrams | bee.py:108 | every word found has exactly seven distinct letters |
| Pangrams.PangramsMembers | bee.py:108 | a word is found exactly when it is a dictionary word with seven distinct letters |
| Pangrams.ArrangementLength | bee.py:81 | `"".join(set(w))` has as many characters as `w` has distinct letters |
| Pangrams.RotationShape | bee.py:81-84 | for a pangram, rotation i requires `letters[i]` and offers six other letters: the pangram's letters minus the required one |
| Pangrams.SourceWordAccepted | bee.py:81-85 | a pangram is in its own puzzle's language under every rotation |
| Pangrams.Canonical | bee.py:86 | the stored puzzle name is a sorted permutation of the letters |
| Pangrams.CanonicalPuzzle | bee.py:81-86 | the puzzle name lists each distinct letter of the pangram exactly once |
| Pangrams.CanonicalIndependent | bee.py:81-86 | two arrangements of the same pangram give the same puzzle name |
| Pangrams.Others | bee.py:84 | `pangram[:i] + pangram[i+1:]` has one character fewer than the arrangement, all taken from it; its members are given by `Pangrams.OthersMembers` |
| Pangrams.OthersMembers | bee.py:84 | the other letters are exactly the arrangement's letters minus the required one |
| Pangrams.RotationRecord | bee.py:83-86 | the record rotation i writes: middle letter, puzzle name, match list and pid; its meaning is given by `Pangrams.RotationRecordMeaning` |
| Pangrams.AnalyzePangrams | bee.py:80-87 | the nested loops produce, per pangram in chunk order and per rotation in position order, the record `(letters[i], sorted letters, match list, pid)` |
| Pangrams.AnalysisLength | bee.py:80-86 | a chunk of seven-letter arrangements gives seven records per pangram |
| Pangrams.AnalysisRecordAt | bee.py:80-86 | record `7*k+i` is rotation i of pangram k |
| Pangrams.ChunkRecordCount | bee.py:80-86 | a chunk of pangrams yields seven records per pangram |
| Pangrams.RotationRecordMeaning | bee.py:83-86 | each record's middle letter is one of the pangram's letters, its puzzle is the sorted distinct letters, and its matches are sorted, are exactly the accepted dictionary words and include the pangram when it is a dictionary word |
| Pangrams.RecordIndependentOfOrder | bee.py:81-86 | the record for a given required letter is the same whichever order the set yields |
| Beehive.DecodeStatus | bee.py:126 | `exit_code*256 + signal_number == status` with `0 <= signal_number < 256` |
| Beehive.DecodeStatusUnique | bee.py:126 | the decoded pair is the only pair with those two properties |
| Beehive.PlanWork | bee.py:105-112 | with a positive count, the work plan is exactly `splitter`'s chunks of the pangram list: that many chunks, concatenating to the pangram list, no two sizes differing by more than one; zero fails; a negative count gives no workers |
| Beehive.OnePangramFourWorkers | bee.py:108-112 | one pangram over four workers: the first gets it, the other three get empty chunks |
| Beehive.OneItemFourChunks | bee.py:220-232 | a one-element group split four ways gives the element and three empty chunks |
| BeeMain.PuzzleFromArgs | bee.py:280-285 | empty `--letters` exits with `EX_DATAERR` (the guard at bee.py:321-324); otherwise, without `--middle` the first letter is required and the rest are the others, and with `--middle` the letters are used as given |
| BeeMain.SolveFromArgs | bee.py:280-288 | the printed answer is the sorted match list of the puzzle the arguments describe, or the `EX_DATAERR` failure |
| BeeMain.SevenLettersPuzzle | bee.py:284-288 | seven letters, required first: a word is printed exactly when it is a dictionary word in the pattern's language |
| BeeMain.MiddleLetterPuzzle | bee.py:280-288 | with `--middle` M: a word is printed exactly when it is a dictionary word in the language of `[letters]*M[M+letters]*` |
| BeeMain.ExampleDictionary | bee.py:144-148 | `build_dict` keeps all of `accord radical cordial car` but `car` |
| BeeMain.ExamplePuzzle | bee.py:287-288 | the dictionary `build_dict` writes from those four tokens, with required `c` and others `ordail`, prints `accord`, `cordial`, `radical` |
| BeeMain.RawFileExample | bee.py:268-288 | read unfiltered, the same four-word file also prints `car` |
| ExitCodes.ExitCode.Value | dorunrun.py:155-236 | each member's value, with the `os.EX_*` constants written out; see `ExitCodes.ValueFitsByte` and `ExitCodes.LookupValue` |
| ExitCodes.ExitCode.Name | dorunrun.py:155-236 | each member's declared name, used for the dict's "name" at dorunrun.py:104; the alias 64 is named `BASEVALUE` (`ExitCodes.UsageIsBaseValue`) |
| ExitCodes.ExitCode.IsOk | dorunrun.py:142-144 | `OK` holds exactly for the member with value 0 |
| ExitCodes.ExitCode.IsSignal | dorunrun.py:146-148 | `is_signal` holds exactly for 130, 137, 141 and 143; the endpoints 128 and 161 are excluded |
| ExitCodes.ExitCode.Signal | dorunrun.py:150-152 | a signal code is 128 plus a signal number between 1 and 32; every other member gives 0 |
| ExitCodes.Lookup | dorunrun.py:155-236 | `ExitCode(x)` returns a member whose value is x, or fails |
| ExitCodes.Contains | dorunrun.py:117-128 | `x in ExitCode` holds exactly when x is the value of some member, and fails for every other integer |
| ExitCodes.ValueFitsByte | dorunrun.py:155-236 | every member's value lies in 0..255 |
| ExitCodes.LookupValue | dorunrun.py:155-236 | looking up a member's value gives back that member, so the 32 values are distinct |
| ExitCodes.UsageIsBaseValue | dorunrun.py:178-180 | 64 has one canonical member: `USAGE` is `BASEVALUE` and carries that name |
| ExitCodes.KnownSignals | dorunrun.py:225-233 | 130, 137, 141 and 143 give signals 2, 9, 13 and 15; 128 and 161 give 0 |
| DoRunRun.NormaliseReturnType | dorunrun.py:66 | int, str and bool are kept; everything else, `None` included, becomes dict |
| DoRunRun.NormaliseIdempotent | dorunrun.py:64-66 | normalising twice is the same as normalising once |
| DoRunRun.StripNewline | dorunrun.py:92-93 | text ending in a newline loses exactly that newline; other text is unchanged |
| DoRunRun.StripNewlineAppended | dorunrun.py:92-93 | appending a newline and then stripping gives back the text |
| DoRunRun.StripNewlineOnlyOne | dorunrun.py:92 | of two trailing newlines, only one is removed |
| DoRunRun.SelectReturn | dorunrun.py:89-106 | the call fails exactly when a dict is requested and the code is not a member; the dict's name is that member's name; the str result and the dict's "stdout" and "stderr" are the trimmed output |
| DoRunRun.ResultsAgree | dorunrun.py:89-106 | the bool result is `code == 0`; the int result is the code; the dict's "OK" is `code == 0`, which is the member's `OK`, and its "code" is the code |
| DoRunRun.OutputsTrimmed | dorunrun.py:92-106 | the str result and the dict's "stdout" and "stderr" are the output with one final newline removed when there is one, and unchanged otherwise |
| DoRunRun.OtherTypesGiveDict | dorunrun.py:64-66 | any requested type other than int, str or bool gives the same result as `dict` |

## Left out

- Process fan-out: `os.fork`, the set of pending pids, the `os.wait3` reaping loop and `os._exit` (bee.py:112-128, bee.py:94). This is OS concurrency. Only the pure status decode and the work plan are modelled.
- The `finally: db.close()` at bee.py:93. It raises when no database was opened, because `db` is then `None`. This is part of the process teardown, which is not modelled.
- SQLite persistence: transactions, `robust_commit`, `write_results`, the `" ".join` of the matches it stores, and the `multiprocessing.RLock`. These are a foreign library plus locking. `Pangrams.AnalyzePangrams` returns the records a worker would write when a database is configured, with the matches as a sequence. The no-database case, where nothing is written, is not distinguished.
- File I/O: `read_whitespace_file`, writing the `.bee` file and reading the dictionary. Splitting the text into tokens belongs to that I/O, and `Dictionary.BuildDict` starts from the tokens.
- Command-line parsing, the Python version check, default paths, timing and printing. The missing-`--letters` exit is kept as the error of `BeeMain.PuzzleFromArgs`.
- `KeyboardInterrupt` handling in the worker. Interrupts are not modelled.
- The `re` engine. The model states the language of the compiled pattern, reading each character class as a set of letters. This assumes the letters are plain lowercase letters, so that `^`, `-`, `]`, `\` and an empty `others` do not change what the classes mean.
- BeeMain.SolveFromArgs: requires `--middle` to be at most one character. A longer value is pasted into the pattern as a literal string, and the matcher model takes a single required letter.
- Dictionary.KeepWordIff: `str.islower` and `str.isalpha` are modelled on ASCII letters only. Python accepts every Unicode cased letter.
- ExitCodes.Contains: covers integer arguments only. `x in ExitCode` for a non-integer object depends on Python's conversion rules.
- Running the child process in `dorunrun`: `subprocess.run`, timeouts, `shlex.split`, `str()` of the arguments, the `@trap` decorator and the re-raised exceptions (dorunrun.py:68-87, 108-112). These are foreign calls. The exit code and output are inputs of `DoRunRun.SelectReturn`.
- The dict result is a record with fixed fields rather than a Python dict with string keys.
