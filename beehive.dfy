/**
 * The pure parts of beehive (bee.py): finding the pangrams and dealing them out to the
 * workers, and decoding each reaped child's wait status. Forking and reaping are not modelled.
 */
module Beehive {
  import opened Wrappers
  import opened Seqs
  import opened Splitter
  import opened Pangrams

  /**
   * `exit_code, signal_number = divmod(status, 256)`. Python's floor division and Dafny's
   * Euclidean division agree for the positive divisor 256.
   */
  function DecodeStatus(status: int): (r: (int, int))
    ensures r.0 * 256 + r.1 == status
    ensures 0 <= r.1 < 256
  {
    (status / 256, status % 256)
  }

  /** The decoded pair is the only one with those two properties. */
  lemma DecodeStatusUnique(status: int, exitCode: int, signalNumber: int)
    requires exitCode * 256 + signalNumber == status && 0 <= signalNumber < 256
    ensures DecodeStatus(status) == (exitCode, signalNumber)
  {
    var (e, s) := DecodeStatus(status);
    assert (e - exitCode) * 256 == signalNumber - s;
  }

  /**
   * The pangrams of the dictionary split into `cpus` chunks, one per worker process; a
   * zero count fails with the division error the splitter raises.
   */
  method PlanWork(words: seq<string>, cpus: int) returns (r: Result<seq<seq<string>>, SplitError>)
    ensures r.Err? <==> cpus == 0
    ensures cpus < 0 ==> r == Ok([])
    ensures cpus > 0 ==> r == Ok(Chunks(FindPangrams(words), cpus))
    ensures cpus > 0 ==> |r.value| == cpus && Flatten(r.value) == FindPangrams(words)
    ensures cpus > 0 ==> forall i, j :: 0 <= i < cpus && 0 <= j < cpus ==> |r.value[i]| <= |r.value[j]| + 1
  {
    var pangrams := FindPangrams(words);
    r := Split(pangrams, cpus);
    if cpus > 0 {
      ChunksCover(pangrams, cpus);
      forall i, j | 0 <= i < cpus && 0 <= j < cpus ensures |r.value[i]| <= |r.value[j]| + 1 {
        ChunkSizesBalanced(pangrams, cpus, i, j);
      }
    }
  }

  /**
   * A dictionary with a single pangram, shared among four workers: the first worker gets the
   * pangram and the other three get empty chunks.
   */
  lemma OnePangramFourWorkers(words: seq<string>)
    requires |FindPangrams(words)| == 1
    ensures Chunks(FindPangrams(words), 4) == [FindPangrams(words), [], [], []]
  {
    OneItemFourChunks(FindPangrams(words));
  }

  lemma OneItemFourChunks<T>(group: seq<T>)
    requires |group| == 1
    ensures Chunks(group, 4) == [group, [], [], []]
  {
    var cs := Chunks(group, 4);
    assert cs[0] == group[Bound(1, 4, 0)..Bound(1, 4, 1)] == group;
    TrailingChunksEmpty(group, 4, 1);
    TrailingChunksEmpty(group, 4, 2);
    TrailingChunksEmpty(group, 4, 3);
    assert cs == [cs[0], cs[1], cs[2], cs[3]];
  }
}
