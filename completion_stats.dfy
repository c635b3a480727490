/** The counts behind the completion chart: all sessions, the completed ones, the pending rest and the rate. */
module CompletionStats {
  import opened Seqs
  import opened Types

  function SessionCount(b: StudyBlock): int { |b.sessions| }

  /** `totalSessions`: the length of `studyBlocks.flatMap(block => block.sessions)`. */
  function TotalSessions(blocks: seq<StudyBlock>): (n: nat)
    ensures n == Sum(blocks, SessionCount)
  {
    TotalIsSumOfCounts(blocks);
    |AllSessions(blocks)|
  }

  /** Flattening keeps every session: the flat list is as long as the block sizes added up. */
  lemma {:induction false} TotalIsSumOfCounts(blocks: seq<StudyBlock>)
    ensures |AllSessions(blocks)| == Sum(blocks, SessionCount)
    decreases |blocks|
  {
    if blocks != [] {
      TotalIsSumOfCounts(blocks[1..]);
    }
  }

  /** `completedSessions`: the sessions marked completed. */
  function CompletedSessions(blocks: seq<StudyBlock>): (n: nat)
    ensures n <= TotalSessions(blocks)
  {
    |Filter(AllSessions(blocks), (s: StudySession) => s.completed)|
  }

  /** The chart's pending slice, `totalSessions - completedSessions`: never negative, and the two slices make up the whole. */
  function PendingSessions(blocks: seq<StudyBlock>): (n: nat)
    ensures n + CompletedSessions(blocks) == TotalSessions(blocks)
    ensures n == |Filter(AllSessions(blocks), (s: StudySession) => !s.completed)|
  {
    FilterPartition(AllSessions(blocks), (s: StudySession) => s.completed, (s: StudySession) => !s.completed);
    TotalSessions(blocks) - CompletedSessions(blocks)
  }

  /** `(completed / total) * 100`, and 0 when there is nothing to count. */
  function Percent(completed: nat, total: nat): (rate: real)
    requires completed <= total
    ensures total == 0 ==> rate == 0.0
    ensures 0.0 <= rate <= 100.0
    ensures total > 0 ==> rate * total as real == 100.0 * completed as real
    ensures total > 0 && completed == total ==> rate == 100.0
  {
    if total > 0 then
      var share := completed as real / total as real;
      assert share * total as real == completed as real;
      assert 0.0 <= share <= 1.0;
      share * 100.0
    else 0.0
  }

  /** `completionRate`, as an exact rational: 0 without sessions, otherwise the completed share in percent. */
  function CompletionRate(blocks: seq<StudyBlock>): (rate: real)
    ensures TotalSessions(blocks) == 0 ==> rate == 0.0
    ensures 0.0 <= rate <= 100.0
    ensures TotalSessions(blocks) > 0 ==> rate * TotalSessions(blocks) as real == 100.0 * CompletedSessions(blocks) as real
    ensures TotalSessions(blocks) > 0 && CompletedSessions(blocks) == TotalSessions(blocks) ==> rate == 100.0
  {
    Percent(CompletedSessions(blocks), TotalSessions(blocks))
  }
}
