/** The checkpoint-aware incremental tailer: where to resume reading a source,
    what is read from there, and which checkpoint is written afterwards. */
module Tailer {
  import opened LogTypes
  import opened Lines

  /** The file may be continued from the checkpoint: it has not shrunk below
      the stored offset and its modification time has not gone backward. */
  predicate Continues(stored: Checkpoint, size: nat, mtime: int)
  {
    mtime >= stored.mtime && stored.offset <= size
  }

  /** The resume-offset rule: continue at the stored offset, or restart at 0
      after a truncation or rotation. */
  function ResumeOffset(stored: Checkpoint, size: nat, mtime: int): (start: nat)
    ensures start <= size
    ensures Continues(stored, size, mtime) ==> start == stored.offset
    ensures !Continues(stored, size, mtime) ==> start == 0
    ensures start == stored.offset <==> Continues(stored, size, mtime) || stored.offset == 0
  {
    if mtime >= stored.mtime && stored.offset <= size then stored.offset else 0
  }

  /** What one successful tail of a file produces. */
  datatype TailResult = TailResult(start: nat, lines: seq<string>, next: Checkpoint)

  /** Seek to the resume offset, read every line to end of file, and take the
      end-of-file position with the current mtime as the new checkpoint. */
  function TailRead(stored: Checkpoint, mtime: int, content: string): (t: TailResult)
    ensures t.start <= |content|
    ensures Concat(t.lines) == content[t.start..] && WellSplit(t.lines)
    ensures t.next == Checkpoint(|content|, mtime)
    ensures Continues(stored, |content|, mtime) ==> t.start == stored.offset
    ensures !Continues(stored, |content|, mtime) ==> Concat(t.lines) == content
  {
    var start := ResumeOffset(stored, |content|, mtime);
    TailResult(start, SplitLines(content[start..]), Checkpoint(|content|, mtime))
  }

  /** Tailing again a file that has neither grown nor been touched reads no
      line and writes back the same checkpoint. */
  lemma NoGrowthReadsNothing(stored: Checkpoint, mtime: int, content: string)
    requires stored == Checkpoint(|content|, mtime)
    ensures TailRead(stored, mtime, content).lines == []
    ensures TailRead(stored, mtime, content).next == stored
  {
  }

  /** A state of a file as one scan cycle observes it. */
  datatype Snapshot = Snapshot(mtime: int, content: string)

  /** The file only grows by appending, and its mtime never goes backward. */
  ghost predicate AppendOnly(history: seq<Snapshot>)
  {
    forall i :: 0 <= i < |history| - 1 ==>
      && history[i].content <= history[i + 1].content
      && history[i].mtime <= history[i + 1].mtime
  }

  /** Everything read over a run of cycles, starting from checkpoint cp. */
  function ReadOverCycles(cp: Checkpoint, history: seq<Snapshot>): string
    decreases |history|
  {
    if history == [] then []
    else
      var t := TailRead(cp, history[0].mtime, history[0].content);
      Concat(t.lines) + ReadOverCycles(t.next, history[1..])
  }

  /** Resume correctness: however the growth of an append-only file is split
      over cycles, the cycles together read each byte after the checkpoint
      exactly once, in order. The checkpoint must be one that this file's
      first snapshot continues, or offset 0. */
  lemma {:induction false} ResumeReadsEachByteOnce(cp: Checkpoint, history: seq<Snapshot>)
    requires history != [] && AppendOnly(history)
    requires cp.offset <= |history[0].content|
    requires cp.mtime <= history[0].mtime || cp.offset == 0
    ensures cp.offset <= |history[|history| - 1].content|
    ensures ReadOverCycles(cp, history) == history[|history| - 1].content[cp.offset..]
    decreases |history|
  {
    var s0 := history[0];
    var t := TailRead(cp, s0.mtime, s0.content);
    FirstCycleReads(cp, s0);
    if |history| > 1 {
      var rest := history[1..];
      AppendOnlyTail(history);
      ResumeReadsEachByteOnce(t.next, rest);
      PrefixChain(history, 0, |history| - 1);
      JoinReads(s0.content, history[|history| - 1].content, cp.offset, ReadOverCycles(t.next, rest));
    }
  }

  /** One cycle over a snapshot the checkpoint may be continued on reads
      from the checkpoint's offset and records the end of the file. */
  lemma FirstCycleReads(cp: Checkpoint, s: Snapshot)
    requires cp.offset <= |s.content|
    requires cp.mtime <= s.mtime || cp.offset == 0
    ensures Concat(TailRead(cp, s.mtime, s.content).lines) == s.content[cp.offset..]
    ensures TailRead(cp, s.mtime, s.content).next == Checkpoint(|s.content|, s.mtime)
  {
  }

  lemma AppendOnlyTail(history: seq<Snapshot>)
    requires |history| > 1 && AppendOnly(history)
    ensures AppendOnly(history[1..])
    ensures history[0].content <= history[1..][0].content && history[0].mtime <= history[1..][0].mtime
    ensures history[1..][|history| - 2] == history[|history| - 1]
  {
    var rest := history[1..];
    forall i | 0 <= i < |rest| - 1
      ensures rest[i].content <= rest[i + 1].content && rest[i].mtime <= rest[i + 1].mtime
    {
      assert rest[i] == history[i + 1] && rest[i + 1] == history[i + 2];
    }
  }

  /** What the first snapshot held past the offset, followed by what a
      longer content added to it, is the longer content past the offset. */
  lemma JoinReads(first: string, last: string, offset: nat, added: string)
    requires first <= last && offset <= |first|
    requires added == last[|first|..]
    ensures first[offset..] + added == last[offset..]
  {
    assert first == last[..|first|];
    assert last[..|first|][offset..] + last[|first|..] == last[offset..];
  }

  /** In an append-only history every earlier content is a prefix of every later one. */
  lemma {:induction false} PrefixChain(history: seq<Snapshot>, i: nat, j: nat)
    requires AppendOnly(history) && i <= j < |history|
    ensures history[i].content <= history[j].content
    decreases j - i
  {
    if i < j {
      PrefixChain(history, i + 1, j);
    }
  }

  /** From a source never seen before (the default checkpoint), the cycles
      together read the whole final content. */
  lemma FirstSightingReadsWholeFile(history: seq<Snapshot>)
    requires history != [] && AppendOnly(history)
    ensures ReadOverCycles(DEFAULT_CHECKPOINT, history) == history[|history| - 1].content
  {
    ResumeReadsEachByteOnce(DEFAULT_CHECKPOINT, history);
  }
}
