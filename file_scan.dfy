/** Scanning one source: tally the events of the newly read lines, and the
    two scan entry points, for a local file and for a remote one, that look
    up the checkpoint, tail the file, store the events and advance the
    checkpoint. */
module FileScan {
  import opened LogTypes
  import opened Lines
  import opened Classifier
  import opened Tailer
  import opened CheckpointStore

  /** What a scan finds when it reaches a source. */
  datatype SourceView =
    | Missing                                // the local file is gone, or the remote stat raised IOError
    | Unreadable                             // stat raised anything else, or opening or reading raised
    | Readable(mtime: int, content: string)  // size is |content|

  /** The tuple a file scan returns: (events_count, rows, category_counts,
      sample_events). */
  datatype FileResult = FileResult(
    found: nat,
    events: seq<Event>,
    counts: map<Category, nat>,
    samples: map<Category, seq<SourceId>>)

  /** The (0, [], {}, {}) returned for a source that could not be read. */
  const NOTHING: FileResult := FileResult(0, [], map[], map[])

  /** The count of c in a tuple, zero if c has no entry. */
  function CountOf(r: FileResult, c: Category): nat
  {
    if c in r.counts then r.counts[c] else 0
  }

  /** The samples of c in a tuple, none if c has no entry. */
  function SamplesOf(r: FileResult, c: Category): seq<SourceId>
  {
    if c in r.samples then r.samples[c] else []
  }

  /** A scan either returns its tuple or raises to its caller. */
  datatype FileOutcome = Returned(result: FileResult) | Raised

  /** What a scan returns, and the checkpoint it writes, if any. */
  datatype ScanEffect = ScanEffect(outcome: FileOutcome, written: Option<Checkpoint>)

  // ---------------------------------------------------------------------
  // The events of a run of lines and their tallies
  // ---------------------------------------------------------------------

  /** The event of one line: classified, with its text stripped. */
  function EventOf(reg: Registry, sid: SourceId, line: string): Option<Event>
  {
    match Classify(reg, line)
    case None => None
    case Some(m) => Some(Event(sid, m.category, m.pattern, Strip(line)))
  }

  /** The events of lines, in line order: one per classified line, none for
      a line no pattern matches. Each comes from this source and carries a
      registry category. */
  function EventsOf(reg: Registry, sid: SourceId, lines: seq<string>): (r: seq<Event>)
    ensures |r| <= |lines|
    ensures forall k :: 0 <= k < |r| ==> r[k].source == sid && r[k].category in Categories(reg.entries)
    decreases |lines|
  {
    if lines == [] then []
    else
      var prefix := EventsOf(reg, sid, lines[..|lines| - 1]);
      match EventOf(reg, sid, lines[|lines| - 1])
      case None => prefix
      case Some(e) =>
        ClassifiedInRegistry(reg, lines[|lines| - 1]);
        prefix + [e]
  }

  lemma ClassifiedInRegistry(reg: Registry, line: string)
    requires Classify(reg, line).Some?
    ensures Classify(reg, line).value.category in Categories(reg.entries)
  {
    var h := FirstHit(reg, line).value;
    assert Categories(reg.entries)[h.cat] == reg.entries[h.cat].category;
  }

  /** Events are produced line by line: the events of two runs of lines are
      the events of the first followed by those of the second. */
  lemma {:induction false} EventsOfAppend(reg: Registry, sid: SourceId, a: seq<string>, b: seq<string>)
    ensures EventsOf(reg, sid, a + b) == EventsOf(reg, sid, a) + EventsOf(reg, sid, b)
    decreases |b|
  {
    if b == [] {
      assert a + b == a;
    } else {
      var b', line := b[..|b| - 1], b[|b| - 1];
      assert b == b' + [line];
      assert a + b == (a + b') + [line];
      EventsOfAppend(reg, sid, a, b');
      EventsOfSnocLine(reg, sid, a + b', line);
      EventsOfSnocLine(reg, sid, b', line);
      AppendAssoc(EventsOf(reg, sid, a), EventsOf(reg, sid, b'), LineEvents(reg, sid, line));
    }
  }

  lemma AppendAssoc(x: seq<Event>, y: seq<Event>, z: seq<Event>)
    ensures (x + y) + z == x + (y + z)
  {
  }

  /** One more line adds its own events after those of the lines before it. */
  lemma EventsOfSnocLine(reg: Registry, sid: SourceId, lines: seq<string>, line: string)
    ensures EventsOf(reg, sid, lines + [line]) == EventsOf(reg, sid, lines) + LineEvents(reg, sid, line)
  {
    assert (lines + [line])[..|lines|] == lines;
  }

  /** The events of one line on its own: its event, if it has one. */
  function LineEvents(reg: Registry, sid: SourceId, line: string): seq<Event>
  {
    match EventOf(reg, sid, line)
    case None => []
    case Some(e) => [e]
  }

  /** A single line yields exactly its classification: one event carrying
      the first matching category and pattern, or nothing. */
  lemma EventsOfOneLine(reg: Registry, sid: SourceId, line: string)
    ensures Classify(reg, line).None? ==> EventsOf(reg, sid, [line]) == []
    ensures Classify(reg, line).Some? ==>
      EventsOf(reg, sid, [line]) == [Event(sid, Classify(reg, line).value.category,
                                           Classify(reg, line).value.pattern, Strip(line))]
  {
    assert [line][..0] == [];
  }

  /** The number of events of category c. */
  function CountIn(events: seq<Event>, c: Category): nat
  {
    if events == [] then 0
    else CountIn(events[..|events| - 1], c) + (if events[|events| - 1].category == c then 1 else 0)
  }

  /** The sources of the events of category c, in event order; one per such event. */
  function SourcesIn(events: seq<Event>, c: Category): (r: seq<SourceId>)
    ensures |r| == CountIn(events, c)
  {
    if events == [] then []
    else
      SourcesIn(events[..|events| - 1], c)
      + (if events[|events| - 1].category == c then [events[|events| - 1].source] else [])
  }

  /** Events that all come from one source have only that source as samples. */
  lemma {:induction false} SourcesFromOneSource(events: seq<Event>, c: Category, sid: SourceId)
    requires forall k :: 0 <= k < |events| ==> events[k].source == sid
    ensures forall k :: 0 <= k < |SourcesIn(events, c)| ==> SourcesIn(events, c)[k] == sid
    decreases |events|
  {
    if events != [] {
      SourcesFromOneSource(events[..|events| - 1], c, sid);
    }
  }

  lemma CountInSnoc(events: seq<Event>, e: Event, c: Category)
    ensures CountIn(events + [e], c) == CountIn(events, c) + (if e.category == c then 1 else 0)
    ensures SourcesIn(events + [e], c) == SourcesIn(events, c) + (if e.category == c then [e.source] else [])
  {
    assert (events + [e])[..|events|] == events;
  }

  /** category -> count, for every registry category (the source's counts dict). */
  function CountMap(cats: seq<Category>, events: seq<Event>): map<Category, nat>
  {
    map c | c in cats :: CountIn(events, c)
  }

  /** category -> the sources of its first MAX_SAMPLES events (the samples dict). */
  function SampleMap(cats: seq<Category>, events: seq<Event>): map<Category, seq<SourceId>>
  {
    map c | c in cats :: Take(SourcesIn(events, c), MAX_SAMPLES)
  }

  /** The tuple a successful scan of these events returns. */
  function Tally(cats: seq<Category>, events: seq<Event>): FileResult
  {
    FileResult(|events|, events, CountMap(cats, events), SampleMap(cats, events))
  }

  /** The sum of the counts of the categories cats; a missing key counts 0. */
  function SumCounts(cats: seq<Category>, counts: map<Category, nat>): nat
  {
    if cats == [] then 0
    else SumCounts(cats[..|cats| - 1], counts) + (if cats[|cats| - 1] in counts then counts[cats[|cats| - 1]] else 0)
  }

  /** The number of the events whose category is among cats, category by category. */
  function TotalCount(cats: seq<Category>, events: seq<Event>): nat
  {
    if cats == [] then 0
    else TotalCount(cats[..|cats| - 1], events) + CountIn(events, cats[|cats| - 1])
  }

  /** Number of positions of cats holding c. */
  function Occurrences(cats: seq<Category>, c: Category): nat
  {
    if cats == [] then 0
    else Occurrences(cats[..|cats| - 1], c) + (if cats[|cats| - 1] == c then 1 else 0)
  }

  predicate Distinct(cats: seq<Category>)
  {
    forall i, j :: 0 <= i < j < |cats| ==> cats[i] != cats[j]
  }

  lemma {:induction false} OccursOnce(cats: seq<Category>, c: Category)
    requires Distinct(cats)
    ensures Occurrences(cats, c) == (if c in cats then 1 else 0)
    decreases |cats|
  {
    if cats != [] {
      var init := cats[..|cats| - 1];
      assert Distinct(init);
      OccursOnce(init, c);
      assert c in cats <==> c in init || cats[|cats| - 1] == c;
      if cats[|cats| - 1] == c {
        assert c !in init;
      }
    }
  }

  lemma {:induction false} TotalCountSnoc(cats: seq<Category>, events: seq<Event>, e: Event)
    ensures TotalCount(cats, events + [e]) == TotalCount(cats, events) + Occurrences(cats, e.category)
    decreases |cats|
  {
    if cats != [] {
      TotalCountSnoc(cats[..|cats| - 1], events, e);
      CountInSnoc(events, e, cats[|cats| - 1]);
    }
  }

  /** A map holding each category's count sums like the counts themselves. */
  lemma {:induction false} SumIsTotal(cats: seq<Category>, counts: map<Category, nat>, events: seq<Event>)
    requires forall c :: c in cats ==> c in counts && counts[c] == CountIn(events, c)
    ensures SumCounts(cats, counts) == TotalCount(cats, events)
    decreases |cats|
  {
    if cats != [] {
      SumIsTotal(cats[..|cats| - 1], counts, events);
    }
  }

  /** With distinct category names, and every event of one of them, the
      per-category counts add up to the number of events. */
  lemma {:induction false} CountsSumToEvents(cats: seq<Category>, events: seq<Event>)
    requires Distinct(cats)
    requires forall k :: 0 <= k < |events| ==> events[k].category in cats
    ensures TotalCount(cats, events) == |events|
    decreases |events|
  {
    if events == [] {
      ZeroTotal(cats);
    } else {
      var init := events[..|events| - 1];
      var e := events[|events| - 1];
      assert init + [e] == events;
      CountsSumToEvents(cats, init);
      TotalCountSnoc(cats, init, e);
      OccursOnce(cats, e.category);
    }
  }

  lemma {:induction false} ZeroTotal(cats: seq<Category>)
    ensures TotalCount(cats, []) == 0
    decreases |cats|
  {
    if cats != [] {
      ZeroTotal(cats[..|cats| - 1]);
    }
  }

  lemma {:induction false} ZeroCountsSumToZero(cats: seq<Category>, counts: map<Category, nat>)
    requires forall c :: c in counts ==> counts[c] == 0
    ensures SumCounts(cats, counts) == 0
    decreases |cats|
  {
    if cats != [] {
      ZeroCountsSumToZero(cats[..|cats| - 1], counts);
    }
  }

  lemma CountMapSnoc(cats: seq<Category>, events: seq<Event>, e: Event)
    requires e.category in cats
    ensures CountMap(cats, events + [e]) == CountMap(cats, events)[e.category := CountIn(events, e.category) + 1]
  {
    var after := CountMap(cats, events + [e]);
    var before := CountMap(cats, events);
    var upd := before[e.category := CountIn(events, e.category) + 1];
    assert after.Keys == upd.Keys;
    forall k | k in after.Keys
      ensures after[k] == upd[k]
    {
      CountInSnoc(events, e, k);
    }
  }

  lemma SampleMapSnoc(cats: seq<Category>, events: seq<Event>, e: Event)
    requires e.category in cats
    ensures var before := SampleMap(cats, events);
      SampleMap(cats, events + [e])
      == if |before[e.category]| < MAX_SAMPLES then before[e.category := before[e.category] + [e.source]] else before
  {
    var after := SampleMap(cats, events + [e]);
    var before := SampleMap(cats, events);
    var upd := if |before[e.category]| < MAX_SAMPLES then before[e.category := before[e.category] + [e.source]] else before;
    assert after.Keys == upd.Keys;
    forall k | k in after.Keys
      ensures after[k] == upd[k]
    {
      CountInSnoc(events, e, k);
      if k == e.category {
        TakeSnoc(SourcesIn(events, k), e.source);
      }
    }
  }

  lemma TakeSnoc(s: seq<SourceId>, x: SourceId)
    ensures Take(s + [x], MAX_SAMPLES) ==
      if |Take(s, MAX_SAMPLES)| < MAX_SAMPLES then Take(s, MAX_SAMPLES) + [x] else Take(s, MAX_SAMPLES)
  {
  }

  // ---------------------------------------------------------------------
  // The tail-and-classify loop
  // ---------------------------------------------------------------------

  /** Every event has one of the categories keys. */
  predicate AllIn(keys: seq<Category>, events: seq<Event>)
  {
    forall k | 0 <= k < |events| :: events[k].category in keys
  }

  /** Every event has one of the counter categories. */
  predicate Counted(events: seq<Event>)
  {
    AllIn(COUNTER_KEYS, events)
  }

  /** The loop over the lines read: classify each, append its event, bump
      its category's counter and keep its source as a sample while fewer
      than MAX_SAMPLES are kept. Bumping the counter of a category that has
      none raises KeyError and ends the loop: `ok` is false. */
  method ScanLines(reg: Registry, sid: SourceId, lines: seq<string>)
    returns (ok: bool, events: seq<Event>, counts: map<Category, nat>, samples: map<Category, seq<SourceId>>)
    ensures ok <==> Counted(EventsOf(reg, sid, lines))
    ensures ok ==> events == EventsOf(reg, sid, lines)
    ensures ok ==> counts == CountMap(COUNTER_KEYS, events) && samples == SampleMap(COUNTER_KEYS, events)
  {
    events := [];
    counts := map c | c in COUNTER_KEYS :: 0;
    samples := map c | c in COUNTER_KEYS :: [];
    assert counts == CountMap(COUNTER_KEYS, []);
    assert samples == SampleMap(COUNTER_KEYS, []);
    for i := 0 to |lines|
      invariant events == EventsOf(reg, sid, lines[..i]) && Counted(events)
      invariant counts == CountMap(COUNTER_KEYS, events)
      invariant samples == SampleMap(COUNTER_KEYS, events)
    {
      var stepOk;
      stepOk, events, counts, samples := ScanLine(COUNTER_KEYS, reg, sid, lines, i, events, counts, samples);
      if !stepOk {
        return false, events, counts, samples;
      }
    }
    assert lines[..|lines|] == lines;
    ok := true;
  }

  /** One iteration of that loop, on line i, with counters for the categories keys. */
  method ScanLine(keys: seq<Category>, reg: Registry, sid: SourceId, lines: seq<string>, i: nat,
                  events: seq<Event>, counts: map<Category, nat>, samples: map<Category, seq<SourceId>>)
    returns (ok: bool, events': seq<Event>, counts': map<Category, nat>, samples': map<Category, seq<SourceId>>)
    requires i < |lines|
    requires events == EventsOf(reg, sid, lines[..i]) && AllIn(keys, events)
    requires counts == CountMap(keys, events) && samples == SampleMap(keys, events)
    ensures !ok ==> !AllIn(keys, EventsOf(reg, sid, lines))
    ensures ok ==> events' == EventsOf(reg, sid, lines[..i + 1]) && AllIn(keys, events')
    ensures ok ==> counts' == CountMap(keys, events') && samples' == SampleMap(keys, events')
  {
    EventsOfSnoc(reg, sid, lines, i);
    var m := ClassifyLine(reg, lines[i]);
    if m.None? {
      assert LineEvents(reg, sid, lines[i]) == [];
      return true, events, counts, samples;
    }
    var e := Event(sid, m.value.category, m.value.pattern, Strip(lines[i]));
    assert LineEvents(reg, sid, lines[i]) == [e];
    var c := e.category;
    if c !in counts {
      UncountedStaysUncounted(keys, reg, sid, lines, i, events, e);
      return false, events + [e], counts, samples;
    }
    TallySnoc(keys, events, counts, samples, e);
    AllInSnoc(keys, events, e);
    ok := true;
    events' := events + [e];
    counts' := counts[c := counts[c] + 1];
    samples' := if |samples[c]| < MAX_SAMPLES then samples[c := samples[c] + [sid]] else samples;
  }

  /** Tallying one more event of a counted category: its counter goes up
      by one and its source is kept while fewer than MAX_SAMPLES are. */
  lemma TallySnoc(keys: seq<Category>, events: seq<Event>, counts: map<Category, nat>,
                  samples: map<Category, seq<SourceId>>, e: Event)
    requires e.category in counts
    requires counts == CountMap(keys, events) && samples == SampleMap(keys, events)
    ensures e.category in keys
    ensures counts[e.category := counts[e.category] + 1] == CountMap(keys, events + [e])
    ensures (if |samples[e.category]| < MAX_SAMPLES then samples[e.category := samples[e.category] + [e.source]] else samples)
            == SampleMap(keys, events + [e])
  {
    CountMapSnoc(keys, events, e);
    SampleMapSnoc(keys, events, e);
  }

  lemma AllInSnoc(keys: seq<Category>, events: seq<Event>, e: Event)
    requires AllIn(keys, events) && e.category in keys
    ensures AllIn(keys, events + [e])
  {
  }

  /** An event on line i whose category has no counter stays among the
      events of all the lines, so they are not all counted. */
  lemma UncountedStaysUncounted(keys: seq<Category>, reg: Registry, sid: SourceId, lines: seq<string>, i: nat,
                                events: seq<Event>, e: Event)
    requires i < |lines|
    requires EventsOf(reg, sid, lines[..i + 1]) == events + [e]
    requires e.category !in CountMap(keys, events)
    ensures !AllIn(keys, EventsOf(reg, sid, lines))
  {
    var n := i + 1;
    assert lines == lines[..n] + lines[n..];
    EventsOfAppend(reg, sid, lines[..n], lines[n..]);
    assert EventsOf(reg, sid, lines)[|events|] == e;
  }

  lemma EventsOfSnoc(reg: Registry, sid: SourceId, lines: seq<string>, i: nat)
    requires i < |lines|
    ensures EventsOf(reg, sid, lines[..i + 1]) == EventsOf(reg, sid, lines[..i]) + LineEvents(reg, sid, lines[i])
  {
    assert lines[..i + 1] == lines[..i] + [lines[i]];
    EventsOfSnocLine(reg, sid, lines[..i], lines[i]);
  }

  // ---------------------------------------------------------------------
  // One scan, as a function of the stored checkpoint and the file
  // ---------------------------------------------------------------------

  /** The effect of scanning source sid (remote or local) whose stored
      checkpoint is `stored`. A line of a category without a counter fails
      the scan the way a read error does. */
  function ScanSpec(reg: Registry, sid: SourceId, stored: Checkpoint, view: SourceView, remote: bool): (e: ScanEffect)
    ensures e.outcome.Raised? ==> !remote && e.written.None?
  {
    match view
    case Missing => ScanEffect(Returned(NOTHING), None)
    case Unreadable => ScanEffect(if remote then Returned(NOTHING) else Raised, None)
    case Readable(mtime, content) =>
      var t := TailRead(stored, mtime, content);
      var events := EventsOf(reg, sid, t.lines);
      if Counted(events) then ScanEffect(Returned(Tally(COUNTER_KEYS, events)), Some(t.next))
      else ScanEffect(if remote then Returned(NOTHING) else Raised, None)
  }

  /** Unavailable or failing sources leave no trace: no checkpoint is
      written, and the scan raises or returns (0, [], {}, {}). */
  lemma FailedSourceLeavesNoTrace(reg: Registry, sid: SourceId, stored: Checkpoint, view: SourceView, remote: bool)
    requires !view.Readable?
    ensures ScanSpec(reg, sid, stored, view, remote).written == None
    ensures ScanSpec(reg, sid, stored, view, remote).outcome in {Raised, Returned(NOTHING)}
    ensures remote || view.Missing? ==> ScanSpec(reg, sid, stored, view, remote).outcome == Returned(NOTHING)
  {
  }

  /** A readable source gets its checkpoint advanced to end of file with
      the current mtime exactly when every line read is classified into a
      category that has a counter; otherwise the scan fails like a read
      error: the local scan raises, the remote scan returns (0, [], {}, {}),
      and neither writes a checkpoint. */
  lemma ReadableSourceAdvances(reg: Registry, sid: SourceId, stored: Checkpoint, mtime: int, content: string, remote: bool)
    ensures var e := ScanSpec(reg, sid, stored, Readable(mtime, content), remote);
            var events := EventsOf(reg, sid, TailRead(stored, mtime, content).lines);
      && (e.written.Some? <==> Counted(events))
      && (e.written.Some? ==> e.written.value == Checkpoint(|content|, mtime) && e.outcome.Returned?)
      && (e.written.None? ==> e.outcome == if remote then Returned(NOTHING) else Raised)
  {
  }

  /** With every configured category among the counter keys, a readable
      source is always read to its end. */
  lemma CountedRegistryNeverFails(reg: Registry, sid: SourceId, stored: Checkpoint, mtime: int, content: string, remote: bool)
    requires forall i :: 0 <= i < |reg.entries| ==> reg.entries[i].category in COUNTER_KEYS
    ensures ScanSpec(reg, sid, stored, Readable(mtime, content), remote).written == Some(Checkpoint(|content|, mtime))
  {
    var events := EventsOf(reg, sid, TailRead(stored, mtime, content).lines);
    forall k | 0 <= k < |events|
      ensures events[k].category in COUNTER_KEYS
    {
      RegistryCategoryCounted(reg, events[k].category);
    }
    assert Counted(events);
    ReadableSourceAdvances(reg, sid, stored, mtime, content, remote);
  }

  lemma RegistryCategoryCounted(reg: Registry, c: Category)
    requires forall i :: 0 <= i < |reg.entries| ==> reg.entries[i].category in COUNTER_KEYS
    requires c in Categories(reg.entries)
    ensures c in COUNTER_KEYS
  {
    var j :| 0 <= j < |Categories(reg.entries)| && Categories(reg.entries)[j] == c;
    assert Categories(reg.entries)[j] == reg.entries[j].category;
  }

  /** The idempotent no-op: when the file has not grown since the stored
      checkpoint and its mtime is the same, the scan finds nothing, counts
      zero everywhere, keeps no sample and writes back the same checkpoint. */
  lemma NoGrowthScanIsNoOp(reg: Registry, sid: SourceId, mtime: int, content: string, remote: bool)
    ensures var e := ScanSpec(reg, sid, Checkpoint(|content|, mtime), Readable(mtime, content), remote);
      && e.written == Some(Checkpoint(|content|, mtime))
      && e.outcome.Returned?
      && e.outcome.result.found == 0 && e.outcome.result.events == []
      && (forall c :: c in COUNTER_KEYS ==>
            c in e.outcome.result.counts && e.outcome.result.counts[c] == 0
            && c in e.outcome.result.samples && e.outcome.result.samples[c] == [])
  {
    NoGrowthReadsNothing(Checkpoint(|content|, mtime), mtime, content);
  }

  /** Rotation recovery: after the file shrank below the stored offset or
      its mtime went back, the scan classifies the whole current content. */
  lemma RotationRescansWholeFile(reg: Registry, sid: SourceId, stored: Checkpoint, mtime: int, content: string, remote: bool)
    requires |content| < stored.offset || mtime < stored.mtime
    ensures var events := EventsOf(reg, sid, SplitLines(content));
      Counted(events) ==>
        ScanSpec(reg, sid, stored, Readable(mtime, content), remote).outcome == Returned(Tally(COUNTER_KEYS, events))
  {
    assert content[0..] == content;
  }

  /** A category no event carries is counted zero times. */
  lemma {:induction false} CountInAbsent(events: seq<Event>, c: Category)
    requires forall k :: 0 <= k < |events| ==> events[k].category != c
    ensures CountIn(events, c) == 0
    decreases |events|
  {
    if events != [] {
      CountInAbsent(events[..|events| - 1], c);
    }
  }

  /** A per-file tuple agrees with its events, all from sid and all of a
      category among keys: found is their number, the counts count them
      and add up to found, and each category's samples are sid once for
      each of its first min(MAX_SAMPLES, count) events. */
  ghost predicate Agrees(keys: seq<Category>, sid: SourceId, r: FileResult)
  {
    && r.found == |r.events|
    && SumCounts(keys, r.counts) == r.found
    && (forall k :: 0 <= k < |r.events| ==> r.events[k].source == sid && r.events[k].category in keys)
    && forall c ::
         && CountOf(r, c) == CountIn(r.events, c)
         && SamplesOf(r, c) == Take(SourcesIn(r.events, c), MAX_SAMPLES)
         && forall k :: 0 <= k < |SamplesOf(r, c)| ==> SamplesOf(r, c)[k] == sid
  }

  /** The tally of events that all come from sid, each of a category among
      distinct keys, agrees with them. */
  lemma TallyConsistent(keys: seq<Category>, sid: SourceId, events: seq<Event>)
    requires Distinct(keys)
    requires forall k :: 0 <= k < |events| ==> events[k].category in keys
    requires forall k :: 0 <= k < |events| ==> events[k].source == sid
    ensures Agrees(keys, sid, Tally(keys, events))
  {
    var r := Tally(keys, events);
    SumIsTotal(keys, r.counts, events);
    CountsSumToEvents(keys, events);
    forall c
      ensures CountOf(r, c) == CountIn(events, c)
      ensures SamplesOf(r, c) == Take(SourcesIn(events, c), MAX_SAMPLES)
      ensures forall k :: 0 <= k < |SamplesOf(r, c)| ==> SamplesOf(r, c)[k] == sid
    {
      SourcesFromOneSource(events, c, sid);
      if c !in keys {
        CountInAbsent(events, c);
        assert SourcesIn(events, c) == [];
      }
    }
  }

  /** The empty tuple (0, [], {}, {}) agrees with its (no) events. */
  lemma NothingAgrees(keys: seq<Category>, sid: SourceId)
    ensures Agrees(keys, sid, NOTHING)
  {
    ZeroCountsSumToZero(keys, NOTHING.counts);
  }

  /** The per-file tallies agree with the events: the found count is the
      number of events, the category counts add up to it, and each
      category's samples are this file's source, once for each of its first
      min(MAX_SAMPLES, count) events. */
  lemma ScanCountsConsistent(reg: Registry, sid: SourceId, stored: Checkpoint, view: SourceView, remote: bool)
    requires ScanSpec(reg, sid, stored, view, remote).outcome.Returned?
    ensures var r := ScanSpec(reg, sid, stored, view, remote).outcome.result;
      && r.found == |r.events|
      && SumCounts(COUNTER_KEYS, r.counts) == r.found
      && (forall k :: 0 <= k < |r.events| ==> r.events[k].source == sid && r.events[k].category in COUNTER_KEYS)
      && forall c ::
           && CountOf(r, c) == CountIn(r.events, c)
           && SamplesOf(r, c) == Take(SourcesIn(r.events, c), MAX_SAMPLES)
           && forall k :: 0 <= k < |SamplesOf(r, c)| ==> SamplesOf(r, c)[k] == sid
  {
    var r := ScanSpec(reg, sid, stored, view, remote).outcome.result;
    if view.Readable? && Counted(EventsOf(reg, sid, TailRead(stored, view.mtime, view.content).lines)) {
      var events := EventsOf(reg, sid, TailRead(stored, view.mtime, view.content).lines);
      assert r == Tally(COUNTER_KEYS, events);
      assert Distinct(COUNTER_KEYS);
      TallyConsistent(COUNTER_KEYS, sid, events);
    } else {
      assert r == NOTHING;
      NothingAgrees(COUNTER_KEYS, sid);
    }
    assert Agrees(COUNTER_KEYS, sid, r);
  }

  // ---------------------------------------------------------------------
  // The two scan entry points, over the store
  // ---------------------------------------------------------------------

  /** The upsert_file_id and get_checkpoint calls both scans begin with:
      they give the source an id and read its checkpoint, and change no
      reported checkpoint and no event. */
  method OpenSource(store: Store, sid: SourceId) returns (id: nat, stored: Checkpoint)
    requires store.Valid()
    modifies store
    ensures store.Valid() && sid in store.files && store.files[sid] == id
    ensures stored == old(store.CheckpointFor(sid))
    ensures forall s :: store.CheckpointFor(s) == old(store.CheckpointFor(s))
    ensures store.events == old(store.events)
  {
    id := store.UpsertFileId(sid);
    stored := store.GetCheckpoint(id);
  }

  /** What both scans do once the file could be opened: tail from the
      resume offset, classify, store the events, advance the checkpoint.
      When the loop raises (`ok` false) nothing is stored. */
  method ReadAndRecord(store: Store, reg: Registry, sid: SourceId, id: nat, stored: Checkpoint, mtime: int, content: string)
    returns (ok: bool, r: FileResult)
    requires store.Valid() && sid in store.files && store.files[sid] == id
    modifies store
    ensures store.Valid()
    ensures var events := EventsOf(reg, sid, TailRead(stored, mtime, content).lines);
      && (ok <==> Counted(events))
      && (ok ==> r == Tally(COUNTER_KEYS, events))
    ensures store.events == old(store.events) + (if ok then r.events else [])
    ensures forall s :: store.CheckpointFor(s) ==
                        if s == sid && ok then Checkpoint(|content|, mtime) else old(store.CheckpointFor(s))
  {
    var start := ResumeOffset(stored, |content|, mtime);
    var lines := SplitLines(content[start..]);
    assert lines == TailRead(stored, mtime, content).lines;
    var events, counts, samples;
    ok, events, counts, samples := ScanLines(reg, sid, lines);
    if !ok {
      return false, NOTHING;
    }
    var endOffset := |content|;
    if events != [] {
      store.AppendEvents(events);
    }
    store.UpdateCheckpoint(id, endOffset, mtime);
    r := FileResult(|events|, events, counts, samples);
  }

  /** The effect of scanning a readable source, case by case. */
  lemma ReadableScan(reg: Registry, sid: SourceId, stored: Checkpoint, mtime: int, content: string, remote: bool)
    ensures var events := EventsOf(reg, sid, TailRead(stored, mtime, content).lines);
      ScanSpec(reg, sid, stored, Readable(mtime, content), remote) ==
        if Counted(events) then ScanEffect(Returned(Tally(COUNTER_KEYS, events)), Some(Checkpoint(|content|, mtime)))
        else ScanEffect(if remote then Returned(NOTHING) else Raised, None)
  {
  }

  /** scan_local_file: host "localhost"; a missing file returns
      (0, [], {}, {}), a failure to open or read it, or a KeyError in the
      loop, raises. */
  method ScanLocalFile(store: Store, reg: Registry, path: string, view: SourceView)
    returns (outcome: FileOutcome)
    requires store.Valid()
    modifies store
    ensures store.Valid()
    ensures var sid := SourceId(LOCAL_HOST, path);
            var e := ScanSpec(reg, sid, old(store.CheckpointFor(sid)), view, false);
      && outcome == e.outcome
      && (forall s :: store.CheckpointFor(s) ==
            if s == sid && e.written.Some? then e.written.value else old(store.CheckpointFor(s)))
      && store.events == old(store.events) + (if outcome.Returned? then outcome.result.events else [])
  {
    var sid := SourceId(LOCAL_HOST, path);
    var id, stored := OpenSource(store, sid);
    match view
    case Missing =>
      outcome := Returned(NOTHING);
    case Unreadable =>
      outcome := Raised;
    case Readable(mtime, content) =>
      ReadableScan(reg, sid, stored, mtime, content, false);
      var ok, r := ReadAndRecord(store, reg, sid, id, stored, mtime, content);
      outcome := if ok then Returned(r) else Raised;
  }

  /** scan_remote_file: host "host:port"; a failed stat, a failed read or a
      KeyError in the loop all return (0, [], {}, {}) without touching the
      checkpoint. */
  method ScanRemoteFile(store: Store, reg: Registry, hostLabel: string, path: string, view: SourceView)
    returns (outcome: FileOutcome)
    requires store.Valid()
    modifies store
    ensures store.Valid()
    ensures var sid := SourceId(hostLabel, path);
            var e := ScanSpec(reg, sid, old(store.CheckpointFor(sid)), view, true);
      && outcome == e.outcome
      && (forall s :: store.CheckpointFor(s) ==
            if s == sid && e.written.Some? then e.written.value else old(store.CheckpointFor(s)))
      && store.events == old(store.events) + (if outcome.Returned? then outcome.result.events else [])
  {
    var sid := SourceId(hostLabel, path);
    var id, stored := OpenSource(store, sid);
    match view
    case Missing =>
      outcome := Returned(NOTHING);
    case Unreadable =>
      outcome := Returned(NOTHING);
    case Readable(mtime, content) =>
      ReadableScan(reg, sid, stored, mtime, content, true);
      var ok, r := ReadAndRecord(store, reg, sid, id, stored, mtime, content);
      outcome := if ok then Returned(r) else Returned(NOTHING);
  }
}
