/** One scan cycle (scan_once): scan every configured local file, then every
    path on every remote host that could be reached, and fold each file's
    tuple into the cycle's counts and its bounded samples. A source that
    raises contributes nothing and leaves its checkpoint alone. */
module Cycle {
  import opened LogTypes
  import opened Classifier
  import opened CheckpointStore
  import opened FileScan
  import opened Alert

  /** Which kinds of source a cycle scans. */
  datatype Mode = LocalOnly | RemoteOnly | Mixed

  /** A path to scan and what the scan will find there. */
  datatype FileEntry = FileEntry(path: string, view: SourceView)

  /** A remote host: its "host:port" label, whether the SSH session could be
      set up this cycle, and the paths configured for it. */
  datatype RemoteHost = RemoteHost(name: string, connected: bool, paths: seq<FileEntry>)

  /** One scan the cycle performs. */
  datatype Target = Target(sid: SourceId, view: SourceView, remote: bool)

  /** The local scans: one per file, in order, on host "localhost". */
  function LocalTargets(files: seq<FileEntry>): (ts: seq<Target>)
    ensures |ts| == |files|
  {
    if files == [] then []
    else LocalTargets(files[..|files| - 1])
         + [Target(SourceId(LOCAL_HOST, files[|files| - 1].path), files[|files| - 1].view, false)]
  }

  /** The remote scans of one host: one per path, in order. */
  function HostTargets(name: string, paths: seq<FileEntry>): (ts: seq<Target>)
    ensures |ts| == |paths|
  {
    if paths == [] then []
    else HostTargets(name, paths[..|paths| - 1])
         + [Target(SourceId(name, paths[|paths| - 1].path), paths[|paths| - 1].view, true)]
  }

  /** The number of configured paths over the hosts whose connection succeeded. */
  function ConnectedPaths(hosts: seq<RemoteHost>): nat
  {
    if hosts == [] then 0
    else
      var h := hosts[|hosts| - 1];
      ConnectedPaths(hosts[..|hosts| - 1]) + (if h.connected then |h.paths| else 0)
  }

  /** The remote scans: a host whose connection failed is skipped whole. */
  function RemoteTargets(hosts: seq<RemoteHost>): (ts: seq<Target>)
    ensures |ts| == ConnectedPaths(hosts)
  {
    if hosts == [] then []
    else
      var h := hosts[|hosts| - 1];
      RemoteTargets(hosts[..|hosts| - 1]) + (if h.connected then HostTargets(h.name, h.paths) else [])
  }

  /** Each local target is the scan of the file at its position. */
  lemma {:induction false} LocalTargetsInOrder(files: seq<FileEntry>)
    ensures forall k :: 0 <= k < |files| ==>
      LocalTargets(files)[k] == Target(SourceId(LOCAL_HOST, files[k].path), files[k].view, false)
    decreases |files|
  {
    if files != [] {
      var init := files[..|files| - 1];
      LocalTargetsInOrder(init);
      assert forall k :: 0 <= k < |init| ==> init[k] == files[k];
    }
  }

  /** Each target of a host is the remote scan of the path at its position. */
  lemma {:induction false} HostTargetsInOrder(name: string, paths: seq<FileEntry>)
    ensures forall k :: 0 <= k < |paths| ==>
      HostTargets(name, paths)[k] == Target(SourceId(name, paths[k].path), paths[k].view, true)
    decreases |paths|
  {
    if paths != [] {
      var init := paths[..|paths| - 1];
      HostTargetsInOrder(name, init);
      assert forall k :: 0 <= k < |init| ==> init[k] == paths[k];
    }
  }

  /** Every remote target is a remote scan on a host whose connection
      succeeded: the paths of a host that could not be reached are skipped. */
  lemma {:induction false} RemoteTargetsSkipUnconnected(hosts: seq<RemoteHost>)
    ensures forall k :: 0 <= k < |RemoteTargets(hosts)| ==>
      && RemoteTargets(hosts)[k].remote
      && exists h :: 0 <= h < |hosts| && hosts[h].connected && RemoteTargets(hosts)[k].sid.host == hosts[h].name
    decreases |hosts|
  {
    if hosts != [] {
      var init := hosts[..|hosts| - 1];
      var last := hosts[|hosts| - 1];
      RemoteTargetsSkipUnconnected(init);
      var prev := RemoteTargets(init);
      var ts := RemoteTargets(hosts);
      assert ts == prev + (if last.connected then HostTargets(last.name, last.paths) else []);
      forall k | 0 <= k < |ts|
        ensures ts[k].remote && exists h :: 0 <= h < |hosts| && hosts[h].connected && ts[k].sid.host == hosts[h].name
      {
        if k < |prev| {
          assert ts[k] == prev[k];
          assert prev[k].remote;
          var h :| 0 <= h < |init| && init[h].connected && prev[k].sid.host == init[h].name;
          assert hosts[h] == init[h];
        } else {
          HostTargetsInOrder(last.name, last.paths);
          assert ts[k] == HostTargets(last.name, last.paths)[k - |prev|];
          assert hosts[|hosts| - 1].connected && ts[k].sid.host == hosts[|hosts| - 1].name;
        }
      }
    }
  }

  /** The remote targets of two runs of hosts are those of the first
      followed by those of the second. */
  lemma {:induction false} RemoteTargetsAppend(a: seq<RemoteHost>, b: seq<RemoteHost>)
    ensures RemoteTargets(a + b) == RemoteTargets(a) + RemoteTargets(b)
    decreases |b|
  {
    if b == [] {
      assert a + b == a;
    } else {
      var b', last := b[..|b| - 1], b[|b| - 1];
      assert (a + b)[..|a + b| - 1] == a + b';
      assert (a + b)[|a + b| - 1] == last;
      RemoteTargetsAppend(a, b');
      var more := if last.connected then HostTargets(last.name, last.paths) else [];
      assert RemoteTargets(a + b) == RemoteTargets(a + b') + more;
      assert RemoteTargets(b) == RemoteTargets(b') + more;
    }
  }

  /** A host whose session could not be set up contributes no scan, wherever
      it stands in the list: removing it leaves the remote targets as they are. */
  lemma UnconnectedHostAddsNothing(hosts: seq<RemoteHost>, i: nat)
    requires i < |hosts| && !hosts[i].connected
    ensures RemoteTargets(hosts[..i] + hosts[i + 1..]) == RemoteTargets(hosts)
  {
    var pre, h, post := hosts[..i], hosts[i], hosts[i + 1..];
    assert hosts == (pre + [h]) + post;
    RemoteTargetsAppend(pre + [h], post);
    RemoteTargetsAppend(pre, [h]);
    RemoteTargetsAppend(pre, post);
    UnconnectedAlone(h);
    assert RemoteTargets(pre) + [] == RemoteTargets(pre);
  }

  lemma UnconnectedAlone(h: RemoteHost)
    requires !h.connected
    ensures RemoteTargets([h]) == []
  {
    assert [h][..0] == [];
  }

  predicate ScansLocal(mode: Mode) { mode == LocalOnly || mode == Mixed }
  predicate ScansRemote(mode: Mode) { mode == RemoteOnly || mode == Mixed }

  /** Every scan of a cycle, in the order the source performs them: the
      local files first when the mode includes them, then the remote paths
      when the mode includes those. */
  function Targets(mode: Mode, files: seq<FileEntry>, hosts: seq<RemoteHost>): (ts: seq<Target>)
    ensures var n := if ScansLocal(mode) then |files| else 0;
      && |ts| == n + (if ScansRemote(mode) then ConnectedPaths(hosts) else 0)
      && (forall k :: 0 <= k < n ==> !ts[k].remote)
      && (forall k :: n <= k < |ts| ==> ts[k].remote)
  {
    LocalTargetsInOrder(files);
    RemoteTargetsSkipUnconnected(hosts);
    (if ScansLocal(mode) then LocalTargets(files) else [])
    + (if ScansRemote(mode) then RemoteTargets(hosts) else [])
  }

  /** The cycle's running totals: total_found, aggregate_counts, sample_events. */
  datatype Summary = Summary(total: nat, counts: map<Category, nat>, samples: map<Category, seq<SourceId>>)

  function InitialSummary(cats: seq<Category>): (s: Summary)
    ensures s.total == 0 && KeyedBy(s, cats)
    ensures forall k :: k in s.counts ==> s.counts[k] == 0 && s.samples[k] == []
  {
    Summary(0, map k | k in cats :: 0, map k | k in cats :: [])
  }

  /** The inner sample loop: append offered samples while fewer than
      MAX_SAMPLES are kept. */
  function TopUp(kept: seq<SourceId>, offered: seq<SourceId>): (r: seq<SourceId>)
    ensures kept <= r
    ensures |kept| <= MAX_SAMPLES ==> |r| <= MAX_SAMPLES
    ensures |r| <= |kept| + |offered|
  {
    if |kept| >= MAX_SAMPLES then kept else kept + Take(offered, MAX_SAMPLES - |kept|)
  }

  /** Topping up keeps exactly the first MAX_SAMPLES of everything offered. */
  lemma TopUpIsTake(kept: seq<SourceId>, offered: seq<SourceId>)
    requires |kept| <= MAX_SAMPLES
    ensures TopUp(kept, offered) == Take(kept + offered, MAX_SAMPLES)
  {
    var a := kept + offered;
    if |kept| + |offered| > MAX_SAMPLES {
      assert a[..MAX_SAMPLES] == kept + offered[..MAX_SAMPLES - |kept|];
    }
  }

  /** Topping up from a capped sample list is topping up from the whole list. */
  lemma TopUpOfTake(kept: seq<SourceId>, offered: seq<SourceId>)
    ensures TopUp(Take(kept, MAX_SAMPLES), Take(offered, MAX_SAMPLES)) == Take(kept + offered, MAX_SAMPLES)
  {
    var k := Take(kept, MAX_SAMPLES);
    TopUpIsTake(k, Take(offered, MAX_SAMPLES));
    if |kept| >= MAX_SAMPLES {
      assert (kept + offered)[..MAX_SAMPLES] == kept[..MAX_SAMPLES];
    } else {
      assert k == kept;
      if |kept| + |offered| > MAX_SAMPLES {
        assert (kept + Take(offered, MAX_SAMPLES))[..MAX_SAMPLES] == (kept + offered)[..MAX_SAMPLES];
      }
    }
  }

  lemma TopUpSnoc(kept: seq<SourceId>, offered: seq<SourceId>, j: nat)
    requires j < |offered|
    ensures TopUp(kept, offered[..j + 1]) ==
      if |TopUp(kept, offered[..j])| < MAX_SAMPLES then TopUp(kept, offered[..j]) + [offered[j]] else TopUp(kept, offered[..j])
  {
    if |kept| < MAX_SAMPLES {
      var n := MAX_SAMPLES - |kept|;
      if j < n {
        assert Take(offered[..j + 1], n) == Take(offered[..j], n) + [offered[j]];
      } else {
        assert Take(offered[..j + 1], n) == Take(offered[..j], n);
      }
    }
  }

  /** The summary after one file's tuple is folded in: the total and every
      counter grow by the file's numbers (counts.get(k, 0)), and every
      category's samples are topped up from the file's. */
  function Absorbed(acc: Summary, r: FileResult): (next: Summary)
    ensures next.total == acc.total + r.found
    ensures next.counts.Keys == acc.counts.Keys && next.samples.Keys == acc.samples.Keys
  {
    Summary(acc.total + r.found,
            map k | k in acc.counts :: acc.counts[k] + CountOf(r, k),
            map k | k in acc.samples :: TopUp(acc.samples[k], SamplesOf(r, k)))
  }

  /** The cross-file samples only grow by appending and never exceed
      MAX_SAMPLES; the counters never decrease. */
  lemma AbsorbedOnlyGrows(acc: Summary, r: FileResult)
    requires forall k :: k in acc.samples ==> |acc.samples[k]| <= MAX_SAMPLES
    ensures var next := Absorbed(acc, r);
      && next.counts.Keys == acc.counts.Keys && next.samples.Keys == acc.samples.Keys
      && (forall k :: k in acc.counts ==> acc.counts[k] <= next.counts[k])
      && (forall k :: k in acc.samples ==> acc.samples[k] <= next.samples[k] && |next.samples[k]| <= MAX_SAMPLES)
  {
  }

  /** A source that returned (0, [], {}, {}) changes neither counts nor samples. */
  lemma NothingAbsorbsNothing(acc: Summary)
    ensures Absorbed(acc, NOTHING) == acc
  {
    var next := Absorbed(acc, NOTHING);
    assert next.counts == acc.counts;
    forall k | k in acc.samples
      ensures next.samples[k] == acc.samples[k]
    {
      assert SamplesOf(NOTHING, k) == [];
    }
    assert next.samples == acc.samples;
  }

  /** Summary keys are exactly the categories. */
  ghost predicate KeyedBy(acc: Summary, cats: seq<Category>)
  {
    && acc.counts.Keys == acc.samples.Keys
    && (forall k :: k in acc.counts <==> k in cats)
  }

  /** The inner sample loop of scan_once, over one category. */
  method TopUpLoop(kept: seq<SourceId>, offered: seq<SourceId>) returns (r: seq<SourceId>)
    ensures r == TopUp(kept, offered)
  {
    r := kept;
    for j := 0 to |offered|
      invariant r == TopUp(kept, offered[..j])
    {
      TopUpSnoc(kept, offered, j);
      if |r| < MAX_SAMPLES {
        r := r + [offered[j]];
      }
    }
    assert offered[..|offered|] == offered;
  }

  /** counts and samples are acc's with the categories in `done` merged
      and the rest not yet. */
  ghost predicate MergedOn(acc: Summary, r: FileResult, done: set<Category>,
                           counts: map<Category, nat>, samples: map<Category, seq<SourceId>>)
  {
    && counts.Keys == acc.counts.Keys
    && samples.Keys == acc.samples.Keys
    && (forall k :: k in counts ==>
          counts[k] == if k in done then acc.counts[k] + CountOf(r, k) else acc.counts[k])
    && (forall k :: k in samples ==>
          samples[k] == if k in done then TopUp(acc.samples[k], SamplesOf(r, k)) else acc.samples[k])
  }

  lemma MergedOnStep(acc: Summary, r: FileResult, done: set<Category>,
                     counts: map<Category, nat>, samples: map<Category, seq<SourceId>>, k: Category)
    requires MergedOn(acc, r, done, counts, samples) && k in counts && k in samples && k !in done
    ensures MergedOn(acc, r, done + {k}, counts[k := counts[k] + CountOf(r, k)],
                     samples[k := TopUp(samples[k], SamplesOf(r, k))])
  {
  }

  lemma MergedAll(acc: Summary, r: FileResult, done: set<Category>,
                  counts: map<Category, nat>, samples: map<Category, seq<SourceId>>)
    requires MergedOn(acc, r, done, counts, samples)
    requires acc.counts.Keys <= done && acc.samples.Keys <= done
    ensures Summary(acc.total + r.found, counts, samples) == Absorbed(acc, r)
  {
    var want := Absorbed(acc, r);
    assert counts.Keys == want.counts.Keys;
    assert samples.Keys == want.samples.Keys;
    assert counts == want.counts;
    assert samples == want.samples;
  }

  /** The merge loop of scan_once for one file's tuple, over the keys of
      the cycle's counters (the same keys as its samples). */
  method Absorb(acc: Summary, r: FileResult) returns (next: Summary)
    requires acc.counts.Keys == acc.samples.Keys
    ensures next == Absorbed(acc, r)
  {
    var counts: map<Category, nat> := acc.counts;
    var samples: map<Category, seq<SourceId>> := acc.samples;
    var remaining := acc.counts.Keys;
    ghost var done: set<Category> := {};
    while remaining != {}
      invariant remaining <= acc.counts.Keys
      invariant done == acc.counts.Keys - remaining
      invariant MergedOn(acc, r, done, counts, samples)
      decreases |remaining|
    {
      var k :| k in remaining;
      assert k in counts && k in samples && k !in done;
      MergedOnStep(acc, r, done, counts, samples, k);
      counts := counts[k := counts[k] + CountOf(r, k)];
      var kept := TopUpLoop(samples[k], SamplesOf(r, k));
      samples := samples[k := kept];
      done := done + {k};
      remaining := remaining - {k};
    }
    MergedAll(acc, r, done, counts, samples);
    next := Summary(acc.total + r.found, counts, samples);
  }

  // ---------------------------------------------------------------------
  // The cycle as a function of the checkpoints it starts from
  // ---------------------------------------------------------------------

  /** Checkpoints as the store would report them, the summary so far, and
      the events stored so far in this cycle. */
  datatype CycleState = CycleState(checkpoints: map<SourceId, Checkpoint>, summary: Summary, stored: seq<Event>)

  function InitialState(checkpoints: map<SourceId, Checkpoint>, cats: seq<Category>): CycleState
  {
    CycleState(checkpoints, InitialSummary(cats), [])
  }

  /** The effect of one scan on the cycle: a raised error skips the source;
      a returned tuple is merged and its events are stored, and the
      checkpoint it wrote (if any) replaces the old one. */
  function Apply(st: CycleState, sid: SourceId, e: ScanEffect): CycleState
  {
    match e.outcome
    case Raised => st
    case Returned(r) =>
      CycleState(if e.written.Some? then st.checkpoints[sid := e.written.value] else st.checkpoints,
                 Absorbed(st.summary, r),
                 st.stored + r.events)
  }

  /** One scan inside the try block of scan_once. */
  function Advance(reg: Registry, st: CycleState, t: Target): CycleState
  {
    Apply(st, t.sid, ScanSpec(reg, t.sid, Lookup(st.checkpoints, t.sid), t.view, t.remote))
  }

  /** The scans of a cycle, one after the other: each target's scan starts
      from the checkpoints and the summary the scans before it left. Events
      are only ever appended. */
  function RunCycle(reg: Registry, start: CycleState, targets: seq<Target>): (st: CycleState)
    ensures start.stored <= st.stored
  {
    if targets == [] then start
    else Advance(reg, RunCycle(reg, start, targets[..|targets| - 1]), targets[|targets| - 1])
  }

  /** A source that cannot be read leaves the cycle as it was: no
      checkpoint, count, sample or stored event changes. */
  lemma FailedSourceChangesNothing(reg: Registry, st: CycleState, t: Target)
    requires !t.view.Readable?
    ensures Advance(reg, st, t) == st
  {
    FailedSourceLeavesNoTrace(reg, t.sid, Lookup(st.checkpoints, t.sid), t.view, t.remote);
    NothingAbsorbsNothing(st.summary);
  }

  /** The summary agrees with the events stored in the cycle: each counter
      counts them, each category's samples are the sources of its first
      MAX_SAMPLES stored events, and the total is their number. */
  ghost predicate Accounts(st: CycleState, keys: seq<Category>)
  {
    && KeyedBy(st.summary, keys)
    && st.summary.total == |st.stored|
    && forall c :: c in keys ==>
         && st.summary.counts[c] == CountIn(st.stored, c)
         && st.summary.samples[c] == Take(SourcesIn(st.stored, c), MAX_SAMPLES)
  }

  lemma {:induction false} CountInAppend(a: seq<Event>, b: seq<Event>, c: Category)
    ensures CountIn(a + b, c) == CountIn(a, c) + CountIn(b, c)
    ensures SourcesIn(a + b, c) == SourcesIn(a, c) + SourcesIn(b, c)
    decreases |b|
  {
    if b == [] {
      assert a + b == a;
    } else {
      var b' := b[..|b| - 1];
      assert a + b == (a + b') + [b[|b| - 1]];
      CountInAppend(a, b', c);
      CountInSnoc(a + b', b[|b| - 1], c);
      CountInSnoc(b', b[|b| - 1], c);
      assert b' + [b[|b| - 1]] == b;
    }
  }

  /** Merging a tuple whose counts and samples agree with its events keeps
      the summary in agreement with the stored events. */
  lemma ApplyAccounts(st: CycleState, keys: seq<Category>, sid: SourceId, e: ScanEffect)
    requires Accounts(st, keys)
    requires e.outcome.Returned? ==>
      var r := e.outcome.result;
      && r.found == |r.events|
      && forall c ::
           && CountOf(r, c) == CountIn(r.events, c)
           && SamplesOf(r, c) == Take(SourcesIn(r.events, c), MAX_SAMPLES)
    ensures Accounts(Apply(st, sid, e), keys)
  {
    if e.outcome.Returned? {
      var r := e.outcome.result;
      var next := Apply(st, sid, e);
      assert next.stored == st.stored + r.events;
      assert next.summary == Absorbed(st.summary, r);
      forall c | c in keys
        ensures next.summary.counts[c] == CountIn(next.stored, c)
        ensures next.summary.samples[c] == Take(SourcesIn(next.stored, c), MAX_SAMPLES)
      {
        CountInAppend(st.stored, r.events, c);
        TopUpOfTake(SourcesIn(st.stored, c), SourcesIn(r.events, c));
      }
      assert KeyedBy(next.summary, keys);
    }
  }

  lemma AdvanceAccounts(reg: Registry, keys: seq<Category>, st: CycleState, t: Target)
    requires Accounts(st, keys)
    ensures Accounts(Advance(reg, st, t), keys)
  {
    var e := ScanSpec(reg, t.sid, Lookup(st.checkpoints, t.sid), t.view, t.remote);
    if e.outcome.Returned? {
      ScanCountsConsistent(reg, t.sid, Lookup(st.checkpoints, t.sid), t.view, t.remote);
    }
    ApplyAccounts(st, keys, t.sid, e);
  }

  lemma {:induction false} RunCycleAccounts(reg: Registry, keys: seq<Category>, start: CycleState, targets: seq<Target>)
    requires Accounts(start, keys)
    ensures Accounts(RunCycle(reg, start, targets), keys)
    decreases |targets|
  {
    if targets != [] {
      RunCycleAccounts(reg, keys, start, targets[..|targets| - 1]);
      AdvanceAccounts(reg, keys, RunCycle(reg, start, targets[..|targets| - 1]), targets[|targets| - 1]);
    }
  }

  /** Every stored event carries one of the categories. */
  ghost predicate StoredIn(st: CycleState, cats: seq<Category>)
  {
    forall k :: 0 <= k < |st.stored| ==> st.stored[k].category in cats
  }

  lemma ApplyStoredIn(st: CycleState, cats: seq<Category>, sid: SourceId, e: ScanEffect)
    requires StoredIn(st, cats)
    requires e.outcome.Returned? ==>
      forall k :: 0 <= k < |e.outcome.result.events| ==> e.outcome.result.events[k].category in cats
    ensures StoredIn(Apply(st, sid, e), cats)
  {
    if e.outcome.Returned? {
      var r := e.outcome.result;
      var next := Apply(st, sid, e);
      assert next.stored == st.stored + r.events;
      forall k | 0 <= k < |next.stored|
        ensures next.stored[k].category in cats
      {
        if k >= |st.stored| {
          assert next.stored[k] == r.events[k - |st.stored|];
        }
      }
    }
  }

  lemma AdvanceStoredIn(reg: Registry, st: CycleState, t: Target)
    requires StoredIn(st, COUNTER_KEYS)
    ensures StoredIn(Advance(reg, st, t), COUNTER_KEYS)
  {
    var e := ScanSpec(reg, t.sid, Lookup(st.checkpoints, t.sid), t.view, t.remote);
    if e.outcome.Returned? {
      ScanCountsConsistent(reg, t.sid, Lookup(st.checkpoints, t.sid), t.view, t.remote);
    }
    ApplyStoredIn(st, COUNTER_KEYS, t.sid, e);
  }

  /** Every event a cycle stores carries one of the counter categories. */
  lemma {:induction false} StoredCategorized(reg: Registry, start: CycleState, targets: seq<Target>)
    requires StoredIn(start, COUNTER_KEYS)
    ensures StoredIn(RunCycle(reg, start, targets), COUNTER_KEYS)
    decreases |targets|
  {
    if targets != [] {
      StoredCategorized(reg, start, targets[..|targets| - 1]);
      AdvanceStoredIn(reg, RunCycle(reg, start, targets[..|targets| - 1]), targets[|targets| - 1]);
    }
  }

  lemma InitialAccounts(checkpoints: map<SourceId, Checkpoint>, keys: seq<Category>)
    ensures Accounts(InitialState(checkpoints, keys), keys)
  {
    var st := InitialState(checkpoints, keys);
    assert st.summary.counts.Keys == st.summary.samples.Keys;
  }

  /** Cycle aggregation: from any starting checkpoints, the cycle's total is
      the number of events it stored, every stored event has a counter
      category, each counter is the number of stored events of its
      category, the counters add up to the total, and each category's
      samples are the (host, path) of its first MAX_SAMPLES stored events,
      across all files, in scan order. */
  lemma CycleAccounts(reg: Registry, checkpoints: map<SourceId, Checkpoint>, targets: seq<Target>)
    ensures var st := RunCycle(reg, InitialState(checkpoints, COUNTER_KEYS), targets);
      && Accounts(st, COUNTER_KEYS)
      && StoredIn(st, COUNTER_KEYS)
      && SumCounts(COUNTER_KEYS, st.summary.counts) == st.summary.total
  {
    var keys := COUNTER_KEYS;
    var start := InitialState(checkpoints, keys);
    InitialAccounts(checkpoints, keys);
    RunCycleAccounts(reg, keys, start, targets);
    StoredCategorized(reg, start, targets);
    var st := RunCycle(reg, start, targets);
    assert Distinct(keys);
    SumIsTotal(keys, st.summary.counts, st.stored);
    CountsSumToEvents(keys, st.stored);
  }

  /** The alert of a cycle, in terms of the events the cycle stored: each
      line's count is the number of stored events of its category and has
      reached the threshold, its examples are the sources of the first
      MAX_SAMPLES of them, and there is no line exactly when no counter
      category reached its threshold. */
  lemma CycleAlert(reg: Registry, checkpoints: map<SourceId, Checkpoint>, targets: seq<Target>,
                   thresholds: map<Category, int>)
    ensures var st := RunCycle(reg, InitialState(checkpoints, COUNTER_KEYS), targets);
      forall c :: c in COUNTER_KEYS ==> c in st.summary.counts
    ensures var st := RunCycle(reg, InitialState(checkpoints, COUNTER_KEYS), targets);
            var lines := AlertLines(COUNTER_KEYS, st.summary.counts, st.summary.samples, thresholds);
      && (forall j :: 0 <= j < |lines| ==>
            && lines[j].category in COUNTER_KEYS
            && lines[j].count == CountIn(st.stored, lines[j].category)
            && lines[j].threshold == ThresholdFor(thresholds, lines[j].category)
            && lines[j].count >= lines[j].threshold
            && lines[j].examples == Take(SourcesIn(st.stored, lines[j].category), MAX_SAMPLES))
      && (lines == [] <==>
            forall i :: 0 <= i < |COUNTER_KEYS| ==>
              CountIn(st.stored, COUNTER_KEYS[i]) < ThresholdFor(thresholds, COUNTER_KEYS[i]))
  {
    var st := RunCycle(reg, InitialState(checkpoints, COUNTER_KEYS), targets);
    CycleAccounts(reg, checkpoints, targets);
    AlertOfAccounts(st, thresholds);
  }

  /** The alert on a summary that accounts for the stored events. */
  lemma AlertOfAccounts(st: CycleState, thresholds: map<Category, int>)
    requires Accounts(st, COUNTER_KEYS)
    ensures forall c :: c in COUNTER_KEYS ==> c in st.summary.counts
    ensures var lines := AlertLines(COUNTER_KEYS, st.summary.counts, st.summary.samples, thresholds);
      && (forall j :: 0 <= j < |lines| ==>
            && lines[j].category in COUNTER_KEYS
            && lines[j].count == CountIn(st.stored, lines[j].category)
            && lines[j].threshold == ThresholdFor(thresholds, lines[j].category)
            && lines[j].count >= lines[j].threshold
            && lines[j].examples == Take(SourcesIn(st.stored, lines[j].category), MAX_SAMPLES))
      && (lines == [] <==>
            forall i :: 0 <= i < |COUNTER_KEYS| ==>
              CountIn(st.stored, COUNTER_KEYS[i]) < ThresholdFor(thresholds, COUNTER_KEYS[i]))
  {
    var counts := st.summary.counts;
    var samples := st.summary.samples;
    AlertLinesExactly(COUNTER_KEYS, counts, samples, thresholds);
    NoAlertWhenNothingExceeds(COUNTER_KEYS, counts, samples, thresholds);
    var lines := AlertLines(COUNTER_KEYS, counts, samples, thresholds);
    forall j | 0 <= j < |lines|
      ensures lines[j].count == CountIn(st.stored, lines[j].category)
      ensures lines[j].examples == Take(SourcesIn(st.stored, lines[j].category), MAX_SAMPLES)
    {
      var c := lines[j].category;
      assert Reports(lines[j], counts, samples, thresholds);
      TakeTake(SourcesIn(st.stored, c));
    }
    forall i | 0 <= i < |COUNTER_KEYS|
      ensures counts[COUNTER_KEYS[i]] == CountIn(st.stored, COUNTER_KEYS[i])
    {
    }
  }

  lemma TakeTake(s: seq<SourceId>)
    ensures Take(Take(s, MAX_SAMPLES), MAX_SAMPLES) == Take(s, MAX_SAMPLES)
  {
  }

  // ---------------------------------------------------------------------
  // scan_once over the store
  // ---------------------------------------------------------------------

  /** The store and the running summary are where the cycle spec says. */
  ghost predicate Tracks(store: Store, base: seq<Event>, st: CycleState, summary: Summary)
    reads store
  {
    && store.Valid()
    && (forall s :: store.CheckpointFor(s) == Lookup(st.checkpoints, s))
    && store.events == base + st.stored
    && summary == st.summary
  }

  /** scan_once: scan the configured sources in order, then evaluate the
      alert on the cycle's counters and samples. */
  method ScanOnce(store: Store, reg: Registry, mode: Mode, files: seq<FileEntry>, hosts: seq<RemoteHost>,
                  thresholds: map<Category, int>)
    returns (summary: Summary, fire: bool, lines: seq<AlertLine>)
    requires store.Valid()
    modifies store
    ensures store.Valid()
    ensures var st := RunCycle(reg, InitialState(old(store.Snapshot()), COUNTER_KEYS), Targets(mode, files, hosts));
      && summary == st.summary
      && store.events == old(store.events) + st.stored
      && (forall s :: store.CheckpointFor(s) == Lookup(st.checkpoints, s))
      && (forall c :: c in COUNTER_KEYS ==> c in summary.counts && c in summary.samples)
      && lines == AlertLines(COUNTER_KEYS, summary.counts, summary.samples, thresholds)
      && (fire <==> lines != [])
    ensures var st := RunCycle(reg, InitialState(old(store.Snapshot()), COUNTER_KEYS), Targets(mode, files, hosts));
      && summary.total == |st.stored|
      && SumCounts(COUNTER_KEYS, summary.counts) == summary.total
      && forall c :: c in COUNTER_KEYS ==>
           && summary.counts[c] == CountIn(st.stored, c)
           && summary.samples[c] == Take(SourcesIn(st.stored, c), MAX_SAMPLES)
  {
    ghost var snap := store.Snapshot();
    summary := ScanSources(store, reg, mode, files, hosts);
    CycleAccounts(reg, snap, Targets(mode, files, hosts));
    fire, lines := AlertIfNeeded(COUNTER_KEYS, summary.counts, summary.samples, thresholds);
  }

  /** The two scan loops of scan_once, local files first, then the paths of
      each remote host. */
  method ScanSources(store: Store, reg: Registry, mode: Mode, files: seq<FileEntry>, hosts: seq<RemoteHost>)
    returns (summary: Summary)
    requires store.Valid()
    modifies store
    ensures Tracks(store, old(store.events),
                   RunCycle(reg, InitialState(old(store.Snapshot()), COUNTER_KEYS), Targets(mode, files, hosts)), summary)
  {
    var keys := COUNTER_KEYS;
    ghost var base := store.events;
    ghost var start := InitialState(store.Snapshot(), keys);
    summary := InitialSummary(keys);
    ghost var done: seq<Target> := [];
    assert Tracks(store, base, RunCycle(reg, start, done), summary);
    if ScansLocal(mode) {
      assert done + LocalTargets(files) == LocalTargets(files);
      summary := ScanLocalFiles(store, reg, keys, base, start, done, files, summary);
      done := LocalTargets(files);
    }
    if ScansRemote(mode) {
      summary := ScanRemoteHosts(store, reg, keys, base, start, done, hosts, summary);
      done := done + RemoteTargets(hosts);
    }
    assert done == Targets(mode, files, hosts);
  }

  /** The local loop of scan_once. */
  method ScanLocalFiles(store: Store, reg: Registry, keys: seq<Category>, ghost base: seq<Event>,
                        ghost start: CycleState, ghost done: seq<Target>, files: seq<FileEntry>, summary: Summary)
    returns (next: Summary)
    requires KeyedBy(summary, keys)
    requires Tracks(store, base, RunCycle(reg, start, done), summary)
    modifies store
    ensures Tracks(store, base, RunCycle(reg, start, done + LocalTargets(files)), next)
    ensures KeyedBy(next, keys)
  {
    next := summary;
    assert done + LocalTargets(files[..0]) == done;
    for i := 0 to |files|
      invariant Tracks(store, base, RunCycle(reg, start, done + LocalTargets(files[..i])), next)
      invariant KeyedBy(next, keys)
    {
      assert files[..i + 1][..i] == files[..i];
      var t := Target(SourceId(LOCAL_HOST, files[i].path), files[i].view, false);
      assert done + LocalTargets(files[..i + 1]) == (done + LocalTargets(files[..i])) + [t];
      next := ScanStep(store, reg, keys, base, start, done + LocalTargets(files[..i]), t, next);
    }
    assert files[..|files|] == files;
  }

  /** The inner remote loop of scan_once, over one connected host. */
  method ScanHost(store: Store, reg: Registry, keys: seq<Category>, ghost base: seq<Event>,
                  ghost start: CycleState, ghost done: seq<Target>, host: RemoteHost, summary: Summary)
    returns (next: Summary)
    requires KeyedBy(summary, keys)
    requires Tracks(store, base, RunCycle(reg, start, done), summary)
    modifies store
    ensures Tracks(store, base, RunCycle(reg, start, done + HostTargets(host.name, host.paths)), next)
    ensures KeyedBy(next, keys)
  {
    next := summary;
    var paths := host.paths;
    assert done + HostTargets(host.name, paths[..0]) == done;
    for j := 0 to |paths|
      invariant Tracks(store, base, RunCycle(reg, start, done + HostTargets(host.name, paths[..j])), next)
      invariant KeyedBy(next, keys)
    {
      assert paths[..j + 1][..j] == paths[..j];
      var t := Target(SourceId(host.name, paths[j].path), paths[j].view, true);
      assert done + HostTargets(host.name, paths[..j + 1]) == (done + HostTargets(host.name, paths[..j])) + [t];
      next := ScanStep(store, reg, keys, base, start, done + HostTargets(host.name, paths[..j]), t, next);
    }
    assert paths[..|paths|] == paths;
  }

  /** The outer remote loop of scan_once: a host whose SSH session could
      not be set up is skipped. */
  method ScanRemoteHosts(store: Store, reg: Registry, keys: seq<Category>, ghost base: seq<Event>,
                         ghost start: CycleState, ghost done: seq<Target>, hosts: seq<RemoteHost>, summary: Summary)
    returns (next: Summary)
    requires KeyedBy(summary, keys)
    requires Tracks(store, base, RunCycle(reg, start, done), summary)
    modifies store
    ensures Tracks(store, base, RunCycle(reg, start, done + RemoteTargets(hosts)), next)
    ensures KeyedBy(next, keys)
  {
    next := summary;
    assert done + RemoteTargets(hosts[..0]) == done;
    for h := 0 to |hosts|
      invariant Tracks(store, base, RunCycle(reg, start, done + RemoteTargets(hosts[..h])), next)
      invariant KeyedBy(next, keys)
    {
      RemoteTargetsStep(done, hosts, h);
      var host := hosts[h];
      if host.connected {
        next := ScanHost(store, reg, keys, base, start, done + RemoteTargets(hosts[..h]), host, next);
      }
    }
    assert hosts[..|hosts|] == hosts;
  }

  /** One more host adds its files' targets when connected, none otherwise. */
  lemma RemoteTargetsStep(done: seq<Target>, hosts: seq<RemoteHost>, h: nat)
    requires h < |hosts|
    ensures hosts[h].connected ==>
      done + RemoteTargets(hosts[..h + 1]) == (done + RemoteTargets(hosts[..h])) + HostTargets(hosts[h].name, hosts[h].paths)
    ensures !hosts[h].connected ==> done + RemoteTargets(hosts[..h + 1]) == done + RemoteTargets(hosts[..h])
  {
    assert hosts[..h + 1][..h] == hosts[..h];
    var prev := RemoteTargets(hosts[..h]);
    if hosts[h].connected {
      var more := HostTargets(hosts[h].name, hosts[h].paths);
      assert RemoteTargets(hosts[..h + 1]) == prev + more;
      assert done + (prev + more) == (done + prev) + more;
    } else {
      assert RemoteTargets(hosts[..h + 1]) == prev + [];
      assert prev + [] == prev;
    }
  }

  lemma RunCycleSnoc(reg: Registry, start: CycleState, done: seq<Target>, t: Target)
    ensures RunCycle(reg, start, done + [t]) == Advance(reg, RunCycle(reg, start, done), t)
  {
    assert (done + [t])[..|done|] == done;
  }

  /** What Apply does to the checkpoint a source reports. */
  lemma ApplyLookup(st: CycleState, sid: SourceId, e: ScanEffect, s: SourceId)
    requires e.outcome.Raised? ==> e.written.None?
    ensures Lookup(Apply(st, sid, e).checkpoints, s) ==
      if s == sid && e.written.Some? then e.written.value else Lookup(st.checkpoints, s)
  {
  }

  lemma RaisesWriteNothing(reg: Registry, sid: SourceId, stored: Checkpoint, view: SourceView, remote: bool)
    ensures var e := ScanSpec(reg, sid, stored, view, remote);
      e.outcome.Raised? ==> e.written.None?
  {
  }

  /** Scan one target with the scan its kind calls for. */
  method ScanTarget(store: Store, reg: Registry, t: Target) returns (outcome: FileOutcome, ghost e: ScanEffect)
    requires store.Valid()
    requires !t.remote ==> t.sid.host == LOCAL_HOST
    modifies store
    ensures store.Valid()
    ensures e == ScanSpec(reg, t.sid, old(store.CheckpointFor(t.sid)), t.view, t.remote)
    ensures outcome == e.outcome && (e.outcome.Raised? ==> e.written.None?)
    ensures forall s :: store.CheckpointFor(s) ==
                        if s == t.sid && e.written.Some? then e.written.value else old(store.CheckpointFor(s))
    ensures store.events == old(store.events) + (if outcome.Returned? then outcome.result.events else [])
  {
    e := ScanSpec(reg, t.sid, store.CheckpointFor(t.sid), t.view, t.remote);
    RaisesWriteNothing(reg, t.sid, store.CheckpointFor(t.sid), t.view, t.remote);
    if t.remote {
      outcome := ScanRemoteFile(store, reg, t.sid.host, t.sid.path, t.view);
    } else {
      outcome := ScanLocalFile(store, reg, t.sid.path, t.view);
    }
  }

  /** The next cycle state is the effect of the scan applied to this one. */
  lemma AdvanceIsApply(reg: Registry, start: CycleState, done: seq<Target>, t: Target, e: ScanEffect)
    requires e == ScanSpec(reg, t.sid, Lookup(RunCycle(reg, start, done).checkpoints, t.sid), t.view, t.remote)
    ensures RunCycle(reg, start, done + [t]) == Apply(RunCycle(reg, start, done), t.sid, e)
  {
    RunCycleSnoc(reg, start, done, t);
  }

  /** After a scan, the store and summary track the next cycle state. */
  lemma StepTracks(store: Store, base: seq<Event>, st: CycleState, sid: SourceId, e: ScanEffect, next: Summary)
    requires store.Valid()
    requires e.outcome.Raised? ==> e.written.None?
    requires forall s :: store.CheckpointFor(s) ==
                          if s == sid && e.written.Some? then e.written.value else Lookup(st.checkpoints, s)
    requires store.events == (base + st.stored) + (if e.outcome.Returned? then e.outcome.result.events else [])
    requires next == if e.outcome.Returned? then Absorbed(st.summary, e.outcome.result) else st.summary
    ensures Tracks(store, base, Apply(st, sid, e), next)
  {
    var st' := Apply(st, sid, e);
    forall s
      ensures store.CheckpointFor(s) == Lookup(st'.checkpoints, s)
    {
      ApplyLookup(st, sid, e, s);
    }
    if e.outcome.Returned? {
      assert st'.stored == st.stored + e.outcome.result.events;
    }
  }

  /** One iteration of either scan loop: scan the target and, if it
      returned, fold its tuple into the summary. */
  method ScanStep(store: Store, reg: Registry, keys: seq<Category>, ghost base: seq<Event>,
                  ghost start: CycleState, ghost done: seq<Target>, t: Target, summary: Summary)
    returns (next: Summary)
    requires KeyedBy(summary, keys)
    requires !t.remote ==> t.sid.host == LOCAL_HOST
    requires Tracks(store, base, RunCycle(reg, start, done), summary)
    modifies store
    ensures Tracks(store, base, RunCycle(reg, start, done + [t]), next)
    ensures KeyedBy(next, keys)
  {
    ghost var st := RunCycle(reg, start, done);
    assert Lookup(st.checkpoints, t.sid) == store.CheckpointFor(t.sid);
    var outcome;
    ghost var e;
    outcome, e := ScanTarget(store, reg, t);
    AdvanceIsApply(reg, start, done, t, e);
    if outcome.Returned? {
      next := Absorb(summary, outcome.result);
    } else {
      next := summary;
    }
    StepTracks(store, base, st, t.sid, e, next);
  }
}
