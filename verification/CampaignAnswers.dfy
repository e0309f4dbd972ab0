/** What an execution of tools/reflection_fuzz/campaign.py leaves and answers, whatever
    it finds on disk: its summary, its exit code, and the reason of every refusal. */
module CampaignAnswers {
  import opened Core
  import opened Campaign

  // ----- Numbers of a summary -----

  ghost predicate StatusIs(e: Entry, status: Status) {
    match e
    case Whole(record) => record.status == status
    case Lacks(_, state) => state == status
  }

  /** The positions of the entries with a status. */
  ghost function Positions(entries: seq<Entry>, status: Status): set<int> {
    set k | 0 <= k < |entries| && StatusIs(entries[k], status)
  }

  /** The offsets of the seeds of one shard. */
  ghost function Selected(requested: int, count: int, index: int): set<int>
    requires count > 0
  {
    set offset | 0 <= offset < requested && offset % count == index
  }

  lemma PositionsNext(front: seq<Entry>, e: Entry, status: Status)
    ensures Positions(front + [e], status)
         == if StatusIs(e, status) then Positions(front, status) + {|front|} else Positions(front, status)
    ensures |front| !in Positions(front, status)
  {
    var longer := front + [e];
    assert forall k | 0 <= k < |front| :: longer[k] == front[k];
    assert longer[|front|] == e;
  }

  lemma {:induction false} CountIs(c: Config, records: seq<Record>, status: Status)
    requires c.shardCount > 0
    ensures Count(records, status) == |Positions(SummaryOf(c, records).programs, status)|
  {
    if records != [] {
      var front, last := records[..|records| - 1], records[|records| - 1];
      CountIs(c, front, status);
      var entries := SummaryOf(c, front).programs;
      PositionsNext(entries, Whole(last), status);
      assert SummaryOf(c, records).programs == entries + [Whole(last)];
    }
  }

  lemma {:induction false} SeedsAreSelected(start: int, programs: int, index: int, count: int)
    requires count > 0
    ensures |SelectedSeeds(start, programs, index, count)| == |Selected(programs, count, index)|
    decreases programs
  {
    if programs > 0 {
      SeedsAreSelected(start, programs - 1, index, count);
      var front := Selected(programs - 1, count, index);
      assert Selected(programs, count, index)
          == if (programs - 1) % count == index then front + {programs - 1} else front;
    }
  }

  ghost predicate Has(s: Summary, status: Status) {
    exists k :: 0 <= k < |s.programs| && StatusIs(s.programs[k], status)
  }

  /** A summary that tells its campaign and counts its programs rightly. */
  ghost predicate Honest(s: Summary, c: Config)
    requires c.shardCount > 0
  {
    && s.identity == c
    && s.selectedSeedCount == |Selected(c.programs, c.shardCount, c.shardIndex)|
    && s.generated == |s.programs|
    && s.counts.agreements == |Positions(s.programs, Agreement)|
    && s.counts.disagreements == |Positions(s.programs, Disagreement)|
    && s.counts.compileFailures == |Positions(s.programs, CompileFailure)|
    && s.counts.invariantFailures == |Positions(s.programs, InvariantFailure)|
    && s.counts.runnerFailures == |Positions(s.programs, RunnerFailure)|
  }

  lemma {:induction false} SummariesAreHonest(c: Config, records: seq<Record>)
    requires c.shardCount > 0
    ensures Honest(SummaryOf(c, records), c)
  {
    CountIs(c, records, Agreement);
    CountIs(c, records, Disagreement);
    CountIs(c, records, CompileFailure);
    CountIs(c, records, InvariantFailure);
    CountIs(c, records, RunnerFailure);
    SeedsAreSelected(c.seedStart, c.programs, c.shardIndex, c.shardCount);
  }

  /** What an exit code tells of the programs. */
  ghost predicate Tells(s: Summary, code: int) {
    var failed := Has(s, CompileFailure) || Has(s, InvariantFailure) || Has(s, RunnerFailure);
    && (code == 3 <==> Has(s, Disagreement))
    && (code == 1 <==> !Has(s, Disagreement) && failed)
    && (code == 0 <==> !Has(s, Disagreement) && !failed)
  }

  lemma HasIff(s: Summary, status: Status)
    ensures Has(s, status) <==> |Positions(s.programs, status)| != 0
  {
    if Has(s, status) {
      var k :| 0 <= k < |s.programs| && StatusIs(s.programs[k], status);
      assert k in Positions(s.programs, status);
    }
    if |Positions(s.programs, status)| != 0 {
      var k :| k in Positions(s.programs, status);
    }
  }

  /** The exit code of a campaign, of one shard or merged. */
  lemma {:induction false} CodeTells(s: Summary, c: Config)
    requires c.shardCount > 0 && Honest(s, c)
    ensures Tells(s, ExitCode(s.counts))
  {
    HasIff(s, Disagreement);
    HasIff(s, CompileFailure);
    HasIff(s, InvariantFailure);
    HasIff(s, RunnerFailure);
  }

  // ----- The loop -----

  /** After n turns the summary is that of n programs, or the old one when there were
      none.  An interruption comes after all turns granted, an unknown status before that,
      an exit after the whole window. */
  ghost predicate LeavesAfter(c: Config, before: Disk, turns: nat, ending: Ending, after: Disk, n: nat)
    requires c.shardCount > 0
  {
    && (n == 0 ==> after.summary == before.summary)
    && (n > 0 ==> after.summary.Some? && Honest(after.summary.value, c) && |after.summary.value.programs| == n)
    && (match ending
        case Exit(code) =>
          && n == |Window(c)| <= turns
          && (if n == 0 then code == 0 && after == before else Tells(after.summary.value, code))
        case Interrupted => n == turns < |Window(c)|
        case UnknownStatus => n < turns && n < |Window(c)|
        case Refused(_) => n == 0 && after == before)
  }

  ghost predicate Leaves(c: Config, before: Disk, turns: nat, ending: Ending, after: Disk)
    requires c.shardCount > 0
  {
    exists n: nat :: LeavesAfter(c, before, turns, ending, after, n)
  }

  /** The records are those of the summary on disk. */
  ghost predicate Saved(c: Config, records: seq<Record>, before: Disk, now: Disk)
    requires c.shardCount > 0
  {
    if records == [] then now == before else now.summary == Some(SummaryOf(c, records))
  }

  lemma {:induction false} LoopSaves(run: Key -> Record, c: Config, previous: map<Key, Record>, records: seq<Record>,
                                     budget: nat, torn: bool, before: Disk, now: Disk)
    requires c.shardCount > 0 && |records| <= |Window(c)| && Saved(c, records, before, now)
    ensures var (ending, after) := Loop(run, c, previous, records, budget, torn, now);
            Leaves(c, before, |records| + budget, ending, after)
    decreases |Window(c)| - |records|
  {
    SummariesAreHonest(c, records);
    CodeTells(SummaryOf(c, records), c);
    var (ending, left) := Loop(run, c, previous, records, budget, torn, now);
    if |records| == |Window(c)| || budget == 0 {
      assert LeavesAfter(c, before, |records| + budget, ending, left, |records|);
    } else {
      var key := Window(c)[|records|];
      var record := if key in previous then previous[key] else Recorded(run(key), now);
      var after := if key in previous then now else Written(now, record);
      var longer := records + [record];
      if record.status.OtherStatus? {
        assert LeavesAfter(c, before, |records| + budget, ending, left, |records|);
      } else {
        LoopSaves(run, c, previous, longer, budget - 1, torn, before,
                  after.(summary := Some(SummaryOf(c, longer))));
      }
    }
  }

  // ----- Resuming -----

  /** A program of this shard's window. */
  ghost predicate Due(c: Config, key: Key)
    requires c.shardCount > 0
  {
    && key.family in c.families && c.seedStart <= key.seed < c.seedStart + c.programs
    && (key.seed - c.seedStart) % c.shardCount == c.shardIndex
  }

  ghost predicate Earlier(entries: seq<Entry>, k: nat, key: Key) {
    exists j :: 0 <= j < k && j < |entries| && entries[j].Whole? && entries[j].record.key == key
  }

  ghost predicate Located(r: Record) {
    r.outputDir.Some? && r.outputDir.value != ""
  }

  ghost predicate Digested(r: Record) {
    r.digest.Some? && |r.digest.value| == 64
  }

  /** What is wrong with entry k. */
  ghost predicate Fault(c: Config, entries: seq<Entry>, k: nat, disk: Disk, refusal: Refusal)
    requires c.shardCount > 0 && k < |entries|
  {
    match entries[k]
    case Lacks(field, _) => refusal == Malformed(field)
    case Whole(r) =>
      if Earlier(entries, k, r.key) then refusal == Duplicate(r.key)
      else if !Due(c, r.key) then refusal == OutOfWindow(r.key)
      else if !Located(r) then refusal == MissingOutputDir
      else if !Digested(r) then refusal == MissingDigest
      else if r.outputDir.value !in disk.manifests then refusal == MissingManifest
      else disk.manifests[r.outputDir.value] != r.digest.value && refusal == MutatedManifest
  }

  /** A program of the window, listed for the first time, whose manifest is unchanged. */
  ghost predicate Retained(c: Config, entries: seq<Entry>, k: nat, disk: Disk)
    requires c.shardCount > 0 && k < |entries|
  {
    && entries[k].Whole? && !Earlier(entries, k, entries[k].record.key) && Due(c, entries[k].record.key)
    && Located(entries[k].record) && Digested(entries[k].record)
    && entries[k].record.outputDir.value in disk.manifests
    && disk.manifests[entries[k].record.outputDir.value] == entries[k].record.digest.value
  }

  /** Refused for the first entry that is not retained. */
  ghost predicate RefusedAt(c: Config, entries: seq<Entry>, i: nat, disk: Disk, refusal: Refusal)
    requires c.shardCount > 0
  {
    exists k :: i <= k < |entries| && Fault(c, entries, k, disk, refusal)
                && forall j | i <= j < k :: Retained(c, entries, j, disk)
  }

  lemma DueIff(c: Config, key: Key)
    requires c.shardCount > 0
    ensures key in ExpectedRecords(c) <==> Due(c, key)
  {
    var seeds := SelectedSeeds(c.seedStart, c.programs, c.shardIndex, c.shardCount);
    KeysOfMembers(seeds, c.families, key);
    SelectedSeedsAre(c.seedStart, c.programs, c.shardIndex, c.shardCount, key.seed);
  }

  /** The keys seen are those of the entries before i. */
  ghost predicate SeenBefore(entries: seq<Entry>, i: nat, seen: set<Key>) {
    forall key :: key in seen <==> Earlier(entries, i, key)
  }

  lemma SeenNext(entries: seq<Entry>, i: nat, seen: set<Key>)
    requires i < |entries| && entries[i].Whole? && SeenBefore(entries, i, seen)
    ensures SeenBefore(entries, i + 1, seen + {entries[i].record.key})
  {
    forall key ensures key in seen + {entries[i].record.key} <==> Earlier(entries, i + 1, key) {
      assert key in seen <==> Earlier(entries, i, key);
      if Earlier(entries, i + 1, key) {
        var j :| 0 <= j < i + 1 && j < |entries| && entries[j].Whole? && entries[j].record.key == key;
        assert j == i || Earlier(entries, i, key);
      }
      if Earlier(entries, i, key) {
        var j :| 0 <= j < i && j < |entries| && entries[j].Whole? && entries[j].record.key == key;
      }
    }
  }

  lemma RefusedLater(c: Config, entries: seq<Entry>, i: nat, disk: Disk, refusal: Refusal)
    requires c.shardCount > 0 && i < |entries|
    ensures RefusedAt(c, entries, i, disk, refusal) <==>
              || Fault(c, entries, i, disk, refusal)
              || (Retained(c, entries, i, disk) && RefusedAt(c, entries, i + 1, disk, refusal))
  {
    if RefusedAt(c, entries, i, disk, refusal) {
      var k :| i <= k < |entries| && Fault(c, entries, k, disk, refusal)
               && forall j | i <= j < k :: Retained(c, entries, j, disk);
    }
    if Retained(c, entries, i, disk) && RefusedAt(c, entries, i + 1, disk, refusal) {
      var k :| i + 1 <= k < |entries| && Fault(c, entries, k, disk, refusal)
               && forall j | i + 1 <= j < k :: Retained(c, entries, j, disk);
      assert forall j | i <= j < k :: Retained(c, entries, j, disk);
    }
  }

  lemma {:induction false} EntriesRefused(c: Config, entries: seq<Entry>, i: nat, seen: set<Key>, disk: Disk,
                                          refusal: Refusal)
    requires c.shardCount > 0 && i <= |entries| && SeenBefore(entries, i, seen)
    ensures CheckEntries(entries, i, seen, ExpectedRecords(c), true, disk) == Some(refusal)
            <==> RefusedAt(c, entries, i, disk, refusal)
    decreases |entries| - i
  {
    if i < |entries| {
      RefusedLater(c, entries, i, disk, refusal);
      if entries[i].Whole? {
        DueIff(c, entries[i].record.key);
        SeenNext(entries, i, seen);
        EntriesRefused(c, entries, i + 1, seen + {entries[i].record.key}, disk, refusal);
      }
    }
  }

  /** The numbers that the command line may give. */
  ghost predicate Usable(c: Config) {
    c.programs >= 1 && c.cases >= 1 && 0 <= c.shardIndex < c.shardCount
  }

  /** Why an execution is refused, for any disk: an unusable command line, a summary of
      another campaign, or the first entry that was not retained. */
  lemma {:induction false} RefusedIff(run: Key -> Record, c: Config, a: Attempt, disk: Disk, refusal: Refusal)
    ensures Execute(run, c, a, disk).0 == Refused(refusal) <==>
              if !Usable(c) then refusal == BadArguments
              else
                && a.resume && disk.summary.Some?
                && (if disk.summary.value.identity != c then refusal == Incompatible
                    else RefusedAt(c, disk.summary.value.programs, 0, disk, refusal))
    ensures Execute(run, c, a, disk).0.Refused? ==> Execute(run, c, a, disk).1 == disk
  {
    if Usable(c) {
      LoopRefusesNothing(run, c, map[], [], a.budget, a.torn, disk);
      if a.resume && disk.summary.Some? {
        LoopRefusesNothing(run, c, PreviousOf(disk.summary.value.programs), [], a.budget, a.torn, disk);
        EntriesRefused(c, disk.summary.value.programs, 0, {}, disk, refusal);
      }
    }
  }

  lemma {:induction false} LoopRefusesNothing(run: Key -> Record, c: Config, previous: map<Key, Record>,
                                              records: seq<Record>, budget: nat, torn: bool, disk: Disk)
    requires c.shardCount > 0 && |records| <= |Window(c)|
    ensures !Loop(run, c, previous, records, budget, torn, disk).0.Refused?
    decreases |Window(c)| - |records|
  {
    if |records| < |Window(c)| && budget > 0 {
      var key := Window(c)[|records|];
      var record := if key in previous then previous[key] else Recorded(run(key), disk);
      var after := if key in previous then disk else Written(disk, record);
      var longer := records + [record];
      if !record.status.OtherStatus? {
        LoopRefusesNothing(run, c, previous, longer, budget - 1, torn, after.(summary := Some(SummaryOf(c, longer))));
      }
    }
  }

  /** What an execution that was not refused leaves, for any runner and any disk: the old
      summary or an honest one; an exit code goes with the summary of the whole window. */
  lemma {:induction false} ExecutionLeaves(run: Key -> Record, c: Config, a: Attempt, disk: Disk)
    requires Usable(c)
    ensures var (ending, after) := Execute(run, c, a, disk);
            Leaves(c, disk, a.budget, ending, after)
  {
    LoopSaves(run, c, map[], [], a.budget, a.torn, disk, disk);
    if a.resume && disk.summary.Some? {
      LoopSaves(run, c, PreviousOf(disk.summary.value.programs), [], a.budget, a.torn, disk, disk);
      var (ending, after) := Execute(run, c, a, disk);
      assert ending.Refused? ==> LeavesAfter(c, disk, a.budget, ending, after, 0);
    }
  }
}
