/** tools/reflection_fuzz/campaign.py: the resumable loop over seeds and families,
    its summary file, and what survives crashes. */
module Campaign {
  import opened Core

  datatype Status =
    | Agreement
    | Disagreement
    | CompileFailure
    | InvariantFailure
    | RunnerFailure
    | OtherStatus(text: string)

  datatype Key = Key(family: string, seed: int)

  /** outputDir and digest are None when absent or not a string. */
  datatype Record = Record(key: Key, status: Status, outputDir: Option<string>, digest: Option<string>)

  /** One entry of "programs": a record, or an object without "family" or "seed". */
  datatype Entry = Whole(record: Record) | Lacks(field: string, state: Status)

  /** The command line; all of it but the output directory is the campaign identity. */
  datatype Config = Config(programs: int, cases: int, seedStart: int, families: seq<string>, compilers: seq<string>,
                           shardIndex: int, shardCount: int)

  datatype Counts = Counts(agreements: nat, disagreements: nat, compileFailures: nat, invariantFailures: nat,
                           runnerFailures: nat)

  /** campaign.json. */
  datatype Summary = Summary(identity: Config, selectedSeedCount: int, generated: int, counts: Counts,
                             programs: seq<Entry>)

  /** manifests: the SHA-256 of manifest.json, by output directory. */
  datatype Disk = Disk(manifests: map<string, string>, summary: Option<Summary>)

  datatype Refusal =
    | BadArguments
    | Incompatible
    | Malformed(field: string)
    | Duplicate(key: Key)
    | OutOfWindow(key: Key)
    | MissingOutputDir
    | MissingDigest
    | MissingManifest
    | MutatedManifest

  datatype Ending = Refused(refusal: Refusal) | Interrupted | UnknownStatus | Exit(code: int)

  // ----- Windows -----

  function SelectedSeeds(start: int, programs: int, index: int, count: int): seq<int>
    requires count > 0
    decreases programs
  {
    if programs <= 0 then []
    else SelectedSeeds(start, programs - 1, index, count)
         + if (programs - 1) % count == index then [start + programs - 1] else []
  }

  function FamilyKeys(seed: int, families: seq<string>): (keys: seq<Key>)
    ensures |keys| == |families| && forall j | 0 <= j < |families| :: keys[j] == Key(families[j], seed)
  {
    seq(|families|, j requires 0 <= j < |families| => Key(families[j], seed))
  }

  /** The order of the two nested loops. */
  function KeysOf(seeds: seq<int>, families: seq<string>): seq<Key> {
    if seeds == [] then []
    else KeysOf(seeds[..|seeds| - 1], families) + FamilyKeys(seeds[|seeds| - 1], families)
  }

  function Window(c: Config): seq<Key>
    requires c.shardCount > 0
  {
    KeysOf(SelectedSeeds(c.seedStart, c.programs, c.shardIndex, c.shardCount), c.families)
  }

  ghost predicate Increasing(s: seq<int>) {
    forall i, j | 0 <= i < j < |s| :: s[i] < s[j]
  }

  lemma IncreasingAppend(s: seq<int>, x: int)
    requires Increasing(s) && forall y | y in s :: y < x
    ensures Increasing(s + [x])
  {
    assert forall i | 0 <= i < |s| :: s[i] in s;
  }

  lemma {:induction false} SelectedSeedsAre(start: int, programs: int, index: int, count: int, x: int)
    requires count > 0
    ensures x in SelectedSeeds(start, programs, index, count) <==>
              start <= x < start + programs && (x - start) % count == index
    decreases programs
  {
    if programs > 0 {
      SelectedSeedsAre(start, programs - 1, index, count, x);
      var last := start + programs - 1;
      if x == last {
        assert x - start == programs - 1;
      }
    }
  }

  lemma {:induction false} SelectedSeedsIncrease(start: int, programs: int, index: int, count: int)
    requires count > 0
    ensures Increasing(SelectedSeeds(start, programs, index, count))
    decreases programs
  {
    if programs > 0 {
      SelectedSeedsIncrease(start, programs - 1, index, count);
      var front := SelectedSeeds(start, programs - 1, index, count);
      forall y | y in front ensures y < start + programs - 1 {
        SelectedSeedsAre(start, programs - 1, index, count, y);
      }
      IncreasingAppend(front, start + programs - 1);
    }
  }

  lemma {:induction false} KeysOfMembers(seeds: seq<int>, families: seq<string>, key: Key)
    ensures key in KeysOf(seeds, families) <==> key.seed in seeds && key.family in families
  {
    if seeds != [] {
      var front, last := seeds[..|seeds| - 1], seeds[|seeds| - 1];
      KeysOfMembers(front, families, key);
      assert key.seed in seeds <==> key.seed in front || key.seed == last;
      if key.family in families && key.seed == last {
        var j :| 0 <= j < |families| && families[j] == key.family;
        assert FamilyKeys(last, families)[j] == key;
      }
    }
  }

  lemma {:induction false} KeysOfDistinct(seeds: seq<int>, families: seq<string>)
    requires Distinct(seeds) && Distinct(families)
    ensures Distinct(KeysOf(seeds, families))
  {
    if seeds != [] {
      var front, last := seeds[..|seeds| - 1], seeds[|seeds| - 1];
      KeysOfDistinct(front, families);
      var a, b := KeysOf(front, families), FamilyKeys(last, families);
      forall i, j | 0 <= i < |a| && 0 <= j < |b| ensures a[i] != b[j] {
        KeysOfMembers(front, families, a[i]);
        assert last !in front;
      }
    }
  }

  lemma {:induction false} KeysOfPrefix(seeds: seq<int>, families: seq<string>, i: nat)
    requires i <= |seeds|
    ensures KeysOf(seeds[..i], families) <= KeysOf(seeds, families)
    ensures i < |seeds| ==>
              KeysOf(seeds[..i], families) + FamilyKeys(seeds[i], families) <= KeysOf(seeds, families)
    decreases |seeds|
  {
    if i == |seeds| {
      assert seeds[..i] == seeds;
    } else {
      var front := seeds[..|seeds| - 1];
      KeysOfPrefix(front, families, i);
      assert front[..i] == seeds[..i];
      if i == |seeds| - 1 {
        assert seeds[..i] == front;
      }
    }
  }

  // ----- Counting -----

  function Count(records: seq<Record>, status: Status): nat {
    if records == [] then 0
    else Count(records[..|records| - 1], status) + if records[|records| - 1].status == status then 1 else 0
  }

  function CountsOf(records: seq<Record>): Counts {
    Counts(Count(records, Agreement), Count(records, Disagreement), Count(records, CompileFailure),
           Count(records, InvariantFailure), Count(records, RunnerFailure))
  }

  /** counts[status] += 1, unless that is a KeyError. */
  function Bump(c: Counts, status: Status): Counts
    requires !status.OtherStatus?
  {
    match status
    case Agreement => c.(agreements := c.agreements + 1)
    case Disagreement => c.(disagreements := c.disagreements + 1)
    case CompileFailure => c.(compileFailures := c.compileFailures + 1)
    case InvariantFailure => c.(invariantFailures := c.invariantFailures + 1)
    case RunnerFailure => c.(runnerFailures := c.runnerFailures + 1)
  }

  lemma CountAppend(records: seq<Record>, r: Record, status: Status)
    ensures Count(records + [r], status) == Count(records, status) + if r.status == status then 1 else 0
  {
    assert (records + [r])[..|records|] == records;
  }

  lemma BumpCounts(records: seq<Record>, r: Record)
    requires !r.status.OtherStatus?
    ensures CountsOf(records + [r]) == Bump(CountsOf(records), r.status)
  {
    CountAppend(records, r, Agreement);
    CountAppend(records, r, Disagreement);
    CountAppend(records, r, CompileFailure);
    CountAppend(records, r, InvariantFailure);
    CountAppend(records, r, RunnerFailure);
  }

  function ExitCode(c: Counts): int {
    if c.disagreements != 0 then 3
    else if c.compileFailures != 0 || c.invariantFailures != 0 || c.runnerFailures != 0 then 1
    else 0
  }

  // ----- Resuming -----

  /** validate_record_artifact. */
  function CheckArtifact(r: Record, disk: Disk): Option<Refusal> {
    if r.outputDir.None? || r.outputDir.value == "" then Some(MissingOutputDir)
    else if r.digest.None? || |r.digest.value| != 64 then Some(MissingDigest)
    else if r.outputDir.value !in disk.manifests then Some(MissingManifest)
    else if disk.manifests[r.outputDir.value] != r.digest.value then Some(MutatedManifest)
    else None
  }

  /** The loop of validate_resume_summary from entry i on. */
  function CheckEntries(entries: seq<Entry>, i: nat, seen: set<Key>, expected: set<Key>, verify: bool, disk: Disk)
    : Option<Refusal>
    requires i <= |entries|
    decreases |entries| - i
  {
    if i == |entries| then None
    else if entries[i].Lacks? then Some(Malformed(entries[i].field))
    else
      var r := entries[i].record;
      if r.key in seen then Some(Duplicate(r.key))
      else if r.key !in expected then Some(OutOfWindow(r.key))
      else if verify && CheckArtifact(r, disk).Some? then CheckArtifact(r, disk)
      else CheckEntries(entries, i + 1, seen + {r.key}, expected, verify, disk)
  }

  function CheckSummary(s: Summary, c: Config, expected: set<Key>, verify: bool, disk: Disk): Option<Refusal> {
    if s.identity != c then Some(Incompatible) else CheckEntries(s.programs, 0, {}, expected, verify, disk)
  }

  ghost predicate EntryGood(entries: seq<Entry>, k: nat, seen: set<Key>, expected: set<Key>, verify: bool, disk: Disk)
    requires k < |entries|
  {
    && entries[k].Whole? && entries[k].record.key !in seen && entries[k].record.key in expected
    && (verify ==> CheckArtifact(entries[k].record, disk).None?)
  }

  ghost predicate NoRepeats(entries: seq<Entry>, i: nat) {
    forall j, k | i <= j < k < |entries| && entries[j].Whole? && entries[k].Whole? ::
      entries[j].record.key != entries[k].record.key
  }

  ghost predicate AllGood(entries: seq<Entry>, i: nat, seen: set<Key>, expected: set<Key>, verify: bool, disk: Disk) {
    forall k | i <= k < |entries| :: EntryGood(entries, k, seen, expected, verify, disk)
  }

  lemma AcceptStep(entries: seq<Entry>, i: nat, seen: set<Key>, more: set<Key>, expected: set<Key>, verify: bool,
                   disk: Disk)
    requires i < |entries| && EntryGood(entries, i, seen, expected, verify, disk)
    requires more == seen + {entries[i].record.key}
    ensures AllGood(entries, i, seen, expected, verify, disk) && NoRepeats(entries, i) <==>
              AllGood(entries, i + 1, more, expected, verify, disk) && NoRepeats(entries, i + 1)
  {
    if AllGood(entries, i, seen, expected, verify, disk) && NoRepeats(entries, i) {
      forall k | i + 1 <= k < |entries| ensures EntryGood(entries, k, more, expected, verify, disk) {
        assert EntryGood(entries, k, seen, expected, verify, disk);
      }
    }
    if AllGood(entries, i + 1, more, expected, verify, disk) && NoRepeats(entries, i + 1) {
      forall k | i <= k < |entries| ensures EntryGood(entries, k, seen, expected, verify, disk) {
        if k > i {
          assert EntryGood(entries, k, more, expected, verify, disk);
        }
      }
      forall j, k | i <= j < k < |entries| && entries[j].Whole? && entries[k].Whole?
        ensures entries[j].record.key != entries[k].record.key
      {
        assert EntryGood(entries, k, more, expected, verify, disk);
      }
    }
  }

  /** Entries are accepted exactly when they are distinct, expected, and backed by the
      manifests on disk. */
  lemma {:induction false} EntriesAccepted(entries: seq<Entry>, i: nat, seen: set<Key>, expected: set<Key>,
                                           verify: bool, disk: Disk)
    requires i <= |entries|
    ensures CheckEntries(entries, i, seen, expected, verify, disk).None? <==>
              AllGood(entries, i, seen, expected, verify, disk) && NoRepeats(entries, i)
    decreases |entries| - i
  {
    if i < |entries| {
      if EntryGood(entries, i, seen, expected, verify, disk) {
        var more := seen + {entries[i].record.key};
        EntriesAccepted(entries, i + 1, more, expected, verify, disk);
        AcceptStep(entries, i, seen, more, expected, verify, disk);
      }
    }
  }

  function PreviousOf(entries: seq<Entry>): map<Key, Record> {
    if entries == [] then map[]
    else
      var p := PreviousOf(entries[..|entries| - 1]);
      var last := entries[|entries| - 1];
      if last.Whole? then p[last.record.key := last.record] else p
  }

  // ----- The loop -----

  function ManifestAt(disk: Disk, dir: string): Option<string> {
    if dir in disk.manifests then Some(disk.manifests[dir]) else None
  }

  /** A run that leaves a manifest replaces the one in its directory. */
  function Written(disk: Disk, r: Record): Disk {
    if r.digest.Some? && r.outputDir.Some? then
      disk.(manifests := disk.manifests[r.outputDir.value := r.digest.value])
    else disk
  }

  /** The record of run_one: the digest is taken of the manifest now in the directory,
      which an earlier run may have left. */
  function Recorded(r: Record, disk: Disk): Record {
    if r.digest.None? && r.outputDir.Some? then r.(digest := ManifestAt(disk, r.outputDir.value)) else r
  }

  function SummaryOf(c: Config, records: seq<Record>): Summary
    requires c.shardCount > 0
  {
    Summary(c, |SelectedSeeds(c.seedStart, c.programs, c.shardIndex, c.shardCount)|, |records|, CountsOf(records),
            seq(|records|, k requires 0 <= k < |records| => Whole(records[k])))
  }

  /** The loop body's remaining turns; run tells the digest of the manifest that a
      program leaves, if it leaves one.  The loop is interrupted after budget turns;
      torn when the next run_one has already left its manifest. */
  function Loop(run: Key -> Record, c: Config, previous: map<Key, Record>, records: seq<Record>, budget: nat,
                torn: bool, disk: Disk): (Ending, Disk)
    requires c.shardCount > 0 && |records| <= |Window(c)|
    decreases |Window(c)| - |records|
  {
    if |records| == |Window(c)| then (Exit(ExitCode(CountsOf(records))), disk)
    else
      var key := Window(c)[|records|];
      var record := if key in previous then previous[key] else Recorded(run(key), disk);
      var after := if key in previous then disk else Written(disk, record);
      if budget == 0 then (Interrupted, if torn then after else disk)
      else if record.status.OtherStatus? then (UnknownStatus, after)
      else
        var longer := records + [record];
        Loop(run, c, previous, longer, budget - 1, torn, after.(summary := Some(SummaryOf(c, longer))))
  }

  predicate ArgumentsOk(c: Config) {
    c.programs > 0 && c.cases > 0 && c.shardCount > 0 && 0 <= c.shardIndex < c.shardCount
  }

  function ExpectedRecords(c: Config): set<Key>
    requires c.shardCount > 0
  {
    set key | key in Window(c)
  }

  /** One execution of main(), with --resume or without, cut off as told. */
  datatype Attempt = Attempt(resume: bool, budget: nat, torn: bool)

  function Execute(run: Key -> Record, c: Config, a: Attempt, disk: Disk): (Ending, Disk) {
    if !ArgumentsOk(c) then (Refused(BadArguments), disk)
    else if a.resume && disk.summary.Some? then
      var refusal := CheckSummary(disk.summary.value, c, ExpectedRecords(c), true, disk);
      if refusal.Some? then (Refused(refusal.value), disk)
      else Loop(run, c, PreviousOf(disk.summary.value.programs), [], a.budget, a.torn, disk)
    else Loop(run, c, map[], [], a.budget, a.torn, disk)
  }

  /** How many records there are after budget turns. */
  function Reached(c: Config, n: nat, budget: nat): (m: nat)
    requires c.shardCount > 0 && n <= |Window(c)|
    ensures n <= m <= |Window(c)|
  {
    if budget >= |Window(c)| - n then |Window(c)| else n + budget
  }

  const EMPTY := Disk(map[], None)

  // ----- Facts about windows -----

  lemma WindowDistinct(c: Config)
    requires c.shardCount > 0 && Distinct(c.families)
    ensures Distinct(Window(c))
  {
    var seeds := SelectedSeeds(c.seedStart, c.programs, c.shardIndex, c.shardCount);
    SelectedSeedsIncrease(c.seedStart, c.programs, c.shardIndex, c.shardCount);
    assert Distinct(seeds);
    KeysOfDistinct(seeds, c.families);
  }

  lemma {:induction false} KeysOfLength(seeds: seq<int>, families: seq<string>)
    requires families != []
    ensures KeysOf(seeds, families) == [] <==> seeds == []
  {
    if seeds != [] {
      KeysOfLength(seeds[..|seeds| - 1], families);
    }
  }

  lemma SmallMod(x: int, d: int)
    requires 0 <= x < d
    ensures x % d == x
  {
  }

  lemma SeedsIff(start: int, programs: int, index: int, count: int)
    requires 0 <= index < count
    ensures SelectedSeeds(start, programs, index, count) != [] <==> index < programs
  {
    var seeds := SelectedSeeds(start, programs, index, count);
    if index < programs {
      SmallMod(index, count);
      SelectedSeedsAre(start, programs, index, count, start + index);
    } else if seeds != [] {
      SelectedSeedsAre(start, programs, index, count, seeds[0]);
      SmallMod(seeds[0] - start, count);
    }
  }

  /** A shard has work exactly when its index is below the number of seeds. */
  lemma WorkIff(c: Config)
    requires ArgumentsOk(c) && c.families != []
    ensures Window(c) != [] <==> c.shardIndex < c.programs
  {
    SeedsIff(c.seedStart, c.programs, c.shardIndex, c.shardCount);
    KeysOfLength(SelectedSeeds(c.seedStart, c.programs, c.shardIndex, c.shardCount), c.families);
  }

  // ----- The loops -----

  /** From position base on, the window runs through the families of the seed. */
  ghost predicate InWindow(c: Config, base: nat, seed: int)
    requires c.shardCount > 0
  {
    base + |c.families| <= |Window(c)|
    && forall j | 0 <= j < |c.families| :: Window(c)[base + j] == Key(c.families[j], seed)
  }

  lemma WindowRow(c: Config, seeds: seq<int>, i: nat, base: nat)
    requires c.shardCount > 0 && seeds == SelectedSeeds(c.seedStart, c.programs, c.shardIndex, c.shardCount)
    requires i < |seeds| && base == |KeysOf(seeds[..i], c.families)|
    ensures InWindow(c, base, seeds[i])
  {
    KeysOfPrefix(seeds, c.families, i);
    var front := KeysOf(seeds[..i], c.families) + FamilyKeys(seeds[i], c.families);
    assert front <= Window(c);
    forall j | 0 <= j < |c.families| ensures Window(c)[base + j] == Key(c.families[j], seeds[i]) {
      assert front[base + j] == FamilyKeys(seeds[i], c.families)[j];
    }
  }

  lemma NextSeed(seeds: seq<int>, families: seq<string>, i: nat)
    requires i < |seeds|
    ensures |KeysOf(seeds[..i + 1], families)| == |KeysOf(seeds[..i], families)| + |families|
  {
    assert seeds[..i + 1][..i] == seeds[..i];
  }

  /** The output directory. */
  class CampaignDirectory {
    var manifests: map<string, string>
    var summary: Option<Summary>

    function View(): Disk
      reads this
    {
      Disk(manifests, summary)
    }

    constructor ()
      ensures View() == EMPTY
    {
      manifests, summary := map[], None;
    }

    method ValidateResumeSummary(s: Summary, c: Config, expected: set<Key>, verify: bool)
      returns (refusal: Option<Refusal>)
      ensures refusal == CheckSummary(s, c, expected, verify, View())
    {
      if s.identity != c {
        return Some(Incompatible);
      }
      var seen: set<Key> := {};
      for i := 0 to |s.programs|
        invariant CheckEntries(s.programs, 0, {}, expected, verify, View())
               == CheckEntries(s.programs, i, seen, expected, verify, View())
      {
        var entry := s.programs[i];
        if entry.Lacks? {
          return Some(Malformed(entry.field));
        }
        var key := entry.record.key;
        if key in seen {
          return Some(Duplicate(key));
        }
        if key !in expected {
          return Some(OutOfWindow(key));
        }
        if verify {
          refusal := CheckArtifact(entry.record, View());
          if refusal.Some? {
            return;
          }
        }
        seen := seen + {key};
      }
      refusal := None;
    }

    /** The loop that takes over the records of an accepted summary. */
    method TakeOver(entries: seq<Entry>) returns (previous: map<Key, Record>)
      ensures previous == PreviousOf(entries)
    {
      previous := map[];
      assert entries[..|entries|] == entries;
      for i := 0 to |entries|
        invariant previous == PreviousOf(entries[..i])
      {
        assert entries[..i + 1][..i] == entries[..i];
        if entries[i].Whole? {
          previous := previous[entries[i].record.key := entries[i].record];
        }
      }
    }

    /** main(), interrupted as the attempt tells. */
    method RunCampaign(run: Key -> Record, c: Config, a: Attempt) returns (ending: Ending)
      modifies this
      ensures (ending, View()) == Execute(run, c, a, old(View()))
    {
      if c.programs <= 0 || c.cases <= 0 || c.shardCount <= 0 || c.shardIndex < 0 || c.shardIndex >= c.shardCount {
        return Refused(BadArguments);
      }
      var previous: map<Key, Record> := map[];
      if a.resume && summary.Some? {
        var refusal := ValidateResumeSummary(summary.value, c, ExpectedRecords(c), true);
        if refusal.Some? {
          return Refused(refusal.value);
        }
        previous := TakeOver(summary.value.programs);
      }
      ending := RunRecords(run, c, previous, a.budget, a.torn);
    }

    /** One turn of the inner loop; stop tells how the run ended in it. */
    method RunRecord(run: Key -> Record, c: Config, previous: map<Key, Record>, key: Key, selected: nat,
                     records: seq<Record>, counts: Counts, budget: nat, torn: bool, ghost goal: (Ending, Disk))
      returns (stop: Option<Ending>, longer: seq<Record>, newCounts: Counts)
      requires c.shardCount > 0 && |records| < |Window(c)| && Window(c)[|records|] == key && counts == CountsOf(records)
      requires selected == |SelectedSeeds(c.seedStart, c.programs, c.shardIndex, c.shardCount)|
      requires goal == Loop(run, c, previous, records, budget, torn, View())
      modifies this
      ensures stop.Some? ==> goal == (stop.value, View())
      ensures stop.None? ==> budget > 0 && |longer| == |records| + 1 && newCounts == CountsOf(longer)
      ensures stop.None? ==> goal == Loop(run, c, previous, longer, budget - 1, torn, View())
    {
      longer, newCounts := records, counts;
      var record;
      if key in previous {
        record := previous[key];
      } else {
        if budget == 0 && !torn {
          return Some(Interrupted), longer, newCounts;
        }
        record := Recorded(run(key), View());
        if record.digest.Some? && record.outputDir.Some? {
          manifests := manifests[record.outputDir.value := record.digest.value];
        }
      }
      if budget == 0 {
        return Some(Interrupted), longer, newCounts;
      }
      if record.status.OtherStatus? {
        return Some(UnknownStatus), longer, newCounts;
      }
      BumpCounts(records, record);
      longer := records + [record];
      newCounts := Bump(counts, record.status);
      summary := Some(Summary(c, selected, |longer|, newCounts,
                              seq(|longer|, k requires 0 <= k < |longer| => Whole(longer[k]))));
      assert summary.value.programs == SummaryOf(c, longer).programs;
      stop := None;
    }

    /** The inner loop, over the families of one seed; base turns came before it. */
    method RunSeed(run: Key -> Record, c: Config, previous: map<Key, Record>, seed: int, selected: nat, ghost base: nat,
                   records: seq<Record>, counts: Counts, turns: nat, torn: bool, ghost goal: (Ending, Disk))
      returns (stop: Option<Ending>, longer: seq<Record>, newCounts: Counts, budget: nat)
      requires c.shardCount > 0 && |records| == base && counts == CountsOf(records) && InWindow(c, base, seed)
      requires selected == |SelectedSeeds(c.seedStart, c.programs, c.shardIndex, c.shardCount)|
      requires goal == Loop(run, c, previous, records, turns, torn, View())
      modifies this
      ensures stop.Some? ==> goal == (stop.value, View())
      ensures stop.None? ==> |longer| == base + |c.families| && newCounts == CountsOf(longer)
      ensures stop.None? ==> goal == Loop(run, c, previous, longer, budget, torn, View())
    {
      longer, newCounts, budget := records, counts, turns;
      stop := None;
      for j := 0 to |c.families|
        invariant |longer| == base + j && newCounts == CountsOf(longer) && stop.None?
        invariant goal == Loop(run, c, previous, longer, budget, torn, View())
      {
        stop, longer, newCounts := RunRecord(run, c, previous, Key(c.families[j], seed), selected, longer, newCounts,
                                             budget, torn, goal);
        if stop.Some? {
          return;
        }
        budget := budget - 1;
      }
    }

    method RunRecords(run: Key -> Record, c: Config, previous: map<Key, Record>, turns: nat, torn: bool)
      returns (ending: Ending)
      requires c.shardCount > 0
      modifies this
      ensures (ending, View()) == Loop(run, c, previous, [], turns, torn, old(View()))
    {
      var seeds := SelectedSeeds(c.seedStart, c.programs, c.shardIndex, c.shardCount);
      var records: seq<Record> := [];
      var counts := Counts(0, 0, 0, 0, 0);
      var budget := turns;
      ghost var goal := Loop(run, c, previous, records, budget, torn, View());
      assert seeds[..|seeds|] == seeds;
      for i := 0 to |seeds|
        invariant |records| == |KeysOf(seeds[..i], c.families)| <= |Window(c)| && counts == CountsOf(records)
        invariant goal == Loop(run, c, previous, records, budget, torn, View())
      {
        WindowRow(c, seeds, i, |records|);
        var stop;
        stop, records, counts, budget := RunSeed(run, c, previous, seeds[i], |seeds|, |records|, records, counts,
                                                 budget, torn, goal);
        if stop.Some? {
          return stop.value;
        }
        NextSeed(seeds, c.families, i);
      }
      ending := Exit(ExitCode(counts));
    }
  }
}
