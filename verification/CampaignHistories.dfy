/** What any number of executions of tools/reflection_fuzz/campaign.py, interrupted or
    not, resumed or not, leave behind.  A manifest names a temporary directory, so every
    execution may leave another digest for the same program. */
module CampaignHistories {
  import opened Core
  import opened Campaign

  // ----- Runners -----

  /** run_one: the record of its key, one of the five statuses, the directory of that
      program; digest is that of the manifest it leaves, if it leaves one. */
  ghost predicate RunsIn(run: Key -> Record, dirs: Key -> string) {
    forall key :: RecordOk(run(key), key, dirs)
  }

  predicate RecordOk(r: Record, key: Key, dirs: Key -> string) {
    && r.key == key && !r.status.OtherStatus? && r.outputDir == Some(dirs(key))
    && (r.digest.Some? ==> |r.digest.value| == 64)
  }

  /** Every program has a directory of its own. */
  ghost predicate Apart(dirs: Key -> string) {
    && (forall key :: dirs(key) != "")
    && (forall a, b | dirs(a) == dirs(b) :: a == b)
  }

  // ----- One run of the loop -----

  /** The record at position k: taken over, or of a program run now. */
  function RecordAt(run: Key -> Record, c: Config, taken: seq<Record>, start: Disk, k: nat): Record
    requires c.shardCount > 0 && k < |Window(c)|
  {
    if k < |taken| then taken[k] else Recorded(run(Window(c)[k]), start)
  }

  function RecordsTo(run: Key -> Record, c: Config, taken: seq<Record>, start: Disk, n: nat): (r: seq<Record>)
    requires c.shardCount > 0 && n <= |Window(c)|
    ensures |r| == n && forall k | 0 <= k < n :: r[k] == RecordAt(run, c, taken, start, k)
  {
    seq(n, k requires 0 <= k < n => RecordAt(run, c, taken, start, k))
  }

  /** previous holds the records in taken, the first ones of the window. */
  ghost predicate TakenOver(c: Config, previous: map<Key, Record>, taken: seq<Record>)
    requires c.shardCount > 0
  {
    && |taken| <= |Window(c)|
    && (forall k | 0 <= k < |Window(c)| :: Window(c)[k] in previous <==> k < |taken|)
    && (forall k | 0 <= k < |taken| :: previous[Window(c)[k]] == taken[k])
  }

  /** The manifests once the first e programs have been taken over or run. */
  ghost predicate Visited(run: Key -> Record, dirs: Key -> string, c: Config, taken: seq<Record>, start: Disk,
                          now: Disk, e: nat)
    requires c.shardCount > 0
  {
    forall k | 0 <= k < |Window(c)| ::
      ManifestAt(now, dirs(Window(c)[k]))
      == if |taken| <= k < e then RecordAt(run, c, taken, start, k).digest else ManifestAt(start, dirs(Window(c)[k]))
  }

  lemma WrittenAt(disk: Disk, r: Record, dir: string)
    requires r.outputDir.Some?
    ensures ManifestAt(Written(disk, r), dir)
         == if r.digest.Some? && dir == r.outputDir.value then r.digest else ManifestAt(disk, dir)
  {
  }

  /** The next turn, before it writes the summary. */
  function Turned(run: Key -> Record, c: Config, taken: seq<Record>, now: Disk, n: nat): Disk
    requires c.shardCount > 0 && n < |Window(c)|
  {
    if n < |taken| then now else Written(now, Recorded(run(Window(c)[n]), now))
  }

  /** A program's own manifest is untouched before its turn. */
  lemma SameRecord(run: Key -> Record, dirs: Key -> string, c: Config, taken: seq<Record>, start: Disk, now: Disk,
                   n: nat)
    requires RunsIn(run, dirs) && c.shardCount > 0 && n < |Window(c)|
    requires Visited(run, dirs, c, taken, start, now, n)
    ensures RecordAt(run, c, taken, now, n) == RecordAt(run, c, taken, start, n)
  {
    assert RecordOk(run(Window(c)[n]), Window(c)[n], dirs);
  }

  lemma TurnVisits(run: Key -> Record, dirs: Key -> string, c: Config, taken: seq<Record>, start: Disk, now: Disk,
                   n: nat)
    requires RunsIn(run, dirs) && Apart(dirs) && c.shardCount > 0 && n < |Window(c)| && Distinct(Window(c))
    requires Visited(run, dirs, c, taken, start, now, n)
    ensures Visited(run, dirs, c, taken, start, Turned(run, c, taken, now, n), n + 1)
  {
    SameRecord(run, dirs, c, taken, start, now, n);
    var key := Window(c)[n];
    assert RecordOk(run(key), key, dirs);
    var x := Turned(run, c, taken, now, n);
    forall k | 0 <= k < |Window(c)|
      ensures ManifestAt(x, dirs(Window(c)[k]))
           == if |taken| <= k < n + 1 then RecordAt(run, c, taken, start, k).digest
              else ManifestAt(start, dirs(Window(c)[k]))
    {
      if n >= |taken| {
        WrittenAt(now, Recorded(run(key), now), dirs(Window(c)[k]));
        assert dirs(Window(c)[k]) == dirs(key) ==> k == n;
      }
    }
  }

  /** The summary is no manifest. */
  lemma VisitedSummary(run: Key -> Record, dirs: Key -> string, c: Config, taken: seq<Record>, start: Disk, now: Disk,
                       e: nat, summary: Option<Summary>)
    requires c.shardCount > 0 && Visited(run, dirs, c, taken, start, now, e)
    ensures Visited(run, dirs, c, taken, start, now.(summary := summary), e)
  {
    assert forall dir :: ManifestAt(now.(summary := summary), dir) == ManifestAt(now, dir);
  }

  /** How many programs the loop has visited when it stops after budget turns. */
  function VisitedBy(c: Config, budget: nat, torn: bool): (e: nat)
    requires c.shardCount > 0
  {
    var m := Reached(c, 0, budget);
    if torn && m < |Window(c)| then m + 1 else m
  }

  /** What the loop leaves after budget turns from the start. */
  ghost predicate LoopLeft(run: Key -> Record, dirs: Key -> string, c: Config, taken: seq<Record>, start: Disk,
                           budget: nat, torn: bool, end: (Ending, Disk))
    requires c.shardCount > 0
  {
    var m := Reached(c, 0, budget);
    var records := RecordsTo(run, c, taken, start, m);
    && Visited(run, dirs, c, taken, start, end.1, VisitedBy(c, budget, torn))
    && end.1.summary == (if m == 0 then start.summary else Some(SummaryOf(c, records)))
    && end.0 == if m == |Window(c)| then Exit(ExitCode(CountsOf(records))) else Interrupted
  }

  lemma RecordsGrow(run: Key -> Record, c: Config, taken: seq<Record>, start: Disk, n: nat)
    requires c.shardCount > 0 && n < |Window(c)|
    ensures RecordsTo(run, c, taken, start, n) + [RecordAt(run, c, taken, start, n)]
         == RecordsTo(run, c, taken, start, n + 1)
  {
  }

  /** One turn that is not cut short. */
  lemma LoopTurn(run: Key -> Record, c: Config, previous: map<Key, Record>, taken: seq<Record>, now: Disk,
                 records: seq<Record>, longer: seq<Record>, budget: nat, torn: bool)
    requires c.shardCount > 0 && |records| < |Window(c)| && budget > 0 && TakenOver(c, previous, taken)
    requires longer == records + [RecordAt(run, c, taken, now, |records|)]
    requires !RecordAt(run, c, taken, now, |records|).status.OtherStatus?
    ensures Loop(run, c, previous, records, budget, torn, now)
         == Loop(run, c, previous, longer, budget - 1, torn,
                 Turned(run, c, taken, now, |records|).(summary := Some(SummaryOf(c, longer))))
  {
  }

  /** The turn in which the loop is interrupted, or finds nothing left to do. */
  lemma LoopStops(run: Key -> Record, c: Config, previous: map<Key, Record>, taken: seq<Record>, now: Disk,
                  records: seq<Record>, budget: nat, torn: bool)
    requires c.shardCount > 0 && |records| <= |Window(c)| && TakenOver(c, previous, taken)
    requires |records| == |Window(c)| || budget == 0
    ensures Loop(run, c, previous, records, budget, torn, now)
         == if |records| == |Window(c)| then (Exit(ExitCode(CountsOf(records))), now)
            else (Interrupted, if torn then Turned(run, c, taken, now, |records|) else now)
  {
  }

  /** Statuses of taken records are known ones. */
  ghost predicate Known(taken: seq<Record>) {
    forall k | 0 <= k < |taken| :: !taken[k].status.OtherStatus?
  }

  lemma KnownAt(run: Key -> Record, dirs: Key -> string, c: Config, taken: seq<Record>, start: Disk, k: nat)
    requires RunsIn(run, dirs) && Known(taken) && c.shardCount > 0 && k < |Window(c)|
    ensures !RecordAt(run, c, taken, start, k).status.OtherStatus?
  {
    assert RecordOk(run(Window(c)[k]), Window(c)[k], dirs);
  }

  /** The loop after n turns: what is left to do ends like the whole. */
  ghost predicate Underway(run: Key -> Record, dirs: Key -> string, c: Config, previous: map<Key, Record>,
                           taken: seq<Record>, start: Disk, now: Disk, n: nat, budget: nat, torn: bool,
                           whole: (Ending, Disk))
    requires c.shardCount > 0 && n <= |Window(c)| && n <= budget
  {
    && Visited(run, dirs, c, taken, start, now, n)
    && now.summary == (if n == 0 then start.summary else Some(SummaryOf(c, RecordsTo(run, c, taken, start, n))))
    && whole == Loop(run, c, previous, RecordsTo(run, c, taken, start, n), budget - n, torn, now)
  }

  lemma UnderwayNext(run: Key -> Record, dirs: Key -> string, c: Config, previous: map<Key, Record>,
                     taken: seq<Record>, start: Disk, now: Disk, n: nat, budget: nat, torn: bool,
                     whole: (Ending, Disk)) returns (next: Disk)
    requires RunsIn(run, dirs) && Apart(dirs) && c.shardCount > 0 && Distinct(Window(c))
    requires TakenOver(c, previous, taken) && Known(taken) && n < |Window(c)| && n < budget
    requires Underway(run, dirs, c, previous, taken, start, now, n, budget, torn, whole)
    ensures Underway(run, dirs, c, previous, taken, start, next, n + 1, budget, torn, whole)
  {
    var records, longer := RecordsTo(run, c, taken, start, n), RecordsTo(run, c, taken, start, n + 1);
    SameRecord(run, dirs, c, taken, start, now, n);
    RecordsGrow(run, c, taken, start, n);
    KnownAt(run, dirs, c, taken, now, n);
    LoopTurn(run, c, previous, taken, now, records, longer, budget - n, torn);
    TurnVisits(run, dirs, c, taken, start, now, n);
    next := Turned(run, c, taken, now, n).(summary := Some(SummaryOf(c, longer)));
    VisitedSummary(run, dirs, c, taken, start, Turned(run, c, taken, now, n), n + 1, Some(SummaryOf(c, longer)));
  }

  lemma UnderwayEnds(run: Key -> Record, dirs: Key -> string, c: Config, previous: map<Key, Record>,
                     taken: seq<Record>, start: Disk, now: Disk, n: nat, budget: nat, torn: bool,
                     whole: (Ending, Disk))
    requires RunsIn(run, dirs) && Apart(dirs) && c.shardCount > 0 && Distinct(Window(c))
    requires TakenOver(c, previous, taken) && n == Reached(c, 0, budget)
    requires Underway(run, dirs, c, previous, taken, start, now, n, budget, torn, whole)
    ensures LoopLeft(run, dirs, c, taken, start, budget, torn, whole)
  {
    LoopStops(run, c, previous, taken, now, RecordsTo(run, c, taken, start, n), budget - n, torn);
    if n < |Window(c)| && torn {
      TurnVisits(run, dirs, c, taken, start, now, n);
    }
  }

  /** From any disk, and whatever was taken over: the loop leaves the manifests, the
      summary and the ending that follow from the disk it started on. */
  lemma LoopLeaves(run: Key -> Record, dirs: Key -> string, c: Config, previous: map<Key, Record>,
                   taken: seq<Record>, start: Disk, budget: nat, torn: bool)
    requires RunsIn(run, dirs) && Apart(dirs) && c.shardCount > 0 && Distinct(Window(c))
    requires TakenOver(c, previous, taken) && Known(taken)
    ensures LoopLeft(run, dirs, c, taken, start, budget, torn, Loop(run, c, previous, [], budget, torn, start))
  {
    var whole := Loop(run, c, previous, [], budget, torn, start);
    var m := Reached(c, 0, budget);
    var now := start;
    assert RecordsTo(run, c, taken, start, 0) == [];
    for n := 0 to m
      invariant n <= |Window(c)| && n <= budget
      invariant Underway(run, dirs, c, previous, taken, start, now, n, budget, torn, whole)
    {
      now := UnderwayNext(run, dirs, c, previous, taken, start, now, n, budget, torn, whole);
    }
    UnderwayEnds(run, dirs, c, previous, taken, start, now, m, budget, torn, whole);
  }

  // ----- What lies in the directory between executions -----

  function DirAt(dirs: Key -> string, c: Config, k: nat): string
    requires c.shardCount > 0 && k < |Window(c)|
  {
    dirs(Window(c)[k])
  }

  /** Digests are SHA-256 in hexadecimal. */
  ghost predicate Hashed(dirs: Key -> string, c: Config, disk: Disk)
    requires c.shardCount > 0
  {
    forall k | 0 <= k < |Window(c)| ::
      ManifestAt(disk, DirAt(dirs, c, k)).Some? ==> |ManifestAt(disk, DirAt(dirs, c, k)).value| == 64
  }

  ghost predicate RecordsOk(dirs: Key -> string, c: Config, records: seq<Record>)
    requires c.shardCount > 0
  {
    |records| <= |Window(c)| && forall k | 0 <= k < |records| :: RecordOk(records[k], Window(c)[k], dirs)
  }

  /** The manifest of record k is the one the record was made of. */
  predicate Intact(dirs: Key -> string, c: Config, disk: Disk, records: seq<Record>, k: nat)
    requires c.shardCount > 0 && k < |records| <= |Window(c)|
  {
    ManifestAt(disk, DirAt(dirs, c, k)) == records[k].digest
  }

  /** The summary, if any, lists the first programs of the window, and every manifest
      but perhaps the first is the recorded one. */
  ghost predicate Stored(dirs: Key -> string, c: Config, disk: Disk, records: seq<Record>)
    requires c.shardCount > 0
  {
    && Hashed(dirs, c, disk) && RecordsOk(dirs, c, records)
    && disk.summary == (if records == [] then None else Some(SummaryOf(c, records)))
    && (forall k | 1 <= k < |records| :: Intact(dirs, c, disk, records, k))
    && (records != [] && records[0].digest.Some? ==> ManifestAt(disk, DirAt(dirs, c, 0)).Some?)
  }

  // ----- Resuming -----

  /** A manifest written since is found at the first record, if anywhere. */
  ghost predicate FirstMutated(dirs: Key -> string, c: Config, disk: Disk, records: seq<Record>)
    requires c.shardCount > 0 && |records| <= |Window(c)|
  {
    records != [] && records[0].digest.Some? && !Intact(dirs, c, disk, records, 0)
  }

  ghost predicate SomeUndigested(records: seq<Record>, i: int) {
    exists k :: 0 <= i <= k < |records| && records[k].digest.None?
  }

  /** What resuming answers. */
  ghost function Verdict(dirs: Key -> string, c: Config, disk: Disk, records: seq<Record>): Option<Refusal>
    requires c.shardCount > 0 && |records| <= |Window(c)|
  {
    if FirstMutated(dirs, c, disk, records) then Some(MutatedManifest)
    else if SomeUndigested(records, 0) then Some(MissingDigest)
    else None
  }

  lemma ArtifactAt(dirs: Key -> string, c: Config, disk: Disk, records: seq<Record>, k: nat)
    requires c.shardCount > 0 && Apart(dirs) && Stored(dirs, c, disk, records) && k < |records|
    ensures CheckArtifact(records[k], disk)
         == if records[k].digest.None? then Some(MissingDigest)
            else if !Intact(dirs, c, disk, records, k) then Some(MutatedManifest)
            else None
  {
    assert RecordOk(records[k], Window(c)[k], dirs);
    if k > 0 {
      assert Intact(dirs, c, disk, records, k);
    }
  }

  /** The keys of the first i records. */
  ghost predicate SeenUpTo(c: Config, i: nat, seen: set<Key>)
    requires c.shardCount > 0 && i <= |Window(c)|
  {
    forall k | 0 <= k < |Window(c)| :: Window(c)[k] in seen <==> k < i
  }

  ghost predicate Listed(c: Config, records: seq<Record>, entries: seq<Entry>, expected: set<Key>)
    requires c.shardCount > 0 && |records| <= |Window(c)|
  {
    && |entries| == |records| && Distinct(Window(c))
    && (forall k | 0 <= k < |records| :: entries[k] == Whole(records[k]))
    && (forall k | 0 <= k < |Window(c)| :: Window(c)[k] in expected)
  }

  lemma CheckOne(dirs: Key -> string, c: Config, disk: Disk, records: seq<Record>, entries: seq<Entry>,
                 expected: set<Key>, i: nat, seen: set<Key>)
    requires c.shardCount > 0 && Apart(dirs) && Stored(dirs, c, disk, records) && i < |records|
    requires Listed(c, records, entries, expected) && SeenUpTo(c, i, seen)
    ensures CheckEntries(entries, i, seen, expected, true, disk)
         == if CheckArtifact(records[i], disk).Some? then CheckArtifact(records[i], disk)
            else CheckEntries(entries, i + 1, seen + {Window(c)[i]}, expected, true, disk)
    ensures SeenUpTo(c, i + 1, seen + {Window(c)[i]})
  {
    assert RecordOk(records[i], Window(c)[i], dirs);
  }

  lemma UndigestedFrom(records: seq<Record>, i: nat)
    requires i < |records|
    ensures SomeUndigested(records, i) <==> records[i].digest.None? || SomeUndigested(records, i + 1)
  {
  }

  lemma {:induction false} CheckRest(dirs: Key -> string, c: Config, disk: Disk, records: seq<Record>,
                                     entries: seq<Entry>, expected: set<Key>, i: nat, seen: set<Key>)
    requires c.shardCount > 0 && Apart(dirs) && Stored(dirs, c, disk, records) && 1 <= i <= |records|
    requires Listed(c, records, entries, expected) && SeenUpTo(c, i, seen)
    ensures CheckEntries(entries, i, seen, expected, true, disk)
         == if SomeUndigested(records, i) then Some(MissingDigest) else None
    decreases |records| - i
  {
    if i < |records| {
      ArtifactAt(dirs, c, disk, records, i);
      CheckOne(dirs, c, disk, records, entries, expected, i, seen);
      assert Intact(dirs, c, disk, records, i);
      if records[i].digest.Some? {
        CheckRest(dirs, c, disk, records, entries, expected, i + 1, seen + {Window(c)[i]});
      }
      UndigestedFrom(records, i);
    }
  }

  /** A summary found in the directory is refused exactly when its first manifest has
      changed, or else when one of its records has no digest. */
  lemma ResumeVerdict(dirs: Key -> string, c: Config, disk: Disk, records: seq<Record>)
    requires ArgumentsOk(c) && Distinct(c.families) && Apart(dirs) && Stored(dirs, c, disk, records) && records != []
    ensures CheckSummary(disk.summary.value, c, ExpectedRecords(c), true, disk) == Verdict(dirs, c, disk, records)
  {
    var entries := disk.summary.value.programs;
    WindowDistinct(c);
    ArtifactAt(dirs, c, disk, records, 0);
    CheckOne(dirs, c, disk, records, entries, ExpectedRecords(c), 0, {});
    CheckRest(dirs, c, disk, records, entries, ExpectedRecords(c), 1, {} + {Window(c)[0]});
    UndigestedFrom(records, 0);
  }

  lemma {:induction false} PreviousOfRecords(dirs: Key -> string, c: Config, records: seq<Record>, entries: seq<Entry>,
                                             n: nat)
    requires c.shardCount > 0 && Distinct(Window(c)) && RecordsOk(dirs, c, records) && n <= |records|
    requires |entries| == n && forall k | 0 <= k < n :: entries[k] == Whole(records[k])
    ensures TakenOver(c, PreviousOf(entries), records[..n])
    decreases n
  {
    if n > 0 {
      PreviousOfRecords(dirs, c, records, entries[..n - 1], n - 1);
      assert RecordOk(records[n - 1], Window(c)[n - 1], dirs);
    }
  }

  // ----- One execution -----

  /** Resuming takes the stored records over. */
  function Taken(a: Attempt, records: seq<Record>): seq<Record> {
    if a.resume then records else []
  }

  ghost predicate TurnedAway(dirs: Key -> string, c: Config, a: Attempt, disk: Disk, records: seq<Record>)
    requires c.shardCount > 0 && |records| <= |Window(c)|
  {
    a.resume && Verdict(dirs, c, disk, records).Some?
  }

  lemma ExecuteIs(run: Key -> Record, dirs: Key -> string, c: Config, a: Attempt, disk: Disk, records: seq<Record>)
    requires RunsIn(run, dirs) && Apart(dirs) && ArgumentsOk(c) && Distinct(c.families)
    requires Stored(dirs, c, disk, records)
    ensures if TurnedAway(dirs, c, a, disk, records)
            then Execute(run, c, a, disk) == (Refused(Verdict(dirs, c, disk, records).value), disk)
            else LoopLeft(run, dirs, c, Taken(a, records), disk, a.budget, a.torn, Execute(run, c, a, disk))
  {
    WindowDistinct(c);
    if a.resume && records != [] {
      ResumeVerdict(dirs, c, disk, records);
      var entries := disk.summary.value.programs;
      PreviousOfRecords(dirs, c, records, entries, |records|);
      assert records[..|records|] == records;
      KnownStored(dirs, c, disk, records);
      LoopLeaves(run, dirs, c, PreviousOf(entries), records, disk, a.budget, a.torn);
    } else {
      LoopLeaves(run, dirs, c, map[], [], disk, a.budget, a.torn);
    }
  }

  lemma KnownStored(dirs: Key -> string, c: Config, disk: Disk, records: seq<Record>)
    requires c.shardCount > 0 && Stored(dirs, c, disk, records)
    ensures Known(records)
  {
    forall k | 0 <= k < |records| ensures !records[k].status.OtherStatus? {
      assert RecordOk(records[k], Window(c)[k], dirs);
    }
  }

  /** The records in the summary after one more execution. */
  ghost function After(run: Key -> Record, dirs: Key -> string, c: Config, a: Attempt, disk: Disk, records: seq<Record>)
    : seq<Record>
    requires c.shardCount > 0 && |records| <= |Window(c)|
  {
    var m := Reached(c, 0, a.budget);
    if TurnedAway(dirs, c, a, disk, records) || m == 0 then records
    else RecordsTo(run, c, Taken(a, records), disk, m)
  }

  lemma RecordAtOk(run: Key -> Record, dirs: Key -> string, c: Config, taken: seq<Record>, start: Disk, k: nat)
    requires RunsIn(run, dirs) && c.shardCount > 0 && Hashed(dirs, c, start) && RecordsOk(dirs, c, taken)
    requires k < |Window(c)|
    ensures RecordOk(RecordAt(run, c, taken, start, k), Window(c)[k], dirs)
  {
    assert RecordOk(run(Window(c)[k]), Window(c)[k], dirs);
    assert ManifestAt(start, DirAt(dirs, c, k)).Some? ==> |ManifestAt(start, DirAt(dirs, c, k)).value| == 64;
    if k < |taken| {
      assert RecordOk(taken[k], Window(c)[k], dirs);
    }
  }

  lemma HashedAfter(run: Key -> Record, dirs: Key -> string, c: Config, taken: seq<Record>, start: Disk, now: Disk,
                    e: nat)
    requires RunsIn(run, dirs) && c.shardCount > 0 && Hashed(dirs, c, start) && RecordsOk(dirs, c, taken)
    requires Visited(run, dirs, c, taken, start, now, e)
    ensures Hashed(dirs, c, now)
  {
    forall k | 0 <= k < |Window(c)|
      ensures ManifestAt(now, DirAt(dirs, c, k)).Some? ==> |ManifestAt(now, DirAt(dirs, c, k)).value| == 64
    {
      RecordAtOk(run, dirs, c, taken, start, k);
      assert ManifestAt(start, DirAt(dirs, c, k)).Some? ==> |ManifestAt(start, DirAt(dirs, c, k)).value| == 64;
    }
  }

  /** The summary has been written anew. */
  lemma StoredAnew(run: Key -> Record, dirs: Key -> string, c: Config, taken: seq<Record>, start: Disk, now: Disk,
                   m: nat, e: nat)
    requires RunsIn(run, dirs) && c.shardCount > 0 && Hashed(dirs, c, start) && RecordsOk(dirs, c, taken)
    requires 0 < m <= |Window(c)| && m <= e && Visited(run, dirs, c, taken, start, now, e)
    requires now.summary == Some(SummaryOf(c, RecordsTo(run, c, taken, start, m)))
    requires forall k | 0 <= k < |taken| :: Intact(dirs, c, start, taken, k)
    ensures Stored(dirs, c, now, RecordsTo(run, c, taken, start, m))
    ensures Intact(dirs, c, now, RecordsTo(run, c, taken, start, m), 0)
  {
    var records := RecordsTo(run, c, taken, start, m);
    HashedAfter(run, dirs, c, taken, start, now, e);
    forall k | 0 <= k < m ensures RecordOk(records[k], Window(c)[k], dirs) && Intact(dirs, c, now, records, k) {
      RecordAtOk(run, dirs, c, taken, start, k);
      if k < |taken| {
        assert Intact(dirs, c, start, taken, k);
      }
    }
  }

  /** The summary has been left as it was. */
  lemma StoredStill(run: Key -> Record, dirs: Key -> string, c: Config, taken: seq<Record>, start: Disk, now: Disk,
                    e: nat, records: seq<Record>)
    requires RunsIn(run, dirs) && c.shardCount > 0 && Stored(dirs, c, start, records) && RecordsOk(dirs, c, taken)
    requires e <= 1 && Visited(run, dirs, c, taken, start, now, e) && now.summary == start.summary
    ensures Stored(dirs, c, now, records)
  {
    HashedAfter(run, dirs, c, taken, start, now, e);
    forall k | 1 <= k < |records| ensures Intact(dirs, c, now, records, k) {
      assert Intact(dirs, c, start, records, k);
    }
    if records != [] {
      assert RecordOk(run(Window(c)[0]), Window(c)[0], dirs);
    }
  }

  /** A resumption that is let in has found every manifest as recorded. */
  lemma AllIntact(dirs: Key -> string, c: Config, a: Attempt, disk: Disk, records: seq<Record>)
    requires c.shardCount > 0 && Stored(dirs, c, disk, records) && !TurnedAway(dirs, c, a, disk, records)
    ensures forall k | 0 <= k < |Taken(a, records)| :: Intact(dirs, c, disk, Taken(a, records), k)
  {
    forall k | 0 <= k < |Taken(a, records)| ensures Intact(dirs, c, disk, Taken(a, records), k) {
      if k > 0 {
        assert Intact(dirs, c, disk, records, k);
      } else {
        assert records[0].digest.None? ==> SomeUndigested(records, 0);
      }
    }
  }

  /** Every execution leaves a first part of the window again. */
  lemma ExecuteStores(run: Key -> Record, dirs: Key -> string, c: Config, a: Attempt, disk: Disk, records: seq<Record>)
    requires RunsIn(run, dirs) && Apart(dirs) && ArgumentsOk(c) && Distinct(c.families)
    requires Stored(dirs, c, disk, records)
    ensures Stored(dirs, c, Execute(run, c, a, disk).1, After(run, dirs, c, a, disk, records))
  {
    ExecuteIs(run, dirs, c, a, disk, records);
    if !TurnedAway(dirs, c, a, disk, records) {
      var x, m, e := Execute(run, c, a, disk).1, Reached(c, 0, a.budget), VisitedBy(c, a.budget, a.torn);
      if m > 0 {
        AllIntact(dirs, c, a, disk, records);
        StoredAnew(run, dirs, c, Taken(a, records), disk, x, m, e);
      } else {
        StoredStill(run, dirs, c, Taken(a, records), disk, x, e, records);
      }
    }
  }

  // ----- Histories -----

  /** What each execution finds, run by run. */
  type Runs = nat -> Key -> Record

  ghost predicate AllRunIn(runs: Runs, dirs: Key -> string) {
    forall i: nat :: RunsIn(runs(i), dirs)
  }

  /** Executions one after another, the first in an empty directory. */
  function History(runs: Runs, c: Config, attempts: seq<Attempt>): Disk {
    if attempts == [] then EMPTY
    else
      var last := |attempts| - 1;
      Execute(runs(last), c, attempts[last], History(runs, c, attempts[..last])).1
  }

  /** The execution that the first record of the summary comes from: the last one that
      ran the first program and got to write the summary. */
  function Recorder(c: Config, attempts: seq<Attempt>): (j: Option<nat>)
    requires c.shardCount > 0
    ensures j.Some? ==> j.value < |attempts|
    decreases |attempts|, 0
  {
    if attempts == [] then None
    else
      var last := |attempts| - 1;
      if StartsOver(c, attempts[..last], attempts[last]) && Reached(c, 0, attempts[last].budget) > 0 then Some(last)
      else Recorder(c, attempts[..last])
  }

  /** The execution begins by running the first program: it does not resume, or there is
      nothing to resume. */
  predicate StartsOver(c: Config, before: seq<Attempt>, a: Attempt)
    requires c.shardCount > 0
    decreases |before|, 1
  {
    !a.resume || Recorder(c, before).None?
  }

  /** The manifest of the first program after these executions: the last one left. */
  function Left(runs: Runs, c: Config, attempts: seq<Attempt>): Option<string>
    requires c.shardCount > 0 && Window(c) != []
  {
    if attempts == [] then None
    else
      var last := |attempts| - 1;
      var a, digest := attempts[last], runs(last)(Window(c)[0]).digest;
      if StartsOver(c, attempts[..last], a) && (a.budget > 0 || a.torn) && digest.Some? then digest
      else Left(runs, c, attempts[..last])
  }

  /** The digest in the first record of the summary. */
  function FirstDigest(runs: Runs, c: Config, attempts: seq<Attempt>): Option<string>
    requires c.shardCount > 0 && Window(c) != [] && Recorder(c, attempts).Some?
  {
    Left(runs, c, attempts[..Recorder(c, attempts).value + 1])
  }

  /** Each record is one that some execution found, but for the digest. */
  ghost predicate FromRuns(runs: Runs, c: Config, n: nat, records: seq<Record>)
    requires c.shardCount > 0 && |records| <= |Window(c)|
  {
    forall k | 0 <= k < |records| :: RanAt(runs, c, n, k, records[k])
  }

  ghost predicate RanAt(runs: Runs, c: Config, n: nat, k: nat, r: Record)
    requires c.shardCount > 0 && k < |Window(c)|
  {
    exists i: nat :: i < n && r.(digest := None) == runs(i)(Window(c)[k]).(digest := None)
  }

  lemma FromRunsAfter(runs: Runs, dirs: Key -> string, c: Config, n: nat, a: Attempt, disk: Disk, records: seq<Record>)
    requires c.shardCount > 0 && |records| <= |Window(c)| && FromRuns(runs, c, n, records)
    ensures |After(runs(n), dirs, c, a, disk, records)| <= |Window(c)|
    ensures FromRuns(runs, c, n + 1, After(runs(n), dirs, c, a, disk, records))
  {
    var longer := After(runs(n), dirs, c, a, disk, records);
    forall k | 0 <= k < |longer| ensures RanAt(runs, c, n + 1, k, longer[k]) {
      if k < |records| && longer[k] == records[k] {
        assert RanAt(runs, c, n, k, records[k]);
        var i: nat :| i < n && records[k].(digest := None) == runs(i)(Window(c)[k]).(digest := None);
        assert i < n + 1;
      } else {
        assert longer[k].(digest := None) == runs(n)(Window(c)[k]).(digest := None);
      }
    }
  }

  /** What is told of the first program. */
  ghost predicate TellsFirst(runs: Runs, dirs: Key -> string, c: Config, attempts: seq<Attempt>, disk: Disk,
                             records: seq<Record>)
    requires c.shardCount > 0
  {
    && (records != [] <==> Recorder(c, attempts).Some?)
    && (Window(c) != [] ==> ManifestAt(disk, DirAt(dirs, c, 0)) == Left(runs, c, attempts))
    && (Window(c) != [] && records != [] ==> records[0].digest == FirstDigest(runs, c, attempts))
  }

  /** What the summary and the first manifest say after these executions. */
  ghost predicate Tells(runs: Runs, dirs: Key -> string, c: Config, attempts: seq<Attempt>, disk: Disk,
                        records: seq<Record>)
    requires c.shardCount > 0
  {
    && Stored(dirs, c, disk, records) && FromRuns(runs, c, |attempts|, records)
    && TellsFirst(runs, dirs, c, attempts, disk, records)
  }

  /** The first program's manifest and record, after one more execution. */
  lemma FirstAfter(run: Key -> Record, dirs: Key -> string, c: Config, a: Attempt, disk: Disk, records: seq<Record>)
    requires RunsIn(run, dirs) && Apart(dirs) && ArgumentsOk(c) && Distinct(c.families)
    requires Stored(dirs, c, disk, records)
    requires Window(c) != []
    ensures var x, longer := Execute(run, c, a, disk).1, After(run, dirs, c, a, disk, records);
            var runsFirst := !(a.resume && records != []) && (a.budget > 0 || a.torn);
            var digest := run(Window(c)[0]).digest;
            && ManifestAt(x, DirAt(dirs, c, 0))
               == (if runsFirst && digest.Some? then digest else ManifestAt(disk, DirAt(dirs, c, 0)))
            && (longer == [] <==> records == [] && a.budget == 0)
            && (longer != [] ==>
                  longer[0].digest == if !(a.resume && records != []) && a.budget > 0
                                      then ManifestAt(x, DirAt(dirs, c, 0)) else records[0].digest)
  {
    ExecuteIs(run, dirs, c, a, disk, records);
    assert RecordOk(run(Window(c)[0]), Window(c)[0], dirs);
  }

  lemma RecorderNext(c: Config, before: seq<Attempt>, a: Attempt, attempts: seq<Attempt>)
    requires c.shardCount > 0 && attempts == before + [a]
    ensures Recorder(c, attempts)
         == if StartsOver(c, before, a) && Reached(c, 0, a.budget) > 0 then Some(|before|) else Recorder(c, before)
  {
    assert attempts[..|attempts| - 1] == before && attempts[|attempts| - 1] == a;
  }

  lemma LeftNext(runs: Runs, c: Config, before: seq<Attempt>, a: Attempt, attempts: seq<Attempt>)
    requires c.shardCount > 0 && Window(c) != [] && attempts == before + [a]
    ensures var digest := runs(|before|)(Window(c)[0]).digest;
            Left(runs, c, attempts)
            == if StartsOver(c, before, a) && (a.budget > 0 || a.torn) && digest.Some? then digest
               else Left(runs, c, before)
  {
    assert attempts[..|attempts| - 1] == before && attempts[|attempts| - 1] == a;
  }

  lemma FirstDigestAt(runs: Runs, c: Config, attempts: seq<Attempt>, prefix: seq<Attempt>, j: nat)
    requires c.shardCount > 0 && Window(c) != [] && Recorder(c, attempts) == Some(j)
    requires j < |attempts| && prefix == attempts[..j + 1]
    ensures FirstDigest(runs, c, attempts) == Left(runs, c, prefix)
  {
  }

  lemma SharedPrefix<T>(before: seq<T>, a: T, n: nat)
    requires n <= |before|
    ensures (before + [a])[..n] == before[..n]
  {
  }

  lemma FirstDigestNext(runs: Runs, c: Config, before: seq<Attempt>, a: Attempt, attempts: seq<Attempt>)
    requires c.shardCount > 0 && Window(c) != [] && attempts == before + [a] && Recorder(c, attempts).Some?
    ensures StartsOver(c, before, a) && a.budget > 0 ==> FirstDigest(runs, c, attempts) == Left(runs, c, attempts)
    ensures !(StartsOver(c, before, a) && a.budget > 0) ==>
              Recorder(c, before).Some? && FirstDigest(runs, c, attempts) == FirstDigest(runs, c, before)
  {
    RecorderNext(c, before, a, attempts);
    if StartsOver(c, before, a) && a.budget > 0 {
      FirstDigestAt(runs, c, attempts, attempts, |before|);
    } else {
      var j := Recorder(c, before).value;
      SharedPrefix(before, a, j + 1);
      FirstDigestAt(runs, c, attempts, before[..j + 1], j);
      FirstDigestAt(runs, c, before, before[..j + 1], j);
    }
  }

  lemma FirstNext(runs: Runs, dirs: Key -> string, c: Config, before: seq<Attempt>, a: Attempt, attempts: seq<Attempt>,
                  disk: Disk, records: seq<Record>, x: Disk, longer: seq<Record>)
    requires AllRunIn(runs, dirs) && Apart(dirs) && ArgumentsOk(c) && Distinct(c.families)
    requires Stored(dirs, c, disk, records)
    requires TellsFirst(runs, dirs, c, before, disk, records) && attempts == before + [a]
    requires x == Execute(runs(|before|), c, a, disk).1 && longer == After(runs(|before|), dirs, c, a, disk, records)
    ensures TellsFirst(runs, dirs, c, attempts, x, longer)
  {
    RecorderNext(c, before, a, attempts);
    if Window(c) != [] {
      FirstAfter(runs(|before|), dirs, c, a, disk, records);
      LeftNext(runs, c, before, a, attempts);
      if Recorder(c, attempts).Some? {
        FirstDigestNext(runs, c, before, a, attempts);
      }
    }
  }

  lemma TellsNext(runs: Runs, dirs: Key -> string, c: Config, before: seq<Attempt>, a: Attempt, attempts: seq<Attempt>,
                  disk: Disk, records: seq<Record>, x: Disk, longer: seq<Record>)
    requires AllRunIn(runs, dirs) && Apart(dirs) && ArgumentsOk(c) && Distinct(c.families)
    requires Tells(runs, dirs, c, before, disk, records) && attempts == before + [a]
    requires x == Execute(runs(|before|), c, a, disk).1 && longer == After(runs(|before|), dirs, c, a, disk, records)
    ensures Tells(runs, dirs, c, attempts, x, longer)
  {
    assert RunsIn(runs(|before|), dirs);
    ExecuteStores(runs(|before|), dirs, c, a, disk, records);
    FromRunsAfter(runs, dirs, c, |before|, a, disk, records);
    FirstNext(runs, dirs, c, before, a, attempts, disk, records, x, longer);
  }

  /** Whatever executions and crashes there were, the summary lists the first programs
      of the one canonical sequence as executions found them, and every manifest but
      perhaps the first is the recorded one. */
  lemma {:induction false} EverySummaryIsAPrefix(runs: Runs, dirs: Key -> string, c: Config, attempts: seq<Attempt>)
    returns (records: seq<Record>)
    requires AllRunIn(runs, dirs) && Apart(dirs) && ArgumentsOk(c) && Distinct(c.families)
    ensures Tells(runs, dirs, c, attempts, History(runs, c, attempts), records)
  {
    if attempts == [] {
      records := [];
    } else {
      var last := |attempts| - 1;
      var before := attempts[..last];
      var shorter := EverySummaryIsAPrefix(runs, dirs, c, before);
      assert attempts == before + [attempts[last]];
      records := After(runs(last), dirs, c, attempts[last], History(runs, c, before), shorter);
      TellsNext(runs, dirs, c, before, attempts[last], attempts, History(runs, c, before), shorter,
                History(runs, c, attempts), records);
    }
  }

  // ----- Which histories spoil a resumption -----

  /** Since the summary's first record was made, another manifest was left for its
      program. */
  predicate Overwritten(runs: Runs, c: Config, attempts: seq<Attempt>)
    requires c.shardCount > 0 && Window(c) != []
  {
    && Recorder(c, attempts).Some? && FirstDigest(runs, c, attempts).Some?
    && Left(runs, c, attempts) != FirstDigest(runs, c, attempts)
  }

  /** Resuming finds a changed manifest exactly when the history overwrote the first
      one; the condition does not look at the disk. */
  lemma MutatedIff(runs: Runs, dirs: Key -> string, c: Config, attempts: seq<Attempt>, last: Attempt)
    requires AllRunIn(runs, dirs) && Apart(dirs) && ArgumentsOk(c) && Distinct(c.families) && Window(c) != []
    ensures var (ending, x) := Execute(runs(|attempts|), c, last, History(runs, c, attempts));
            ending == Refused(MutatedManifest) <==> last.resume && Overwritten(runs, c, attempts)
  {
    var disk := History(runs, c, attempts);
    var records := EverySummaryIsAPrefix(runs, dirs, c, attempts);
    ExecuteIs(runs(|attempts|), dirs, c, last, disk, records);
  }

  /** An execution that starts over and is interrupted in its first turn, when the first
      program has left its manifest already. */
  predicate TornRestart(a: Attempt) {
    !a.resume && a.budget == 0 && a.torn
  }

  /** Without such an execution nothing is ever overwritten, whatever digests the
      executions find. */
  lemma {:induction false} OnlyTornRestarts(runs: Runs, c: Config, attempts: seq<Attempt>)
    requires ArgumentsOk(c) && Window(c) != [] && forall i | 0 <= i < |attempts| :: !TornRestart(attempts[i])
    ensures !Overwritten(runs, c, attempts)
  {
    if attempts != [] {
      var before, a := attempts[..|attempts| - 1], attempts[|attempts| - 1];
      OnlyTornRestarts(runs, c, before);
      assert attempts == before + [a];
      RecorderNext(c, before, a, attempts);
      LeftNext(runs, c, before, a, attempts);
      if Recorder(c, attempts).Some? {
        FirstDigestNext(runs, c, before, a, attempts);
      }
    }
  }

  /** Every run of the first program leaves the same digest, or none. */
  ghost predicate SameFirst(runs: Runs, c: Config, digest: Option<string>)
    requires c.shardCount > 0 && Window(c) != []
  {
    forall i: nat :: runs(i)(Window(c)[0]).digest == digest
  }

  lemma {:induction false} SameLeft(runs: Runs, c: Config, attempts: seq<Attempt>, digest: Option<string>)
    requires c.shardCount > 0 && Window(c) != [] && SameFirst(runs, c, digest)
    ensures Left(runs, c, attempts) == None || Left(runs, c, attempts) == digest
  {
    if attempts != [] {
      SameLeft(runs, c, attempts[..|attempts| - 1], digest);
    }
  }

  /** One more execution keeps the last manifest or leaves its own. */
  lemma LeftStays(runs: Runs, c: Config, before: seq<Attempt>, a: Attempt, attempts: seq<Attempt>)
    requires c.shardCount > 0 && Window(c) != [] && attempts == before + [a] && Left(runs, c, before).Some?
    ensures Left(runs, c, attempts).Some?
  {
    LeftNext(runs, c, before, a, attempts);
  }

  lemma {:induction false} LeftSince(runs: Runs, c: Config, attempts: seq<Attempt>, n: nat)
    requires c.shardCount > 0 && Window(c) != [] && n <= |attempts| && Left(runs, c, attempts[..n]).Some?
    ensures Left(runs, c, attempts).Some?
  {
    if n == |attempts| {
      assert attempts[..n] == attempts;
    } else {
      var before, a := attempts[..|attempts| - 1], attempts[|attempts| - 1];
      assert before[..n] == attempts[..n] && attempts == before + [a];
      LeftSince(runs, c, before, n);
      LeftStays(runs, c, before, a, attempts);
    }
  }

  /** Nor is anything overwritten when the digest of the first program never varies. */
  lemma SameDigestsKeep(runs: Runs, c: Config, attempts: seq<Attempt>, digest: Option<string>)
    requires ArgumentsOk(c) && Window(c) != [] && SameFirst(runs, c, digest)
    ensures !Overwritten(runs, c, attempts)
  {
    SameLeft(runs, c, attempts, digest);
    if Recorder(c, attempts).Some? {
      var n := Recorder(c, attempts).value + 1;
      SameLeft(runs, c, attempts[..n], digest);
      if Left(runs, c, attempts[..n]).Some? {
        LeftSince(runs, c, attempts, n);
      }
    }
  }

  /** The history that shows it: an execution that records the first program, then one
      without --resume that is interrupted in its first turn.  With another digest, the
      campaign can no longer be resumed. */
  lemma TornRestartSpoils(runs: Runs, dirs: Key -> string, c: Config, first: Attempt, last: Attempt)
    requires AllRunIn(runs, dirs) && Apart(dirs) && ArgumentsOk(c) && Distinct(c.families) && Window(c) != []
    requires first.budget > 0 && last.resume
    requires var one, two := runs(0)(Window(c)[0]).digest, runs(1)(Window(c)[0]).digest;
             one.Some? && two.Some? && one != two
    ensures var torn := Attempt(false, 0, true);
            && Execute(runs(2), c, last, History(runs, c, [first, torn])).0 == Refused(MutatedManifest)
            && Execute(runs(1), c, last, History(runs, c, [first])).0 != Refused(MutatedManifest)
  {
    var torn := Attempt(false, 0, true);
    var none: seq<Attempt> := [];
    RecorderNext(c, none, first, [first]);
    LeftNext(runs, c, none, first, [first]);
    FirstDigestNext(runs, c, none, first, [first]);
    assert [first] + [torn] == [first, torn];
    RecorderNext(c, [first], torn, [first, torn]);
    LeftNext(runs, c, [first], torn, [first, torn]);
    FirstDigestNext(runs, c, [first], torn, [first, torn]);
    MutatedIff(runs, dirs, c, [first, torn], last);
    MutatedIff(runs, dirs, c, [first], last);
  }

  // ----- Executions that get through -----

  /** The summary without its digests. */
  function Undigested(s: Summary): Summary {
    s.(programs := seq(|s.programs|, k requires 0 <= k < |s.programs| =>
      if s.programs[k].Whole? then Whole(s.programs[k].record.(digest := None)) else s.programs[k]))
  }

  /** All executions find the same statuses. */
  ghost predicate SameStatuses(runs: Runs) {
    forall i: nat, j: nat, key :: runs(i)(key).status == runs(j)(key).status
  }

  /** Records that differ in their digests only. */
  ghost predicate SameButDigests(a: seq<Record>, b: seq<Record>) {
    |a| == |b| && forall k | 0 <= k < |a| :: a[k].(digest := None) == b[k].(digest := None)
  }

  /** Records of the same programs with the same statuses. */
  ghost predicate SameVerdicts(a: seq<Record>, b: seq<Record>) {
    |a| == |b| && forall k | 0 <= k < |a| :: a[k].key == b[k].key && a[k].status == b[k].status
  }

  lemma ButDigestsIsVerdicts(a: seq<Record>, b: seq<Record>)
    requires SameButDigests(a, b)
    ensures SameVerdicts(a, b)
  {
    forall k | 0 <= k < |a| ensures a[k].key == b[k].key && a[k].status == b[k].status {
      var u, v := a[k].(digest := None), b[k].(digest := None);
      assert u == v && u.key == a[k].key && v.key == b[k].key && u.status == a[k].status && v.status == b[k].status;
    }
  }

  lemma {:induction false} SameCount(a: seq<Record>, b: seq<Record>, status: Status)
    requires SameVerdicts(a, b)
    ensures Count(a, status) == Count(b, status)
  {
    if a != [] {
      SameCount(a[..|a| - 1], b[..|b| - 1], status);
    }
  }

  lemma SameCounts(a: seq<Record>, b: seq<Record>)
    requires SameVerdicts(a, b)
    ensures CountsOf(a) == CountsOf(b)
  {
    SameCount(a, b, Agreement);
    SameCount(a, b, Disagreement);
    SameCount(a, b, CompileFailure);
    SameCount(a, b, InvariantFailure);
    SameCount(a, b, RunnerFailure);
  }

  lemma SameSummaries(c: Config, a: seq<Record>, b: seq<Record>)
    requires c.shardCount > 0 && SameButDigests(a, b)
    ensures Undigested(SummaryOf(c, a)) == Undigested(SummaryOf(c, b))
  {
    ButDigestsIsVerdicts(a, b);
    SameCounts(a, b);
  }

  /** Up to digests, a record of a history is what any execution finds. */
  lemma AsFoundNow(runs: Runs, dirs: Key -> string, c: Config, n: nat, taken: seq<Record>, start: Disk, k: nat, i: nat)
    requires AllRunIn(runs, dirs) && SameStatuses(runs) && c.shardCount > 0
    requires |taken| <= |Window(c)| && FromRuns(runs, c, n, taken) && k < |Window(c)|
    ensures RecordAt(runs(n), c, taken, start, k).(digest := None) == runs(i)(Window(c)[k]).(digest := None)
  {
    var key := Window(c)[k];
    assert RecordOk(runs(i)(key), key, dirs) && RecordOk(runs(n)(key), key, dirs);
    if k < |taken| {
      assert RanAt(runs, c, n, k, taken[k]);
      var j: nat :| j < n && taken[k].(digest := None) == runs(j)(key).(digest := None);
      assert RecordOk(runs(j)(key), key, dirs);
    }
  }

  lemma AllAsFoundNow(runs: Runs, dirs: Key -> string, c: Config, n: nat, taken: seq<Record>, start: Disk, i: nat,
                      m: nat)
    requires AllRunIn(runs, dirs) && SameStatuses(runs) && c.shardCount > 0
    requires |taken| <= |Window(c)| && FromRuns(runs, c, n, taken) && m <= |Window(c)|
    ensures SameButDigests(RecordsTo(runs(n), c, taken, start, m), RecordsTo(runs(i), c, [], EMPTY, m))
  {
    forall k | 0 <= k < m
      ensures RecordAt(runs(n), c, taken, start, k).(digest := None)
           == RecordAt(runs(i), c, [], EMPTY, k).(digest := None)
    {
      AsFoundNow(runs, dirs, c, n, taken, start, k, i);
    }
  }

  lemma EmptyStored(dirs: Key -> string, c: Config)
    requires c.shardCount > 0
    ensures Stored(dirs, c, EMPTY, [])
  {
  }

  /** An uninterrupted execution in an empty directory. */
  lemma SingleRun(run: Key -> Record, dirs: Key -> string, c: Config, single: Attempt)
    requires RunsIn(run, dirs) && Apart(dirs) && ArgumentsOk(c) && Distinct(c.families)
    requires single.budget >= |Window(c)|
    ensures var records := RecordsTo(run, c, [], EMPTY, |Window(c)|);
            var (ending, x) := Execute(run, c, single, EMPTY);
            && ending == Exit(ExitCode(CountsOf(records)))
            && x.summary == if Window(c) == [] then None else Some(SummaryOf(c, records))
  {
    EmptyStored(dirs, c);
    ExecuteIs(run, dirs, c, single, EMPTY, []);
  }

  /** Every record of the summary is backed by the manifest on disk. */
  ghost predicate Backed(disk: Disk) {
    disk.summary.Some? ==>
      forall k | 0 <= k < |disk.summary.value.programs| :: BackedEntry(disk, disk.summary.value.programs[k])
  }

  ghost predicate BackedEntry(disk: Disk, e: Entry) {
    e.Whole? && e.record.outputDir.Some? && e.record.digest == ManifestAt(disk, e.record.outputDir.value)
  }

  lemma StoredBacked(dirs: Key -> string, c: Config, disk: Disk, records: seq<Record>)
    requires c.shardCount > 0 && Stored(dirs, c, disk, records) && (records != [] ==> Intact(dirs, c, disk, records, 0))
    ensures Backed(disk)
  {
    if records != [] {
      forall k | 0 <= k < |records| ensures BackedEntry(disk, disk.summary.value.programs[k]) {
        assert RecordOk(records[k], Window(c)[k], dirs);
        if k > 0 {
          assert Intact(dirs, c, disk, records, k);
        }
      }
    }
  }

  /** An execution that is let in and gets through. */
  lemma GetsThrough(run: Key -> Record, dirs: Key -> string, c: Config, a: Attempt, disk: Disk, records: seq<Record>)
    requires RunsIn(run, dirs) && Apart(dirs) && ArgumentsOk(c) && Distinct(c.families)
    requires Stored(dirs, c, disk, records)
    requires !TurnedAway(dirs, c, a, disk, records) && a.budget >= |Window(c)|
    ensures var all := RecordsTo(run, c, Taken(a, records), disk, |Window(c)|);
            var (ending, x) := Execute(run, c, a, disk);
            && ending == Exit(ExitCode(CountsOf(all))) && Backed(x)
            && x.summary == if Window(c) == [] then None else Some(SummaryOf(c, all))
  {
    ExecuteIs(run, dirs, c, a, disk, records);
    ExecuteStores(run, dirs, c, a, disk, records);
    var x, all := Execute(run, c, a, disk).1, RecordsTo(run, c, Taken(a, records), disk, |Window(c)|);
    if Window(c) != [] {
      AllIntact(dirs, c, a, disk, records);
      StoredAnew(run, dirs, c, Taken(a, records), disk, x, |Window(c)|, |Window(c)|);
      StoredBacked(dirs, c, x, all);
    }
  }

  /** After any history an execution that is not refused and gets through ends with the
      exit code and, up to digests, the summary of a single uninterrupted one, and the
      manifests on disk are the recorded ones. */
  lemma CrashAndResume(runs: Runs, dirs: Key -> string, c: Config, attempts: seq<Attempt>, last: Attempt, i: nat,
                       single: Attempt)
    requires AllRunIn(runs, dirs) && Apart(dirs) && ArgumentsOk(c) && Distinct(c.families) && SameStatuses(runs)
    requires last.budget >= |Window(c)| && single.budget >= |Window(c)|
    ensures var (ending, x) := Execute(runs(|attempts|), c, last, History(runs, c, attempts));
            var (expected, y) := Execute(runs(i), c, single, EMPTY);
            || (ending.Refused? && last.resume && x == History(runs, c, attempts))
            || (&& ending == expected && Backed(x) && x.summary.Some? == y.summary.Some?
                && (x.summary.Some? ==> Undigested(x.summary.value) == Undigested(y.summary.value)))
  {
    var n, disk := |attempts|, History(runs, c, attempts);
    var records := EverySummaryIsAPrefix(runs, dirs, c, attempts);
    ExecuteIs(runs(n), dirs, c, last, disk, records);
    SingleRun(runs(i), dirs, c, single);
    if !TurnedAway(dirs, c, last, disk, records) {
      var taken, m := Taken(last, records), |Window(c)|;
      GetsThrough(runs(n), dirs, c, last, disk, records);
      AllAsFoundNow(runs, dirs, c, n, taken, disk, i, m);
      var all, expected := RecordsTo(runs(n), c, taken, disk, m), RecordsTo(runs(i), c, [], EMPTY, m);
      ButDigestsIsVerdicts(all, expected);
      SameCounts(all, expected);
      SameSummaries(c, all, expected);
    }
  }

  /** A resumed run that crashes early forgets records: of n it keeps only as many as
      it went over again. */
  lemma EarlyCrashLosesRecords(run: Key -> Record, dirs: Key -> string, c: Config, a: Attempt, disk: Disk,
                               records: seq<Record>)
    requires RunsIn(run, dirs) && Apart(dirs) && ArgumentsOk(c) && Distinct(c.families)
    requires Stored(dirs, c, disk, records)
    requires a.resume && Verdict(dirs, c, disk, records).None? && 0 < a.budget < |records|
    ensures var (ending, x) := Execute(run, c, a, disk);
            && ending == Interrupted && x.summary == Some(SummaryOf(c, records[..a.budget]))
            && x.summary.value.generated == a.budget < disk.summary.value.generated
  {
    ExecuteIs(run, dirs, c, a, disk, records);
    assert RecordsTo(run, c, records, disk, a.budget) == records[..a.budget];
  }

  // ----- Runners that always find the same -----

  function DirsOf(run: Key -> Record): Key -> string {
    key => if run(key).outputDir.Some? then run(key).outputDir.value else ""
  }

  ghost predicate Runner(run: Key -> Record) {
    RunsIn(run, DirsOf(run)) && Apart(DirsOf(run))
  }

  function Records(run: Key -> Record, keys: seq<Key>): (r: seq<Record>)
    ensures |r| == |keys| && forall k | 0 <= k < |keys| :: r[k] == run(keys[k])
  {
    seq(|keys|, k requires 0 <= k < |keys| => run(keys[k]))
  }

  /** A manifest in a directory is the one that run leaves there. */
  ghost predicate Steady(run: Key -> Record, dirs: Key -> string, c: Config, disk: Disk)
    requires c.shardCount > 0
  {
    forall k | 0 <= k < |Window(c)| ::
      ManifestAt(disk, DirAt(dirs, c, k)).Some? ==> ManifestAt(disk, DirAt(dirs, c, k)) == run(Window(c)[k]).digest
  }

  ghost predicate AreRun(run: Key -> Record, c: Config, records: seq<Record>)
    requires c.shardCount > 0
  {
    |records| <= |Window(c)| && forall k | 0 <= k < |records| :: records[k] == run(Window(c)[k])
  }

  lemma SteadyRecord(run: Key -> Record, dirs: Key -> string, c: Config, taken: seq<Record>, start: Disk, k: nat)
    requires RunsIn(run, dirs) && c.shardCount > 0 && Steady(run, dirs, c, start) && AreRun(run, c, taken)
    requires k < |Window(c)|
    ensures RecordAt(run, c, taken, start, k) == run(Window(c)[k])
  {
    assert RecordOk(run(Window(c)[k]), Window(c)[k], dirs);
    assert ManifestAt(start, DirAt(dirs, c, k)).Some? ==>
        ManifestAt(start, DirAt(dirs, c, k)) == run(Window(c)[k]).digest;
  }

  lemma SteadyRecords(run: Key -> Record, dirs: Key -> string, c: Config, taken: seq<Record>, start: Disk, m: nat)
    requires RunsIn(run, dirs) && c.shardCount > 0 && Steady(run, dirs, c, start) && AreRun(run, c, taken)
    requires m <= |Window(c)|
    ensures RecordsTo(run, c, taken, start, m) == Records(run, Window(c)[..m])
  {
    forall k | 0 <= k < m ensures RecordAt(run, c, taken, start, k) == run(Window(c)[k]) {
      SteadyRecord(run, dirs, c, taken, start, k);
    }
  }

  lemma SteadyVisited(run: Key -> Record, dirs: Key -> string, c: Config, taken: seq<Record>, start: Disk, now: Disk,
                      e: nat)
    requires RunsIn(run, dirs) && c.shardCount > 0 && Steady(run, dirs, c, start) && AreRun(run, c, taken)
    requires Visited(run, dirs, c, taken, start, now, e)
    ensures Steady(run, dirs, c, now)
  {
    forall k | 0 <= k < |Window(c)|
      ensures ManifestAt(now, DirAt(dirs, c, k)).Some? ==>
                ManifestAt(now, DirAt(dirs, c, k)) == run(Window(c)[k]).digest
    {
      SteadyRecord(run, dirs, c, taken, start, k);
      assert ManifestAt(start, DirAt(dirs, c, k)).Some? ==>
          ManifestAt(start, DirAt(dirs, c, k)) == run(Window(c)[k]).digest;
    }
  }

  lemma SteadyNext(run: Key -> Record, dirs: Key -> string, c: Config, a: Attempt, disk: Disk, records: seq<Record>)
    requires RunsIn(run, dirs) && Apart(dirs) && ArgumentsOk(c) && Distinct(c.families)
    requires Stored(dirs, c, disk, records)
    requires Steady(run, dirs, c, disk) && AreRun(run, c, records)
    ensures Steady(run, dirs, c, Execute(run, c, a, disk).1)
    ensures AreRun(run, c, After(run, dirs, c, a, disk, records))
  {
    ExecuteIs(run, dirs, c, a, disk, records);
    if !TurnedAway(dirs, c, a, disk, records) {
      SteadyVisited(run, dirs, c, Taken(a, records), disk, Execute(run, c, a, disk).1, VisitedBy(c, a.budget, a.torn));
      SteadyRecords(run, dirs, c, Taken(a, records), disk, Reached(c, 0, a.budget));
    }
  }

  /** With one and the same runner throughout, the summary is a prefix of the one
      canonical sequence of records. */
  lemma {:induction false} SteadyHistory(run: Key -> Record, dirs: Key -> string, c: Config, attempts: seq<Attempt>)
    returns (records: seq<Record>)
    requires RunsIn(run, dirs) && Apart(dirs) && ArgumentsOk(c) && Distinct(c.families)
    ensures var disk := History(_ => run, c, attempts);
            Stored(dirs, c, disk, records) && Steady(run, dirs, c, disk) && AreRun(run, c, records)
  {
    if attempts == [] {
      records := [];
    } else {
      var last := |attempts| - 1;
      var shorter := SteadyHistory(run, dirs, c, attempts[..last]);
      var disk := History(_ => run, c, attempts[..last]);
      ExecuteStores(run, dirs, c, attempts[last], disk, shorter);
      SteadyNext(run, dirs, c, attempts[last], disk, shorter);
      records := After(run, dirs, c, attempts[last], disk, shorter);
    }
  }

  /** Every program of the window leaves a manifest. */
  ghost predicate AllDigests(run: Key -> Record, c: Config)
    requires c.shardCount > 0
  {
    forall k | 0 <= k < |Window(c)| :: run(Window(c)[k]).digest.Some?
  }

  /** With the same records every time, and a manifest from every program, an execution
      that gets through is never refused, and ends with the very summary and exit code of
      a single uninterrupted one. */
  lemma SameDigestsResume(run: Key -> Record, dirs: Key -> string, c: Config, attempts: seq<Attempt>, last: Attempt,
                          single: Attempt)
    requires RunsIn(run, dirs) && Apart(dirs) && ArgumentsOk(c) && Distinct(c.families)
    requires last.budget >= |Window(c)| && single.budget >= |Window(c)|
    requires AllDigests(run, c) || !last.resume
    ensures var (ending, x) := Execute(run, c, last, History(_ => run, c, attempts));
            var (expected, y) := Execute(run, c, single, EMPTY);
            ending == expected && ending.Exit? && x.summary == y.summary
    ensures Window(c) != [] ==>
              Execute(run, c, single, EMPTY).1.summary == Some(SummaryOf(c, Records(run, Window(c))))
  {
    var disk := History(_ => run, c, attempts);
    var records := SteadyHistory(run, dirs, c, attempts);
    if last.resume {
      SteadyAccepted(run, dirs, c, disk, records);
    }
    GetsThrough(run, dirs, c, last, disk, records);
    SingleRun(run, dirs, c, single);
    SteadyRecords(run, dirs, c, Taken(last, records), disk, |Window(c)|);
    SteadyRecords(run, dirs, c, [], EMPTY, |Window(c)|);
    assert Window(c)[..|Window(c)|] == Window(c);
  }

  lemma SteadyAccepted(run: Key -> Record, dirs: Key -> string, c: Config, disk: Disk, records: seq<Record>)
    requires c.shardCount > 0 && Stored(dirs, c, disk, records) && Steady(run, dirs, c, disk) && AreRun(run, c, records)
    requires AllDigests(run, c)
    ensures Verdict(dirs, c, disk, records).None?
  {
    forall k | 0 <= k < |records| ensures records[k].digest.Some? {
      assert run(Window(c)[k]).digest.Some?;
    }
  }

  /** The summary is written inside the loop, so a shard without work leaves none. */
  lemma SummaryWrittenIff(run: Key -> Record, dirs: Key -> string, c: Config, single: Attempt)
    requires RunsIn(run, dirs) && Apart(dirs) && ArgumentsOk(c) && Distinct(c.families) && c.families != []
    requires single.budget >= |Window(c)|
    ensures Execute(run, c, single, EMPTY).1.summary
         == if c.shardIndex < c.programs then Some(SummaryOf(c, Records(run, Window(c)))) else None
  {
    SingleRun(run, dirs, c, single);
    SteadyRecords(run, dirs, c, [], EMPTY, |Window(c)|);
    assert Window(c)[..|Window(c)|] == Window(c);
    WorkIff(c);
  }
}
