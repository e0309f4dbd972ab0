/** Exactly which shard files tools/reflection_fuzz/merge_campaign.py merges, and what each
    of its refusals means. */
module MergeAnswers {
  import opened Core
  import opened Campaign
  import opened StableSort
  import opened MergeCampaign
  import opened CampaignAnswers

  // ----- What is asked of the files -----

  /** The same campaign, whatever the shard. */
  ghost predicate SameIdentity(a: Config, b: Config) {
    && a.programs == b.programs && a.cases == b.cases && a.seedStart == b.seedStart && a.families == b.families
    && a.compilers == b.compilers && a.shardCount == b.shardCount
  }

  ghost predicate OneCampaign(shards: seq<Summary>)
    requires shards != []
  {
    forall k | 0 <= k < |shards| :: SameIdentity(shards[k].identity, shards[0].identity)
  }

  ghost predicate HasIndex(shards: seq<Summary>, index: int) {
    exists k :: 0 <= k < |shards| && shards[k].identity.shardIndex == index
  }

  /** Every index of the campaign, and no other. */
  ghost predicate AllIndexes(shards: seq<Summary>)
    requires shards != []
  {
    forall index :: HasIndex(shards, index) <==> 0 <= index < shards[0].identity.shardCount
  }

  /** A summary whose numbers agree with its own programs. */
  ghost predicate Tidy(s: Summary, requested: int, count: int)
    requires count > 0
  {
    && s.selectedSeedCount == |Selected(requested, count, s.identity.shardIndex)|
    && s.generated == |s.programs|
    && (forall k, text | 0 <= k < |s.programs| :: !StatusIs(s.programs[k], OtherStatus(text)))
    && s.counts.agreements == |Positions(s.programs, Agreement)|
    && s.counts.disagreements == |Positions(s.programs, Disagreement)|
    && s.counts.compileFailures == |Positions(s.programs, CompileFailure)|
    && s.counts.invariantFailures == |Positions(s.programs, InvariantFailure)|
    && s.counts.runnerFailures == |Positions(s.programs, RunnerFailure)|
  }

  ghost predicate IsHex(c: char) {
    c in "0123456789abcdefABCDEF"
  }

  /** A program with its key and a SHA-256 in hexadecimal. */
  ghost predicate Sound(e: Entry) {
    && e.Whole? && e.record.digest.Some? && |e.record.digest.value| == 64
    && forall c | c in e.record.digest.value :: IsHex(c)
  }

  /** All programs of the files, in their order. */
  function Programs(shards: seq<Summary>): (entries: seq<Entry>) {
    if shards == [] then [] else shards[0].programs + Programs(shards[1..])
  }

  ghost predicate AllSound(entries: seq<Entry>) {
    forall k | 0 <= k < |entries| :: Sound(entries[k])
  }

  ghost predicate NoneTwice(entries: seq<Entry>) {
    forall j, k | 0 <= j < k < |entries| && entries[j].Whole? && entries[k].Whole? ::
      entries[j].record.key != entries[k].record.key
  }

  ghost predicate Lists(entries: seq<Entry>, key: Key) {
    exists k :: 0 <= k < |entries| && entries[k].Whole? && entries[k].record.key == key
  }

  /** Every seed of the window with every family, and nothing else. */
  ghost predicate Covers(entries: seq<Entry>, c: Config) {
    forall key :: Lists(entries, key)
      <==> c.seedStart <= key.seed < c.seedStart + c.programs && key.family in c.families
  }

  // ----- The checks of one shard -----

  lemma {:induction false} TallyIs(entries: seq<Entry>, status: Status)
    ensures Tally(entries, status) == |Positions(entries, status)|
  {
    if entries != [] {
      var front, last := entries[..|entries| - 1], entries[|entries| - 1];
      TallyIs(front, status);
      PositionsNext(front, last, status);
      assert entries == front + [last];
    }
  }

  lemma {:induction false} SelectedIs(requested: int, count: int, index: int)
    requires count > 0
    ensures ExpectedSelected(requested, count, index) == |Selected(requested, count, index)|
    decreases requested
  {
    if requested > 0 {
      SelectedIs(requested - 1, count, index);
      var front := Selected(requested - 1, count, index);
      assert Selected(requested, count, index)
          == if (requested - 1) % count == index then front + {requested - 1} else front;
    }
  }

  lemma CheckShardIff(s: Summary, requested: int, count: int)
    requires count > 0
    ensures CheckShard(s, requested, count).None? <==> Tidy(s, requested, count)
  {
    SelectedIs(requested, count, s.identity.shardIndex);
    TallyIs(s.programs, Agreement);
    TallyIs(s.programs, Disagreement);
    TallyIs(s.programs, CompileFailure);
    TallyIs(s.programs, InvariantFailure);
    TallyIs(s.programs, RunnerFailure);
    KnownIff(s.programs);
  }

  lemma KnownIff(entries: seq<Entry>)
    ensures AllStatusesKnown(entries)
            <==> forall k, text | 0 <= k < |entries| :: !StatusIs(entries[k], OtherStatus(text))
  {
    if !AllStatusesKnown(entries) {
      var k :| 0 <= k < |entries| && StatusOf(entries[k]).OtherStatus?;
      assert StatusIs(entries[k], OtherStatus(StatusOf(entries[k]).text));
    }
  }

  // ----- The programs of all shards -----

  lemma HexIff(c: char)
    ensures IsHexDigit(c) <==> IsHex(c)
  {
  }

  lemma SoundIff(e: Entry)
    ensures Sound(e) <==> e.Whole? && ValidSha256(e.record.digest)
  {
    if e.Whole? && e.record.digest.Some? && |e.record.digest.value| == 64 {
      var d := e.record.digest.value;
      forall c ensures IsHexDigit(c) <==> IsHex(c) {
        HexIff(c);
      }
      if ValidSha256(e.record.digest) {
        forall c | c in d ensures IsHex(c) {
          var k :| 0 <= k < |d| && d[k] == c;
        }
      }
      if forall c | c in d :: IsHex(c) {
        forall k | 0 <= k < 64 ensures IsHexDigit(d[k]) {
          assert d[k] in d;
        }
      }
    }
  }

  ghost predicate Unseen(entries: seq<Entry>, i: nat, seen: set<Key>) {
    forall k | i <= k < |entries| && entries[k].Whole? :: entries[k].record.key !in seen
  }

  ghost predicate NoneTwiceFrom(entries: seq<Entry>, i: nat) {
    forall j, k | i <= j < k < |entries| && entries[j].Whole? && entries[k].Whole? ::
      entries[j].record.key != entries[k].record.key
  }

  lemma CleanStep(entries: seq<Entry>, i: nat, seen: set<Key>)
    requires i < |entries| && entries[i].Whole? && entries[i].record.key !in seen
    requires forall k | i <= k < |entries| :: entries[k].Whole?
    ensures Unseen(entries, i, seen) && NoneTwiceFrom(entries, i) <==>
              Unseen(entries, i + 1, seen + {entries[i].record.key}) && NoneTwiceFrom(entries, i + 1)
  {
  }

  ghost predicate AllSoundFrom(entries: seq<Entry>, i: nat) {
    forall k | i <= k < |entries| :: Sound(entries[k])
  }

  lemma {:induction false} CollectsIff(entries: seq<Entry>, i: nat, seen: set<Key>, records: seq<Record>)
    requires i <= |entries|
    ensures CollectEntries(entries, i, seen, records).Gathered? <==>
              AllSoundFrom(entries, i) && Unseen(entries, i, seen) && NoneTwiceFrom(entries, i)
    decreases |entries| - i
  {
    if i < |entries| {
      SoundIff(entries[i]);
      if Sound(entries[i]) && entries[i].record.key !in seen {
        CollectsIff(entries, i + 1, seen + {entries[i].record.key}, records + [entries[i].record]);
        if AllSoundFrom(entries, i + 1) {
          assert forall k | i <= k < |entries| :: Sound(entries[k]);
          CleanStep(entries, i, seen);
        }
      }
    }
  }

  /** Collecting one list after another is collecting them joined. */
  lemma {:induction false} CollectJoined(a: seq<Entry>, b: seq<Entry>, i: nat, seen: set<Key>, records: seq<Record>)
    requires i <= |a|
    ensures var g := CollectEntries(a, i, seen, records);
            CollectEntries(a + b, i, seen, records)
            == if g.Stopped? then g else CollectEntries(a + b, |a|, g.seen, g.records)
    decreases |a| - i
  {
    if i < |a| && a[i].Whole? && a[i].record.key !in seen && ValidSha256(a[i].record.digest) {
      CollectJoined(a, b, i + 1, seen + {a[i].record.key}, records + [a[i].record]);
    }
  }

  lemma {:induction false} CollectSuffix(a: seq<Entry>, b: seq<Entry>, i: nat, seen: set<Key>, records: seq<Record>)
    requires i <= |b|
    ensures CollectEntries(a + b, |a| + i, seen, records) == CollectEntries(b, i, seen, records)
    decreases |b| - i
  {
    if i < |b| && b[i].Whole? && b[i].record.key !in seen && ValidSha256(b[i].record.digest) {
      CollectSuffix(a, b, i + 1, seen + {b[i].record.key}, records + [b[i].record]);
    }
  }

  ghost predicate AllTidy(shards: seq<Summary>, requested: int, count: int)
    requires count > 0
  {
    forall k | 0 <= k < |shards| :: Tidy(shards[k], requested, count)
  }

  /** The loop over the files gets through exactly when every file is tidy and the joined
      programs can be collected. */
  lemma {:induction false} ShardsCollect(shards: seq<Summary>, i: nat, requested: int, count: int, seen: set<Key>,
                                         records: seq<Record>)
    requires count > 0 && i <= |shards|
    ensures var g := CollectShards(shards, i, requested, count, seen, records);
            var joined := CollectEntries(Programs(shards[i..]), 0, seen, records);
            && (g.Gathered? <==> AllTidy(shards[i..], requested, count) && joined.Gathered?)
            && (g.Gathered? ==> g == joined)
    decreases |shards| - i
  {
    if i < |shards| {
      var rest := shards[i + 1..];
      assert shards[i..][1..] == rest && shards[i..][0] == shards[i];
      CheckShardIff(shards[i], requested, count);
      TidyRest(shards, i, requested, count);
      var g := CollectEntries(shards[i].programs, 0, seen, records);
      CollectJoined(shards[i].programs, Programs(rest), 0, seen, records);
      if g.Gathered? {
        CollectSuffix(shards[i].programs, Programs(rest), 0, g.seen, g.records);
        ShardsCollect(shards, i + 1, requested, count, g.seen, g.records);
      }
    }
  }

  lemma TidyRest(shards: seq<Summary>, i: nat, requested: int, count: int)
    requires count > 0 && i < |shards|
    ensures AllTidy(shards[i..], requested, count)
            <==> Tidy(shards[i], requested, count) && AllTidy(shards[i + 1..], requested, count)
  {
    var all, rest := shards[i..], shards[i + 1..];
    assert all[0] == shards[i] && forall k | 0 <= k < |rest| :: rest[k] == all[k + 1];
    if Tidy(shards[i], requested, count) && AllTidy(rest, requested, count) {
      forall k | 0 <= k < |all| ensures Tidy(all[k], requested, count) {
        if k > 0 {
          assert Tidy(rest[k - 1], requested, count);
        }
      }
    }
    if AllTidy(all, requested, count) {
      forall k | 0 <= k < |rest| ensures Tidy(rest[k], requested, count) {
        assert Tidy(all[k + 1], requested, count);
      }
    }
  }

  // ----- Indexes -----

  lemma IndexMember(shards: seq<Summary>, index: int)
    ensures index in Indexes(shards) <==> HasIndex(shards, index)
  {
    if index in Indexes(shards) {
      var k :| 0 <= k < |shards| && Indexes(shards)[k] == index;
    }
    if k :| 0 <= k < |shards| && shards[k].identity.shardIndex == index {
      assert Indexes(shards)[k] == index;
    }
  }

  function Values(s: seq<int>): set<int> {
    set x | x in s
  }

  lemma ValuesAppend(s: seq<int>, x: int)
    ensures Values(s + [x]) == Values(s) + {x}
  {
  }

  lemma {:induction false} SizeOfRange(n: nat)
    ensures |Values(Range(n))| == n
  {
    RangeIs(n);
    if n > 0 {
      SizeOfRange(n - 1);
      RangeIs(n - 1);
      ValuesAppend(Range(n - 1), n - 1);
    }
  }

  /** As many elements as there are values leaves no room for a repeat. */
  lemma {:induction false} NoRoom(s: seq<int>)
    requires |Values(s)| == |s|
    ensures Distinct(s)
  {
    if s != [] {
      var front, last := s[..|s| - 1], s[|s| - 1];
      assert s == front + [last];
      ValuesAppend(front, last);
      SizeAtMost(front);
      assert last !in Values(front);
      NoRoom(front);
      forall i, j | 0 <= i < j < |s| ensures s[i] != s[j] {
        if j == |s| - 1 {
          assert front[i] in Values(front);
        } else {
          assert front[i] != front[j];
        }
      }
    }
  }

  lemma {:induction false} SizeAtMost(s: seq<int>)
    ensures |Values(s)| <= |s|
  {
    if s != [] {
      var front, last := s[..|s| - 1], s[|s| - 1];
      assert s == front + [last];
      ValuesAppend(front, last);
      SizeAtMost(front);
    }
  }

  lemma RangeMember(n: nat, x: int)
    ensures x in Range(n) <==> 0 <= x < n
  {
    RangeIs(n);
    assert 0 <= x < n ==> Range(n)[x] == x;
  }

  lemma {:induction false} IndexesOrdered(shards: seq<Summary>)
    requires shards != [] && |shards| == shards[0].identity.shardCount && AllIndexes(shards)
    ensures Sort(Tagged(Indexes(shards)), IntLess()) == Tagged(Range(|shards|))
  {
    var order, n := Indexes(shards), |shards|;
    forall index ensures index in order <==> 0 <= index < n {
      IndexMember(shards, index);
    }
    forall index ensures index in order <==> index in Range(n) {
      RangeMember(n, index);
    }
    SizeOfRange(n);
    assert Values(order) == Values(Range(n));
    NoRoom(order);
    IndexesPass(order, n);
  }

  lemma {:induction false} OrderedIndexes(shards: seq<Summary>)
    requires shards != [] && |shards| == shards[0].identity.shardCount
    requires Sort(Tagged(Indexes(shards)), IntLess()) == Tagged(Range(|shards|))
    ensures AllIndexes(shards)
  {
    var order, n := Indexes(shards), |shards|;
    SortKeeps(Tagged(order), IntLess());
    assert multiset(Tagged(order)) == multiset(Tagged(Range(n)));
    forall index ensures HasIndex(shards, index) <==> 0 <= index < n {
      IndexMember(shards, index);
      TagMember(order, index);
      TagMember(Range(n), index);
      RangeMember(n, index);
      SameMultiset(Tagged(order), Tagged(Range(n)), (index, Tag));
    }
  }

  lemma SameMultiset<T>(a: seq<T>, b: seq<T>, x: T)
    requires multiset(a) == multiset(b)
    ensures x in a <==> x in b
  {
    assert x in a <==> x in multiset(a);
    assert x in b <==> x in multiset(b);
  }

  // ----- What is merged -----

  ghost predicate ListsFrom(entries: seq<Entry>, i: nat, key: Key) {
    exists k :: i <= k < |entries| && entries[k].Whole? && entries[k].record.key == key
  }

  lemma {:induction false} CollectSees(entries: seq<Entry>, i: nat, seen: set<Key>, records: seq<Record>, key: Key)
    requires i <= |entries| && CollectEntries(entries, i, seen, records).Gathered?
    ensures key in CollectEntries(entries, i, seen, records).seen <==> key in seen || ListsFrom(entries, i, key)
    decreases |entries| - i
  {
    if i < |entries| {
      var r := entries[i].record;
      CollectSees(entries, i + 1, seen + {r.key}, records + [r], key);
      assert ListsFrom(entries, i, key) <==> r.key == key || ListsFrom(entries, i + 1, key);
    }
  }

  lemma CoversIff(entries: seq<Entry>, c: Config)
    requires CollectEntries(entries, 0, {}, []).Gathered?
    ensures CollectEntries(entries, 0, {}, []).seen == ExpectedKeys(c.seedStart, c.programs, c.families)
            <==> Covers(entries, c)
  {
    var seen := CollectEntries(entries, 0, {}, []).seen;
    forall key ensures key in seen <==> Lists(entries, key) {
      CollectSees(entries, 0, {}, [], key);
      assert ListsFrom(entries, 0, key) <==> Lists(entries, key);
    }
    forall key
      ensures key in ExpectedKeys(c.seedStart, c.programs, c.families)
              <==> c.seedStart <= key.seed < c.seedStart + c.programs && key.family in c.families
    {
      assert key == Key(key.family, key.seed);
    }
    if Covers(entries, c) {
      assert forall key :: key in seen <==> key in ExpectedKeys(c.seedStart, c.programs, c.families);
    } else {
      var key :| !(Lists(entries, key)
                   <==> c.seedStart <= key.seed < c.seedStart + c.programs && key.family in c.families);
      assert !(key in seen <==> key in ExpectedKeys(c.seedStart, c.programs, c.families));
    }
  }

  lemma {:induction false} OneCampaignIff(shards: seq<Summary>)
    requires shards != []
    ensures SameCampaign(shards) <==> OneCampaign(shards)
  {
    forall k | 0 <= k < |shards|
      ensures CampaignKey(shards[k].identity) == CampaignKey(shards[0].identity)
              <==> SameIdentity(shards[k].identity, shards[0].identity)
    {
      KeyIff(shards[k].identity, shards[0].identity);
    }
  }

  lemma KeyIff(a: Config, b: Config)
    ensures CampaignKey(a) == CampaignKey(b) <==> SameIdentity(a, b)
  {
    var x, y := CampaignKey(a), CampaignKey(b);
    if SameIdentity(a, b) {
      assert x == Config(a.programs, a.cases, a.seedStart, a.families, a.compilers, x.shardIndex, a.shardCount);
      assert y == Config(b.programs, b.cases, b.seedStart, b.families, b.compilers, y.shardIndex, b.shardCount);
    }
    assert x == y ==> x.programs == y.programs && x.cases == y.cases && x.seedStart == y.seedStart;
  }

  /** The files are those of all shards of one campaign. */
  ghost predicate Together(shards: seq<Summary>)
    requires shards != []
  {
    OneCampaign(shards) && |shards| == shards[0].identity.shardCount && AllIndexes(shards)
  }

  lemma {:induction false} TogetherIff(shards: seq<Summary>)
    requires shards != []
    ensures Together(shards) <==>
              && SameCampaign(shards) && |shards| == shards[0].identity.shardCount
              && Sort(Tagged(Indexes(shards)), IntLess()) == Tagged(Range(shards[0].identity.shardCount))
  {
    OneCampaignIff(shards);
    if |shards| == shards[0].identity.shardCount {
      if AllIndexes(shards) {
        IndexesOrdered(shards);
      }
      if Sort(Tagged(Indexes(shards)), IntLess()) == Tagged(Range(|shards|)) {
        OrderedIndexes(shards);
      }
    }
  }

  /** All that the merge asks of the files. */
  ghost predicate Mergeable(shards: seq<Summary>)
    requires shards != []
  {
    && Together(shards)
    && AllTidy(shards, shards[0].identity.programs, |shards|)
    && AllSound(Programs(shards)) && NoneTwice(Programs(shards)) && Covers(Programs(shards), shards[0].identity)
  }

  lemma {:induction false} FinishIff(shards: seq<Summary>)
    requires shards != []
    ensures var c := shards[0].identity;
            Finish(CollectShards(shards, 0, c.programs, |shards|, {}, []), c).Merged? <==>
              && AllTidy(shards, c.programs, |shards|)
              && AllSound(Programs(shards)) && NoneTwice(Programs(shards)) && Covers(Programs(shards), c)
  {
    var c, entries := shards[0].identity, Programs(shards);
    assert shards[0..] == shards;
    ShardsCollect(shards, 0, c.programs, |shards|, {}, []);
    CollectsIff(entries, 0, {}, []);
    assert AllSoundFrom(entries, 0) <==> AllSound(entries);
    assert NoneTwiceFrom(entries, 0) <==> NoneTwice(entries);
    assert Unseen(entries, 0, {});
    if CollectEntries(entries, 0, {}, []).Gathered? {
      CoversIff(entries, c);
    }
  }

  /** Exactly these files are merged: all shards of one campaign, each in agreement with
      its own numbers, with every program of the window once, and with its manifest. */
  lemma {:induction false} MergedIff(shards: seq<Summary>)
    requires shards != []
    ensures Merge(shards).Merged? <==> Mergeable(shards)
  {
    TogetherIff(shards);
    if Together(shards) {
      FinishIff(shards);
    }
  }

  ghost predicate HoldsFrom(entries: seq<Entry>, i: nat, r: Record) {
    exists k :: i <= k < |entries| && entries[k] == Whole(r)
  }

  lemma {:induction false} CollectKeeps(entries: seq<Entry>, i: nat, seen: set<Key>, records: seq<Record>, r: Record)
    requires i <= |entries| && CollectEntries(entries, i, seen, records).Gathered?
    ensures r in CollectEntries(entries, i, seen, records).records <==> r in records || HoldsFrom(entries, i, r)
    decreases |entries| - i
  {
    if i < |entries| {
      var s := entries[i].record;
      CollectKeeps(entries, i + 1, seen + {s.key}, records + [s], r);
      assert entries[i] == Whole(s);
      assert HoldsFrom(entries, i, r) <==> r == s || HoldsFrom(entries, i + 1, r);
    }
  }

  lemma {:induction false} MergedCollects(shards: seq<Summary>)
    requires shards != [] && Merge(shards).Merged?
    ensures var g := CollectEntries(Programs(shards), 0, {}, []);
            && g.Gathered?
            && Merge(shards).programs == SortRecords(g.records, shards[0].identity.families)
    ensures Covers(Programs(shards), shards[0].identity)
  {
    var c := shards[0].identity;
    MergedIff(shards);
    assert shards[0..] == shards;
    ShardsCollect(shards, 0, c.programs, |shards|, {}, []);
  }

  lemma {:induction false} FamiliesKnown(entries: seq<Entry>, c: Config)
    requires CollectEntries(entries, 0, {}, []).Gathered? && Covers(entries, c)
    ensures forall k | 0 <= k < |CollectEntries(entries, 0, {}, []).records| ::
              CollectEntries(entries, 0, {}, []).records[k].key.family in c.families
  {
    var records := CollectEntries(entries, 0, {}, []).records;
    forall k | 0 <= k < |records| ensures records[k].key.family in c.families {
      CollectKeeps(entries, 0, {}, [], records[k]);
      assert Lists(entries, records[k].key);
    }
  }

  lemma {:induction false} SortedCollects(entries: seq<Entry>, c: Config, r: Record)
    requires CollectEntries(entries, 0, {}, []).Gathered? && Covers(entries, c)
    ensures r in SortRecords(CollectEntries(entries, 0, {}, []).records, c.families) <==> Whole(r) in entries
  {
    var records := CollectEntries(entries, 0, {}, []).records;
    CollectKeeps(entries, 0, {}, [], r);
    FamiliesKnown(entries, c);
    EntriesOnce(entries, 0, {}, []);
    SortedRecords(records, c.families);
  }

  /** What is merged: the records of the files, neither more nor less. */
  lemma {:induction false} MergedLists(shards: seq<Summary>, r: Record)
    requires shards != [] && Merge(shards).Merged?
    ensures r in Merge(shards).programs <==> Whole(r) in Programs(shards)
  {
    MergedCollects(shards);
    SortedCollects(Programs(shards), shards[0].identity, r);
  }

  ghost predicate SomeStatus(shards: seq<Summary>, status: Status) {
    exists r: Record :: Whole(r) in Programs(shards) && r.status == status
  }

  /** The exit code of the merge tells what the files hold. */
  lemma {:induction false} MergedCode(shards: seq<Summary>)
    requires shards != [] && Merge(shards).Merged?
    ensures var failed := SomeStatus(shards, CompileFailure) || SomeStatus(shards, InvariantFailure)
                          || SomeStatus(shards, RunnerFailure);
            Merge(shards).code == if SomeStatus(shards, Disagreement) then 3 else if failed then 1 else 0
  {
    var c := shards[0].identity;
    var s := SummaryOf(c, Merge(shards).programs);
    SummariesAreHonest(c, Merge(shards).programs);
    CodeTells(s, c);
    StatusMerged(shards, Disagreement);
    StatusMerged(shards, CompileFailure);
    StatusMerged(shards, InvariantFailure);
    StatusMerged(shards, RunnerFailure);
  }

  lemma {:induction false} StatusMerged(shards: seq<Summary>, status: Status)
    requires shards != [] && Merge(shards).Merged? && shards[0].identity.shardCount > 0
    ensures Has(SummaryOf(shards[0].identity, Merge(shards).programs), status) <==> SomeStatus(shards, status)
  {
    var records, s := Merge(shards).programs, SummaryOf(shards[0].identity, Merge(shards).programs);
    if Has(s, status) {
      var k :| 0 <= k < |s.programs| && StatusIs(s.programs[k], status);
      MergedLists(shards, records[k]);
    }
    if r: Record :| Whole(r) in Programs(shards) && r.status == status {
      MergedLists(shards, r);
      var k :| 0 <= k < |records| && records[k] == r;
      assert StatusIs(s.programs[k], status);
    }
  }

  // ----- What a refusal means -----

  /** The refusals of the first three checks, in their order. */
  lemma {:induction false} EarlyRefusals(shards: seq<Summary>)
    requires shards != []
    ensures !OneCampaign(shards) ==> Merge(shards) == Rejected(IncompatibleMetadata)
    ensures OneCampaign(shards) && |shards| != shards[0].identity.shardCount ==>
              Merge(shards) == Rejected(WrongShardTotal)
    ensures OneCampaign(shards) && |shards| == shards[0].identity.shardCount && !AllIndexes(shards) ==>
              Merge(shards) == Rejected(WrongShardIndexes)
  {
    OneCampaignIff(shards);
    TogetherIff(shards);
  }

  /** The cause of each refusal of one file. */
  ghost predicate ShardCause(s: Summary, requested: int, count: int, f: Failure)
    requires count > 0
  {
    match f
    case WrongSelectedCount => s.selectedSeedCount != |Selected(requested, count, s.identity.shardIndex)|
    case WrongGenerated => s.generated != |s.programs|
    case StrangeStatus => exists k, text :: 0 <= k < |s.programs| && StatusIs(s.programs[k], OtherStatus(text))
    case CountMismatch =>
      || s.counts.agreements != |Positions(s.programs, Agreement)|
      || s.counts.disagreements != |Positions(s.programs, Disagreement)|
      || s.counts.compileFailures != |Positions(s.programs, CompileFailure)|
      || s.counts.invariantFailures != |Positions(s.programs, InvariantFailure)|
      || s.counts.runnerFailures != |Positions(s.programs, RunnerFailure)|
    case MissingField(field) =>
      exists k :: 0 <= k < |s.programs| && s.programs[k].Lacks? && s.programs[k].field == field
    case BadDigest(key) =>
      exists k :: 0 <= k < |s.programs| && s.programs[k].Whole? && s.programs[k].record.key == key
                  && !Sound(s.programs[k])
    case DuplicateProgram(key) => Lists(s.programs, key)
    case _ => false
  }

  lemma {:induction false} CheckCause(s: Summary, requested: int, count: int)
    requires count > 0 && CheckShard(s, requested, count).Some?
    ensures ShardCause(s, requested, count, CheckShard(s, requested, count).value)
  {
    SelectedIs(requested, count, s.identity.shardIndex);
    TallyIs(s.programs, Agreement);
    TallyIs(s.programs, Disagreement);
    TallyIs(s.programs, CompileFailure);
    TallyIs(s.programs, InvariantFailure);
    TallyIs(s.programs, RunnerFailure);
    KnownIff(s.programs);
  }

  lemma {:induction false} EntriesCause(s: Summary, requested: int, count: int, i: nat, seen: set<Key>,
                                        records: seq<Record>)
    requires count > 0 && i <= |s.programs| && CollectEntries(s.programs, i, seen, records).Stopped?
    ensures ShardCause(s, requested, count, CollectEntries(s.programs, i, seen, records).failure)
    decreases |s.programs| - i
  {
    var e := s.programs[i];
    SoundIff(e);
    if e.Whole? && e.record.key !in seen && ValidSha256(e.record.digest) {
      EntriesCause(s, requested, count, i + 1, seen + {e.record.key}, records + [e.record]);
    }
  }

  lemma {:induction false} ShardsCause(shards: seq<Summary>, i: nat, requested: int, count: int, seen: set<Key>,
                                       records: seq<Record>) returns (k: nat)
    requires count > 0 && i <= |shards| && CollectShards(shards, i, requested, count, seen, records).Stopped?
    ensures k < |shards|
    ensures ShardCause(shards[k], requested, count, CollectShards(shards, i, requested, count, seen, records).failure)
    decreases |shards| - i
  {
    var g := CollectEntries(shards[i].programs, 0, seen, records);
    if CheckShard(shards[i], requested, count).Some? {
      CheckCause(shards[i], requested, count);
      k := i;
    } else if g.Stopped? {
      EntriesCause(shards[i], requested, count, 0, seen, records);
      k := i;
    } else {
      k := ShardsCause(shards, i + 1, requested, count, g.seen, g.records);
    }
  }

  /** Every later refusal names a fault that one of the files has, or a gap in the window. */
  lemma {:induction false} LateRefusals(shards: seq<Summary>)
    requires shards != [] && Together(shards) && Merge(shards).Rejected?
    ensures var f := Merge(shards).failure;
            || (f == CoverageMismatch && !Covers(Programs(shards), shards[0].identity))
            || exists k :: 0 <= k < |shards| && ShardCause(shards[k], shards[0].identity.programs, |shards|, f)
  {
    var c, n := shards[0].identity, |shards|;
    TogetherIff(shards);
    var g := CollectShards(shards, 0, c.programs, n, {}, []);
    if g.Stopped? {
      var k := ShardsCause(shards, 0, c.programs, n, {}, []);
      assert ShardCause(shards[k], c.programs, n, Merge(shards).failure);
    } else {
      assert shards[0..] == shards;
      ShardsCollect(shards, 0, c.programs, n, {}, []);
      CoversIff(Programs(shards), c);
    }
  }
}
