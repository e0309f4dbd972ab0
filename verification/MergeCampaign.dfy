/** tools/reflection_fuzz/merge_campaign.py: checking the shards of a campaign and
    joining them into one program list. */
module MergeCampaign {
  import opened Core
  import opened Campaign
  import opened CampaignHistories
  import opened StableSort

  datatype Failure =
    | IncompatibleMetadata
    | WrongShardTotal
    | WrongShardIndexes
    | WrongSelectedCount
    | WrongGenerated
    | StrangeStatus
    | CountMismatch
    | MissingField(field: string)
    | DuplicateProgram(key: Key)
    | BadDigest(key: Key)
    | CoverageMismatch

  datatype Outcome = Merged(programs: seq<Record>, counts: Counts, code: int) | Rejected(failure: Failure)

  /** The lists built by the loop over the shards. */
  datatype Gathering = Gathered(seen: set<Key>, records: seq<Record>) | Stopped(failure: Failure)

  // ----- Pure queries -----

  /** campaign_key: everything but the shard's index. */
  function CampaignKey(c: Config): Config {
    c.(shardIndex := 0)
  }

  function ExpectedKeys(start: int, requested: int, families: seq<string>): set<Key> {
    set seed, family | start <= seed < start + requested && family in families :: Key(family, seed)
  }

  predicate IsHexDigit(c: char) {
    '0' <= c <= '9' || 'a' <= c <= 'f' || 'A' <= c <= 'F'
  }

  predicate ValidSha256(digest: Option<string>) {
    digest.Some? && |digest.value| == 64 && forall k | 0 <= k < 64 :: IsHexDigit(digest.value[k])
  }

  /** How many offsets below n belong to a shard. */
  function ExpectedSelected(n: int, count: int, index: int): nat
    requires count > 0
    decreases n
  {
    if n <= 0 then 0 else ExpectedSelected(n - 1, count, index) + if (n - 1) % count == index then 1 else 0
  }

  function StatusOf(e: Entry): Status {
    if e.Whole? then e.record.status else e.state
  }

  function Tally(entries: seq<Entry>, status: Status): nat {
    if entries == [] then 0
    else Tally(entries[..|entries| - 1], status) + if StatusOf(entries[|entries| - 1]) == status then 1 else 0
  }

  function TallyAll(entries: seq<Entry>): Counts {
    Counts(Tally(entries, Agreement), Tally(entries, Disagreement), Tally(entries, CompileFailure),
           Tally(entries, InvariantFailure), Tally(entries, RunnerFailure))
  }

  predicate AllStatusesKnown(entries: seq<Entry>) {
    forall k | 0 <= k < |entries| :: !StatusOf(entries[k]).OtherStatus?
  }

  function IntLess(): Order<int> {
    (a: int, b: int) => a < b
  }

  function Range(n: int): seq<int> {
    if n <= 0 then [] else Range(n - 1) + [n - 1]
  }

  datatype Tag = Tag

  function Tagged(s: seq<int>): (r: seq<(int, Tag)>)
    ensures |r| == |s| && forall k | 0 <= k < |s| :: r[k] == (s[k], Tag)
  {
    seq(|s|, k requires 0 <= k < |s| => (s[k], Tag))
  }

  function Indexes(shards: seq<Summary>): (r: seq<int>)
    ensures |r| == |shards| && forall k | 0 <= k < |shards| :: r[k] == shards[k].identity.shardIndex
  {
    seq(|shards|, k requires 0 <= k < |shards| => shards[k].identity.shardIndex)
  }

  // ----- Sorting the records -----

  datatype Rank = Rank(seed: int, position: int)

  function RankLess(): Order<Rank> {
    (a: Rank, b: Rank) => a.seed < b.seed || (a.seed == b.seed && a.position < b.position)
  }

  /** list.index; the length when absent. */
  function IndexOf(families: seq<string>, family: string): (i: nat)
    ensures i <= |families| && (i < |families| <==> family in families)
    ensures i < |families| ==> families[i] == family && family !in families[..i]
  {
    if families == [] then 0
    else if families[0] == family then 0
    else 1 + IndexOf(families[1..], family)
  }

  function RankOf(families: seq<string>, key: Key): Rank {
    Rank(key.seed, IndexOf(families, key.family))
  }

  function Ranked(records: seq<Record>, families: seq<string>): (r: seq<(Rank, Record)>)
    ensures |r| == |records|
    ensures forall k | 0 <= k < |r| :: r[k] == (RankOf(families, records[k].key), records[k])
  {
    seq(|records|, k requires 0 <= k < |records| => (RankOf(families, records[k].key), records[k]))
  }

  function Unranked(pairs: seq<(Rank, Record)>): (r: seq<Record>)
    ensures |r| == |pairs| && forall k | 0 <= k < |r| :: r[k] == pairs[k].1
  {
    seq(|pairs|, k requires 0 <= k < |pairs| => pairs[k].1)
  }

  function SortRecords(records: seq<Record>, families: seq<string>): (r: seq<Record>)
    ensures |r| == |records|
  {
    Unranked(Sort(Ranked(records, families), RankLess()))
  }

  // ----- The program -----

  function CollectEntries(entries: seq<Entry>, i: nat, seen: set<Key>, records: seq<Record>): Gathering
    requires i <= |entries|
    decreases |entries| - i
  {
    if i == |entries| then Gathered(seen, records)
    else if entries[i].Lacks? then Stopped(MissingField(entries[i].field))
    else
      var r := entries[i].record;
      if r.key in seen then Stopped(DuplicateProgram(r.key))
      else if !ValidSha256(r.digest) then Stopped(BadDigest(r.key))
      else CollectEntries(entries, i + 1, seen + {r.key}, records + [r])
  }

  function CheckShard(s: Summary, requested: int, count: int): Option<Failure>
    requires count > 0
  {
    if s.selectedSeedCount != ExpectedSelected(requested, count, s.identity.shardIndex) then Some(WrongSelectedCount)
    else if s.generated != |s.programs| then Some(WrongGenerated)
    else if !AllStatusesKnown(s.programs) then Some(StrangeStatus)
    else if s.counts != TallyAll(s.programs) then Some(CountMismatch)
    else None
  }

  function CollectShards(shards: seq<Summary>, i: nat, requested: int, count: int, seen: set<Key>, records: seq<Record>)
    : Gathering
    requires i <= |shards| && count > 0
    decreases |shards| - i
  {
    if i == |shards| then Gathered(seen, records)
    else if CheckShard(shards[i], requested, count).Some? then Stopped(CheckShard(shards[i], requested, count).value)
    else
      var g := CollectEntries(shards[i].programs, 0, seen, records);
      if g.Stopped? then g else CollectShards(shards, i + 1, requested, count, g.seen, g.records)
  }

  predicate SameCampaign(shards: seq<Summary>)
    requires shards != []
  {
    forall k | 0 <= k < |shards| :: CampaignKey(shards[k].identity) == CampaignKey(shards[0].identity)
  }

  function Finish(g: Gathering, c: Config): Outcome {
    if g.Stopped? then Rejected(g.failure)
    else if g.seen != ExpectedKeys(c.seedStart, c.programs, c.families) then Rejected(CoverageMismatch)
    else
      var sorted := SortRecords(g.records, c.families);
      Merged(sorted, CountsOf(sorted), ExitCode(CountsOf(sorted)))
  }

  function Merge(shards: seq<Summary>): Outcome
    requires shards != []
  {
    var c := shards[0].identity;
    if !SameCampaign(shards) then Rejected(IncompatibleMetadata)
    else if |shards| != c.shardCount then Rejected(WrongShardTotal)
    else if Sort(Tagged(Indexes(shards)), IntLess()) != Tagged(Range(c.shardCount)) then Rejected(WrongShardIndexes)
    else Finish(CollectShards(shards, 0, c.programs, c.shardCount, {}, []), c)
  }

  // ----- Sorted sequences of distinct keys -----

  ghost predicate Ascending<K(!new)>(s: seq<K>, less: Order<K>) {
    forall i, j | 0 <= i < j < |s| :: less(s[i], s[j])
  }

  lemma SomethingIn<K>(s: seq<K>)
    requires s != []
    ensures exists x :: x in s
  {
    assert s[0] in s;
  }

  /** Two ascending sequences of the same elements are equal. */
  lemma {:induction false} AscendingUnique<K(!new)>(a: seq<K>, b: seq<K>, less: Order<K>)
    requires StrictOrder(less) && Ascending(a, less) && Ascending(b, less)
    requires forall x :: x in a <==> x in b
    ensures a == b
    decreases |a|
  {
    if a == [] {
      if b != [] {
        SomethingIn(b);
      }
    } else {
      var x := a[|a| - 1];
      assert x in a;
      var y := b[|b| - 1];
      assert y in b;
      assert x == y;
      var front, rest := a[..|a| - 1], b[..|b| - 1];
      forall z ensures z in front <==> z in rest {
        assert z in a <==> z in front || z == x;
        assert z in b <==> z in rest || z == x;
        assert !less(x, x);
      }
      AscendingUnique(front, rest, less);
    }
  }

  lemma {:induction false} TwoInGroup<K, V>(s: seq<(K, V)>, i: nat, j: nat)
    requires i < j < |s| && s[i].0 == s[j].0
    ensures |Group(s, s[j].0)| >= 2
  {
    var front := s[..|s| - 1];
    if j < |s| - 1 {
      TwoInGroup(front, i, j);
    } else {
      GroupMembers(front, s[j].0);
      assert front[i] in front;
    }
  }

  /** Sorting distinct keys gives an ascending sequence of the same entries. */
  lemma SortAscending<K(!new), V>(s: seq<(K, V)>, less: Order<K>)
    requires StrictOrder(less) && DistinctKeys(s)
    ensures var r := Sort(s, less);
            && (forall i, j | 0 <= i < j < |r| :: less(r[i].0, r[j].0))
            && (forall e :: e in r <==> e in s)
  {
    var r := Sort(s, less);
    SortSorted(s, less);
    SortKeeps(s, less);
    forall e ensures e in r <==> e in s {
      assert e in multiset(r) <==> e in multiset(s);
    }
    forall i, j | 0 <= i < j < |r| ensures less(r[i].0, r[j].0) {
      if r[i].0 == r[j].0 {
        TwoInGroup(r, i, j);
        SortStable(s, less, r[j].0);
        DistinctGroups(s, r[j].0);
      }
    }
  }

  lemma RankIsOrder()
    ensures StrictOrder(RankLess())
  {
  }

  lemma IntIsOrder()
    ensures StrictOrder(IntLess())
  {
  }

  // ----- Coverage -----

  ghost predicate Once(records: seq<Record>) {
    forall i, j | 0 <= i < j < |records| :: records[i].key != records[j].key
  }

  function KeySet(records: seq<Record>): set<Key> {
    set r | r in records :: r.key
  }

  lemma {:induction false} EntriesOnce(entries: seq<Entry>, i: nat, seen: set<Key>, records: seq<Record>)
    requires i <= |entries| && Once(records) && KeySet(records) == seen
    ensures var g := CollectEntries(entries, i, seen, records);
            g.Gathered? ==> Once(g.records) && KeySet(g.records) == g.seen
    decreases |entries| - i
  {
    if i < |entries| && entries[i].Whole? && entries[i].record.key !in seen && ValidSha256(entries[i].record.digest) {
      var r := entries[i].record;
      KeySetAppend(records, r);
      assert forall j | 0 <= j < |records| :: records[j].key in KeySet(records);
      EntriesOnce(entries, i + 1, seen + {r.key}, records + [r]);
    }
  }

  lemma KeySetAppend(records: seq<Record>, r: Record)
    ensures KeySet(records + [r]) == KeySet(records) + {r.key}
  {
    assert forall x :: x in records + [r] <==> x in records || x == r;
  }

  lemma {:induction false} ShardsOnce(shards: seq<Summary>, i: nat, requested: int, count: int, seen: set<Key>,
                                      records: seq<Record>)
    requires i <= |shards| && count > 0 && Once(records) && KeySet(records) == seen
    ensures var g := CollectShards(shards, i, requested, count, seen, records);
            g.Gathered? ==> Once(g.records) && KeySet(g.records) == g.seen
    decreases |shards| - i
  {
    if i < |shards| {
      EntriesOnce(shards[i].programs, 0, seen, records);
      var g := CollectEntries(shards[i].programs, 0, seen, records);
      if g.Gathered? {
        ShardsOnce(shards, i + 1, requested, count, g.seen, g.records);
      }
    }
  }

  /** The keys of the one-shard campaign, in its order. */
  function Canonical(start: int, requested: int, families: seq<string>): seq<Key> {
    KeysOf(SelectedSeeds(start, requested, 0, 1), families)
  }

  lemma CanonicalMembers(start: int, requested: int, families: seq<string>, key: Key)
    ensures key in Canonical(start, requested, families) <==> key in ExpectedKeys(start, requested, families)
  {
    KeysOfMembers(SelectedSeeds(start, requested, 0, 1), families, key);
    SelectedSeedsAre(start, requested, 0, 1, key.seed);
  }

  lemma IndexOfDistinct(families: seq<string>, j: nat)
    requires Distinct(families) && j < |families|
    ensures IndexOf(families, families[j]) == j
  {
    var i := IndexOf(families, families[j]);
    assert families[j] in families;
    assert families[i] == families[j];
  }

  lemma FamilyRanks(seed: int, families: seq<string>, i: nat, j: nat)
    requires Distinct(families) && i < j < |families|
    ensures RankLess()(RankOf(families, FamilyKeys(seed, families)[i]), RankOf(families, FamilyKeys(seed, families)[j]))
  {
    IndexOfDistinct(families, i);
    IndexOfDistinct(families, j);
  }

  ghost predicate RanksAscend(keys: seq<Key>, families: seq<string>) {
    forall i, j | 0 <= i < j < |keys| :: RankLess()(RankOf(families, keys[i]), RankOf(families, keys[j]))
  }

  lemma {:induction false} KeysAscend(seeds: seq<int>, families: seq<string>)
    requires Increasing(seeds) && Distinct(families)
    ensures RanksAscend(KeysOf(seeds, families), families)
  {
    if seeds != [] {
      var front, last := seeds[..|seeds| - 1], seeds[|seeds| - 1];
      KeysAscend(front, families);
      var a, b := KeysOf(front, families), FamilyKeys(last, families);
      forall i, j | 0 <= i < j < |a + b|
        ensures RankLess()(RankOf(families, (a + b)[i]), RankOf(families, (a + b)[j]))
      {
        if i >= |a| {
          FamilyRanks(last, families, i - |a|, j - |a|);
        } else if j >= |a| {
          KeysOfMembers(front, families, a[i]);
        }
      }
    }
  }

  lemma RankInjective(families: seq<string>, a: Key, b: Key)
    requires a.family in families && b.family in families && RankOf(families, a) == RankOf(families, b)
    ensures a == b
  {
  }

  function Ranks(keys: seq<Key>, families: seq<string>): (r: seq<Rank>)
    ensures |r| == |keys| && forall k | 0 <= k < |r| :: r[k] == RankOf(families, keys[k])
  {
    seq(|keys|, k requires 0 <= k < |keys| => RankOf(families, keys[k]))
  }

  function KeysIn(records: seq<Record>): (r: seq<Key>)
    ensures |r| == |records| && forall k | 0 <= k < |r| :: r[k] == records[k].key
  {
    seq(|records|, k requires 0 <= k < |records| => records[k].key)
  }

  /** Distinct keys of known families have distinct ranks. */
  lemma RankedDistinct(records: seq<Record>, families: seq<string>)
    requires Once(records) && forall k | 0 <= k < |records| :: records[k].key.family in families
    ensures DistinctKeys(Ranked(records, families))
  {
    var p := Ranked(records, families);
    forall i, j | 0 <= i < j < |p| ensures p[i].0 != p[j].0 {
      if p[i].0 == p[j].0 {
        RankInjective(families, records[i].key, records[j].key);
      }
    }
  }

  lemma UnrankedMember(records: seq<Record>, families: seq<string>, s: seq<(Rank, Record)>, r: Record)
    requires forall x :: x in s <==> x in Ranked(records, families)
    ensures r in Unranked(s) <==> r in records
  {
    var p := Ranked(records, families);
    if r in records {
      var k :| 0 <= k < |records| && records[k] == r;
      assert p[k] in p;
      var m :| 0 <= m < |s| && s[m] == p[k];
      assert Unranked(s)[m] == r;
    }
    if r in Unranked(s) {
      var m :| 0 <= m < |s| && s[m].1 == r;
      assert s[m] in p;
      var k :| 0 <= k < |p| && p[k] == s[m];
      assert records[k] == r;
    }
  }

  lemma UnrankedAscends(records: seq<Record>, families: seq<string>, s: seq<(Rank, Record)>)
    requires forall x :: x in s <==> x in Ranked(records, families)
    requires forall i, j | 0 <= i < j < |s| :: RankLess()(s[i].0, s[j].0)
    ensures RanksAscend(KeysIn(Unranked(s)), families)
  {
    forall k | 0 <= k < |s| ensures RankOf(families, KeysIn(Unranked(s))[k]) == s[k].0 {
      RankStays(records, families, s, s[k]);
    }
  }

  lemma RankedSort(p: seq<(Rank, Record)>, s: seq<(Rank, Record)>)
    requires DistinctKeys(p) && s == Sort(p, RankLess())
    ensures forall x :: x in s <==> x in p
    ensures forall i, j | 0 <= i < j < |s| :: RankLess()(s[i].0, s[j].0)
  {
    RankIsOrder();
    SortAscending(p, RankLess());
  }

  lemma SortedRecords(records: seq<Record>, families: seq<string>)
    requires Once(records) && forall k | 0 <= k < |records| :: records[k].key.family in families
    ensures forall r :: r in SortRecords(records, families) <==> r in records
    ensures RanksAscend(KeysIn(SortRecords(records, families)), families)
  {
    var s := Sort(Ranked(records, families), RankLess());
    RankedDistinct(records, families);
    RankedSort(Ranked(records, families), s);
    forall r ensures r in Unranked(s) <==> r in records {
      UnrankedMember(records, families, s, r);
    }
    UnrankedAscends(records, families, s);
  }

  lemma RankStays(records: seq<Record>, families: seq<string>, s: seq<(Rank, Record)>, e: (Rank, Record))
    requires e in s && forall x :: x in s <==> x in Ranked(records, families)
    ensures e.0 == RankOf(families, e.1.key)
  {
    var p := Ranked(records, families);
    assert e in p;
    var k :| 0 <= k < |p| && p[k] == e;
  }

  /** Ascending keys that are exactly those of the window are the canonical keys. */
  lemma AscendingKeysCanonical(keys: seq<Key>, start: int, requested: int, families: seq<string>)
    requires Distinct(families) && RanksAscend(keys, families)
    requires forall key :: key in keys <==> key in Canonical(start, requested, families)
    ensures keys == Canonical(start, requested, families)
  {
    var canonical := Canonical(start, requested, families);
    SelectedSeedsIncrease(start, requested, 0, 1);
    KeysAscend(SelectedSeeds(start, requested, 0, 1), families);
    RankIsOrder();
    var a, b := Ranks(keys, families), Ranks(canonical, families);
    forall x ensures x in a <==> x in b {
      if x in a {
        var k :| 0 <= k < |a| && a[k] == x;
        assert keys[k] in canonical;
        var m :| 0 <= m < |canonical| && canonical[m] == keys[k];
        assert b[m] == x;
      }
      if x in b {
        var m :| 0 <= m < |b| && b[m] == x;
        assert canonical[m] in keys;
        var k :| 0 <= k < |keys| && keys[k] == canonical[m];
        assert a[k] == x;
      }
    }
    AscendingUnique(a, b, RankLess());
    forall k | 0 <= k < |keys| ensures keys[k] == canonical[k] {
      assert a[k] == b[k];
      KnownFamily(start, requested, families, keys[k]);
      KnownFamily(start, requested, families, canonical[k]);
      RankInjective(families, keys[k], canonical[k]);
    }
  }

  lemma KnownFamily(start: int, requested: int, families: seq<string>, key: Key)
    requires key in Canonical(start, requested, families)
    ensures key.family in families
  {
    KeysOfMembers(SelectedSeeds(start, requested, 0, 1), families, key);
  }

  lemma CoveredKeys(records: seq<Record>, c: Config, r: Record)
    requires KeySet(records) == ExpectedKeys(c.seedStart, c.programs, c.families) && r in records
    ensures r.key in ExpectedKeys(c.seedStart, c.programs, c.families) && r.key.family in c.families
  {
    assert r.key in KeySet(records);
  }

  lemma SameKeys(s: seq<Record>, records: seq<Record>, key: Key)
    requires forall r :: r in s <==> r in records
    ensures key in KeysIn(s) <==> key in KeySet(records)
  {
    if key in KeysIn(s) {
      var k :| 0 <= k < |s| && s[k].key == key;
      assert s[k] in records;
    }
    if key in KeySet(records) {
      var r :| r in records && r.key == key;
      assert r in s;
      var k :| 0 <= k < |s| && s[k] == r;
      assert KeysIn(s)[k] == key;
    }
  }

  /** Every accepted merge lists each family and seed of the window exactly once, in
      the order of the one-shard campaign. */
  lemma MergedExactlyOnce(shards: seq<Summary>)
    requires shards != [] && Merge(shards).Merged? && Distinct(shards[0].identity.families)
    ensures var c := shards[0].identity;
            KeysIn(Merge(shards).programs) == Canonical(c.seedStart, c.programs, c.families)
    ensures Merge(shards).counts == CountsOf(Merge(shards).programs)
  {
    var c := shards[0].identity;
    var g := CollectShards(shards, 0, c.programs, c.shardCount, {}, []);
    ShardsOnce(shards, 0, c.programs, c.shardCount, {}, []);
    GatheredCanonical(g.records, c);
  }

  lemma GatheredCanonical(records: seq<Record>, c: Config)
    requires Once(records) && KeySet(records) == ExpectedKeys(c.seedStart, c.programs, c.families)
    requires Distinct(c.families)
    ensures KeysIn(SortRecords(records, c.families)) == Canonical(c.seedStart, c.programs, c.families)
    ensures forall r :: r in SortRecords(records, c.families) <==> r in records
  {
    forall k | 0 <= k < |records| ensures records[k].key.family in c.families {
      CoveredKeys(records, c, records[k]);
    }
    SortedRecords(records, c.families);
    var s := SortRecords(records, c.families);
    forall key ensures key in KeysIn(s) <==> key in Canonical(c.seedStart, c.programs, c.families) {
      SameKeys(s, records, key);
      CanonicalMembers(c.seedStart, c.programs, c.families, key);
    }
    AscendingKeysCanonical(KeysIn(s), c.seedStart, c.programs, c.families);
  }

  // ----- Complete shards -----

  /** A runner's records carry their keys and one of the five statuses. */
  ghost predicate Labelled(run: Key -> Record) {
    forall key :: run(key).key == key && !run(key).status.OtherStatus?
  }

  lemma RunnerLabelled(run: Key -> Record)
    requires Runner(run)
    ensures Labelled(run)
  {
    assert forall key :: RecordOk(run(key), key, DirsOf(run));
  }

  /** Every program of the window leaves a manifest. */
  ghost predicate Complete(run: Key -> Record, c: Config) {
    forall key | key in ExpectedKeys(c.seedStart, c.programs, c.families) :: ValidSha256(run(key).digest)
  }

  function SetOf(keys: seq<Key>): set<Key> {
    set key | key in keys
  }

  lemma SetOfCons(key: Key, keys: seq<Key>)
    ensures SetOf([key] + keys) == {key} + SetOf(keys)
  {
  }

  function ShardConfig(c: Config, index: int): Config {
    c.(shardIndex := index)
  }

  /** What campaign.py writes for a shard it has finished. */
  function ShardFile(run: Key -> Record, c: Config, index: int): Summary
    requires c.shardCount > 0
  {
    SummaryOf(ShardConfig(c, index), Records(run, Window(ShardConfig(c, index))))
  }

  /** The shard files, in the order given on the command line. */
  function ShardFiles(run: Key -> Record, c: Config, order: seq<int>): (r: seq<Summary>)
    requires c.shardCount > 0
    ensures |r| == |order| && forall k | 0 <= k < |r| :: r[k] == ShardFile(run, c, order[k])
  {
    seq(|order|, k requires 0 <= k < |order| => ShardFile(run, c, order[k]))
  }

  /** Every shard index once. */
  ghost predicate Permutation(order: seq<int>, count: int) {
    |order| == count && Distinct(order) && forall i :: 0 <= i < count <==> i in order
  }

  /** The records of the shards from k on. */
  function Concat(run: Key -> Record, c: Config, order: seq<int>, k: nat): seq<Record>
    requires c.shardCount > 0 && k <= |order|
    decreases |order| - k
  {
    if k == |order| then []
    else Records(run, Window(ShardConfig(c, order[k]))) + Concat(run, c, order, k + 1)
  }

  lemma {:induction false} SelectedCount(start: int, n: int, count: int, index: int)
    requires count > 0
    ensures |SelectedSeeds(start, n, index, count)| == ExpectedSelected(n, count, index)
    decreases n
  {
    if n > 0 {
      SelectedCount(start, n - 1, count, index);
    }
  }

  lemma {:induction false} TallyIsCount(entries: seq<Entry>, records: seq<Record>, status: Status)
    requires |entries| == |records| && forall k | 0 <= k < |entries| :: entries[k] == Whole(records[k])
    ensures Tally(entries, status) == Count(records, status)
  {
    if entries != [] {
      TallyIsCount(entries[..|entries| - 1], records[..|records| - 1], status);
    }
  }

  lemma ShardPassesChecks(run: Key -> Record, c: Config, index: int)
    requires Labelled(run) && c.shardCount > 0
    ensures CheckShard(ShardFile(run, c, index), c.programs, c.shardCount).None?
  {
    var s := ShardFile(run, c, index);
    var records := Records(run, Window(ShardConfig(c, index)));
    SelectedCount(c.seedStart, c.programs, c.shardCount, index);
    TallyIsCount(s.programs, records, Agreement);
    TallyIsCount(s.programs, records, Disagreement);
    TallyIsCount(s.programs, records, CompileFailure);
    TallyIsCount(s.programs, records, InvariantFailure);
    TallyIsCount(s.programs, records, RunnerFailure);
  }

  ghost predicate Fresh(keys: seq<Key>, i: nat, seen: set<Key>)
    requires i <= |keys|
  {
    forall k | i <= k < |keys| :: keys[k] !in seen
  }

  /** The records of one shard are all taken. */
  lemma {:induction false} TakesAll(run: Key -> Record, keys: seq<Key>, entries: seq<Entry>, i: nat, seen: set<Key>,
                                    records: seq<Record>)
    requires Labelled(run) && |entries| == |keys| && i <= |keys| && Distinct(keys) && Fresh(keys, i, seen)
    requires forall k | 0 <= k < |keys| :: entries[k] == Whole(run(keys[k])) && ValidSha256(run(keys[k]).digest)
    ensures CollectEntries(entries, i, seen, records)
         == Gathered(seen + SetOf(keys[i..]), records + Records(run, keys)[i..])
    decreases |keys| - i
  {
    if i < |keys| {
      var r := run(keys[i]);
      TakesAll(run, keys, entries, i + 1, seen + {r.key}, records + [r]);
      assert keys[i..] == [keys[i]] + keys[i + 1..];
      assert records + [r] + Records(run, keys)[i + 1..] == records + Records(run, keys)[i..];
      SetOfCons(keys[i], keys[i + 1..]);
    }
  }

  lemma WindowMembers(c: Config, index: int, key: Key)
    requires c.shardCount > 0
    ensures key in Window(ShardConfig(c, index)) <==>
              && c.seedStart <= key.seed < c.seedStart + c.programs && key.family in c.families
              && (key.seed - c.seedStart) % c.shardCount == index
  {
    KeysOfMembers(SelectedSeeds(c.seedStart, c.programs, index, c.shardCount), c.families, key);
    SelectedSeedsAre(c.seedStart, c.programs, index, c.shardCount, key.seed);
  }

  /** The windows of the first k shards. */
  ghost predicate SeenFirst(c: Config, order: seq<int>, k: nat, seen: set<Key>)
    requires c.shardCount > 0 && k <= |order|
  {
    forall key :: key in seen <==> exists j :: 0 <= j < k && key in Window(ShardConfig(c, order[j]))
  }

  lemma SeenNext(c: Config, order: seq<int>, k: nat, seen: set<Key>)
    requires c.shardCount > 0 && k < |order| && Distinct(order) && SeenFirst(c, order, k, seen)
    ensures SeenFirst(c, order, k + 1, seen + SetOf(Window(ShardConfig(c, order[k]))))
    ensures Fresh(Window(ShardConfig(c, order[k])), 0, seen)
  {
    var w := Window(ShardConfig(c, order[k]));
    forall m | 0 <= m < |w| ensures w[m] !in seen {
      if w[m] in seen {
        var j :| 0 <= j < k && w[m] in Window(ShardConfig(c, order[j]));
        WindowMembers(c, order[j], w[m]);
        WindowMembers(c, order[k], w[m]);
      }
    }
  }

  lemma WindowDigests(run: Key -> Record, c: Config, index: int)
    requires Complete(run, c) && c.shardCount > 0
    ensures var w := Window(ShardConfig(c, index)); forall k | 0 <= k < |w| :: ValidSha256(run(w[k]).digest)
  {
    var w := Window(ShardConfig(c, index));
    forall k | 0 <= k < |w| ensures ValidSha256(run(w[k]).digest) {
      WindowMembers(c, index, w[k]);
      assert w[k] in ExpectedKeys(c.seedStart, c.programs, c.families);
    }
  }

  /** One finished shard is taken whole. */
  lemma CollectsShard(run: Key -> Record, c: Config, order: seq<int>, k: nat, seen: set<Key>, records: seq<Record>)
    requires Labelled(run) && Complete(run, c) && c.shardCount > 0 && k < |order| && Distinct(c.families)
    requires Fresh(Window(ShardConfig(c, order[k])), 0, seen)
    ensures var w := Window(ShardConfig(c, order[k]));
            CollectEntries(ShardFiles(run, c, order)[k].programs, 0, seen, records)
            == Gathered(seen + SetOf(w), records + Records(run, w))
  {
    var w := Window(ShardConfig(c, order[k]));
    WindowDistinct(ShardConfig(c, order[k]));
    WindowDigests(run, c, order[k]);
    TakesAll(run, w, ShardFiles(run, c, order)[k].programs, 0, seen, records);
    assert w[0..] == w && Records(run, w)[0..] == Records(run, w);
  }

  lemma ConcatNext(run: Key -> Record, c: Config, order: seq<int>, k: nat, records: seq<Record>)
    requires c.shardCount > 0 && k < |order|
    ensures records + Records(run, Window(ShardConfig(c, order[k]))) + Concat(run, c, order, k + 1)
         == records + Concat(run, c, order, k)
  {
  }

  lemma CollectUnfolds(shards: seq<Summary>, k: nat, requested: int, count: int, seen: set<Key>, records: seq<Record>,
                       more: set<Key>, longer: seq<Record>)
    requires k < |shards| && count > 0 && CheckShard(shards[k], requested, count).None?
    requires CollectEntries(shards[k].programs, 0, seen, records) == Gathered(more, longer)
    ensures CollectShards(shards, k, requested, count, seen, records)
         == CollectShards(shards, k + 1, requested, count, more, longer)
  {
  }

  lemma {:induction false} CollectsAll(run: Key -> Record, c: Config, order: seq<int>, k: nat, seen: set<Key>,
                                       records: seq<Record>)
    requires Labelled(run) && Complete(run, c) && c.shardCount > 0 && k <= |order| && Distinct(order)
    requires Distinct(c.families) && SeenFirst(c, order, k, seen)
    ensures var g := CollectShards(ShardFiles(run, c, order), k, c.programs, c.shardCount, seen, records);
            g.Gathered? && SeenFirst(c, order, |order|, g.seen) && g.records == records + Concat(run, c, order, k)
    decreases |order| - k
  {
    if k < |order| {
      var w := Window(ShardConfig(c, order[k]));
      ShardPassesChecks(run, c, order[k]);
      SeenNext(c, order, k, seen);
      CollectsShard(run, c, order, k, seen, records);
      CollectUnfolds(ShardFiles(run, c, order), k, c.programs, c.shardCount, seen, records,
                     seen + SetOf(w), records + Records(run, w));
      CollectsAll(run, c, order, k + 1, seen + SetOf(w), records + Records(run, w));
      ConcatNext(run, c, order, k, records);
    }
  }

  lemma SeesWindow(c: Config, order: seq<int>, seen: set<Key>, key: Key)
    requires c.shardCount > 0 && Permutation(order, c.shardCount) && SeenFirst(c, order, |order|, seen)
    ensures key in seen <==> key in ExpectedKeys(c.seedStart, c.programs, c.families)
  {
    if key in seen {
      var j :| 0 <= j < |order| && key in Window(ShardConfig(c, order[j]));
      WindowMembers(c, order[j], key);
    }
    if key in ExpectedKeys(c.seedStart, c.programs, c.families) {
      var index := (key.seed - c.seedStart) % c.shardCount;
      assert index in order;
      var j :| 0 <= j < |order| && order[j] == index;
      WindowMembers(c, order[j], key);
    }
  }

  lemma {:induction false} ConcatFromRun(run: Key -> Record, c: Config, order: seq<int>, k: nat)
    requires Labelled(run) && c.shardCount > 0 && k <= |order|
    ensures forall r | r in Concat(run, c, order, k) :: r == run(r.key)
    decreases |order| - k
  {
    if k < |order| {
      ConcatFromRun(run, c, order, k + 1);
    }
  }

  lemma {:induction false} RangeIs(n: int)
    requires n >= 0
    ensures |Range(n)| == n && forall k | 0 <= k < n :: Range(n)[k] == k
  {
    if n > 0 {
      RangeIs(n - 1);
    }
  }

  lemma TagMember(s: seq<int>, x: int)
    ensures (x, Tag) in Tagged(s) <==> x in s
  {
    if x in s {
      var k :| 0 <= k < |s| && s[k] == x;
      assert Tagged(s)[k] == (x, Tag);
    }
  }

  function Untagged(s: seq<(int, Tag)>): (r: seq<int>)
    ensures |r| == |s| && forall k | 0 <= k < |s| :: r[k] == s[k].0
  {
    seq(|s|, k requires 0 <= k < |s| => s[k].0)
  }

  lemma UntagMember(s: seq<(int, Tag)>, x: int)
    ensures x in Untagged(s) <==> (x, Tag) in s
  {
    if x in Untagged(s) {
      var k :| 0 <= k < |s| && s[k].0 == x;
      assert s[k].1 == Tag;
      assert s[k] == (x, Tag);
    }
    if (x, Tag) in s {
      var k :| 0 <= k < |s| && s[k] == (x, Tag);
      assert Untagged(s)[k] == x;
    }
  }

  lemma TagAgain(s: seq<(int, Tag)>)
    ensures Tagged(Untagged(s)) == s
  {
    forall k | 0 <= k < |s| ensures Tagged(Untagged(s))[k] == s[k] {
      assert s[k].1 == Tag;
    }
  }

  lemma TaggedDistinct(s: seq<int>)
    requires Distinct(s)
    ensures DistinctKeys(Tagged(s))
  {
  }

  lemma TaggedSort(p: seq<(int, Tag)>, s: seq<(int, Tag)>)
    requires DistinctKeys(p) && s == Sort(p, IntLess())
    ensures forall x :: x in s <==> x in p
    ensures forall i, j | 0 <= i < j < |s| :: IntLess()(s[i].0, s[j].0)
  {
    IntIsOrder();
    SortAscending(p, IntLess());
  }

  lemma UntaggedAscends(s: seq<(int, Tag)>)
    requires forall i, j | 0 <= i < j < |s| :: IntLess()(s[i].0, s[j].0)
    ensures Ascending(Untagged(s), IntLess())
  {
  }

  lemma RangeAscends(n: int)
    requires n >= 0
    ensures Ascending(Range(n), IntLess())
  {
    RangeIs(n);
  }

  /** Any order of all shards passes the check of their indexes. */
  lemma IndexesPass(order: seq<int>, count: int)
    requires count >= 0 && Permutation(order, count)
    ensures Sort(Tagged(order), IntLess()) == Tagged(Range(count))
  {
    IntIsOrder();
    RangeIs(count);
    TaggedDistinct(order);
    var s := Sort(Tagged(order), IntLess());
    TaggedSort(Tagged(order), s);
    forall x ensures x in Untagged(s) <==> x in Range(count) {
      TagMember(order, x);
      UntagMember(s, x);
      assert 0 <= x < count ==> Range(count)[x] == x;
    }
    UntaggedAscends(s);
    RangeAscends(count);
    AscendingUnique(Untagged(s), Range(count), IntLess());
    TagAgain(s);
  }

  lemma CollectedWindow(run: Key -> Record, c: Config, order: seq<int>) returns (g: Gathering)
    requires Labelled(run) && Complete(run, c) && c.shardCount > 0
    requires Permutation(order, c.shardCount) && Distinct(c.families)
    ensures g == CollectShards(ShardFiles(run, c, order), 0, c.programs, c.shardCount, {}, []) && g.Gathered?
    ensures g.seen == ExpectedKeys(c.seedStart, c.programs, c.families)
    ensures Once(g.records) && KeySet(g.records) == g.seen && forall r | r in g.records :: r == run(r.key)
  {
    var files := ShardFiles(run, c, order);
    g := CollectShards(files, 0, c.programs, c.shardCount, {}, []);
    CollectsAll(run, c, order, 0, {}, []);
    ShardsOnce(files, 0, c.programs, c.shardCount, {}, []);
    ConcatFromRun(run, c, order, 0);
    assert g.records == Concat(run, c, order, 0);
    forall key ensures key in g.seen <==> key in ExpectedKeys(c.seedStart, c.programs, c.families) {
      SeesWindow(c, order, g.seen, key);
    }
  }

  lemma RecordsByKey(run: Key -> Record, records: seq<Record>, keys: seq<Key>)
    requires KeysIn(records) == keys && forall r | r in records :: r == run(r.key)
    ensures records == Records(run, keys)
  {
    forall k | 0 <= k < |records| ensures records[k] == run(keys[k]) {
      assert records[k] in records;
      assert KeysIn(records)[k] == records[k].key;
    }
  }

  /** Sharding is transparent: for every shard count and every order of the files,
      finished shards merge into the programs and counts of the one-shard campaign. */
  lemma ShardingIsTransparent(run: Key -> Record, c: Config, order: seq<int>)
    requires Labelled(run) && Complete(run, c) && c.shardCount > 0
    requires Permutation(order, c.shardCount) && Distinct(c.families)
    ensures var whole := Records(run, Window(c.(shardIndex := 0, shardCount := 1)));
            Merge(ShardFiles(run, c, order)) == Merged(whole, CountsOf(whole), ExitCode(CountsOf(whole)))
  {
    var files := ShardFiles(run, c, order);
    var c0 := files[0].identity;
    assert SameCampaign(files);
    assert Indexes(files) == order;
    IndexesPass(order, c.shardCount);
    var g := CollectedWindow(run, c, order);
    GatheredCanonical(g.records, c0);
    RecordsByKey(run, SortRecords(g.records, c.families), Canonical(c.seedStart, c.programs, c.families));
  }

  /** The shard a program belongs to. */
  function ShardOf(c: Config, key: Key): int
    requires c.shardCount > 0
  {
    (key.seed - c.seedStart) % c.shardCount
  }

  /** What the shards find, each in an output directory of its own. */
  function Joint(runs: int -> Key -> Record, c: Config): Key -> Record
    requires c.shardCount > 0
  {
    key => if c.shardCount > 0 then runs(ShardOf(c, key))(key) else runs(0)(key)
  }

  function OwnFiles(runs: int -> Key -> Record, c: Config, order: seq<int>): (r: seq<Summary>)
    requires c.shardCount > 0
    ensures |r| == |order| && forall k | 0 <= k < |r| :: r[k] == ShardFile(runs(order[k]), c, order[k])
  {
    seq(|order|, k requires 0 <= k < |order| => ShardFile(runs(order[k]), c, order[k]))
  }

  lemma JointFile(runs: int -> Key -> Record, c: Config, index: int)
    requires c.shardCount > 0
    ensures ShardFile(Joint(runs, c), c, index) == ShardFile(runs(index), c, index)
  {
    var w := Window(ShardConfig(c, index));
    forall k | 0 <= k < |w| ensures Joint(runs, c)(w[k]) == runs(index)(w[k]) {
      WindowMembers(c, index, w[k]);
    }
    assert Records(Joint(runs, c), w) == Records(runs(index), w);
  }

  /** All shards find the statuses that single finds. */
  ghost predicate AgreeOn(runs: int -> Key -> Record, single: Key -> Record) {
    forall i: int, key :: runs(i)(key).status == single(key).status
  }

  lemma JointLabelled(runs: int -> Key -> Record, c: Config)
    requires (forall i: int :: Labelled(runs(i))) && c.shardCount > 0
    ensures Labelled(Joint(runs, c))
  {
    var run := Joint(runs, c);
    forall key ensures run(key).key == key && !run(key).status.OtherStatus? {
      assert Labelled(runs(ShardOf(c, key)));
    }
  }

  lemma OwnFilesJoint(runs: int -> Key -> Record, c: Config, order: seq<int>)
    requires c.shardCount > 0
    ensures OwnFiles(runs, c, order) == ShardFiles(Joint(runs, c), c, order)
  {
    forall k | 0 <= k < |order| ensures OwnFiles(runs, c, order)[k] == ShardFiles(Joint(runs, c), c, order)[k] {
      JointFile(runs, c, order[k]);
    }
  }

  lemma JointAgrees(runs: int -> Key -> Record, single: Key -> Record, c: Config, keys: seq<Key>)
    requires (forall i: int :: Labelled(runs(i))) && Runner(single) && AgreeOn(runs, single) && c.shardCount > 0
    ensures SameVerdicts(Records(Joint(runs, c), keys), Records(single, keys))
  {
    JointLabelled(runs, c);
    RunnerLabelled(single);
  }

  /** Shards run in directories of their own, and so with other manifests, merge into
      the programs, statuses, counts and exit code of a one-shard campaign. */
  lemma ShardsMatchSingle(runs: int -> Key -> Record, single: Key -> Record, c: Config, order: seq<int>, one: Attempt)
    requires (forall i: int :: Labelled(runs(i))) && Runner(single) && AgreeOn(runs, single)
    requires c.programs > 0 && c.cases > 0 && c.shardCount > 0 && Complete(Joint(runs, c), c)
    requires Permutation(order, c.shardCount) && Distinct(c.families)
    requires one.budget >= |Window(c.(shardIndex := 0, shardCount := 1))|
    ensures var whole := Records(single, Window(c.(shardIndex := 0, shardCount := 1)));
            var m := Merge(OwnFiles(runs, c, order));
            && m.Merged? && SameVerdicts(m.programs, whole) && m.counts == CountsOf(whole)
            && Execute(single, c.(shardIndex := 0, shardCount := 1), one, EMPTY).0 == Exit(m.code)
  {
    var run, c1 := Joint(runs, c), c.(shardIndex := 0, shardCount := 1);
    JointLabelled(runs, c);
    OwnFilesJoint(runs, c, order);
    ShardingIsTransparent(run, c, order);
    JointAgrees(runs, single, c, Window(c1));
    SameCounts(Records(run, Window(c1)), Records(single, Window(c1)));
    OneShard(single, c1, one);
  }

  lemma OneShard(single: Key -> Record, c: Config, one: Attempt)
    requires Runner(single) && ArgumentsOk(c) && Distinct(c.families) && one.budget >= |Window(c)|
    ensures Execute(single, c, one, EMPTY).0 == Exit(ExitCode(CountsOf(Records(single, Window(c)))))
  {
    SingleRun(single, DirsOf(single), c, one);
    SteadyRecords(single, DirsOf(single), c, [], EMPTY, |Window(c)|);
    assert Window(c)[..|Window(c)|] == Window(c);
  }

  /** A record without a valid digest, in any shard, makes the merge fail. */
  lemma {:induction false} EntriesCarryDigests(entries: seq<Entry>, i: nat, seen: set<Key>, records: seq<Record>)
    requires i <= |entries| && CollectEntries(entries, i, seen, records).Gathered?
    ensures forall k | i <= k < |entries| :: entries[k].Whole? && ValidSha256(entries[k].record.digest)
    decreases |entries| - i
  {
    if i < |entries| {
      EntriesCarryDigests(entries, i + 1, seen + {entries[i].record.key}, records + [entries[i].record]);
    }
  }

  lemma {:induction false} ShardsCarryDigests(shards: seq<Summary>, i: nat, requested: int, count: int, seen: set<Key>,
                                              records: seq<Record>, k: nat, m: nat)
    requires i <= k < |shards| && m < |shards[k].programs| && count > 0
    requires CollectShards(shards, i, requested, count, seen, records).Gathered?
    ensures shards[k].programs[m].Whole? && ValidSha256(shards[k].programs[m].record.digest)
    decreases |shards| - i
  {
    var g := CollectEntries(shards[i].programs, 0, seen, records);
    if i == k {
      EntriesCarryDigests(shards[i].programs, 0, seen, records);
    } else {
      ShardsCarryDigests(shards, i + 1, requested, count, g.seen, g.records, k, m);
    }
  }

  lemma MergedComplete(run: Key -> Record, c: Config, order: seq<int>, key: Key)
    requires Labelled(run) && c.shardCount > 0 && Permutation(order, c.shardCount)
    requires Merge(ShardFiles(run, c, order)).Merged? && key in ExpectedKeys(c.seedStart, c.programs, c.families)
    ensures ValidSha256(run(key).digest)
  {
    var files := ShardFiles(run, c, order);
    var index := (key.seed - c.seedStart) % c.shardCount;
    assert index in order;
    var j :| 0 <= j < |order| && order[j] == index;
    WindowMembers(c, order[j], key);
    var w := Window(ShardConfig(c, order[j]));
    var m :| 0 <= m < |w| && w[m] == key;
    assert files[j].programs[m] == Whole(run(key));
    ShardsCarryDigests(files, 0, c.programs, c.shardCount, {}, [], j, m);
  }

  /** Finished shards of one campaign can be merged exactly when every program left a
      manifest. */
  lemma MergeableIff(run: Key -> Record, c: Config, order: seq<int>)
    requires Labelled(run) && c.shardCount > 0 && Permutation(order, c.shardCount) && Distinct(c.families)
    ensures Merge(ShardFiles(run, c, order)).Merged? <==> Complete(run, c)
  {
    if Complete(run, c) {
      ShardingIsTransparent(run, c, order);
    }
    if Merge(ShardFiles(run, c, order)).Merged? {
      forall key | key in ExpectedKeys(c.seedStart, c.programs, c.families) ensures ValidSha256(run(key).digest) {
        MergedComplete(run, c, order, key);
      }
    }
  }

  /** The files exist only when there are no more shards than seeds: the others are
      never written. */
  lemma EveryShardWritesIff(run: Key -> Record, c: Config, single: Attempt)
    requires Runner(run) && c.programs > 0 && c.cases > 0 && c.shardCount > 0 && c.families != []
    requires Distinct(c.families) && forall i :: single.budget >= |Window(ShardConfig(c, i))|
    ensures (forall i | 0 <= i < c.shardCount ::
               Execute(run, ShardConfig(c, i), single, EMPTY).1.summary == Some(ShardFile(run, c, i)))
            <==> c.shardCount <= c.programs
  {
    forall i | 0 <= i < c.shardCount
      ensures Execute(run, ShardConfig(c, i), single, EMPTY).1.summary
           == if i < c.programs then Some(ShardFile(run, c, i)) else None
    {
      FinishedShard(run, ShardConfig(c, i), single);
    }
    if c.shardCount > c.programs {
      assert Execute(run, ShardConfig(c, c.programs), single, EMPTY).1.summary == None;
    }
  }

  lemma FinishedShard(run: Key -> Record, c: Config, single: Attempt)
    requires Runner(run) && ArgumentsOk(c) && c.families != [] && Distinct(c.families) && single.budget >= |Window(c)|
    ensures Execute(run, c, single, EMPTY).1.summary
         == if c.shardIndex < c.programs then Some(SummaryOf(c, Records(run, Window(c)))) else None
  {
    SummaryWrittenIff(run, DirsOf(run), c, single);
  }

  // ----- The loops -----

  method GatherEntries(entries: seq<Entry>, seenBefore: set<Key>, before: seq<Record>) returns (g: Gathering)
    ensures g == CollectEntries(entries, 0, seenBefore, before)
  {
    var seen, records := seenBefore, before;
    for i := 0 to |entries|
      invariant CollectEntries(entries, 0, seenBefore, before) == CollectEntries(entries, i, seen, records)
    {
      if entries[i].Lacks? {
        return Stopped(MissingField(entries[i].field));
      }
      var r := entries[i].record;
      if r.key in seen {
        return Stopped(DuplicateProgram(r.key));
      }
      if !ValidSha256(r.digest) {
        return Stopped(BadDigest(r.key));
      }
      seen := seen + {r.key};
      records := records + [r];
    }
    g := Gathered(seen, records);
  }

  method GatherShards(shards: seq<Summary>, requested: int, count: int) returns (g: Gathering)
    requires count > 0
    ensures g == CollectShards(shards, 0, requested, count, {}, [])
  {
    g := Gathered({}, []);
    for i := 0 to |shards|
      invariant g.Gathered?
      invariant CollectShards(shards, 0, requested, count, {}, [])
             == CollectShards(shards, i, requested, count, g.seen, g.records)
    {
      var failure := CheckShard(shards[i], requested, count);
      if failure.Some? {
        return Stopped(failure.value);
      }
      g := GatherEntries(shards[i].programs, g.seen, g.records);
      if g.Stopped? {
        return;
      }
    }
  }

  /** main(), from the loaded files to the merged document. */
  method MergeShards(shards: seq<Summary>) returns (outcome: Outcome)
    requires shards != []
    ensures outcome == Merge(shards)
  {
    var c := shards[0].identity;
    for i := 0 to |shards|
      invariant forall k | 0 <= k < i :: CampaignKey(shards[k].identity) == CampaignKey(c)
    {
      if CampaignKey(shards[i].identity) != CampaignKey(c) {
        return Rejected(IncompatibleMetadata);
      }
    }
    if |shards| != c.shardCount {
      return Rejected(WrongShardTotal);
    }
    if Sort(Tagged(Indexes(shards)), IntLess()) != Tagged(Range(c.shardCount)) {
      return Rejected(WrongShardIndexes);
    }
    var g := GatherShards(shards, c.programs, c.shardCount);
    if g.Stopped? {
      return Rejected(g.failure);
    }
    if g.seen != ExpectedKeys(c.seedStart, c.programs, c.families) {
      return Rejected(CoverageMismatch);
    }
    var records := SortRecords(g.records, c.families);
    var counts := CountsOf(records);
    outcome := Merged(records, counts, ExitCode(counts));
  }
}
