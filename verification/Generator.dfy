/** The blind-review packet and its private mapping (src/blind/generator.ts). */
module Generator {
  import opened BlindId
  import opened Groups
  import opened Js
  import opened Order
  import opened Records
  import Shuffle

  // ------------------------------------------------------------------ data model

  datatype Artifact = Artifact(path: JsString, content: JsString)

  /** What a reviewer sees of one answer. */
  datatype Item = Item(
    blindId: JsString,
    benchmarkId: JsString,
    benchmarkVersion: JsString,
    domain: JsString,
    difficulty: JsString,
    taskText: JsString,
    expectedOutputFormat: Option<JsString>,
    requiredConstraints: Option<seq<JsString>>,
    responseText: JsString,
    responseLanguage: JsString,
    artifacts: Option<seq<Artifact>>,
    scoringRubric: JsString)

  /** The private join of one item back to its run. */
  datatype Entry = Entry(
    blindId: JsString,
    runRecordId: JsString,
    experimentId: JsString,
    benchmarkId: JsString,
    targetId: JsString,
    repetitionIndex: int)

  datatype Benchmark = Benchmark(
    version: JsString,
    domain: JsString,
    difficulty: JsString,
    taskText: JsString,
    expectedOutputFormat: JsString,
    requiredConstraints: Option<seq<JsString>>)

  datatype Policy = Flag | Exclude | Redact

  datatype Hit = Hit(matched: JsString, reason: JsString)

  datatype RedactionRecord = RedactionRecord(blindId: JsString, field: JsString, hit: Hit, action: Policy)

  datatype SourceEntry = SourceEntry(runRecordId: JsString, contentHash: JsString, responseHash: JsString)

  const ALGORITHM := Lit("plinius-blind-shuffle")
  const ALGORITHM_VERSION := Lit("1.0.0")

  datatype Randomization = Randomization(
    algorithm: JsString,
    algorithmVersion: JsString,
    seedHash: JsString,
    shuffleResponses: bool,
    shuffleBenchmarkOrder: bool,
    pairwise: bool,
    sourceRecordsHash: JsString,
    generatedSetHash: JsString)

  /** The public set; `generatedSetHash` is blank while the hash itself is computed. */
  datatype Packet = Packet(
    schemaVersion: nat,
    reviewSetId: JsString,
    createdAt: JsString,
    locale: JsString,
    purpose: JsString,
    excludeFromModelQualification: bool,
    benchmarkIds: seq<JsString>,
    rubricVersions: seq<JsString>,
    randomization: Randomization,
    items: seq<Item>)

  /** The private mapping that unblinds the public set with this hash. */
  datatype PrivateMapping = PrivateMapping(
    schemaVersion: nat,
    reviewSetId: JsString,
    publicSetHash: JsString,
    entries: seq<Entry>,
    redactions: seq<RedactionRecord>)

  /** The private manifest; the seed itself is kept only if so configured. */
  datatype Manifest = Manifest(
    schemaVersion: nat,
    reviewSetId: JsString,
    createdAt: JsString,
    experimentId: JsString,
    algorithm: JsString,
    algorithmVersion: JsString,
    seed: Option<JsString>,
    seedHash: JsString,
    sourceRecordsHash: JsString,
    publicSetHash: JsString,
    selection: JsString,
    filter: JsString,
    redactionPolicy: Policy)

  /** The configuration, and the library functions the generator calls without looking inside. */
  datatype Env = Env(
    experimentId: JsString,
    seed: JsString,
    reviewSetId: Option<JsString>,
    createdAt: JsString,
    locale: JsString,
    purpose: JsString,
    excludeFromModelQualification: bool,
    shuffleResponses: bool,
    shuffleBenchmarkOrder: bool,
    pairwise: bool,
    storeFullSeed: bool,
    selection: JsString,
    filter: JsString,
    policy: Policy,
    standardRubric: JsString,
    benchmarks: map<JsString, Benchmark>,
    collate: (JsString, JsString) -> bool,
    scan: JsString -> seq<Hit>,
    withoutPhrases: JsString -> JsString,
    language: JsString -> JsString,
    extractFiles: JsString -> seq<Artifact>,
    sha256: JsString -> JsString,
    sourceDigest: seq<SourceEntry> -> JsString,
    packetDigest: Packet -> JsString,
    mac: (JsString, JsString) -> seq<Byte>,
    seedState: JsString -> Shuffle.U32)

  // ------------------------------------------------------------- building an item

  function OrElse<T>(o: Option<T>, default: T): T { if o.Some? then o.value else default }

  function BlindIdOf(table: map<JsString, JsString>, r: RunRecord): JsString {
    if r.runRecordId in table then table[r.runRecordId] else []
  }

  function Artifacts(env: Env, r: RunRecord, domain: JsString): Option<seq<Artifact>> {
    if domain != Lit("coding") then None
    else
      var files := env.extractFiles(OrElse(r.response, []));
      if files == [] then None else Some(files)
  }

  function RawItem(env: Env, table: map<JsString, JsString>, r: RunRecord): Item {
    var text := OrElse(r.response, []);
    if r.benchmarkId in env.benchmarks then
      var b := env.benchmarks[r.benchmarkId];
      Item(BlindIdOf(table, r), r.benchmarkId, b.version, b.domain, b.difficulty, b.taskText,
           if b.expectedOutputFormat == [] then None else Some(b.expectedOutputFormat),
           b.requiredConstraints, text, env.language(text), Artifacts(env, r, b.domain),
           env.standardRubric)
    else
      var domain := OrElse(r.domain, Lit("unknown"));
      Item(BlindIdOf(table, r), r.benchmarkId, OrElse(r.version, Lit("0.0.0")), domain,
           OrElse(r.difficulty, Lit("unknown")), [], None, None, text, env.language(text), Artifacts(env, r, domain),
           env.standardRubric)
  }

  function JoinLines(lines: seq<JsString>): JsString {
    if lines == [] then []
    else if |lines| == 1 then lines[0]
    else JoinLines(lines[..|lines| - 1]) + [0x0a] + lines[|lines| - 1]
  }

  function ArtifactFields(a: seq<Artifact>): seq<(JsString, JsString)> {
    if a == [] then []
    else
      var n := |a| - 1;
      ArtifactFields(a[..n]) + [(Lit("artifact[") + Decimal(n) + Lit("]:") + a[n].path, a[n].content)]
  }

  /** The texts of an item that are scanned for identity leaks, with their names. */
  function ScannedFields(item: Item): seq<(JsString, JsString)> {
    [(Lit("taskText"), item.taskText),
     (Lit("responseText"), item.responseText),
     (Lit("expectedOutputFormat"), OrElse(item.expectedOutputFormat, [])),
     (Lit("requiredConstraints"), JoinLines(OrElse(item.requiredConstraints, [])))]
    + ArtifactFields(OrElse(item.artifacts, []))
  }

  predicate Leaks(env: Env, item: Item) {
    exists f :: f in ScannedFields(item) && env.scan(f.1) != []
  }

  function HitRecords(item: Item, field: JsString, hits: seq<Hit>, policy: Policy): seq<RedactionRecord> {
    Map((h: Hit) => RedactionRecord(item.blindId, field, h, policy), hits)
  }

  function FieldRecords(env: Env, item: Item, fields: seq<(JsString, JsString)>): seq<RedactionRecord> {
    if fields == [] then []
    else
      var n := |fields| - 1;
      FieldRecords(env, item, fields[..n]) + HitRecords(item, fields[n].0, env.scan(fields[n].1), env.policy)
  }

  /** `applyRedaction`: what is left of the item, if it is kept at all. */
  function Redacted(env: Env, item: Item): Option<Item> {
    if !Leaks(env, item) then Some(item)
    else match env.policy
      case Flag => Some(item)
      case Exclude => None
      case Redact => Some(item.(responseText := env.withoutPhrases(item.responseText)))
  }

  predicate Keeps(env: Env, table: map<JsString, JsString>, r: RunRecord) {
    Redacted(env, RawItem(env, table, r)).Some?
  }

  function ItemOf(env: Env, table: map<JsString, JsString>, r: RunRecord): Item {
    OrElse(Redacted(env, RawItem(env, table, r)), RawItem(env, table, r))
  }

  function EntryOf(env: Env, table: map<JsString, JsString>, r: RunRecord): Entry {
    Entry(BlindIdOf(table, r), r.runRecordId, OrElse(r.experimentId, env.experimentId), r.benchmarkId, r.targetId,
      Repetition(r))
  }

  function IsKept(env: Env, table: map<JsString, JsString>): RunRecord -> bool { r => Keeps(env, table, r) }
  function ToItem(env: Env, table: map<JsString, JsString>): RunRecord -> Item { r => ItemOf(env, table, r) }
  function ToEntry(env: Env, table: map<JsString, JsString>): RunRecord -> Entry { r => EntryOf(env, table, r) }

  function RawItems(env: Env, table: map<JsString, JsString>, records: seq<RunRecord>): seq<Item> {
    Map(ToItem(env, table), Filter(IsKept(env, table), records))
  }

  function Entries(env: Env, table: map<JsString, JsString>, records: seq<RunRecord>): seq<Entry> {
    Map(ToEntry(env, table), Filter(IsKept(env, table), records))
  }

  function Redactions(env: Env, table: map<JsString, JsString>, records: seq<RunRecord>): seq<RedactionRecord> {
    if records == [] then []
    else
      var item := RawItem(env, table, records[|records| - 1]);
      Redactions(env, table, records[..|records| - 1]) + FieldRecords(env, item, ScannedFields(item))
  }

  // -------------------------------------------------------------------- ordering

  function BenchmarkOf(item: Item): JsString { item.benchmarkId }

  function BlindOf(item: Item): JsString { item.blindId }

  function EntryBlindOf(e: Entry): JsString { e.blindId }

  function BlindLeq(collate: (JsString, JsString) -> bool): (Item, Item) -> bool { Through(collate, BlindOf) }

  function ShuffledBy<T>(env: Env, s: seq<T>, seed: JsString): (r: seq<T>)
    ensures |r| == |s| && multiset(r) == multiset(s)
  {
    var d := Shuffle.Draws(Shuffle.MULBERRY32, env.seedState(seed), |s|);
    Shuffle.ShuffledKeeps(s, d);
    Shuffle.Shuffled(s, d)
  }

  function BenchmarkOrder(env: Env, items: seq<Item>): seq<JsString> {
    var sorted := SortBy(LexLeq, Keys(BenchmarkOf, items));
    if env.shuffleBenchmarkOrder then ShuffledBy(env, sorted, env.seed + Lit(":benchmark-order")) else sorted
  }

  function OrderedGroup(env: Env, group: seq<Item>, k: JsString): seq<Item> {
    var sorted := SortBy(BlindLeq(env.collate), group);
    if env.shuffleResponses then ShuffledBy(env, sorted, env.seed + Lit(":responses:") + k) else sorted
  }

  function OrderedGroups(env: Env, items: seq<Item>, ks: seq<JsString>): (r: seq<seq<Item>>)
    ensures |r| == |ks|
    ensures forall i :: 0 <= i < |ks| ==> r[i] == OrderedGroup(env, Group(BenchmarkOf, items, ks[i]), ks[i])
  {
    if ks == [] then []
    else
      var n := |ks| - 1;
      OrderedGroups(env, items, ks[..n]) + [OrderedGroup(env, Group(BenchmarkOf, items, ks[n]), ks[n])]
  }

  /** `randomizeItems`. */
  function Randomized(env: Env, items: seq<Item>): seq<Item> {
    Concat(OrderedGroups(env, items, BenchmarkOrder(env, items)))
  }

  lemma OrderIsKeys(env: Env, items: seq<Item>)
    ensures multiset(BenchmarkOrder(env, items)) == multiset(Keys(BenchmarkOf, items))
    ensures Distinct(BenchmarkOrder(env, items))
    ensures forall x :: x in items ==> BenchmarkOf(x) in BenchmarkOrder(env, items)
  {
    LexIsTotalOrder();
    SortByCorrect(LexLeq, Keys(BenchmarkOf, items));
    KeysDistinct(BenchmarkOf, items);
    DistinctPermutes(Keys(BenchmarkOf, items), BenchmarkOrder(env, items));
    SameElements(Keys(BenchmarkOf, items), BenchmarkOrder(env, items));
  }

  lemma GroupRearranged(env: Env, items: seq<Item>, k: JsString)
    requires TotalPreorder(env.collate)
    ensures var list := OrderedGroup(env, Group(BenchmarkOf, items, k), k);
      multiset(list) == multiset(Group(BenchmarkOf, items, k)) && AllHaveKey(BenchmarkOf, list, k)
  {
    var group := Group(BenchmarkOf, items, k);
    ThroughOrdered(env.collate, BlindOf);
    SortByCorrect(BlindLeq(env.collate), group);
    GroupMembers(BenchmarkOf, items, k);
    SameElements(group, OrderedGroup(env, group, k));
  }

  lemma OrderedGroupsKeyed(env: Env, items: seq<Item>)
    requires TotalPreorder(env.collate)
    ensures var ks := BenchmarkOrder(env, items); Keyed(BenchmarkOf, ks, OrderedGroups(env, items, ks))
  {
    var ks := BenchmarkOrder(env, items);
    var lists := OrderedGroups(env, items, ks);
    OrderIsKeys(env, items);
    forall i | 0 <= i < |ks| ensures AllHaveKey(BenchmarkOf, lists[i], ks[i]) { GroupRearranged(env, items, ks[i]); }
  }

  /** Randomizing keeps exactly the items, those of one benchmark together. */
  lemma RandomizedRearranges(env: Env, items: seq<Item>)
    requires TotalPreorder(env.collate)
    ensures multiset(Randomized(env, items)) == multiset(items)
    ensures Contiguous(BenchmarkOf, Randomized(env, items))
  {
    var ks := BenchmarkOrder(env, items);
    var lists := OrderedGroups(env, items, ks);
    OrderIsKeys(env, items);
    OrderedGroupsKeyed(env, items);
    ConcatContiguous(BenchmarkOf, ks, lists);
    forall i | 0 <= i < |ks| ensures multiset(lists[i]) == multiset(Group(BenchmarkOf, items, ks[i])) {
      GroupRearranged(env, items, ks[i]);
    }
    GroupsRearrange(BenchmarkOf, items, ks, lists);
  }

  lemma GroupIgnoresOrder(env: Env, items: seq<Item>, others: seq<Item>, k: JsString)
    requires TotalPreorder(env.collate) && NoTies(BlindLeq(env.collate), items)
    requires multiset(items) == multiset(others)
    ensures OrderedGroup(env, Group(BenchmarkOf, items, k), k) == OrderedGroup(env, Group(BenchmarkOf, others, k), k)
  {
    ThroughOrdered(env.collate, BlindOf);
    FilterPermutes(HasKey(BenchmarkOf, k), items, others);
    GroupMembers(BenchmarkOf, items, k);
    SortCanonical(BlindLeq(env.collate), Group(BenchmarkOf, items, k), Group(BenchmarkOf, others, k));
  }

  /** The final order does not depend on the order in which the items were built. */
  lemma RandomizedIgnoresOrder(env: Env, items: seq<Item>, others: seq<Item>)
    requires TotalPreorder(env.collate) && NoTies(BlindLeq(env.collate), items)
    requires multiset(items) == multiset(others)
    ensures Randomized(env, items) == Randomized(env, others)
  {
    KeysPermute(BenchmarkOf, items, others);
    LexSortCanonical(Keys(BenchmarkOf, items), Keys(BenchmarkOf, others));
    var ks := BenchmarkOrder(env, items);
    assert ks == BenchmarkOrder(env, others);
    forall i | 0 <= i < |ks| ensures OrderedGroups(env, items, ks)[i] == OrderedGroups(env, others, ks)[i] {
      GroupIgnoresOrder(env, items, others, ks[i]);
    }
    assert OrderedGroups(env, items, ks) == OrderedGroups(env, others, ks);
  }

  // -------------------------------------------------------------- the whole packet

  function IdOf(r: RunRecord): JsString { r.runRecordId }

  function Ids(records: seq<RunRecord>): seq<JsString> { Map(IdOf, records) }

  function Source(env: Env): IdSource { IdSource(env.mac, env.seed, Lit("R")) }

  ghost function Table(env: Env, records: seq<RunRecord>): map<JsString, JsString>
    requires Assignable(Source(env), Ids(records))
  {
    BlindIds(Source(env), Ids(records))
  }

  function SourceEntryOf(env: Env): RunRecord -> SourceEntry {
    (r: RunRecord) => SourceEntry(r.runRecordId, r.contentHash, env.sha256(OrElse(r.response, [])))
  }

  function SourceIdOf(e: SourceEntry): JsString { e.runRecordId }

  function SourceLeq(collate: (JsString, JsString) -> bool): (SourceEntry, SourceEntry) -> bool {
    Through(collate, SourceIdOf)
  }

  function SourceEntries(env: Env, records: seq<RunRecord>): seq<SourceEntry> {
    SortBy(SourceLeq(env.collate), Map(SourceEntryOf(env), records))
  }

  /** `sourceHash`. */
  function SourceHash(env: Env, records: seq<RunRecord>): JsString { env.sourceDigest(SourceEntries(env, records)) }

  function ReviewSetId(env: Env): JsString {
    OrElse(env.reviewSetId, env.experimentId + Lit("-blind-") + FirstUnits(env.sha256(env.seed), 8))
  }

  function FirstUnits(s: JsString, n: nat): JsString { if n <= |s| then s[..n] else s }

  function VersionOf(env: Env): JsString -> JsString {
    (id: JsString) => if id in env.benchmarks then env.benchmarks[id].version else Lit("0.0.0")
  }

  function RandomizationOf(env: Env, sourceRecordsHash: JsString): Randomization {
    Randomization(ALGORITHM, ALGORITHM_VERSION, env.sha256(env.seed), env.shuffleResponses, env.shuffleBenchmarkOrder,
                  env.pairwise, sourceRecordsHash, [])
  }

  function PacketOf(env: Env, items: seq<Item>, sourceRecordsHash: JsString): Packet {
    var ids, randomization := SortBy(LexLeq, Keys(BenchmarkOf, items)), RandomizationOf(env, sourceRecordsHash);
    var blank := Packet(1, ReviewSetId(env), env.createdAt, env.locale, env.purpose, env.excludeFromModelQualification,
                        ids, Map(VersionOf(env), ids), randomization, items);
    blank.(randomization := randomization.(generatedSetHash := env.packetDigest(blank)))
  }

  function MappingOf(env: Env, packet: Packet, entries: seq<Entry>, redactions: seq<RedactionRecord>): PrivateMapping {
    PrivateMapping(1, packet.reviewSetId, packet.randomization.generatedSetHash, entries, redactions)
  }

  function ManifestOf(env: Env, packet: Packet): Manifest {
    var r := packet.randomization;
    Manifest(1, packet.reviewSetId, env.createdAt, env.experimentId, ALGORITHM, ALGORITHM_VERSION,
             if env.storeFullSeed then Some(env.seed) else None, r.seedHash, r.sourceRecordsHash, r.generatedSetHash,
             env.selection, env.filter, env.policy)
  }

  /** The public set generated for these records. */
  ghost function PublicSet(env: Env, records: seq<RunRecord>): Packet
    requires Assignable(Source(env), Ids(records))
  {
    PacketOf(env, Randomized(env, RawItems(env, Table(env, records), records)), SourceHash(env, records))
  }

  /** Record ids are distinct, and the collation tells the record ids apart, and the blind ids. */
  ghost predicate Ready(env: Env, records: seq<RunRecord>) {
    && TotalPreorder(env.collate)
    && Assignable(Source(env), Ids(records))
    && Distinct(Ids(records))
    && NoTies(env.collate, Ids(records))
    && (forall i, j :: i in Table(env, records) && j in Table(env, records)
          && env.collate(Table(env, records)[i], Table(env, records)[j])
          && env.collate(Table(env, records)[j], Table(env, records)[i])
          ==> Table(env, records)[i] == Table(env, records)[j])
  }

  lemma RecordById(records: seq<RunRecord>, r: RunRecord, q: RunRecord)
    requires Distinct(Ids(records)) && r in records && q in records && r.runRecordId == q.runRecordId
    ensures r == q
  {
    var i :| 0 <= i < |records| && records[i] == r;
    var j :| 0 <= j < |records| && records[j] == q;
    assert Ids(records)[i] == Ids(records)[j];
  }

  lemma IdsMembers(records: seq<RunRecord>)
    ensures forall r :: r in records ==> r.runRecordId in Ids(records)
  {
    forall r | r in records ensures r.runRecordId in Ids(records) {
      var i :| 0 <= i < |records| && records[i] == r;
      assert Ids(records)[i] == r.runRecordId;
    }
  }

  lemma MapMembers<T(!new), U(!new)>(f: T -> U, s: seq<T>)
    ensures forall y :: y in Map(f, s) <==> exists x :: x in s && f(x) == y
  {
    forall y | y in Map(f, s) ensures exists x :: x in s && f(x) == y {
      var i :| 0 <= i < |s| && Map(f, s)[i] == y;
      assert s[i] in s;
    }
    forall x | x in s ensures f(x) in Map(f, s) {
      var i :| 0 <= i < |s| && s[i] == x;
      assert Map(f, s)[i] == f(x);
    }
  }

  /** The built items: exactly those of the kept records. */
  lemma RawItemsMembers(env: Env, table: map<JsString, JsString>, records: seq<RunRecord>)
    ensures forall item :: item in RawItems(env, table, records) <==>
      exists r :: r in records && Keeps(env, table, r) && ItemOf(env, table, r) == item
  {
    var kept := Filter(IsKept(env, table), records);
    FilterMembers(IsKept(env, table), records);
    MapMembers(ToItem(env, table), kept);
    forall item | item in RawItems(env, table, records)
      ensures exists r :: r in records && Keeps(env, table, r) && ItemOf(env, table, r) == item
    {
      var r :| r in kept && ToItem(env, table)(r) == item;
      assert r in records && Keeps(env, table, r) && ItemOf(env, table, r) == item;
    }
    forall r | r in records && Keeps(env, table, r) ensures ItemOf(env, table, r) in RawItems(env, table, records) {
      assert r in kept && ToItem(env, table)(r) == ItemOf(env, table, r);
    }
  }

  lemma ItemKeepsNames(env: Env, table: map<JsString, JsString>, r: RunRecord)
    ensures ItemOf(env, table, r).blindId == BlindIdOf(table, r)
    ensures ItemOf(env, table, r).benchmarkId == r.benchmarkId
  {
  }

  lemma BlindIdsDiffer(env: Env, records: seq<RunRecord>, r: RunRecord, q: RunRecord)
    requires Assignable(Source(env), Ids(records)) && Distinct(Ids(records)) && r in records && q in records
    ensures BlindIdOf(Table(env, records), r) == BlindIdOf(Table(env, records), q) ==> r == q
    ensures r.runRecordId in Table(env, records)
  {
    BlindIdsInjective(Source(env), Ids(records));
    IdsMembers(records);
    if r.runRecordId == q.runRecordId { RecordById(records, r, q); }
  }

  lemma ItemsUntied(env: Env, records: seq<RunRecord>)
    requires Ready(env, records)
    ensures NoTies(BlindLeq(env.collate), RawItems(env, Table(env, records), records))
  {
    var table, collate := Table(env, records), env.collate;
    var items := RawItems(env, table, records);
    RawItemsMembers(env, table, records);
    forall a, b | a in items && b in items && collate(BlindOf(a), BlindOf(b)) && collate(BlindOf(b), BlindOf(a))
      ensures a == b
    {
      var r :| r in records && Keeps(env, table, r) && ItemOf(env, table, r) == a;
      var q :| q in records && Keeps(env, table, q) && ItemOf(env, table, q) == b;
      ItemKeepsNames(env, table, r);
      ItemKeepsNames(env, table, q);
      BlindIdsDiffer(env, records, r, q);
      BlindIdsDiffer(env, records, q, r);
    }
    ThroughUntied(collate, BlindOf, items);
  }

  lemma SourceUntied(env: Env, records: seq<RunRecord>)
    requires Ready(env, records)
    ensures NoTies(SourceLeq(env.collate), Map(SourceEntryOf(env), records))
    ensures TotalPreorder(SourceLeq(env.collate))
  {
    ThroughOrdered(env.collate, SourceIdOf);
    var entries := Map(SourceEntryOf(env), records);
    MapMembers(SourceEntryOf(env), records);
    IdsMembers(records);
    forall a, b | a in entries && b in entries
      && env.collate(SourceIdOf(a), SourceIdOf(b)) && env.collate(SourceIdOf(b), SourceIdOf(a))
      ensures a == b
    {
      var r :| r in records && SourceEntryOf(env)(r) == a;
      var q :| q in records && SourceEntryOf(env)(q) == b;
      assert r.runRecordId == q.runRecordId;
      RecordById(records, r, q);
    }
    ThroughUntied(env.collate, SourceIdOf, entries);
  }

  lemma TableIgnoresOrder(env: Env, records: seq<RunRecord>, others: seq<RunRecord>)
    requires Assignable(Source(env), Ids(records)) && multiset(records) == multiset(others)
    ensures Assignable(Source(env), Ids(others))
    ensures Table(env, records) == Table(env, others)
  {
    MapPermutes(IdOf, records, others);
    BlindIdsIgnoreOrder(Source(env), Ids(records), Ids(others));
  }

  /** The source hash is taken over the contents of the records, whatever their order. */
  lemma SourceHashIgnoresOrder(env: Env, records: seq<RunRecord>, others: seq<RunRecord>)
    requires Ready(env, records) && multiset(records) == multiset(others)
    ensures SourceHash(env, records) == SourceHash(env, others)
  {
    SourceUntied(env, records);
    MapPermutes(SourceEntryOf(env), records, others);
    SortCanonical(SourceLeq(env.collate), Map(SourceEntryOf(env), records), Map(SourceEntryOf(env), others));
  }

  /** The public packet is the same for every ordering of the records, and the private mapping
      holds the same entries. */
  lemma PublicSetIgnoresOrder(env: Env, records: seq<RunRecord>, others: seq<RunRecord>)
    requires Ready(env, records) && multiset(records) == multiset(others)
    ensures Assignable(Source(env), Ids(others))
    ensures PublicSet(env, records) == PublicSet(env, others)
    ensures multiset(Entries(env, Table(env, records), records)) == multiset(Entries(env, Table(env, others), others))
  {
    TableIgnoresOrder(env, records, others);
    SourceHashIgnoresOrder(env, records, others);
    var table := Table(env, records);
    FilterPermutes(IsKept(env, table), records, others);
    MapPermutes(ToItem(env, table), Filter(IsKept(env, table), records), Filter(IsKept(env, table), others));
    MapPermutes(ToEntry(env, table), Filter(IsKept(env, table), records), Filter(IsKept(env, table), others));
    ItemsUntied(env, records);
    RandomizedIgnoresOrder(env, RawItems(env, table, records), RawItems(env, table, others));
  }

  /** The packet's items are the items of the kept records, rearranged, one benchmark at a time. */
  lemma PublicSetIsKeptItems(env: Env, records: seq<RunRecord>)
    requires TotalPreorder(env.collate) && Assignable(Source(env), Ids(records))
    ensures multiset(PublicSet(env, records).items) == multiset(RawItems(env, Table(env, records), records))
    ensures Contiguous(BenchmarkOf, PublicSet(env, records).items)
  {
    RandomizedRearranges(env, RawItems(env, Table(env, records), records));
  }

  ghost predicate EntryFor(env: Env, records: seq<RunRecord>, item: Item, e: Entry) {
    && e.blindId == item.blindId && e.benchmarkId == item.benchmarkId
    && exists r :: r in records && RunBehind(env, r, item, e)
  }

  /** `r` is the run the reviewer judged as `item`. */
  ghost predicate RunBehind(env: Env, r: RunRecord, item: Item, e: Entry) {
    && r.runRecordId == e.runRecordId && r.targetId == e.targetId && r.benchmarkId == e.benchmarkId
    && Repetition(r) == e.repetitionIndex && OrElse(r.experimentId, env.experimentId) == e.experimentId
    && (env.policy != Redact ==> item.responseText == OrElse(r.response, []))
  }

  lemma RunIsBehind(env: Env, table: map<JsString, JsString>, records: seq<RunRecord>, r: RunRecord)
    requires r in records && Keeps(env, table, r)
    ensures EntryFor(env, records, ItemOf(env, table, r), EntryOf(env, table, r))
  {
    assert RunBehind(env, r, ItemOf(env, table, r), EntryOf(env, table, r));
  }

  lemma EntryBehind(env: Env, table: map<JsString, JsString>, records: seq<RunRecord>, r: RunRecord)
    requires r in records && Keeps(env, table, r)
    ensures EntryFor(env, records, ItemOf(env, table, r), EntryOf(env, table, r))
    ensures ItemOf(env, table, r) in RawItems(env, table, records)
    ensures EntryOf(env, table, r) in Entries(env, table, records)
  {
    RunIsBehind(env, table, records, r);
    hide ItemOf, EntryOf, EntryFor;
    var kept := Filter(IsKept(env, table), records);
    FilterMembers(IsKept(env, table), records);
    var i :| 0 <= i < |kept| && kept[i] == r;
    assert RawItems(env, table, records)[i] == ItemOf(env, table, r);
    assert Entries(env, table, records)[i] == EntryOf(env, table, r);
  }

  lemma EntriesMembers(env: Env, table: map<JsString, JsString>, records: seq<RunRecord>,
      e: Entry) returns (r: RunRecord)
    requires e in Entries(env, table, records)
    ensures r in records && Keeps(env, table, r) && EntryOf(env, table, r) == e
  {
    var kept := Filter(IsKept(env, table), records);
    FilterMembers(IsKept(env, table), records);
    var i :| 0 <= i < |kept| && Entries(env, table, records)[i] == e;
    r := kept[i];
  }

  lemma ItemsHaveEntries(env: Env, table: map<JsString, JsString>, records: seq<RunRecord>, item: Item)
    requires item in RawItems(env, table, records)
    ensures exists e :: e in Entries(env, table, records) && EntryFor(env, records, item, e)
  {
    hide ItemOf, EntryOf, Keeps, EntryFor;
    RawItemsMembers(env, table, records);
    var r :| r in records && Keeps(env, table, r) && ItemOf(env, table, r) == item;
    EntryBehind(env, table, records, r);
  }

  lemma EntriesHaveItems(env: Env, table: map<JsString, JsString>, records: seq<RunRecord>, e: Entry)
    requires e in Entries(env, table, records)
    ensures exists item :: item in RawItems(env, table, records) && EntryFor(env, records, item, e)
  {
    hide ItemOf, EntryOf, Keeps, EntryFor;
    var r := EntriesMembers(env, table, records, e);
    EntryBehind(env, table, records, r);
  }

  /** One entry per item and one item per entry, joined by the blind id. */
  ghost predicate Joined(env: Env, records: seq<RunRecord>, items: seq<Item>, entries: seq<Entry>) {
    && |items| == |entries|
    && (forall item :: item in items ==> exists e :: e in entries && EntryFor(env, records, item, e))
    && (forall e :: e in entries ==> exists item :: item in items && EntryFor(env, records, item, e))
    && Distinct(Map(BlindOf, items)) && Distinct(Map(EntryBlindOf, entries))
  }

  lemma RawJoined(env: Env, records: seq<RunRecord>, table: map<JsString, JsString>)
    requires Ready(env, records) && table == Table(env, records)
    ensures Joined(env, records, RawItems(env, table, records), Entries(env, table, records))
  {
    var items, entries := RawItems(env, table, records), Entries(env, table, records);
    hide EntryFor, Ready, Table;
    forall item | item in items ensures exists e :: e in entries && EntryFor(env, records, item, e) {
      ItemsHaveEntries(env, table, records, item);
    }
    forall e | e in entries ensures exists item :: item in items && EntryFor(env, records, item, e) {
      EntriesHaveItems(env, table, records, e);
    }
    BlindIdsOnce(env, records, table);
  }

  /** No blind id is listed twice. */
  lemma BlindIdsOnce(env: Env, records: seq<RunRecord>, table: map<JsString, JsString>)
    requires Ready(env, records) && table == Table(env, records)
    ensures Distinct(Map(BlindOf, RawItems(env, table, records)))
    ensures Distinct(Map(EntryBlindOf, Entries(env, table, records)))
  {
    var kept := Filter(IsKept(env, table), records);
    KeptOnce(env, table, records);
    FilterMembers(IsKept(env, table), records);
    hide Ready, Table, Filter, Keeps, RawItem, Redacted;
    forall i, j | 0 <= i < j < |kept| ensures BlindIdOf(table, kept[i]) != BlindIdOf(table, kept[j]) {
      assert kept[i] in kept && kept[j] in kept;
      BlindIdsDiffer(env, records, kept[i], kept[j]);
    }
    forall i | 0 <= i < |kept|
      ensures Map(BlindOf, RawItems(env, table, records))[i] == BlindIdOf(table, kept[i])
      ensures Map(EntryBlindOf, Entries(env, table, records))[i] == BlindIdOf(table, kept[i])
    {
      ItemKeepsNames(env, table, kept[i]);
    }
  }

  lemma KeptOnce(env: Env, table: map<JsString, JsString>, records: seq<RunRecord>)
    requires Distinct(Ids(records))
    ensures Distinct(Filter(IsKept(env, table), records))
  {
    forall i, j | 0 <= i < j < |records| ensures records[i] != records[j] {
      assert Ids(records)[i] != Ids(records)[j];
    }
    DistinctFiltered(IsKept(env, table), records);
  }

  lemma JoinedRearranged(env: Env, records: seq<RunRecord>, raw: seq<Item>, items: seq<Item>, entries: seq<Entry>)
    requires Joined(env, records, raw, entries) && multiset(raw) == multiset(items)
    ensures Joined(env, records, items, entries)
  {
    hide EntryFor;
    SameElements(raw, items);
    MapPermutes(BlindOf, raw, items);
    DistinctPermutes(Map(BlindOf, raw), Map(BlindOf, items));
    forall e | e in entries ensures exists item :: item in items && EntryFor(env, records, item, e) {
      var item :| item in raw && EntryFor(env, records, item, e);
      assert item in items;
    }
  }

  /** No two items or entries share a blind id; every item has exactly one mapping entry with its
      blind id, and that entry names the run whose answer the item shows; every entry likewise has
      exactly one item. */
  lemma EntriesMatchItems(env: Env, records: seq<RunRecord>)
    requires Ready(env, records)
    ensures Joined(env, records, PublicSet(env, records).items, Entries(env, Table(env, records), records))
  {
    var table := Table(env, records);
    RawJoined(env, records, table);
    PublicSetIsKeptItems(env, records);
    hide Joined, PublicSet, Entries, RawItems;
    JoinedRearranged(env, records, RawItems(env, table, records), PublicSet(env, records).items,
      Entries(env, table, records));
  }

  // ---------------------------------------------------------------- blindness

  /** The run stripped of what says which model produced it and when. */
  function Anonymous(r: RunRecord): RunRecord {
    r.(targetId := [], repetitionIndex := None, experimentId := None)
  }

  lemma AnonymousItem(env: Env, table: map<JsString, JsString>, r: RunRecord)
    ensures RawItem(env, table, Anonymous(r)) == RawItem(env, table, r)
  {
  }

  lemma AnonymousSources(env: Env, records: seq<RunRecord>)
    ensures Map(SourceEntryOf(env), Map(Anonymous, records)) == Map(SourceEntryOf(env), records)
    ensures Ids(Map(Anonymous, records)) == Ids(records)
  {
    hide Map;
  }

  lemma {:induction false} AnonymousItems(env: Env, table: map<JsString, JsString>, records: seq<RunRecord>)
    ensures RawItems(env, table, Map(Anonymous, records)) == RawItems(env, table, records)
  {
    hide RawItem, Redacted;
    if records != [] {
      AnonymousItem(env, table, records[0]);
      AnonymousItems(env, table, records[1..]);
      var more := Map(Anonymous, records);
      assert more[1..] == Map(Anonymous, records[1..]);
    }
  }

  /** The public packet is the same whatever the targets, repetitions and experiments behind it. */
  lemma PublicSetIsBlind(env: Env, records: seq<RunRecord>)
    requires Assignable(Source(env), Ids(records))
    ensures Ids(Map(Anonymous, records)) == Ids(records)
    ensures PublicSet(env, Map(Anonymous, records)) == PublicSet(env, records)
  {
    AnonymousSources(env, records);
    AnonymousItems(env, Table(env, records), records);
  }

  lemma KeptDoesNotLeak(env: Env, table: map<JsString, JsString>, records: seq<RunRecord>, item: Item)
    requires env.policy == Exclude && item in RawItems(env, table, records)
    ensures !Leaks(env, item)
  {
    RawItemsMembers(env, table, records);
    hide RawItem, ScannedFields;
    var r :| r in records && Keeps(env, table, r) && ItemOf(env, table, r) == item;
  }

  /** Under the exclude policy no text of any item in the packet trips the scan. */
  lemma ExcludedItemsStayOut(env: Env, records: seq<RunRecord>)
    requires TotalPreorder(env.collate) && Assignable(Source(env), Ids(records)) && env.policy == Exclude
    ensures forall item, f :: item in PublicSet(env, records).items && f in ScannedFields(item) ==> env.scan(f.1) == []
  {
    var items := PublicSet(env, records).items;
    PublicSetIsKeptItems(env, records);
    SameElements(items, RawItems(env, Table(env, records), records));
    hide PublicSet, Ready, Table, ScannedFields;
    forall item | item in items ensures !Leaks(env, item) {
      KeptDoesNotLeak(env, Table(env, records), records, item);
    }
  }

  // ----------------------------------------------------------------- redactions

  ghost predicate FromHit(env: Env, item: Item, x: RedactionRecord) {
    x.blindId == item.blindId && x.action == env.policy
    && exists f :: f in ScannedFields(item) && x.field == f.0 && x.hit in env.scan(f.1)
  }

  lemma {:induction false} FieldRecordsExact(env: Env, item: Item, fields: seq<(JsString, JsString)>,
      x: RedactionRecord)
    ensures x in FieldRecords(env, item, fields) <==>
      x.blindId == item.blindId && x.action == env.policy
      && exists f :: f in fields && x.field == f.0 && x.hit in env.scan(f.1)
  {
    hide HitRecords;
    if fields != [] {
      var n := |fields| - 1;
      FieldRecordsExact(env, item, fields[..n], x);
      HitRecordsExact(item, fields[n].0, env.scan(fields[n].1), env.policy, x);
      assert fields == fields[..n] + [fields[n]];
    }
  }

  lemma HitRecordsExact(item: Item, field: JsString, hits: seq<Hit>, policy: Policy, x: RedactionRecord)
    ensures x in HitRecords(item, field, hits, policy) <==>
      x.blindId == item.blindId && x.field == field && x.action == policy && x.hit in hits
  {
    var f := (h: Hit) => RedactionRecord(item.blindId, field, h, policy);
    MapMembers(f, hits);
    if x.hit in hits { assert f(x.hit) in Map(f, hits); }
  }

  /** The private manifest records every hit on every record, kept or not, and nothing else. */
  lemma {:induction false} RedactionsExact(env: Env, table: map<JsString, JsString>, records: seq<RunRecord>,
      x: RedactionRecord)
    ensures x in Redactions(env, table, records)
      <==> exists r :: r in records && FromHit(env, RawItem(env, table, r), x)
  {
    hide RawItem, ScannedFields, FieldRecords;
    if records != [] {
      var n := |records| - 1;
      var item := RawItem(env, table, records[n]);
      RedactionsExact(env, table, records[..n], x);
      FieldRecordsExact(env, item, ScannedFields(item), x);
      assert records == records[..n] + [records[n]];
    }
  }

  // ----------------------------------------------------------------- the methods

  lemma BuiltSoFar(env: Env, table: map<JsString, JsString>, records: seq<RunRecord>)
    requires records != []
    ensures var n := |records| - 1; var r := records[n];
      && RawItems(env, table, records)
         == RawItems(env, table, records[..n]) + (if Keeps(env, table, r) then [ItemOf(env, table, r)] else [])
      && Entries(env, table, records)
         == Entries(env, table, records[..n]) + (if Keeps(env, table, r) then [EntryOf(env, table, r)] else [])
  {
    hide ItemOf, EntryOf, Keeps;
    var n := |records| - 1;
    var p, last := IsKept(env, table), [records[n]];
    assert records == records[..n] + last;
    FilterAppend(p, records[..n], last);
    MapAppend(ToItem(env, table), Filter(p, records[..n]), Filter(p, last));
    MapAppend(ToEntry(env, table), Filter(p, records[..n]), Filter(p, last));
  }

  /** The loop of `generateBlindReviewSet`. Every record has a response, as selection sees to. */
  method BuildItems(env: Env, table: map<JsString, JsString>, records: seq<RunRecord>)
    returns (rawItems: seq<Item>, mappingEntries: seq<Entry>, redactions: seq<RedactionRecord>)
    requires forall r :: r in records ==> r.response.Some? && r.runRecordId in table
    ensures rawItems == RawItems(env, table, records)
    ensures mappingEntries == Entries(env, table, records)
    ensures redactions == Redactions(env, table, records)
  {
    hide RawItems, Entries, RawItem, ScannedFields;
    rawItems, mappingEntries, redactions := [], [], [];
    BuiltNone(env, table, records[..0]);
    for i := 0 to |records|
      invariant rawItems == RawItems(env, table, records[..i])
      invariant mappingEntries == Entries(env, table, records[..i])
      invariant redactions == Redactions(env, table, records[..i])
    {
      var r := records[i];
      assert records[..i + 1][..i] == records[..i];
      BuiltSoFar(env, table, records[..i + 1]);
      var raw := RawItem(env, table, r);
      redactions := redactions + FieldRecords(env, raw, ScannedFields(raw));
      var item := Redacted(env, raw);
      if item.Some? {
        rawItems := rawItems + [item.value];
        mappingEntries := mappingEntries + [EntryOf(env, table, r)];
      }
    }
    assert records[..|records|] == records;
  }

  lemma BuiltNone(env: Env, table: map<JsString, JsString>, records: seq<RunRecord>)
    requires records == []
    ensures RawItems(env, table, records) == [] && Entries(env, table, records) == []
  {
  }

  /** `shuffle(s, makeRng(seed))`. */
  method ShuffleWith<T>(env: Env, s: seq<T>, seed: JsString) returns (out: seq<T>)
    ensures out == ShuffledBy(env, s, seed)
  {
    var rng := Shuffle.MakeRng(env.seedState(seed));
    var items := new T[|s|](k requires 0 <= k < |s| => s[k]);
    assert items[..] == s;
    var shuffled := Shuffle.ShuffleItems(items, rng);
    out := shuffled[..];
  }

  /** `randomizeItems`. */
  method RandomizeItems(env: Env, items: seq<Item>) returns (out: seq<Item>)
    ensures out == Randomized(env, items)
  {
    hide ShuffledBy, SortBy, Group, Keys, OrderedGroups, Concat;
    var keys, byBenchmark := GroupBy(BenchmarkOf, items);
    var order := SortBy(LexLeq, keys);
    if env.shuffleBenchmarkOrder { order := ShuffleWith(env, order, env.seed + Lit(":benchmark-order")); }
    OrderIsKeys(env, items);
    SameElements(order, keys);
    out := RandomizeGroups(env, items, order, byBenchmark);
  }

  method RandomizeGroups(env: Env, ghost items: seq<Item>, order: seq<JsString>, byBenchmark: map<JsString, seq<Item>>)
    returns (out: seq<Item>)
    requires forall k :: k in order ==> k in byBenchmark && byBenchmark[k] == Group(BenchmarkOf, items, k)
    ensures out == Concat(OrderedGroups(env, items, order))
  {
    hide OrderedGroup, OrderedGroups, Concat, Group;
    out := [];
    NoGroupsYet(env, items, order[..0]);
    for i := 0 to |order|
      invariant out == Concat(OrderedGroups(env, items, order[..i]))
    {
      assert order[..i + 1][..i] == order[..i];
      GroupsGrow(env, items, order[..i + 1]);
      var group := RandomizeGroup(env, byBenchmark[order[i]], order[i]);
      out := out + group;
    }
    assert order[..|order|] == order;
  }

  lemma NoGroupsYet(env: Env, items: seq<Item>, ks: seq<JsString>)
    requires ks == []
    ensures Concat(OrderedGroups(env, items, ks)) == []
  {
  }

  lemma GroupsGrow(env: Env, items: seq<Item>, ks: seq<JsString>)
    requires ks != []
    ensures var n := |ks| - 1;
      Concat(OrderedGroups(env, items, ks))
        == Concat(OrderedGroups(env, items, ks[..n])) + OrderedGroup(env, Group(BenchmarkOf, items, ks[n]), ks[n])
  {
    hide OrderedGroup, Group;
    var lists := OrderedGroups(env, items, ks);
    assert lists[..|ks| - 1] == OrderedGroups(env, items, ks[..|ks| - 1]);
  }

  method RandomizeGroup(env: Env, group: seq<Item>, benchmarkId: JsString) returns (out: seq<Item>)
    ensures out == OrderedGroup(env, group, benchmarkId)
  {
    out := SortBy(BlindLeq(env.collate), group);
    if env.shuffleResponses { out := ShuffleWith(env, out, env.seed + Lit(":responses:") + benchmarkId); }
  }

  /** `generateBlindReviewSet`, without the pairwise packet. */
  method GenerateBlindReviewSet(env: Env, records: seq<RunRecord>)
    returns (packet: Packet, mapping: PrivateMapping, manifest: Manifest)
    requires Assignable(Source(env), Ids(records))
    requires forall r :: r in records ==> r.response.Some?
    ensures packet == PublicSet(env, records)
    ensures mapping.entries == Entries(env, Table(env, records), records)
    ensures mapping.redactions == Redactions(env, Table(env, records), records)
    ensures mapping == MappingOf(env, packet, mapping.entries, mapping.redactions)
    ensures manifest == ManifestOf(env, packet)
  {
    var table := AssignBlindIds(Source(env), Ids(records));
    BlindIdsInjective(Source(env), Ids(records));
    IdsMembers(records);
    var rawItems, entries, redactions := BuildItems(env, table, records);
    var items := RandomizeItems(env, rawItems);
    packet := PacketOf(env, items, SourceHash(env, records));
    mapping := MappingOf(env, packet, entries, redactions);
    manifest := ManifestOf(env, packet);
  }
}
