/** The Redis collector: one INFO reply applied to persistent gauges, and what the gauges
    show after any run of answered, failed and aborted scrapes. */
module RedisCollector {
  import opened Wrappers
  import opened Text
  import opened Numbers
  import opened InfoParser
  import InfoLaws
  import InfoRoundTrip

  // ---------- labels ----------

  /** `format!("db{db_idx}")` */
  function DbLabel(index: u32): string {
    "db" + NatText(index)
  }

  lemma DbLabelInjective(i: u32, j: u32)
    requires DbLabel(i) == DbLabel(j)
    ensures i == j
  {
    assert DbLabel(i)[2..] == NatText(i) && DbLabel(j)[2..] == NatText(j);
    NatTextInjective(i, j);
  }

  /** The index of a label is read back from its text after `db`. */
  lemma DbLabelParses(i: u32)
    ensures DbLabel(i)[..2] == "db" && ParseU32(DbLabel(i)[2..]) == Some(i)
  {
    assert DbLabel(i)[..2] == "db" && DbLabel(i)[2..] == NatText(i);
    U32RoundTrip(i, "");
  }

  // ---------- gauges ----------

  /** `scalars` holds the unlabelled gauges other than the pool size; its keyspace is empty. */
  datatype Gauges = Gauges(
    poolConnections: i64,
    scalars: RedisInfo,
    dbKeys: map<string, i64>,
    dbExpires: map<string, i64>)

  const INITIAL := Gauges(0, DEFAULT_INFO, map[], map[])

  /** `usize as i64` */
  function AsI64(n: nat): i64
    requires n < 0x1_0000_0000_0000_0000
  {
    if n <= I64_MAX then n else n - 0x1_0000_0000_0000_0000
  }

  /** `usize` on the 64-bit targets the program is built for. */
  type usize = n: nat | n < 0x1_0000_0000_0000_0000

  /** What one call of `collect` meets: the pool size it reads first, and how its one await ends. */
  datatype Scrape =
    | Answered(poolSize: usize, raw: string)
    | Failed(poolSize: usize)
    | Aborted(poolSize: usize)

  function Scalars(info: RedisInfo): RedisInfo {
    info.(keyspace := [])
  }

  function KeysAfter(m: map<string, i64>, entries: seq<DbEntry>): map<string, i64> {
    if entries == [] then m
    else
      var last := entries[|entries| - 1];
      KeysAfter(m, entries[..|entries| - 1])[DbLabel(last.index) := last.keys]
  }

  function ExpiresAfter(m: map<string, i64>, entries: seq<DbEntry>): map<string, i64> {
    if entries == [] then m
    else
      var last := entries[|entries| - 1];
      ExpiresAfter(m, entries[..|entries| - 1])[DbLabel(last.index) := last.expires]
  }

  ghost function AfterScrape(g: Gauges, s: Scrape): Gauges {
    var pooled := g.(poolConnections := AsI64(s.poolSize));
    match s
    case Failed(_) => pooled
    case Aborted(_) => pooled
    case Answered(_, raw) =>
      var info := Parsed(raw);
      pooled.(scalars := Scalars(info),
              dbKeys := KeysAfter(g.dbKeys, info.keyspace),
              dbExpires := ExpiresAfter(g.dbExpires, info.keyspace))
  }

  ghost function Run(scrapes: seq<Scrape>): Gauges {
    if scrapes == [] then INITIAL
    else AfterScrape(Run(scrapes[..|scrapes| - 1]), scrapes[|scrapes| - 1])
  }

  // ---------- the collector ----------

  datatype Outcome = Done | QueryError | Cancelled

  class RedisMetrics {
    var poolConnections: i64
    var connectedClients: i64
    var blockedClients: i64
    var usedMemoryBytes: i64
    var usedMemoryRss: i64
    var memFragmentationRatio: string
    var keyspaceHits: i64
    var keyspaceMisses: i64
    var evictedKeys: i64
    var totalCommandsProcessed: i64
    var dbKeys: map<string, i64>
    var dbExpires: map<string, i64>
    var replicationOffset: i64
    var connectedSlaves: i64

    constructor ()
      ensures View() == INITIAL
    {
      poolConnections, connectedClients, blockedClients := 0, 0, 0;
      usedMemoryBytes, usedMemoryRss, memFragmentationRatio := 0, 0, "";
      keyspaceHits, keyspaceMisses, evictedKeys, totalCommandsProcessed := 0, 0, 0, 0;
      dbKeys, dbExpires := map[], map[];
      replicationOffset, connectedSlaves := 0, 0;
    }

    ghost function View(): Gauges
      reads this
    {
      Gauges(
        poolConnections,
        RedisInfo(connectedClients, blockedClients, usedMemoryBytes, usedMemoryRss,
                  memFragmentationRatio, totalCommandsProcessed, keyspaceHits, keyspaceMisses,
                  evictedKeys, replicationOffset, connectedSlaves, []),
        dbKeys, dbExpires)
    }

    method SetScalars(info: RedisInfo)
      modifies this
      ensures connectedClients == info.connectedClients && blockedClients == info.blockedClients
      ensures usedMemoryBytes == info.usedMemory && usedMemoryRss == info.usedMemoryRss
      ensures memFragmentationRatio == info.memFragmentationRatio
      ensures keyspaceHits == info.keyspaceHits && keyspaceMisses == info.keyspaceMisses
      ensures evictedKeys == info.evictedKeys && totalCommandsProcessed == info.totalCommandsProcessed
      ensures replicationOffset == info.replicationOffset && connectedSlaves == info.connectedSlaves
      ensures unchanged(`poolConnections) && unchanged(`dbKeys) && unchanged(`dbExpires)
    {
      connectedClients := info.connectedClients;
      blockedClients := info.blockedClients;
      usedMemoryBytes := info.usedMemory;
      usedMemoryRss := info.usedMemoryRss;
      memFragmentationRatio := info.memFragmentationRatio;
      keyspaceHits := info.keyspaceHits;
      keyspaceMisses := info.keyspaceMisses;
      evictedKeys := info.evictedKeys;
      totalCommandsProcessed := info.totalCommandsProcessed;
      replicationOffset := info.replicationOffset;
      connectedSlaves := info.connectedSlaves;
    }

    method SetLabels(entries: seq<DbEntry>)
      modifies this`dbKeys, this`dbExpires
      ensures dbKeys == KeysAfter(old(dbKeys), entries)
      ensures dbExpires == ExpiresAfter(old(dbExpires), entries)
      ensures forall index: u32 :: LastEntryIn(entries, index).Some? ==>
                var tag, e := "db" + NatText(index), LastEntryIn(entries, index).value;
                && tag in dbKeys && dbKeys[tag] == e.keys
                && tag in dbExpires && dbExpires[tag] == e.expires
    {
      for n := 0 to |entries|
        invariant dbKeys == KeysAfter(old(dbKeys), entries[..n])
        invariant dbExpires == ExpiresAfter(old(dbExpires), entries[..n])
      {
        assert entries[..n + 1][..n] == entries[..n];
        var tag := DbLabel(entries[n].index);
        dbKeys := dbKeys[tag := entries[n].keys];
        dbExpires := dbExpires[tag := entries[n].expires];
      }
      assert entries[..|entries|] == entries;
      forall index: u32 | LastEntryIn(entries, index).Some?
        ensures var tag, e := "db" + NatText(index), LastEntryIn(entries, index).value;
                && tag in dbKeys && dbKeys[tag] == e.keys
                && tag in dbExpires && dbExpires[tag] == e.expires
      {
        LabelsAfter(old(dbKeys), old(dbExpires), entries, index);
      }
    }

    method Collect(s: Scrape) returns (outcome: Outcome)
      modifies this
      ensures View() == AfterScrape(old(View()), s) && poolConnections == PoolShown([s])
      ensures outcome == match s case Answered(_, _) => Done case Failed(_) => QueryError case Aborted(_) => Cancelled
    {
      poolConnections := AsI64(s.poolSize);
      match s {
        case Failed(_) =>
          return QueryError;
        case Aborted(_) =>
          return Cancelled;
        case Answered(_, raw) =>
          var info := ParseInfo(raw);
          SetScalars(info);
          SetLabels(info.keyspace);
          return Done;
      }
    }
  }

  // ---------- what the labelled gauges show ----------

  function LastEntryIn(entries: seq<DbEntry>, index: u32): Option<DbEntry> {
    if entries == [] then None
    else if entries[|entries| - 1].index == index then Some(entries[|entries| - 1])
    else LastEntryIn(entries[..|entries| - 1], index)
  }

  /** The last entry for `index` in the last answered scrape that has one. */
  ghost function LastEntry(scrapes: seq<Scrape>, index: u32): Option<DbEntry> {
    if scrapes == [] then None
    else
      var last := scrapes[|scrapes| - 1];
      if last.Answered? && LastEntryIn(Parsed(last.raw).keyspace, index).Some?
      then LastEntryIn(Parsed(last.raw).keyspace, index)
      else LastEntry(scrapes[..|scrapes| - 1], index)
  }

  function LastAnswer(scrapes: seq<Scrape>): Option<string> {
    if scrapes == [] then None
    else if scrapes[|scrapes| - 1].Answered? then Some(scrapes[|scrapes| - 1].raw)
    else LastAnswer(scrapes[..|scrapes| - 1])
  }

  /** The labelled gauges after `entries`: an index that has an entry shows the last one, under
      `db` and its numeral, any other label is as before. */
  lemma {:induction false} LabelsAfter(keys: map<string, i64>, expires: map<string, i64>,
                                       entries: seq<DbEntry>, index: u32)
    ensures keys.Keys == expires.Keys ==>
              KeysAfter(keys, entries).Keys == ExpiresAfter(expires, entries).Keys >= keys.Keys
    ensures var tag, last := "db" + NatText(index), LastEntryIn(entries, index);
            var k, x := KeysAfter(keys, entries), ExpiresAfter(expires, entries);
            match last
            case Some(e) => tag in k && tag in x && k[tag] == e.keys && x[tag] == e.expires
            case None => (tag in k <==> tag in keys) && (tag in k ==> k[tag] == keys[tag]) &&
                         (tag in x <==> tag in expires) && (tag in x ==> x[tag] == expires[tag])
  {
    if entries != [] {
      var last := entries[|entries| - 1];
      LabelsAfter(keys, expires, entries[..|entries| - 1], index);
      if last.index != index && DbLabel(last.index) == DbLabel(index) {
        DbLabelInjective(last.index, index);
      }
    }
  }

  lemma {:induction false} OnlyDbLabels(keys: map<string, i64>, entries: seq<DbEntry>, tag: string)
    requires tag in KeysAfter(keys, entries) && tag !in keys
    ensures IsDbTag(tag)
  {
    if tag != DbLabel(entries[|entries| - 1].index) {
      OnlyDbLabels(keys, entries[..|entries| - 1], tag);
    }
  }

  lemma {:induction false} RunScalars(scrapes: seq<Scrape>)
    ensures var g := Run(scrapes);
            && g.poolConnections == PoolShown(scrapes)
            && g.scalars == (match LastAnswer(scrapes) case None => DEFAULT_INFO case Some(raw) => Scalars(Parsed(raw)))
            && g.dbKeys.Keys == g.dbExpires.Keys
  {
    if scrapes != [] {
      var init, last := scrapes[..|scrapes| - 1], scrapes[|scrapes| - 1];
      RunScalars(init);
      if last.Answered? {
        LabelsAfter(Run(init).dbKeys, Run(init).dbExpires, Parsed(last.raw).keyspace, 0);
      }
    }
  }

  lemma {:induction false} RunShows(scrapes: seq<Scrape>, index: u32)
    ensures Shows(Run(scrapes), index, LastEntry(scrapes, index))
  {
    if scrapes != [] {
      var init, last := scrapes[..|scrapes| - 1], scrapes[|scrapes| - 1];
      RunShows(init, index);
      if last.Answered? {
        LabelsAfter(Run(init).dbKeys, Run(init).dbExpires, Parsed(last.raw).keyspace, index);
      }
    }
  }

  ghost predicate IsDbTag(tag: string) {
    exists index: u32 :: tag == "db" + NatText(index)
  }

  lemma {:induction false} RunLabel(scrapes: seq<Scrape>, tag: string)
    requires tag in Run(scrapes).dbKeys
    ensures IsDbTag(tag)
  {
    var init, last := scrapes[..|scrapes| - 1], scrapes[|scrapes| - 1];
    if tag in Run(init).dbKeys {
      RunLabel(init, tag);
    } else {
      OnlyDbLabels(Run(init).dbKeys, Parsed(last.raw).keyspace, tag);
    }
  }

  /** After any run: the pool size is the last one read; every other unlabelled gauge comes from
      the last answered INFO; each database label, `db` and the numeral of its index, shows its
      last entry in the last answered scrape that had one, keys and expires from the same entry;
      there are no other labels. */
  lemma {:induction false} RunMeaning(scrapes: seq<Scrape>)
    ensures var g := Run(scrapes);
            && g.poolConnections == PoolShown(scrapes)
            && g.scalars == (match LastAnswer(scrapes) case None => DEFAULT_INFO case Some(raw) => Scalars(Parsed(raw)))
            && g.dbKeys.Keys == g.dbExpires.Keys
    ensures forall index: u32 :: Shows(Run(scrapes), index, LastEntry(scrapes, index))
    ensures forall tag :: tag in Run(scrapes).dbKeys ==> IsDbTag(tag)
  {
    RunScalars(scrapes);
    forall index: u32 ensures Shows(Run(scrapes), index, LastEntry(scrapes, index)) {
      RunShows(scrapes, index);
    }
    forall tag | tag in Run(scrapes).dbKeys ensures IsDbTag(tag) {
      RunLabel(scrapes, tag);
    }
  }

  /** The pool size read last; sizes of 2^63 and more come out 2^64 too small. */
  ghost function PoolShown(scrapes: seq<Scrape>): int {
    if scrapes == [] then 0
    else
      var size := scrapes[|scrapes| - 1].poolSize;
      if size < 0x8000_0000_0000_0000 then size else size - 0x1_0000_0000_0000_0000
  }

  ghost predicate Shows(g: Gauges, index: u32, entry: Option<DbEntry>) {
    var tag := "db" + NatText(index);
    match entry
    case None => tag !in g.dbKeys && tag !in g.dbExpires
    case Some(e) => tag in g.dbKeys && tag in g.dbExpires
                    && g.dbKeys[tag] == e.keys && g.dbExpires[tag] == e.expires
  }

  /** A label, once shown, is shown after every later scrape. */
  lemma {:induction false} LabelsNeverVanish(scrapes: seq<Scrape>, more: seq<Scrape>)
    ensures Run(scrapes).dbKeys.Keys <= Run(scrapes + more).dbKeys.Keys
  {
    if more == [] {
      assert scrapes + more == scrapes;
    } else {
      var init, last := more[..|more| - 1], more[|more| - 1];
      assert (scrapes + more)[..|scrapes + more| - 1] == scrapes + init;
      LabelsNeverVanish(scrapes, init);
      RunMeaning(scrapes + init);
      if last.Answered? {
        var g := Run(scrapes + init);
        LabelsAfter(g.dbKeys, g.dbExpires, Parsed(last.raw).keyspace, 0);
      }
    }
  }

  /** From text to gauges: a reply that prints an info, in any layout, makes every unlabelled gauge show
      that info's field and every listed database its last entry, whatever the gauges showed. */
  lemma {:induction false} PrintedReplyShown(g: Gauges, n: usize, info: RedisInfo, sections: seq<seq<string>>, e: DbEntry)
    requires g.dbKeys.Keys == g.dbExpires.Keys
    requires InfoRoundTrip.Printable(info) && LastEntryIn(info.keyspace, e.index) == Some(e)
    requires |sections| == |InfoRoundTrip.PrintLines(info)| + 1 && InfoRoundTrip.SilentSections(sections)
    ensures var text := Join(InfoRoundTrip.Weave(InfoRoundTrip.PrintLines(info), sections), "\n");
            var after := AfterScrape(g, Answered(n, ToCrlf(text)));
            after.scalars == Scalars(info) && Shows(after, e.index, Some(e))
  {
    InfoRoundTrip.PrintedTextRoundTrip(info, sections);
    LabelsAfter(g.dbKeys, g.dbExpires, info.keyspace, e.index);
  }

  // ---------- order and concatenation at gauge level ----------

  lemma {:induction false} LastEntryConcat(a: seq<DbEntry>, b: seq<DbEntry>, index: u32)
    ensures LastEntryIn(a + b, index) ==
            if LastEntryIn(b, index).Some? then LastEntryIn(b, index) else LastEntryIn(a, index)
  {
    if b == [] {
      assert a + b == a;
    } else {
      assert (a + b)[..|a + b| - 1] == a + b[..|b| - 1];
      LastEntryConcat(a, b[..|b| - 1], index);
    }
  }

  /** Only the last entry of each index matters to the labelled gauges. */
  lemma SameLastEntriesSameLabels(keys: map<string, i64>, expires: map<string, i64>,
                                  xs: seq<DbEntry>, ys: seq<DbEntry>)
    requires keys.Keys == expires.Keys
    requires forall index: u32 :: LastEntryIn(xs, index) == LastEntryIn(ys, index)
    ensures KeysAfter(keys, xs) == KeysAfter(keys, ys)
    ensures ExpiresAfter(expires, xs) == ExpiresAfter(expires, ys)
  {
    LabelsAfter(keys, expires, xs, 0);
    LabelsAfter(keys, expires, ys, 0);
    forall tag
      ensures tag in KeysAfter(keys, xs) <==> tag in KeysAfter(keys, ys)
      ensures tag in KeysAfter(keys, xs) ==>
                KeysAfter(keys, xs)[tag] == KeysAfter(keys, ys)[tag] &&
                ExpiresAfter(expires, xs)[tag] == ExpiresAfter(expires, ys)[tag]
    {
      if index: u32 :| tag == DbLabel(index) {
        LabelsAfter(keys, expires, xs, index);
        LabelsAfter(keys, expires, ys, index);
      } else {
        OtherLabel(keys, expires, xs, tag);
        OtherLabel(keys, expires, ys, tag);
      }
    }
    assert KeysAfter(keys, xs) == KeysAfter(keys, ys);
  }

  lemma {:induction false} OtherLabel(keys: map<string, i64>, expires: map<string, i64>,
                                      entries: seq<DbEntry>, tag: string)
    requires keys.Keys == expires.Keys
    requires forall index: u32 :: tag != DbLabel(index)
    ensures tag in KeysAfter(keys, entries) <==> tag in keys
    ensures tag in ExpiresAfter(expires, entries) <==> tag in expires
    ensures tag in keys ==> KeysAfter(keys, entries)[tag] == keys[tag]
    ensures tag in keys ==> ExpiresAfter(expires, entries)[tag] == expires[tag]
  {
    if entries != [] {
      OtherLabel(keys, expires, entries[..|entries| - 1], tag);
    }
  }

  /** All of a text that reaches the gauges: what each field's last line is decoded to, and the last
      entry of each database. */
  ghost predicate SameReadings(a: string, b: string) {
    && (forall f :: Decode(f, InfoLaws.LastValue(Lines(a), KeyName(f))) ==
                    Decode(f, InfoLaws.LastValue(Lines(b), KeyName(f))))
    && (forall index: u32 :: LastEntryIn(InfoLaws.DbEntries(Lines(a)), index) ==
                             LastEntryIn(InfoLaws.DbEntries(Lines(b)), index))
  }

  lemma {:induction false} SameReadingsSameGauges(g: Gauges, n: usize, a: string, b: string)
    requires g.dbKeys.Keys == g.dbExpires.Keys && SameReadings(a, b)
    ensures AfterScrape(g, Answered(n, a)) == AfterScrape(g, Answered(n, b))
  {
    InfoLaws.LastLineWins(a);
    InfoLaws.LastLineWins(b);
    SameLastEntriesSameLabels(g.dbKeys, g.dbExpires, Parsed(a).keyspace, Parsed(b).keyspace);
    forall f: Field ensures Get(Scalars(Parsed(a)), f) == Get(Scalars(Parsed(b)), f) {
      ScalarsKeepFields(Parsed(a), f);
      ScalarsKeepFields(Parsed(b), f);
    }
    SameInfo(Scalars(Parsed(a)), Scalars(Parsed(b)));
  }

  lemma ScalarsKeepFields(info: RedisInfo, f: Field)
    ensures Get(Scalars(info), f) == Get(info, f)
  {
  }

  lemma {:induction false} LastEntryIndex(entries: seq<DbEntry>, index: u32)
    ensures LastEntryIn(entries, index).Some? ==> LastEntryIn(entries, index).value.index == index
  {
    if entries != [] {
      LastEntryIndex(entries[..|entries| - 1], index);
    }
  }

  lemma {:induction false} LabelsTellEntries(xs: seq<DbEntry>, ys: seq<DbEntry>, index: u32)
    requires KeysAfter(map[], xs) == KeysAfter(map[], ys) && ExpiresAfter(map[], xs) == ExpiresAfter(map[], ys)
    ensures LastEntryIn(xs, index) == LastEntryIn(ys, index)
  {
    LabelsAfter(map[], map[], xs, index);
    LabelsAfter(map[], map[], ys, index);
    LastEntryIndex(xs, index);
    LastEntryIndex(ys, index);
  }

  lemma {:induction false} SameGaugesSameReadings(a: string, b: string)
    requires AfterScrape(INITIAL, Answered(0, a)) == AfterScrape(INITIAL, Answered(0, b))
    ensures SameReadings(a, b)
  {
    InfoLaws.LastLineWins(a);
    InfoLaws.LastLineWins(b);
    forall f: Field ensures Get(Parsed(a), f) == Get(Parsed(b), f) {
      ScalarsKeepFields(Parsed(a), f);
      ScalarsKeepFields(Parsed(b), f);
    }
    forall index: u32 ensures LastEntryIn(Parsed(a).keyspace, index) == LastEntryIn(Parsed(b).keyspace, index) {
      LabelsTellEntries(Parsed(a).keyspace, Parsed(b).keyspace, index);
    }
  }

  /** Two replies leave the gauges alike, whatever these showed before, if and only if the last line of each
      field is decoded alike and each database has the same last entry: every reordering, repetition
      and noise that keeps those is invisible, and nothing else is. */
  lemma {:induction false} GaugesTellReadings(a: string, b: string)
    ensures SameReadings(a, b) <==>
            forall g: Gauges, n: usize :: g.dbKeys.Keys == g.dbExpires.Keys ==>
              AfterScrape(g, Answered(n, a)) == AfterScrape(g, Answered(n, b))
  {
    if SameReadings(a, b) {
      forall g: Gauges, n: usize | g.dbKeys.Keys == g.dbExpires.Keys
        ensures AfterScrape(g, Answered(n, a)) == AfterScrape(g, Answered(n, b))
      {
        SameReadingsSameGauges(g, n, a, b);
      }
    } else if AfterScrape(INITIAL, Answered(0, a)) == AfterScrape(INITIAL, Answered(0, b)) {
      SameGaugesSameReadings(a, b);
    }
  }

  /** Neighbouring keyspace lines of different databases may be swapped in the text without any
      gauge noticing, although the parsed keyspace list changes. */
  lemma {:induction false} SwapDatabases(g: Gauges, poolSize: usize, pre: seq<string>, x: string, a: DbEntry,
                      y: string, b: DbEntry, post: seq<string>)
    requires g.dbKeys.Keys == g.dbExpires.Keys
    requires LineFeedFree(pre) && '\n' !in x && '\n' !in y && LineFeedFree(post)
    requires Classify(x) == Db(a) && Classify(y) == Db(b) && a.index != b.index
    ensures AfterScrape(g, Answered(poolSize, Join(pre + [x, y] + post, "\n"))) ==
            AfterScrape(g, Answered(poolSize, Join(pre + [y, x] + post, "\n")))
  {
    var p, q := PatchOf(ClassifyAll(pre)), PatchOf(ClassifyAll(post));
    DatabasesBetween(pre, x, a, y, b, post, p, q);
    DatabasesBetween(pre, y, b, x, a, post, p, q);
    SwapInPatch(g, poolSize, Join(pre + [x, y] + post, "\n"), Join(pre + [y, x] + post, "\n"),
                p.texts + q.texts, p.keyspace, a, b, q.keyspace);
  }

  lemma SwapInPatch(g: Gauges, poolSize: usize, xy: string, yx: string,
                    texts: map<string, string>, pre: seq<DbEntry>, a: DbEntry, b: DbEntry, post: seq<DbEntry>)
    requires g.dbKeys.Keys == g.dbExpires.Keys && a.index != b.index
    requires TextPatch(xy) == Patch(texts, pre + [a, b] + post)
    requires TextPatch(yx) == Patch(texts, pre + [b, a] + post)
    ensures AfterScrape(g, Answered(poolSize, xy)) == AfterScrape(g, Answered(poolSize, yx))
  {
    SwapEntries(g, texts, pre, a, b, post);
  }

  lemma SwapEntries(g: Gauges, texts: map<string, string>,
                    pre: seq<DbEntry>, a: DbEntry, b: DbEntry, post: seq<DbEntry>)
    requires g.dbKeys.Keys == g.dbExpires.Keys
    requires a.index != b.index
    ensures var p, q := Patch(texts, pre + [a, b] + post), Patch(texts, pre + [b, a] + post);
            && Scalars(Project(p)) == Scalars(Project(q))
            && KeysAfter(g.dbKeys, p.keyspace) == KeysAfter(g.dbKeys, q.keyspace)
            && ExpiresAfter(g.dbExpires, p.keyspace) == ExpiresAfter(g.dbExpires, q.keyspace)
  {
    var xs, ys := pre + [a, b] + post, pre + [b, a] + post;
    forall index: u32 ensures LastEntryIn(xs, index) == LastEntryIn(ys, index) {
      LastEntryConcat(pre + [a, b], post, index);
      LastEntryConcat(pre + [b, a], post, index);
      LastEntryConcat(pre, [a, b], index);
      LastEntryConcat(pre, [b, a], index);
      LastOfPair(a, b, index);
      LastOfPair(b, a, index);
    }
    SameLastEntriesSameLabels(g.dbKeys, g.dbExpires, xs, ys);
    SameScalars(Patch(texts, xs), Patch(texts, ys));
  }

  lemma LastOfPair(a: DbEntry, b: DbEntry, index: u32)
    ensures LastEntryIn([a, b], index) ==
            if b.index == index then Some(b) else if a.index == index then Some(a) else None
  {
    assert [a, b][..1] == [a] && [a][..0] == [];
    assert LastEntryIn([a], index) == if a.index == index then Some(a) else None;
  }

  lemma SameScalars(p: Patch, q: Patch)
    requires p.texts == q.texts
    ensures Scalars(Project(p)) == Scalars(Project(q))
  {
    assert IsProjection(Project(p).(keyspace := q.keyspace), q);
    ProjectionUnique(Project(p).(keyspace := q.keyspace), q);
  }

  lemma DatabasesBetween(pre: seq<string>, x: string, a: DbEntry, y: string, b: DbEntry, post: seq<string>,
                         p: Patch, q: Patch)
    requires LineFeedFree(pre) && '\n' !in x && '\n' !in y && LineFeedFree(post)
    requires Classify(x) == Db(a) && Classify(y) == Db(b)
    requires p == PatchOf(ClassifyAll(pre)) && q == PatchOf(ClassifyAll(post))
    ensures TextPatch(Join(pre + [x, y] + post, "\n")) ==
            Patch(p.texts + q.texts, p.keyspace + [a, b] + q.keyspace)
  {
    InfoLaws.JoinedPatch(pre + [x, y] + post);
    InfoLaws.ClassifyAllConcat(pre + [x, y], post);
    InfoLaws.ClassifyAllConcat(pre, [x, y]);
    InfoLaws.ClassifyPair(x, y);
    PatchBetween(ClassifyAll(pre), a, b, ClassifyAll(post));
  }

  lemma PatchBetween(pre: seq<Line>, a: DbEntry, b: DbEntry, post: seq<Line>)
    ensures var p, q := PatchOf(pre), PatchOf(post);
            PatchOf(pre + [Db(a), Db(b)] + post) == Patch(p.texts + q.texts, p.keyspace + [a, b] + q.keyspace)
  {
    InfoLaws.PatchConcat(pre + [Db(a), Db(b)], post);
    InfoLaws.PatchConcat(pre, [Db(a), Db(b)]);
    PairPatch(a, b);
    ThenPair(PatchOf(pre), a, b);
  }

  lemma PairPatch(a: DbEntry, b: DbEntry)
    ensures PatchOf([Db(a), Db(b)]) == Patch(map[], [a, b])
  {
    assert [Db(a), Db(b)][..1] == [Db(a)] && [Db(a)][..0] == [];
    assert PatchOf([Db(a)]) == Patch(map[], [a]);
  }

  lemma ThenPair(p: Patch, a: DbEntry, b: DbEntry)
    ensures Then(p, Patch(map[], [a, b])) == Patch(p.texts, p.keyspace + [a, b])
  {
  }

  /** Scraping `a` and then `b` leaves the labelled gauges as one scrape of both texts would;
      for the unlabelled gauges it does not, since a field absent from `b` returns to 0. */
  lemma TwoScrapesAsOne(g: Gauges, n: usize, a: string, b: string)
    ensures var two := AfterScrape(AfterScrape(g, Answered(n, a)), Answered(n, b));
            var one := AfterScrape(g, Answered(n, a + "\n" + b));
            two.dbKeys == one.dbKeys && two.dbExpires == one.dbExpires && two.poolConnections == one.poolConnections
  {
    InfoLaws.ConcatenatedInfo(a, b, ConnectedClients);
    AfterConcat(g.dbKeys, g.dbExpires, Parsed(a).keyspace, Parsed(b).keyspace);
  }

  lemma {:induction false} AfterConcat(keys: map<string, i64>, expires: map<string, i64>,
                                       a: seq<DbEntry>, b: seq<DbEntry>)
    ensures KeysAfter(keys, a + b) == KeysAfter(KeysAfter(keys, a), b)
    ensures ExpiresAfter(expires, a + b) == ExpiresAfter(ExpiresAfter(expires, a), b)
  {
    if b == [] {
      assert a + b == a;
    } else {
      assert (a + b)[..|a + b| - 1] == a + b[..|b| - 1];
      AfterConcat(keys, expires, a, b[..|b| - 1]);
    }
  }
}
