/** What `parse_info` means, for every text: the last line that names a field decides it,
    parsing is a homomorphism over concatenation, what the result does not depend on, and
    that parsing inverts printing. */
module InfoLaws {
  import opened Wrappers
  import opened Text
  import opened Numbers
  import opened InfoParser
  import opened LineSyntax

  // ---------- patches compose ----------

  lemma ThenAssociates(p: Patch, q: Patch, r: Patch)
    ensures Then(Then(p, q), r) == Then(p, Then(q, r))
  {
    assert (p.keyspace + q.keyspace) + r.keyspace == p.keyspace + (q.keyspace + r.keyspace);
    assert (p.texts + q.texts) + r.texts == p.texts + (q.texts + r.texts);
  }

  lemma {:induction false} PatchConcat(xs: seq<Line>, ys: seq<Line>)
    ensures PatchOf(xs + ys) == Then(PatchOf(xs), PatchOf(ys))
  {
    if ys == [] {
      assert xs + ys == xs;
      assert Then(PatchOf(xs), NO_PATCH) == PatchOf(xs);
    } else {
      var init, last := ys[..|ys| - 1], ys[|ys| - 1];
      assert (xs + ys)[..|xs + ys| - 1] == xs + init;
      PatchConcat(xs, init);
      ThenAssociates(PatchOf(xs), PatchOf(init), LinePatch(last));
    }
  }

  lemma {:induction false} ClassifyAllConcat(xs: seq<string>, ys: seq<string>)
    ensures ClassifyAll(xs + ys) == ClassifyAll(xs) + ClassifyAll(ys)
  {
    if ys == [] {
      assert xs + ys == xs;
    } else {
      assert (xs + ys)[..|xs + ys| - 1] == xs + ys[..|ys| - 1];
      ClassifyAllConcat(xs, ys[..|ys| - 1]);
    }
  }

  lemma ClassifyOne(raw: string)
    ensures ClassifyAll([raw]) == [Classify(raw)]
  {
    assert [raw][..0] == [];
  }

  lemma ClassifyPair(x: string, y: string)
    ensures ClassifyAll([x, y]) == [Classify(x), Classify(y)]
  {
    ClassifyOne(x);
    assert [x, y][..1] == [x];
  }

  // ---------- classes of lines ----------

  datatype Class = NoiseClass | KeyspaceClass | KeyClass(key: string)

  function ClassOf(line: Line): Class {
    match line
    case Noise => NoiseClass
    case Db(_) => KeyspaceClass
    case Scalar(key, _) => KeyClass(key)
  }

  /** The lines of class `c`, in order. */
  function Sub(lines: seq<Line>, c: Class): (own: seq<Line>)
    ensures forall i :: 0 <= i < |own| ==> ClassOf(own[i]) == c
  {
    if lines == [] then []
    else
      var last := lines[|lines| - 1];
      Sub(lines[..|lines| - 1], c) + if ClassOf(last) == c then [last] else []
  }

  ghost predicate Visible(c: Class, keys: set<string>) {
    c.KeyspaceClass? || (c.KeyClass? && c.key in keys)
  }

  /** The same keyspace lines in the same order, and for each of `keys` the same lines setting
      it in the same order. Order between classes is free, and so are all other lines. */
  ghost predicate Agree(xs: seq<Line>, ys: seq<Line>, keys: set<string>) {
    forall c: Class :: Visible(c, keys) ==> Sub(xs, c) == Sub(ys, c)
  }

  function Entries(dbLines: seq<Line>): seq<DbEntry>
    requires forall i :: 0 <= i < |dbLines| ==> dbLines[i].Db?
  {
    seq(|dbLines|, i requires 0 <= i < |dbLines| => dbLines[i].entry)
  }

  lemma {:induction false} TextFromClass(lines: seq<Line>, key: string)
    ensures var own := Sub(lines, KeyClass(key));
            if own == [] then key !in PatchOf(lines).texts
            else key in PatchOf(lines).texts && own[|own| - 1] == Scalar(key, PatchOf(lines).texts[key])
  {
    if lines != [] {
      TextFromClass(lines[..|lines| - 1], key);
    }
  }

  lemma {:induction false} KeyspaceFromClass(lines: seq<Line>)
    ensures PatchOf(lines).keyspace == Entries(Sub(lines, KeyspaceClass))
  {
    if lines != [] {
      KeyspaceFromClass(lines[..|lines| - 1]);
    }
  }

  /** Permutation and layout invariance in one: runs that agree class by class are read alike. */
  lemma AgreeingRunsReadAlike(xs: seq<Line>, ys: seq<Line>, keys: set<string>)
    requires Agree(xs, ys, keys)
    ensures PatchOf(xs).keyspace == PatchOf(ys).keyspace
    ensures forall key :: key in keys ==> TextOf(PatchOf(xs), key) == TextOf(PatchOf(ys), key)
  {
    assert Visible(KeyspaceClass, keys);
    assert Sub(xs, KeyspaceClass) == Sub(ys, KeyspaceClass);
    KeyspaceFromClass(xs);
    KeyspaceFromClass(ys);
    forall key | key in keys ensures TextOf(PatchOf(xs), key) == TextOf(PatchOf(ys), key) {
      assert Visible(KeyClass(key), keys);
      TextFromClass(xs, key);
      TextFromClass(ys, key);
    }
  }

  lemma {:induction false} SubConcat(xs: seq<Line>, ys: seq<Line>, c: Class)
    ensures Sub(xs + ys, c) == Sub(xs, c) + Sub(ys, c)
  {
    if ys == [] {
      assert xs + ys == xs;
    } else {
      assert (xs + ys)[..|xs + ys| - 1] == xs + ys[..|ys| - 1];
      SubConcat(xs, ys[..|ys| - 1], c);
    }
  }

  lemma AgreeConcat(a: seq<Line>, b: seq<Line>, x: seq<Line>, y: seq<Line>, keys: set<string>)
    requires Agree(a, b, keys) && Agree(x, y, keys)
    ensures Agree(a + x, b + y, keys)
  {
    forall c: Class | Visible(c, keys) ensures Sub(a + x, c) == Sub(b + y, c) {
      SubConcat(a, x, c);
      SubConcat(b, y, c);
    }
  }

  lemma {:induction false} InvisibleAgreesWithNothing(lines: seq<Line>, keys: set<string>)
    requires forall i :: 0 <= i < |lines| ==> !Visible(ClassOf(lines[i]), keys)
    ensures Agree(lines, [], keys)
  {
    if lines != [] {
      InvisibleAgreesWithNothing(lines[..|lines| - 1], keys);
    }
  }

  lemma SubPair(x: Line, y: Line, c: Class)
    ensures Sub([x], c) == if ClassOf(x) == c then [x] else []
    ensures Sub([x, y], c) == Sub([x], c) + Sub([y], c)
  {
    assert [x][..0] == [];
    SubConcat([x], [y], c);
    assert [x] + [y] == [x, y];
  }

  /** Neighbouring lines of different classes may be swapped; swaps generate every reordering
      that keeps the lines of each class in order. */
  lemma SwapAgrees(x: Line, y: Line, keys: set<string>)
    requires ClassOf(x) != ClassOf(y)
    ensures Agree([x, y], [y, x], keys)
  {
    forall c: Class ensures Sub([x, y], c) == Sub([y, x], c) {
      SubPair(x, y, c);
      SubPair(y, x, c);
    }
  }

  // ---------- texts ----------

  /** Splitting at every line feed gives the same patch as `lines`: blank pieces and carriage
      returns are all that differs. */
  lemma {:induction false} TextPatchBySplit(raw: string)
    ensures TextPatch(raw) == PatchOf(ClassifyAll(Split(raw, '\n')))
    decreases |raw|
  {
    var i := Find(raw, '\n');
    if raw == "" {
      BlankPatch();
    } else if i == |raw| {
      SplitWhole(raw, '\n');
    } else {
      var first, rest := raw[..i], raw[i + 1..];
      TextPatchBySplit(rest);
      OneMoreLine(StripCarriageReturn(first), Lines(rest));
      OneMoreLine(first, Split(rest, '\n'));
      TrimIgnoresCarriageReturn(first);
      SameTrimSameLine(StripCarriageReturn(first), first);
    }
  }

  lemma BlankPatch()
    ensures PatchOf(ClassifyAll([""])) == NO_PATCH
  {
    ClassifyOne("");
    assert [Noise][..0] == [];
  }

  lemma SameTrimSameLine(x: string, y: string)
    requires Trim(x) == Trim(y)
    ensures Classify(x) == Classify(y)
  {
  }

  lemma OneMoreLine(first: string, rest: seq<string>)
    ensures PatchOf(ClassifyAll([first] + rest)) == Then(LinePatch(Classify(first)), PatchOf(ClassifyAll(rest)))
  {
    ClassifyOne(first);
    ClassifyAllConcat([first], rest);
    PrependLine(Classify(first), ClassifyAll(rest));
  }

  lemma PrependLine(line: Line, rest: seq<Line>)
    ensures PatchOf([line] + rest) == Then(LinePatch(line), PatchOf(rest))
  {
    PatchConcat([line], rest);
    assert [line][..0] == [];
    assert Then(NO_PATCH, LinePatch(line)) == LinePatch(line);
  }

  /** A text built from lines has the patch of those lines. */
  lemma {:induction false} JoinedPatch(lines: seq<string>)
    requires lines != [] && LineFeedFree(lines)
    ensures TextPatch(Join(lines, "\n")) == PatchOf(ClassifyAll(lines))
  {
    TextPatchBySplit(Join(lines, "\n"));
    SplitOfJoin(lines, '\n');
  }

  /** Parsing is a homomorphism from texts under line-wise concatenation to patches, whatever
      the two texts begin or end with. */
  lemma {:induction false} Homomorphism(a: string, b: string)
    ensures TextPatch(a + "\n" + b) == Then(TextPatch(a), TextPatch(b))
  {
    TextPatchBySplit(a);
    TextPatchBySplit(b);
    TextPatchBySplit(a + "\n" + b);
    SplitConcat(a, '\n', b);
    ClassifyAllConcat(Split(a, '\n'), Split(b, '\n'));
    PatchConcat(ClassifyAll(Split(a, '\n')), ClassifyAll(Split(b, '\n')));
  }

  ghost predicate SomeSets(raws: seq<string>, key: string) {
    exists i :: 0 <= i < |raws| && Sets(raws[i], key)
  }

  /** The same on results: `b` overrides exactly the fields some line of `b` sets. */
  lemma {:induction false} ConcatenatedInfo(a: string, b: string, f: Field)
    ensures Get(Parsed(a + "\n" + b), f) ==
            if SomeSets(Lines(b), KeyName(f)) then Get(Parsed(b), f) else Get(Parsed(a), f)
    ensures Parsed(a + "\n" + b).keyspace == Parsed(a).keyspace + Parsed(b).keyspace
  {
    Homomorphism(a, b);
    KnownKeyIsProper(f);
    KeyText(Lines(b), KeyName(f));
    ProjectThen(TextPatch(a), TextPatch(b), f);
  }

  lemma ProjectThen(p: Patch, q: Patch, f: Field)
    ensures Get(Project(Then(p, q)), f) == Get(Project(if KeyName(f) in q.texts then q else p), f)
    ensures Project(Then(p, q)).keyspace == Project(p).keyspace + Project(q).keyspace
  {
  }

  /** The value of the last line that sets `key`, or "". */
  function LastValue(raws: seq<string>, key: string): string {
    if raws == [] then ""
    else if Sets(raws[|raws| - 1], key) then ValueOf(raws[|raws| - 1], key)
    else LastValue(raws[..|raws| - 1], key)
  }

  lemma {:induction false} KeyText(raws: seq<string>, key: string)
    requires ProperKey(key)
    ensures key in PatchOf(ClassifyAll(raws)).texts <==> SomeSets(raws, key)
    ensures TextOf(PatchOf(ClassifyAll(raws)), key) == LastValue(raws, key)
  {
    if raws != [] {
      var init, last := raws[..|raws| - 1], raws[|raws| - 1];
      assert raws == init + [last];
      KeyText(init, key);
      KeyTextStep(init, last, key);
    }
  }

  lemma {:induction false} KeyTextStep(init: seq<string>, last: string, key: string)
    requires ProperKey(key)
    requires key in PatchOf(ClassifyAll(init)).texts <==> SomeSets(init, key)
    requires TextOf(PatchOf(ClassifyAll(init)), key) == LastValue(init, key)
    ensures key in PatchOf(ClassifyAll(init + [last])).texts <==> SomeSets(init + [last], key)
    ensures TextOf(PatchOf(ClassifyAll(init + [last])), key) == LastValue(init + [last], key)
  {
    PatchAppend(init, last);
    LineText(last, key);
    ExtendSets(init, last, key);
    assert (init + [last])[..|init|] == init;
  }

  lemma PatchAppend(raws: seq<string>, raw: string)
    ensures PatchOf(ClassifyAll(raws + [raw])) == Then(PatchOf(ClassifyAll(raws)), LinePatch(Classify(raw)))
  {
    assert (raws + [raw])[..|raws|] == raws;
    var lines := ClassifyAll(raws);
    assert (lines + [Classify(raw)])[..|lines|] == lines;
  }

  lemma ExtendSets(init: seq<string>, last: string, key: string)
    ensures SomeSets(init + [last], key) <==> SomeSets(init, key) || Sets(last, key)
  {
    var all := init + [last];
    assert all[|init|] == last;
    if SomeSets(init, key) {
      var i :| 0 <= i < |init| && Sets(init[i], key);
      assert all[i] == init[i];
    }
  }

  lemma LineText(raw: string, key: string)
    requires ProperKey(key)
    ensures key in LinePatch(Classify(raw)).texts <==> Sets(raw, key)
    ensures Sets(raw, key) ==> LinePatch(Classify(raw)).texts[key] == ValueOf(raw, key)
  {
    if Sets(raw, key) {
      SettingLine(raw, key);
    } else if Classify(raw).Scalar? {
      OnlySettingLines(raw, Classify(raw).key, Classify(raw).text);
    }
  }

  /** The entries of the keyspace lines, in order. */
  function DbEntries(raws: seq<string>): seq<DbEntry> {
    if raws == [] then []
    else
      var last := DbLine(Trim(raws[|raws| - 1]));
      DbEntries(raws[..|raws| - 1]) + if last.Some? then [last.value] else []
  }

  /** The declarative reading of the line loop: each field is decoded from the last line whose key
      is exactly its name, and the keyspace lists the keyspace lines in order. */
  lemma {:induction false} LastLineWins(raw: string)
    ensures forall f :: Get(Parsed(raw), f) == Decode(f, LastValue(Lines(raw), KeyName(f)))
    ensures Parsed(raw).keyspace == DbEntries(Lines(raw))
  {
    forall f: Field ensures TextOf(TextPatch(raw), KeyName(f)) == LastValue(Lines(raw), KeyName(f)) {
      KnownKeyIsProper(f);
      KeyText(Lines(raw), KeyName(f));
    }
    KeyspaceIsDbEntries(Lines(raw));
  }

  /** The same field by field, under the names of the text: clients. */
  lemma {:induction false} ClientFields(raw: string)
    ensures var info, lines := Parsed(raw), Lines(raw);
            && info.connectedClients == I64OrZero(LastValue(lines, "connected_clients"))
            && info.blockedClients == I64OrZero(LastValue(lines, "blocked_clients"))
  {
    FieldFrom(raw, ConnectedClients, "connected_clients");
    FieldFrom(raw, BlockedClients, "blocked_clients");
  }

  /** Replication. */
  lemma {:induction false} ReplicationFields(raw: string)
    ensures var info, lines := Parsed(raw), Lines(raw);
            && info.connectedSlaves == I64OrZero(LastValue(lines, "connected_slaves"))
            && info.replicationOffset == I64OrZero(LastValue(lines, "master_repl_offset"))
  {
    FieldFrom(raw, ConnectedSlaves, "connected_slaves");
    FieldFrom(raw, ReplicationOffset, "master_repl_offset");
  }

  /** Memory. */
  lemma {:induction false} MemoryFields(raw: string)
    ensures var info, lines := Parsed(raw), Lines(raw);
            && info.usedMemory == I64OrZero(LastValue(lines, "used_memory"))
            && info.usedMemoryRss == I64OrZero(LastValue(lines, "used_memory_rss"))
            && info.memFragmentationRatio == LastValue(lines, "mem_fragmentation_ratio")
  {
    FieldFrom(raw, UsedMemory, "used_memory");
    FieldFrom(raw, UsedMemoryRss, "used_memory_rss");
    FieldFrom(raw, MemFragmentationRatio, "mem_fragmentation_ratio");
  }

  /** Statistics. */
  lemma {:induction false} StatsFields(raw: string)
    ensures var info, lines := Parsed(raw), Lines(raw);
            && info.totalCommandsProcessed == I64OrZero(LastValue(lines, "total_commands_processed"))
            && info.evictedKeys == I64OrZero(LastValue(lines, "evicted_keys"))
  {
    FieldFrom(raw, TotalCommandsProcessed, "total_commands_processed");
    FieldFrom(raw, EvictedKeys, "evicted_keys");
  }

  /** Lookups. */
  lemma {:induction false} LookupFields(raw: string)
    ensures var info, lines := Parsed(raw), Lines(raw);
            && info.keyspaceHits == I64OrZero(LastValue(lines, "keyspace_hits"))
            && info.keyspaceMisses == I64OrZero(LastValue(lines, "keyspace_misses"))
  {
    FieldFrom(raw, KeyspaceHits, "keyspace_hits");
    FieldFrom(raw, KeyspaceMisses, "keyspace_misses");
  }

  lemma {:induction false} FieldFrom(raw: string, f: Field, name: string)
    requires name == KeyName(f)
    ensures f != MemFragmentationRatio ==> Get(Parsed(raw), f) == Reading.Int(I64OrZero(LastValue(Lines(raw), name)))
    ensures f == MemFragmentationRatio ==> Get(Parsed(raw), f) == Ratio(LastValue(Lines(raw), name))
  {
    LastLineWins(raw);
  }

  lemma {:induction false} KeyspaceIsDbEntries(raws: seq<string>)
    ensures PatchOf(ClassifyAll(raws)).keyspace == DbEntries(raws)
  {
    if raws != [] {
      var init, last := raws[..|raws| - 1], raws[|raws| - 1];
      assert raws == init + [last];
      KeyspaceIsDbEntries(init);
      PatchAppend(init, last);
      CommentIsNoDbLine(last);
    }
  }

  lemma CommentIsNoDbLine(raw: string)
    ensures DbLine(Trim(raw)) == if Classify(raw).Db? then Some(Classify(raw).entry) else None
  {
    var line := Trim(raw);
    if HasPrefix(line, "db") {
      assert line[0] == line[..2][0];
    }
  }
}
