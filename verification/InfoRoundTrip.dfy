/** Whole texts: line ends, margins, noise and reordering do not matter, and parsing
    inverts printing. */
module InfoRoundTrip {
  import opened Wrappers
  import opened Text
  import opened Numbers
  import opened InfoParser
  import opened LineSyntax
  import opened InfoLaws

  // ---------- layout ----------

  ghost predicate AllSilent(noise: seq<string>) {
    forall i :: 0 <= i < |noise| ==> SaysNothing(noise[i])
  }

  ghost function KnownKeys(): (keys: set<string>)
    ensures forall key :: key in keys <==> KnownKey(key)
  {
    set f: Field {:trigger KeyName(f)} | true :: KeyName(f)
  }

  /** The lines agree, for the known keys. */
  ghost predicate Alike(xs: seq<string>, ys: seq<string>) {
    Agree(ClassifyAll(xs), ClassifyAll(ys), KnownKeys())
  }

  lemma {:induction false} AlikeSameInfo(xs: seq<string>, ys: seq<string>)
    requires Alike(xs, ys)
    ensures Project(PatchOf(ClassifyAll(xs))) == Project(PatchOf(ClassifyAll(ys)))
  {
    var p, q := PatchOf(ClassifyAll(xs)), PatchOf(ClassifyAll(ys));
    AgreeingRunsReadAlike(ClassifyAll(xs), ClassifyAll(ys), KnownKeys());
    SameTextsSameInfo(p, q, KnownKeys());
  }

  lemma SameTextsSameInfo(p: Patch, q: Patch, keys: set<string>)
    requires p.keyspace == q.keyspace
    requires forall key :: KnownKey(key) ==> key in keys
    requires forall key :: key in keys ==> TextOf(p, key) == TextOf(q, key)
    ensures Project(p) == Project(q)
  {
    forall f: Field ensures Get(Project(p), f) == Get(Project(q), f) {
      assert KnownKey(KeyName(f));
    }
    SameInfo(Project(p), Project(q));
  }

  lemma AlikeConcat(a: seq<string>, b: seq<string>, x: seq<string>, y: seq<string>)
    requires Alike(a, b) && Alike(x, y)
    ensures Alike(a + x, b + y)
  {
    ClassifyAllConcat(a, x);
    ClassifyAllConcat(b, y);
    AgreeConcat(ClassifyAll(a), ClassifyAll(b), ClassifyAll(x), ClassifyAll(y), KnownKeys());
  }

  lemma AlikeSelf(xs: seq<string>)
    ensures Alike(xs, xs)
  {
  }

  /** Two texts whose lines agree class by class are read alike. Every text is such a join. */
  lemma {:induction false} LayoutInvariance(xs: seq<string>, ys: seq<string>)
    requires xs != [] && LineFeedFree(xs) && ys != [] && LineFeedFree(ys)
    requires Alike(xs, ys)
    ensures Parsed(Join(xs, "\n")) == Parsed(Join(ys, "\n"))
  {
    JoinedPatch(xs);
    JoinedPatch(ys);
    AlikeSameInfo(xs, ys);
  }

  /** Lines that say nothing may stand anywhere between lines, and any line may have blank
      margins. */
  lemma {:induction false} NoiseAndMargins(pre: seq<string>, x: string, post: seq<string>,
                        noise: seq<string>, left: string, right: string)
    requires LineFeedFree(pre) && LineFeedFree([x]) && LineFeedFree(post) && LineFeedFree(noise)
    requires AllSilent(noise)
    requires Blank(left) && Blank(right) && '\n' !in left && '\n' !in right
    ensures Parsed(Join(pre + noise + [left + x + right] + post, "\n")) == Parsed(Join(pre + [x] + post, "\n"))
  {
    var padded := left + x + right;
    MarginsAlike(x, left, right);
    NoiseIsSilent(noise);
    InContext(pre, noise, [padded], [x], post);
    FeedFreeConcat(pre, noise);
    FeedFreeConcat(pre + noise, [padded]);
    FeedFreeConcat(pre + noise + [padded], post);
    FeedFreeConcat(pre, [x]);
    FeedFreeConcat(pre + [x], post);
    LayoutInvariance(pre + noise + [padded] + post, pre + [x] + post);
  }

  lemma InContext(pre: seq<string>, silent: seq<string>, xs: seq<string>, ys: seq<string>, post: seq<string>)
    requires Alike(silent, []) && Alike(xs, ys)
    ensures Alike(pre + silent + xs + post, pre + ys + post)
  {
    AlikeSelf(pre);
    AlikeSelf(post);
    AlikeConcat(pre, pre, silent, []);
    assert pre + [] == pre;
    AlikeConcat(pre + silent, pre, xs, ys);
    AlikeConcat(pre + silent + xs, pre + ys, post, post);
  }

  lemma MarginsAlike(x: string, left: string, right: string)
    requires Blank(left) && Blank(right)
    ensures Alike([left + x + right], [x])
  {
    TrimPadded(left, x, right);
    ClassifyOne(left + x + right);
    ClassifyOne(x);
  }

  lemma FeedFreeConcat(xs: seq<string>, ys: seq<string>)
    requires LineFeedFree(xs) && LineFeedFree(ys)
    ensures LineFeedFree(xs + ys)
  {
  }

  lemma NoiseIsSilent(noise: seq<string>)
    requires AllSilent(noise)
    ensures Alike(noise, [])
  {
    forall i | 0 <= i < |noise| ensures Silent(ClassifyAll(noise)[i]) {
      NoiseSyntax(noise[i]);
      ClassifyAllAt(noise, i);
    }
    InvisibleAgreesWithNothing(ClassifyAll(noise), KnownKeys());
    assert ClassifyAll([]) == [];
  }

  /** Neighbouring lines that set different fields, or of which one is a keyspace line and
      the other is not, may be swapped in the text. */
  lemma {:induction false} SwapTextLines(pre: seq<string>, x: string, y: string, post: seq<string>)
    requires LineFeedFree(pre) && LineFeedFree([x, y]) && LineFeedFree(post)
    requires ClassOf(Classify(x)) != ClassOf(Classify(y))
    ensures Parsed(Join(pre + [x, y] + post, "\n")) == Parsed(Join(pre + [y, x] + post, "\n"))
  {
    var xy, yx := pre + [x, y] + post, pre + [y, x] + post;
    SwapAlike(x, y);
    AlikeSelf(pre);
    AlikeSelf(post);
    AlikeConcat(pre, pre, [x, y], [y, x]);
    AlikeConcat(pre + [x, y], pre + [y, x], post, post);
    assert [x, y][0] == x && [x, y][1] == y;
    FeedFreeConcat(pre, [x, y]);
    FeedFreeConcat(pre, [y, x]);
    FeedFreeConcat(pre + [x, y], post);
    FeedFreeConcat(pre + [y, x], post);
    LayoutInvariance(xy, yx);
  }

  lemma SwapAlike(x: string, y: string)
    requires ClassOf(Classify(x)) != ClassOf(Classify(y))
    ensures Alike([x, y], [y, x])
  {
    ClassifyPair(x, y);
    ClassifyPair(y, x);
    SwapAgrees(Classify(x), Classify(y), KnownKeys());
  }

  /** Writing every line feed as CR LF changes nothing. */
  lemma {:induction false} CrlfInvariance(raw: string)
    ensures Parsed(ToCrlf(raw)) == Parsed(raw)
  {
    TextPatchBySplit(raw);
    TextPatchBySplit(ToCrlf(raw));
    CrlfPieces(raw);
  }

  lemma {:induction false} CrlfPieces(raw: string)
    ensures PatchOf(ClassifyAll(Split(ToCrlf(raw), '\n'))) == PatchOf(ClassifyAll(Split(raw, '\n')))
    decreases |raw|
  {
    var i := Find(raw, '\n');
    if i == |raw| {
      CrlfWithout(raw);
    } else {
      var first, rest := raw[..i], raw[i + 1..];
      assert raw == first + "\n" + rest;
      CrlfPieces(rest);
      CrlfSplit(raw, first, rest);
      assert Split(raw, '\n') == [first] + Split(rest, '\n');
      SameLineReturned(first);
      SameFirstLine(first + "\r", Split(ToCrlf(rest), '\n'), first, Split(rest, '\n'));
    }
  }

  lemma SameLineReturned(s: string)
    ensures Classify(s + "\r") == Classify(s)
  {
    assert (s + "\r")[..|s|] == s;
    TrimIgnoresCarriageReturn(s + "\r");
    SameTrimSameLine(s + "\r", s);
  }

  lemma {:induction false} SameFirstLine(x: string, xs: seq<string>, y: string, ys: seq<string>)
    requires Classify(x) == Classify(y)
    requires PatchOf(ClassifyAll(xs)) == PatchOf(ClassifyAll(ys))
    ensures PatchOf(ClassifyAll([x] + xs)) == PatchOf(ClassifyAll([y] + ys))
  {
    OneMoreLine(x, xs);
    OneMoreLine(y, ys);
  }

  lemma ReturnThenFeed(a: string, b: string)
    ensures a + "\r\n" + b == (a + "\r") + "\n" + b
  {
  }

  lemma CrlfSplit(raw: string, first: string, rest: string)
    requires raw == first + "\n" + rest && '\n' !in first
    ensures Split(ToCrlf(raw), '\n') == [first + "\r"] + Split(ToCrlf(rest), '\n')
  {
    CrlfConcat(first, rest);
    CrlfWithout(first);
    ReturnThenFeed(first, ToCrlf(rest));
    SplitConcat(first + "\r", '\n', ToCrlf(rest));
    SplitWhole(first + "\r", '\n');
  }

  lemma {:induction false} CrlfWithout(s: string)
    requires '\n' !in s
    ensures ToCrlf(s) == s
  {
    if s != "" {
      CrlfWithout(s[1..]);
    }
  }

  lemma {:induction false} CrlfConcat(a: string, b: string)
    ensures ToCrlf(a + "\n" + b) == ToCrlf(a) + "\r\n" + ToCrlf(b)
  {
    var t := a + "\n" + b;
    if a == "" {
      assert t[1..] == b;
    } else {
      assert t[1..] == a[1..] + "\n" + b;
      CrlfConcat(a[1..], b);
    }
  }

  // ---------- printing ----------

  function ReadingText(r: Reading): string {
    match r
    case Int(v) => IntText(v)
    case Ratio(t) => t
  }

  const FIELDS: seq<Field> := [ConnectedClients, BlockedClients, UsedMemory, UsedMemoryRss,
    MemFragmentationRatio, TotalCommandsProcessed, KeyspaceHits, KeyspaceMisses, EvictedKeys,
    ReplicationOffset, ConnectedSlaves]

  function PrintField(info: RedisInfo, f: Field): string {
    KeyName(f) + ":" + ReadingText(Get(info, f))
  }

  function PrintDb(e: DbEntry): string {
    "db" + NatText(e.index) + ":" + Join(DbFields(e), ",")
  }

  function DbFields(e: DbEntry): seq<string> {
    ["keys=" + IntText(e.keys), "expires=" + IntText(e.expires), "avg_ttl=0"]
  }

  function PrintFields(info: RedisInfo, fields: seq<Field>): seq<string> {
    seq(|fields|, i requires 0 <= i < |fields| => PrintField(info, fields[i]))
  }

  function PrintDbs(entries: seq<DbEntry>): seq<string> {
    seq(|entries|, i requires 0 <= i < |entries| => PrintDb(entries[i]))
  }

  function PrintLines(info: RedisInfo): seq<string> {
    PrintFields(info, FIELDS) + PrintDbs(info.keyspace)
  }

  /** A ratio text a trimmed line can carry. Every other field is printable as it is. */
  ghost predicate Printable(info: RedisInfo) {
    Trimmed(info.memFragmentationRatio) && '\n' !in info.memFragmentationRatio
  }

  lemma {:induction false} NatTextPlain(n: nat)
    ensures Trimmed(NatText(n)) && ':' !in NatText(n) && ',' !in NatText(n) && '\n' !in NatText(n)
  {
    var t := NatText(n);
    assert IsDigit(t[0]) && IsDigit(t[|t| - 1]);
  }

  lemma IntTextPlain(n: int)
    ensures Trimmed(IntText(n)) && ',' !in IntText(n) && '\n' !in IntText(n)
  {
    if n < 0 {
      NatTextPlain(-n);
      var m := NatText(-n);
      assert IntText(n) == "-" + m;
      assert IntText(n)[|m|] == m[|m| - 1];
    } else {
      NatTextPlain(n);
    }
  }

  lemma ReadingTextPlain(info: RedisInfo, f: Field)
    requires Printable(info)
    ensures Trimmed(ReadingText(Get(info, f))) && '\n' !in ReadingText(Get(info, f))
    ensures Decode(f, ReadingText(Get(info, f))) == Get(info, f)
  {
    if Get(info, f).Int? {
      IntTextPlain(Get(info, f).value);
      I64RoundTrip(Get(info, f).value);
    }
  }

  lemma KeyedTextTrimmed(key: string, text: string)
    requires key != "" && !IsWhitespace(key[0]) && Trimmed(text)
    ensures Trim(key + ":" + text) == key + ":" + text
    ensures HasPrefix(key + ":" + text, key + ":") && Trim((key + ":" + text)[|key| + 1..]) == text
  {
    var line := key + ":" + text;
    assert line[0] == key[0];
    assert text != "" ==> line[|line| - 1] == text[|text| - 1];
    TrimOf("", line, "");
    TrimOf("", text, "");
    assert "" + line + "" == line && "" + text + "" == text;
    assert line[|key| + 1..] == text;
  }

  lemma PrintedFieldSets(info: RedisInfo, f: Field)
    requires Printable(info)
    ensures Classify(PrintField(info, f)) == Scalar(KeyName(f), ReadingText(Get(info, f)))
  {
    ReadingTextPlain(info, f);
    KnownKeyIsProper(f);
    KeyedTextTrimmed(KeyName(f), ReadingText(Get(info, f)));
    SettingLine(PrintField(info, f), KeyName(f));
  }

  lemma DbFieldsCount(e: DbEntry)
    ensures Counted(DbFields(e), "keys=") == e.keys
    ensures Counted(DbFields(e), "expires=") == e.expires
    ensures CommaFree(DbFields(e))
  {
    IntTextPlain(e.keys);
    IntTextPlain(e.expires);
    I64RoundTrip(e.keys);
    I64RoundTrip(e.expires);
    var k, x, a := DbFields(e)[0], DbFields(e)[1], DbFields(e)[2];
    assert k[..5] == "keys=" && k[5..] == IntText(e.keys);
    assert x[..8] == "expires=" && x[8..] == IntText(e.expires);
    assert x[0] == 'e' && a[0] == 'a' && k[0] == 'k';
    LastOfThree(k, x, a, "keys=");
    LastOfThree(k, x, a, "expires=");
  }

  lemma LastOfThree(k: string, x: string, a: string, p: string)
    ensures LastSuffix([k, x, a], p) == if HasPrefix(a, p) then Some(a[|p|..])
                                        else if HasPrefix(x, p) then Some(x[|p|..])
                                        else if HasPrefix(k, p) then Some(k[|p|..]) else None
  {
    assert [k, x, a][..2] == [k, x] && [k, x][..1] == [k] && [k][..0] == [];
    assert LastSuffix([k], p) == if HasPrefix(k, p) then Some(k[|p|..]) else None;
    assert LastSuffix([k, x], p) == if HasPrefix(x, p) then Some(x[|p|..]) else LastSuffix([k], p);
  }

  lemma PrintedDbFeedFree(e: DbEntry)
    ensures '\n' !in PrintDb(e)
  {
    DbFieldsPlain(e);
    NatTextPlain(e.index);
  }

  lemma PrintedDbIsDb(e: DbEntry)
    ensures Classify(PrintDb(e)) == Db(e)
  {
    var index, fields := NatText(e.index), Join(DbFields(e), ",");
    DbFieldsPlain(e);
    NatTextPlain(e.index);
    PrintedDbText(index, fields);
    DbFieldsMean(e);
    assert DbText(PrintDb(e), index, fields);
    DbTextIsDb(PrintDb(e), index, fields);
  }

  lemma PrintedDbText(index: string, fields: string)
    requires Trimmed(fields)
    ensures Trim("db" + index + ":" + fields) == "db" + index + ":" + fields
  {
    assert ("db" + index)[0] == 'd';
    KeyedTextTrimmed("db" + index, fields);
  }

  lemma DbFieldsMean(e: DbEntry)
    ensures ParseU32(NatText(e.index)).Some? && DbMeaning(NatText(e.index), Join(DbFields(e), ",")) == e
  {
    U32RoundTrip(e.index, "");
    DbFieldsCount(e);
    SplitOfJoin(DbFields(e), ',');
  }

  lemma DbFieldsPlain(e: DbEntry)
    ensures Trimmed(Join(DbFields(e), ",")) && '\n' !in Join(DbFields(e), ",")
  {
    IntTextPlain(e.keys);
    IntTextPlain(e.expires);
    JoinThree("keys=" + IntText(e.keys), "expires=" + IntText(e.expires), "avg_ttl=0");
  }

  lemma JoinThree(a: string, b: string, c: string)
    ensures Join([a, b, c], ",") == a + "," + b + "," + c
  {
    assert [a, b, c][1..] == [b, c] && [b, c][1..] == [c];
    assert Join([b, c], ",") == b + "," + c;
    assert a + "," + (b + "," + c) == a + "," + b + "," + c;
  }

  /** Parsing inverts printing: a text whose lines agree class by class with the printed
      ones, in any layout and any order of fields, is read back as the value printed. */
  lemma {:induction false} RoundTrip(raw: string, info: RedisInfo)
    requires Printable(info)
    requires Alike(Split(raw, '\n'), PrintLines(info))
    ensures Parsed(raw) == info
  {
    TextPatchBySplit(raw);
    AlikeSameInfo(Split(raw, '\n'), PrintLines(info));
    PrintedReadsBack(info);
  }

  lemma FieldListed(f: Field)
    ensures f in FIELDS
  {
    assert FIELDS[0].ConnectedClients? && FIELDS[1].BlockedClients? && FIELDS[2].UsedMemory?;
    assert FIELDS[3].UsedMemoryRss? && FIELDS[4].MemFragmentationRatio? && FIELDS[5].TotalCommandsProcessed?;
    assert FIELDS[6].KeyspaceHits? && FIELDS[7].KeyspaceMisses? && FIELDS[8].EvictedKeys?;
    assert FIELDS[9].ReplicationOffset? && FIELDS[10].ConnectedSlaves?;
  }

  lemma SameKeySameReading(info: RedisInfo, f: Field, g: Field)
    requires KeyName(f) == KeyName(g)
    ensures Get(info, f) == Get(info, g)
  {
    KeyNamesDiffer();
  }

  /** What printed fields are read as. */
  ghost predicate AreFieldLines(lines: seq<Line>, info: RedisInfo, fields: seq<Field>) {
    && |lines| == |fields|
    && forall i :: 0 <= i < |fields| ==> lines[i] == Scalar(KeyName(fields[i]), ReadingText(Get(info, fields[i])))
  }

  lemma {:induction false} OnlyText(lines: seq<Line>, key: string, text: string)
    requires forall i :: 0 <= i < |lines| && lines[i].Scalar? && lines[i].key == key ==> lines[i].text == text
    requires exists i :: 0 <= i < |lines| && lines[i] == Scalar(key, text)
    ensures TextOf(PatchOf(lines), key) == text && key in PatchOf(lines).texts
  {
    var n := |lines| - 1;
    if lines[n] != Scalar(key, text) {
      var i :| 0 <= i < |lines| && lines[i] == Scalar(key, text);
      assert lines[..n][i] == lines[i];
      OnlyText(lines[..n], key, text);
    }
  }

  lemma {:induction false} ScalarsOnly(lines: seq<Line>)
    requires forall i :: 0 <= i < |lines| ==> lines[i].Scalar?
    ensures PatchOf(lines).keyspace == []
  {
    if lines != [] {
      ScalarsOnly(lines[..|lines| - 1]);
    }
  }

  lemma FieldsPatch(lines: seq<Line>, info: RedisInfo, fields: seq<Field>, f: Field)
    requires AreFieldLines(lines, info, fields) && f in fields
    ensures TextOf(PatchOf(lines), KeyName(f)) == ReadingText(Get(info, f))
  {
    forall i | 0 <= i < |lines| && lines[i].Scalar? && lines[i].key == KeyName(f)
      ensures lines[i].text == ReadingText(Get(info, f))
    {
      SameKeySameReading(info, f, fields[i]);
    }
    var i :| 0 <= i < |fields| && fields[i] == f;
    assert lines[i] == Scalar(KeyName(f), ReadingText(Get(info, f)));
    OnlyText(lines, KeyName(f), ReadingText(Get(info, f)));
  }

  lemma {:induction false} DbsPatch(lines: seq<Line>, entries: seq<DbEntry>)
    requires |lines| == |entries| && forall i :: 0 <= i < |lines| ==> lines[i] == Db(entries[i])
    ensures PatchOf(lines) == Patch(map[], entries)
  {
    if entries != [] {
      var n := |entries| - 1;
      DbsPatch(lines[..n], entries[..n]);
      assert entries == entries[..n] + [entries[n]];
    }
  }

  lemma PrintedFieldLine(info: RedisInfo, fields: seq<Field>, i: nat)
    requires Printable(info) && i < |fields|
    ensures ClassifyAll(PrintFields(info, fields))[i] == Scalar(KeyName(fields[i]), ReadingText(Get(info, fields[i])))
  {
    PrintedFieldSets(info, fields[i]);
    ClassifyAllAt(PrintFields(info, fields), i);
  }

  lemma PrintedFieldLines(info: RedisInfo, fields: seq<Field>)
    requires Printable(info)
    ensures AreFieldLines(ClassifyAll(PrintFields(info, fields)), info, fields)
  {
    forall i | 0 <= i < |fields|
      ensures ClassifyAll(PrintFields(info, fields))[i] ==
              Scalar(KeyName(fields[i]), ReadingText(Get(info, fields[i])))
    {
      PrintedFieldLine(info, fields, i);
    }
  }

  lemma PrintedDbLine(entries: seq<DbEntry>, i: nat)
    requires i < |entries|
    ensures ClassifyAll(PrintDbs(entries))[i] == Db(entries[i])
  {
    PrintedDbIsDb(entries[i]);
    ClassifyAllAt(PrintDbs(entries), i);
  }

  lemma PrintedDbsPatch(entries: seq<DbEntry>)
    ensures PatchOf(ClassifyAll(PrintDbs(entries))) == Patch(map[], entries)
  {
    forall i | 0 <= i < |entries| ensures ClassifyAll(PrintDbs(entries))[i] == Db(entries[i]) {
      PrintedDbLine(entries, i);
    }
    DbsPatch(ClassifyAll(PrintDbs(entries)), entries);
  }

  lemma PrintedReadsBack(info: RedisInfo)
    requires Printable(info)
    ensures Project(PatchOf(ClassifyAll(PrintLines(info)))) == info
  {
    var own, dbs := ClassifyAll(PrintFields(info, FIELDS)), ClassifyAll(PrintDbs(info.keyspace));
    ClassifyAllConcat(PrintFields(info, FIELDS), PrintDbs(info.keyspace));
    PatchConcat(own, dbs);
    PrintedDbsPatch(info.keyspace);
    PrintedFieldLines(info, FIELDS);
    ReadBack(own, info);
  }

  lemma ReadBack(own: seq<Line>, info: RedisInfo)
    requires Printable(info) && AreFieldLines(own, info, FIELDS)
    ensures Project(Then(PatchOf(own), Patch(map[], info.keyspace))) == info
  {
    var p, q := PatchOf(own), Then(PatchOf(own), Patch(map[], info.keyspace));
    ScalarsOnly(own);
    assert q.texts == p.texts && q.keyspace == info.keyspace;
    forall f: Field ensures Get(info, f) == Decode(f, TextOf(q, KeyName(f))) {
      FieldListed(f);
      FieldsPatch(own, info, FIELDS, f);
      ReadingTextPlain(info, f);
    }
    ProjectionUnique(info, q);
  }

  // ---------- printed texts with sections between ----------

  /** `sections[i]` stands before `lines[i]`, and the last section after them all. */
  function Weave(lines: seq<string>, sections: seq<seq<string>>): seq<string>
    requires |sections| == |lines| + 1
  {
    if lines == [] then sections[0]
    else Weave(lines[..|lines| - 1], sections[..|lines|]) + [lines[|lines| - 1]] + sections[|lines|]
  }

  ghost predicate SilentSections(sections: seq<seq<string>>) {
    forall i :: 0 <= i < |sections| ==>
      LineFeedFree(sections[i]) && AllSilent(sections[i])
  }

  lemma {:induction false} WeaveAgrees(lines: seq<string>, sections: seq<seq<string>>)
    requires |sections| == |lines| + 1 && SilentSections(sections) && LineFeedFree(lines)
    ensures Alike(Weave(lines, sections), lines)
    ensures LineFeedFree(Weave(lines, sections))
  {
    if lines == [] {
      NoiseIsSilent(sections[0]);
    } else {
      var n := |lines| - 1;
      var head := Weave(lines[..n], sections[..n + 1]);
      WeaveAgrees(lines[..n], sections[..n + 1]);
      NoiseIsSilent(sections[n + 1]);
      AlikeSelf([lines[n]]);
      AlikeConcat(head, lines[..n], [lines[n]], [lines[n]]);
      AlikeConcat(head + [lines[n]], lines[..n] + [lines[n]], sections[n + 1], []);
      assert lines[..n] + [lines[n]] + [] == lines;
      FeedFreeConcat(head, [lines[n]]);
      FeedFreeConcat(head + [lines[n]], sections[n + 1]);
    }
  }

  /** Every info, printed with arbitrary silent sections between its lines and either line end, is
      read back unchanged, keyspace order included. */
  lemma {:induction false} PrintedTextRoundTrip(info: RedisInfo, sections: seq<seq<string>>)
    requires Printable(info)
    requires |sections| == |PrintLines(info)| + 1 && SilentSections(sections)
    ensures var text := Join(Weave(PrintLines(info), sections), "\n");
            Parsed(text) == info && Parsed(ToCrlf(text)) == info
  {
    var lines := PrintLines(info);
    PrintedLinesFeedFree(info);
    WeaveAgrees(lines, sections);
    var woven := Weave(lines, sections);
    WeaveNonempty(lines, sections);
    var text := Join(woven, "\n");
    SplitOfJoin(woven, '\n');
    RoundTrip(text, info);
    CrlfInvariance(text);
  }

  /** Whatever the parser returns can be printed: its ratio is trimmed and within one line. */
  lemma {:induction false} ParsedIsPrintable(raw: string)
    ensures Printable(Parsed(raw))
  {
    LastLineWins(raw);
    assert Get(Parsed(raw), MemFragmentationRatio) ==
           Decode(MemFragmentationRatio, LastValue(Lines(raw), KeyName(MemFragmentationRatio)));
    LinesFeedFree(raw);
    ValuePlain(Lines(raw), KeyName(MemFragmentationRatio));
  }

  lemma {:induction false} ValuePlain(raws: seq<string>, key: string)
    requires LineFeedFree(raws)
    ensures Trimmed(LastValue(raws, key)) && '\n' !in LastValue(raws, key)
  {
    if raws != [] {
      var last := raws[|raws| - 1];
      if Sets(last, key) {
        TrimKeeps(last, '\n');
        TrimKeeps(Trim(last)[|key| + 1..], '\n');
      } else {
        ValuePlain(raws[..|raws| - 1], key);
      }
    }
  }

  lemma TrimKeeps(s: string, c: char)
    ensures Trimmed(Trim(s)) && (c !in s ==> c !in Trim(s))
  {
    var pre, post := TrimSplits(s);
    assert c in Trim(s) ==> c in pre + Trim(s) + post;
  }

  /** Reading any text, printing the result in any layout and reading that again gives the same result:
      the printed form of a reply is a normal form of it. */
  lemma {:induction false} ReprintRoundTrip(raw: string, sections: seq<seq<string>>)
    requires |sections| == |PrintLines(Parsed(raw))| + 1 && SilentSections(sections)
    ensures var text := Join(Weave(PrintLines(Parsed(raw)), sections), "\n");
            Parsed(text) == Parsed(raw) && Parsed(ToCrlf(text)) == Parsed(raw)
  {
    ParsedIsPrintable(raw);
    PrintedTextRoundTrip(Parsed(raw), sections);
  }

  lemma WeaveNonempty(lines: seq<string>, sections: seq<seq<string>>)
    requires |sections| == |lines| + 1 && lines != []
    ensures Weave(lines, sections) != []
  {
  }

  lemma PrintedLinesFeedFree(info: RedisInfo)
    requires Printable(info)
    ensures LineFeedFree(PrintLines(info)) && PrintLines(info) != []
  {
    forall f: Field ensures '\n' !in PrintField(info, f) {
      ReadingTextPlain(info, f);
      KeyNameShape(f);
    }
    forall e: DbEntry ensures '\n' !in PrintDb(e) {
      PrintedDbFeedFree(e);
    }
  }
}
