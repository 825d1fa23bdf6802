/** `parse_info`: the text of Redis `INFO ALL` to a `RedisInfo`.

    The loop is specified by a patch: what a run of lines says about each known field (the
    text of its last occurrence) and the keyspace entries it adds. Patches compose, and a
    `RedisInfo` is the projection of a patch. */
module InfoParser {
  import opened Wrappers
  import opened Text
  import opened Numbers

  // ---------- data ----------

  /** One keyspace tuple: database index, keys, expires. */
  datatype DbEntry = DbEntry(index: u32, keys: i64, expires: i64)

  /** `memFragmentationRatio` is the trimmed text handed to the float parser; "" stands for the
      default 0.0, which is also what that parser's fallback gives for "". */
  datatype RedisInfo = RedisInfo(
    connectedClients: i64,
    blockedClients: i64,
    usedMemory: i64,
    usedMemoryRss: i64,
    memFragmentationRatio: string,
    totalCommandsProcessed: i64,
    keyspaceHits: i64,
    keyspaceMisses: i64,
    evictedKeys: i64,
    replicationOffset: i64,
    connectedSlaves: i64,
    keyspace: seq<DbEntry>)

  const DEFAULT_INFO := RedisInfo(0, 0, 0, 0, "", 0, 0, 0, 0, 0, 0, [])

  /** The fields other than `keyspace`. */
  datatype Field =
    | ConnectedClients | BlockedClients | UsedMemory | UsedMemoryRss | MemFragmentationRatio
    | TotalCommandsProcessed | KeyspaceHits | KeyspaceMisses | EvictedKeys
    | ReplicationOffset | ConnectedSlaves

  /** The name a field has in the INFO text. */
  function KeyName(f: Field): string {
    match f
    case ConnectedClients => "connected_clients"
    case BlockedClients => "blocked_clients"
    case UsedMemory => "used_memory"
    case UsedMemoryRss => "used_memory_rss"
    case MemFragmentationRatio => "mem_fragmentation_ratio"
    case TotalCommandsProcessed => "total_commands_processed"
    case KeyspaceHits => "keyspace_hits"
    case KeyspaceMisses => "keyspace_misses"
    case EvictedKeys => "evicted_keys"
    case ReplicationOffset => "master_repl_offset"
    case ConnectedSlaves => "connected_slaves"
  }

  /** What a field's text means: the ratio keeps it, the others parse it or fall back to 0. */
  datatype Reading = Int(value: i64) | Ratio(text: string)

  function Decode(f: Field, text: string): Reading {
    if f.MemFragmentationRatio? then Ratio(text) else Int(I64OrZero(text))
  }

  function Get(info: RedisInfo, f: Field): Reading {
    match f
    case ConnectedClients => Int(info.connectedClients)
    case BlockedClients => Int(info.blockedClients)
    case UsedMemory => Int(info.usedMemory)
    case UsedMemoryRss => Int(info.usedMemoryRss)
    case MemFragmentationRatio => Ratio(info.memFragmentationRatio)
    case TotalCommandsProcessed => Int(info.totalCommandsProcessed)
    case KeyspaceHits => Int(info.keyspaceHits)
    case KeyspaceMisses => Int(info.keyspaceMisses)
    case EvictedKeys => Int(info.evictedKeys)
    case ReplicationOffset => Int(info.replicationOffset)
    case ConnectedSlaves => Int(info.connectedSlaves)
  }

  // ---------- one line ----------

  /** What a line says. A scalar line may have any key, known or not. */
  datatype Line = Noise | Db(entry: DbEntry) | Scalar(key: string, text: string)

  /** The text after prefix `p` in the last of the comma fields that has it. */
  function LastSuffix(fields: seq<string>, p: string): Option<string> {
    if fields == [] then None
    else
      var last := fields[|fields| - 1];
      if HasPrefix(last, p) then Some(last[|p|..]) else LastSuffix(fields[..|fields| - 1], p)
  }

  function Counted(fields: seq<string>, p: string): i64 {
    I64OrZero(LastSuffix(fields, p).GetOr(""))
  }

  /** A keyspace line is `db`, an index that parses, a colon, and comma fields. */
  function DbLine(line: string): Option<DbEntry> {
    if !HasPrefix(line, "db") then None
    else
      var rest := line[2..];
      var colon := Find(rest, ':');
      if colon == |rest| then None
      else
        var fields := Split(rest[colon + 1..], ',');
        match ParseU32(rest[..colon])
        case None => None
        case Some(i) => Some(DbEntry(i, Counted(fields, "keys="), Counted(fields, "expires=")))
  }

  function ScalarLine(line: string): Line {
    var colon := Find(line, ':');
    if colon == |line| then Noise else Scalar(line[..colon], Trim(line[colon + 1..]))
  }

  function Classify(raw: string): Line {
    var line := Trim(raw);
    if line == "" || line[0] == '#' then Noise
    else
      match DbLine(line)
      case Some(e) => Db(e)
      case None => ScalarLine(line)
  }

  // ---------- runs of lines ----------

  datatype Patch = Patch(texts: map<string, string>, keyspace: seq<DbEntry>)

  const NO_PATCH := Patch(map[], [])

  /** `q` after `p`: `q`'s texts win, keyspace entries append. */
  function Then(p: Patch, q: Patch): Patch {
    Patch(p.texts + q.texts, p.keyspace + q.keyspace)
  }

  function LinePatch(line: Line): Patch {
    match line
    case Noise => NO_PATCH
    case Db(e) => Patch(map[], [e])
    case Scalar(key, text) => Patch(map[key := text], [])
  }

  function PatchOf(lines: seq<Line>): Patch {
    if lines == [] then NO_PATCH
    else Then(PatchOf(lines[..|lines| - 1]), LinePatch(lines[|lines| - 1]))
  }

  function ClassifyAll(raws: seq<string>): (lines: seq<Line>)
    ensures |lines| == |raws|
  {
    if raws == [] then []
    else ClassifyAll(raws[..|raws| - 1]) + [Classify(raws[|raws| - 1])]
  }

  lemma {:induction false} ClassifyAllAt(raws: seq<string>, i: nat)
    requires i < |raws|
    ensures ClassifyAll(raws)[i] == Classify(raws[i])
  {
    if i < |raws| - 1 {
      ClassifyAllAt(raws[..|raws| - 1], i);
    }
  }

  function TextOf(p: Patch, key: string): string {
    if key in p.texts then p.texts[key] else ""
  }

  /** Each field decoded from the text of its key ("" when absent), and the keyspace. */
  ghost predicate IsProjection(info: RedisInfo, p: Patch) {
    info.keyspace == p.keyspace && forall f :: Get(info, f) == Decode(f, TextOf(p, KeyName(f)))
  }

  ghost function Project(p: Patch): (info: RedisInfo)
    ensures IsProjection(info, p)
  {
    ProjectionExists(p);
    var info :| IsProjection(info, p);
    info
  }

  function TextPatch(raw: string): Patch {
    PatchOf(ClassifyAll(Lines(raw)))
  }

  ghost function Parsed(raw: string): RedisInfo {
    Project(TextPatch(raw))
  }

  // ---------- the parser ----------

  /** The dispatch table: the field named by `key` takes `text`, every other one is as before. */
  ghost predicate Updates(before: RedisInfo, key: string, text: string, after: RedisInfo) {
    && UpdatesMemory(before, key, text, after) && UpdatesStats(before, key, text, after)
    && after.keyspace == before.keyspace
  }

  ghost predicate UpdatesMemory(before: RedisInfo, key: string, text: string, after: RedisInfo) {
    var n := I64OrZero(text);
    && after.connectedClients == (if key == "connected_clients" then n else before.connectedClients)
    && after.blockedClients == (if key == "blocked_clients" then n else before.blockedClients)
    && after.usedMemory == (if key == "used_memory" then n else before.usedMemory)
    && after.usedMemoryRss == (if key == "used_memory_rss" then n else before.usedMemoryRss)
    && after.memFragmentationRatio ==
       (if key == "mem_fragmentation_ratio" then text else before.memFragmentationRatio)
  }

  ghost predicate UpdatesStats(before: RedisInfo, key: string, text: string, after: RedisInfo) {
    var n := I64OrZero(text);
    && after.totalCommandsProcessed ==
       (if key == "total_commands_processed" then n else before.totalCommandsProcessed)
    && after.keyspaceHits == (if key == "keyspace_hits" then n else before.keyspaceHits)
    && after.keyspaceMisses == (if key == "keyspace_misses" then n else before.keyspaceMisses)
    && after.evictedKeys == (if key == "evicted_keys" then n else before.evictedKeys)
    && after.replicationOffset == (if key == "master_repl_offset" then n else before.replicationOffset)
    && after.connectedSlaves == (if key == "connected_slaves" then n else before.connectedSlaves)
  }

  lemma UpdatesField(before: RedisInfo, key: string, text: string, after: RedisInfo, f: Field)
    requires Updates(before, key, text, after)
    ensures Get(after, f) == if key == KeyName(f) then Decode(f, text) else Get(before, f)
  {
    match f
    case ConnectedClients | BlockedClients | UsedMemory | UsedMemoryRss | MemFragmentationRatio =>
    case TotalCommandsProcessed | KeyspaceHits | KeyspaceMisses | EvictedKeys =>
    case ReplicationOffset | ConnectedSlaves =>
  }

  ghost predicate Applies(before: RedisInfo, line: Line, after: RedisInfo) {
    match line
    case Noise => after == before
    case Db(e) => after == before.(keyspace := before.keyspace + [e])
    case Scalar(key, text) => Updates(before, key, text, after)
  }

  /** The dispatch on the key of a scalar line. */
  method SetScalar(info: RedisInfo, key: string, value: string) returns (result: RedisInfo)
    ensures Updates(info, key, value, result)
  {
    result := info;
    match key {
      case "connected_clients" => result := info.(connectedClients := I64OrZero(value));
      case "blocked_clients" => result := info.(blockedClients := I64OrZero(value));
      case "used_memory" => result := info.(usedMemory := I64OrZero(value));
      case "used_memory_rss" => result := info.(usedMemoryRss := I64OrZero(value));
      case "mem_fragmentation_ratio" => result := info.(memFragmentationRatio := value);
      case "total_commands_processed" => result := info.(totalCommandsProcessed := I64OrZero(value));
      case "keyspace_hits" => result := info.(keyspaceHits := I64OrZero(value));
      case "keyspace_misses" => result := info.(keyspaceMisses := I64OrZero(value));
      case "evicted_keys" => result := info.(evictedKeys := I64OrZero(value));
      case "master_repl_offset" => result := info.(replicationOffset := I64OrZero(value));
      case "connected_slaves" => result := info.(connectedSlaves := I64OrZero(value));
      case _ =>
    }
  }

  /** The keyspace branch: `None` when the line is to fall through to the scalar branch. */
  method ParseDbLine(line: string) returns (entry: Option<DbEntry>)
    ensures entry == DbLine(line)
  {
    if !HasPrefix(line, "db") {
      return None;
    }
    var rest := line[2..];
    var colon := Find(rest, ':');
    if colon == |rest| {
      return None;
    }
    var fields := Split(rest[colon + 1..], ',');
    match ParseU32(rest[..colon]) {
      case None =>
        return None;
      case Some(index) =>
        var keys: i64, expires: i64 := 0, 0;
        for k := 0 to |fields|
          invariant keys == Counted(fields[..k], "keys=")
          invariant expires == Counted(fields[..k], "expires=")
        {
          assert fields[..k + 1][..k] == fields[..k];
          var field := fields[k];
          assert HasPrefix(field, "keys=") ==> field[0] == 'k';
          assert HasPrefix(field, "expires=") ==> field[0] == 'e';
          if HasPrefix(field, "keys=") {
            keys := I64OrZero(field[5..]);
          } else if HasPrefix(field, "expires=") {
            expires := I64OrZero(field[8..]);
          }
        }
        assert fields[..|fields|] == fields;
        return Some(DbEntry(index, keys, expires));
    }
  }

  /** The body of the line loop. */
  method ReadLine(info: RedisInfo, raw: string) returns (result: RedisInfo)
    ensures Applies(info, Classify(raw), result)
  {
    var line := Trim(raw);
    CommentPrefix(line);
    if HasPrefix(line, "#") || line == "" {
      return info;
    }
    var entry := ParseDbLine(line);
    assert Classify(raw) == if entry.Some? then Db(entry.value) else ScalarLine(line);
    if entry.Some? {
      return info.(keyspace := info.keyspace + [entry.value]);
    }
    var colon := Find(line, ':');
    if colon == |line| {
      return info;
    }
    result := SetScalar(info, line[..colon], Trim(line[colon + 1..]));
  }

  /** The line loop. */
  method ParseInfo(raw: string) returns (info: RedisInfo)
    ensures info == Parsed(raw)
  {
    info := DEFAULT_INFO;
    var lines := Lines(raw);
    ghost var kinds := ClassifyAll(lines);
    NoLines(kinds);
    for n := 0 to |lines|
      invariant info == Project(PatchOf(kinds[..n]))
    {
      ghost var before := info;
      info := ReadLine(info, lines[n]);
      ClassifyAllAt(lines, n);
      LineStep(kinds, n, before, info);
    }
    assert kinds[..|lines|] == kinds;
  }

  lemma CommentPrefix(line: string)
    ensures HasPrefix(line, "#") <==> line != "" && line[0] == '#'
  {
    assert line != "" ==> line[..1] == [line[0]];
  }

  lemma KeyNamesDiffer()
    ensures forall f, g :: KeyName(f) == KeyName(g) ==> f == g
  {
  }

  lemma SameInfo(a: RedisInfo, b: RedisInfo)
    requires a.keyspace == b.keyspace
    requires forall f :: Get(a, f) == Get(b, f)
    ensures a == b
  {
    assert Get(a, ConnectedClients) == Get(b, ConnectedClients);
    assert Get(a, BlockedClients) == Get(b, BlockedClients);
    assert Get(a, UsedMemory) == Get(b, UsedMemory);
    assert Get(a, UsedMemoryRss) == Get(b, UsedMemoryRss);
    assert Get(a, MemFragmentationRatio) == Get(b, MemFragmentationRatio);
    assert Get(a, TotalCommandsProcessed) == Get(b, TotalCommandsProcessed);
    assert Get(a, KeyspaceHits) == Get(b, KeyspaceHits);
    assert Get(a, KeyspaceMisses) == Get(b, KeyspaceMisses);
    assert Get(a, EvictedKeys) == Get(b, EvictedKeys);
    assert Get(a, ReplicationOffset) == Get(b, ReplicationOffset);
    assert Get(a, ConnectedSlaves) == Get(b, ConnectedSlaves);
  }

  lemma ProjectionExists(p: Patch)
    ensures exists info :: IsProjection(info, p)
  {
    var info := RedisInfo(
      I64OrZero(TextOf(p, KeyName(ConnectedClients))),
      I64OrZero(TextOf(p, KeyName(BlockedClients))),
      I64OrZero(TextOf(p, KeyName(UsedMemory))),
      I64OrZero(TextOf(p, KeyName(UsedMemoryRss))),
      TextOf(p, KeyName(MemFragmentationRatio)),
      I64OrZero(TextOf(p, KeyName(TotalCommandsProcessed))),
      I64OrZero(TextOf(p, KeyName(KeyspaceHits))),
      I64OrZero(TextOf(p, KeyName(KeyspaceMisses))),
      I64OrZero(TextOf(p, KeyName(EvictedKeys))),
      I64OrZero(TextOf(p, KeyName(ReplicationOffset))),
      I64OrZero(TextOf(p, KeyName(ConnectedSlaves))),
      p.keyspace);
    forall f: Field ensures Get(info, f) == Decode(f, TextOf(p, KeyName(f))) {
      match f
      case ConnectedClients | BlockedClients | UsedMemory | UsedMemoryRss | MemFragmentationRatio =>
      case TotalCommandsProcessed | KeyspaceHits | KeyspaceMisses | EvictedKeys =>
      case ReplicationOffset | ConnectedSlaves =>
    }
    assert IsProjection(info, p);
  }

  lemma ProjectionUnique(info: RedisInfo, p: Patch)
    requires IsProjection(info, p)
    ensures info == Project(p)
  {
    SameInfo(info, Project(p));
  }

  lemma NoLines(lines: seq<Line>)
    ensures Project(PatchOf(lines[..0])) == DEFAULT_INFO
  {
    assert IsProjection(DEFAULT_INFO, NO_PATCH);
    ProjectionUnique(DEFAULT_INFO, NO_PATCH);
  }

  lemma LineStep(lines: seq<Line>, n: nat, before: RedisInfo, after: RedisInfo)
    requires n < |lines|
    requires before == Project(PatchOf(lines[..n]))
    requires Applies(before, lines[n], after)
    ensures after == Project(PatchOf(lines[..n + 1]))
  {
    assert lines[..n + 1][..n] == lines[..n];
    AppliedProjection(PatchOf(lines[..n]), lines[n], before, after);
    ProjectionUnique(after, PatchOf(lines[..n + 1]));
  }

  lemma AppliedProjection(p: Patch, line: Line, before: RedisInfo, after: RedisInfo)
    requires IsProjection(before, p)
    requires Applies(before, line, after)
    ensures IsProjection(after, Then(p, LinePatch(line)))
  {
    var q := Then(p, LinePatch(line));
    forall f: Field ensures Get(after, f) == Decode(f, TextOf(q, KeyName(f))) {
      assert Get(before, f) == Decode(f, TextOf(p, KeyName(f)));
      if line.Scalar? {
        UpdatesField(before, line.key, line.text, after, f);
      }
    }
  }
}
