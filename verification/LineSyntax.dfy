/** The syntax of one INFO line: exactly which lines set a field, which add a keyspace entry,
    which say nothing, and what the comma fields of a keyspace line mean. */
module LineSyntax {
  import opened Wrappers
  import opened Text
  import opened Numbers
  import opened InfoParser

  // ---------- scalar lines ----------

  ghost predicate SnakeCase(s: string) {
    forall i :: 0 <= i < |s| ==> 'a' <= s[i] <= 'z' || s[i] == '_'
  }

  lemma KeyNameSnake(f: Field)
    ensures SnakeCase(KeyName(f)) && |KeyName(f)| > 2
  {
    if f in {ConnectedClients, BlockedClients, UsedMemory, UsedMemoryRss, MemFragmentationRatio} {
      ClientAndMemoryNames(f);
    } else if f in {TotalCommandsProcessed, KeyspaceHits, KeyspaceMisses} {
      LookupNames(f);
    } else {
      OtherNames(f);
    }
  }

  lemma ClientAndMemoryNames(f: Field)
    requires f in {ConnectedClients, BlockedClients, UsedMemory, UsedMemoryRss, MemFragmentationRatio}
    ensures SnakeCase(KeyName(f)) && |KeyName(f)| > 2
  {
  }

  lemma LookupNames(f: Field)
    requires f in {TotalCommandsProcessed, KeyspaceHits, KeyspaceMisses}
    ensures SnakeCase(KeyName(f)) && |KeyName(f)| > 2
  {
  }

  lemma OtherNames(f: Field)
    requires f in {EvictedKeys, ReplicationOffset, ConnectedSlaves}
    ensures SnakeCase(KeyName(f)) && |KeyName(f)| > 2
  {
  }

  lemma KeyNameShape(f: Field)
    ensures SnakeCase(KeyName(f)) && |KeyName(f)| > 2 && KeyName(f)[0] != 'd'
    ensures ':' !in KeyName(f) && '\n' !in KeyName(f)
  {
    KeyNameSnake(f);
    assert KeyName(f)[0] != 'd';
  }

  /** What makes a text a possible key of a scalar line; every known key is one. */
  predicate ProperKey(key: string) {
    key != "" && !IsWhitespace(key[0]) && key[0] != 'd' && key[0] != '#' && ':' !in key && '\n' !in key
  }

  lemma KnownKeyIsProper(f: Field)
    ensures ProperKey(KeyName(f))
  {
    KeyNameShape(f);
  }

  /** Trimmed, the line is `key`, a colon and a value. */
  predicate Sets(raw: string, key: string) {
    HasPrefix(Trim(raw), key + ":")
  }

  function ValueOf(raw: string, key: string): string
    requires Sets(raw, key)
  {
    Trim(Trim(raw)[|key| + 1..])
  }

  lemma KeyedLine(line: string, key: string)
    requires HasPrefix(line, key + ":")
    requires ProperKey(key)
    ensures line != "" && line[0] == key[0] && DbLine(line) == None
    ensures Find(line, ':') == |key| < |line| && line[..|key|] == key
  {
    PrefixParts(line, key, ':');
    FindUnique(line, ':', |key|);
    NotDb(line);
  }

  lemma PrefixParts(line: string, key: string, c: char)
    requires HasPrefix(line, key + [c])
    ensures |key| < |line| && line[|key|] == c && line[..|key|] == key
    ensures key != "" ==> line[0] == key[0]
  {
    var p := line[..|key| + 1];
    assert p[..|key|] == key && p[|key|] == c;
    assert line[..|key|] == p[..|key|];
  }

  lemma NotDb(line: string)
    requires line != "" && line[0] != 'd'
    ensures DbLine(line) == None
  {
    assert |line| >= 2 ==> line[..2][0] == line[0];
  }

  /** Such a line sets the key: the earlier test for keyspace lines never takes it away. */
  lemma {:induction false} SettingLine(raw: string, key: string)
    requires ProperKey(key) && Sets(raw, key)
    ensures Classify(raw) == Scalar(key, ValueOf(raw, key))
  {
    KeyedLine(Trim(raw), key);
  }

  /** No other line sets the key, and none sets it to another text. */
  lemma OnlySettingLines(raw: string, key: string, text: string)
    requires Classify(raw) == Scalar(key, text)
    ensures Sets(raw, key) && text == ValueOf(raw, key)
  {
    var line := Trim(raw);
    var colon := Find(line, ':');
    assert line[..colon + 1] == line[..colon] + ":";
  }

  // ---------- keyspace lines ----------

  /** Trimmed, the line is `db`, a numeral that fits `u32`, a colon and comma fields. */
  ghost predicate DbText(raw: string, index: string, fields: string) {
    Trim(raw) == "db" + index + ":" + fields && ':' !in index && ParseU32(index).Some?
  }

  function DbMeaning(index: string, fields: string): DbEntry
    requires ParseU32(index).Some?
  {
    DbEntry(ParseU32(index).value,
            Counted(Split(fields, ','), "keys="),
            Counted(Split(fields, ','), "expires="))
  }

  lemma DbTextIsDb(raw: string, index: string, fields: string)
    requires DbText(raw, index, fields)
    ensures Classify(raw) == Db(DbMeaning(index, fields))
  {
    var line := Trim(raw);
    assert line[..2] == "db" && line[0] == 'd';
    var rest := line[2..];
    assert rest == index + ":" + fields;
    assert rest[..|index|] == index;
    FindUnique(rest, ':', |index|);
    assert rest[|index| + 1..] == fields;
  }

  lemma DbIsDbText(raw: string, e: DbEntry) returns (index: string, fields: string)
    requires Classify(raw) == Db(e)
    ensures DbText(raw, index, fields) && e == DbMeaning(index, fields)
  {
    var line := Trim(raw);
    var rest := line[2..];
    var colon := Find(rest, ':');
    index, fields := rest[..colon], rest[colon + 1..];
    RestParts(line, index, fields);
  }

  lemma RestParts(line: string, index: string, fields: string)
    requires HasPrefix(line, "db") && |index| < |line| - 2 && line[2..][|index|] == ':'
    requires index == line[2..][..|index|] && fields == line[2..][|index| + 1..]
    ensures line == "db" + index + ":" + fields
  {
    assert line == line[..2] + line[2..];
  }

  /** A `db` line whose index does not parse falls through, but then it sets no known field. */
  lemma FallThroughSetsNothing(raw: string)
    requires HasPrefix(Trim(raw), "db") && DbLine(Trim(raw)) == None
    ensures SaysNothing(raw)
  {
    var line := Trim(raw);
    assert line[0] == line[..2][0] == 'd';
    if Classify(raw).Scalar? {
      OnlySettingLines(raw, Classify(raw).key, Classify(raw).text);
      if KnownKey(Classify(raw).key) {
        var f :| Classify(raw).key == KeyName(f);
        KnownKeyIsProper(f);
        PrefixParts(line, KeyName(f), ':');
        assert false;
      }
    }
    NoiseSyntax(raw);
  }

  // ---------- noise ----------

  ghost predicate KnownKey(key: string) {
    exists f :: key == KeyName(f)
  }

  /** The line adds no keyspace entry and sets no known field. */
  ghost predicate Silent(line: Line) {
    line.Noise? || (line.Scalar? && !KnownKey(line.key))
  }

  /** Blank, a comment, without a colon, or with a key that is no known field and is not `db`
      with an index that parses. */
  ghost predicate SaysNothing(raw: string) {
    var line := Trim(raw);
    || line == "" || line[0] == '#' || ':' !in line
    || (!KnownKey(line[..Find(line, ':')]) && DbLine(line) == None)
  }

  lemma NoiseSyntax(raw: string)
    ensures Silent(Classify(raw)) <==> SaysNothing(raw)
  {
    var line := Trim(raw);
    if ':' !in line {
      FindUnique(line, ':', |line|);
      if HasPrefix(line, "db") {
        FindUnique(line[2..], ':', |line| - 2);
      }
    }
  }

  // ---------- comma fields ----------

  function WithPrefix(fields: seq<string>, p: string): seq<string> {
    if fields == [] then []
    else
      var last := fields[|fields| - 1];
      WithPrefix(fields[..|fields| - 1], p) + if HasPrefix(last, p) then [last] else []
  }

  lemma {:induction false} LastOfPrefix(fields: seq<string>, p: string)
    ensures var own := WithPrefix(fields, p);
            LastSuffix(fields, p) == if own == [] then None
                                     else if HasPrefix(own[|own| - 1], p) then Some(own[|own| - 1][|p|..])
                                     else None
  {
    if fields != [] {
      LastOfPrefix(fields[..|fields| - 1], p);
    }
  }

  /** Only the `keys=` fields and the `expires=` fields matter, each in their own order: other
      fields may be inserted and fields of different names swapped. With a repeated name the
      last one counts, also when it does not parse and so gives 0. */
  lemma FieldsReadAlike(xs: seq<string>, ys: seq<string>)
    requires WithPrefix(xs, "keys=") == WithPrefix(ys, "keys=")
    requires WithPrefix(xs, "expires=") == WithPrefix(ys, "expires=")
    ensures Counted(xs, "keys=") == Counted(ys, "keys=")
    ensures Counted(xs, "expires=") == Counted(ys, "expires=")
  {
    LastOfPrefix(xs, "keys=");
    LastOfPrefix(ys, "keys=");
    LastOfPrefix(xs, "expires=");
    LastOfPrefix(ys, "expires=");
  }

  lemma {:induction false} WithPrefixConcat(xs: seq<string>, ys: seq<string>, p: string)
    ensures WithPrefix(xs + ys, p) == WithPrefix(xs, p) + WithPrefix(ys, p)
  {
    if ys == [] {
      assert xs + ys == xs;
    } else {
      assert (xs + ys)[..|xs + ys| - 1] == xs + ys[..|ys| - 1];
      WithPrefixConcat(xs, ys[..|ys| - 1], p);
    }
  }

  ghost predicate CommaFree(fields: seq<string>) {
    forall i :: 0 <= i < |fields| ==> ',' !in fields[i]
  }

  /** On the line itself: swapping two neighbouring fields that do not both start with `keys=`
      and do not both start with `expires=` leaves the entry unchanged. */
  lemma SwapFields(index: string, pre: seq<string>, x: string, y: string, post: seq<string>)
    requires ParseU32(index).Some?
    requires CommaFree(pre) && CommaFree(post) && ',' !in x && ',' !in y
    requires !(HasPrefix(x, "keys=") && HasPrefix(y, "keys="))
    requires !(HasPrefix(x, "expires=") && HasPrefix(y, "expires="))
    ensures DbMeaning(index, Join(pre + [x, y] + post, ",")) == DbMeaning(index, Join(pre + [y, x] + post, ","))
  {
    var xs, ys := pre + [x, y] + post, pre + [y, x] + post;
    PairPrefix(pre, x, y, post, "keys=");
    PairPrefix(pre, x, y, post, "expires=");
    assert CommaFree(xs) && CommaFree(ys);
    SameMeaning(index, xs, ys);
  }

  lemma SameMeaning(index: string, xs: seq<string>, ys: seq<string>)
    requires ParseU32(index).Some?
    requires xs != [] && CommaFree(xs)
    requires ys != [] && CommaFree(ys)
    requires WithPrefix(xs, "keys=") == WithPrefix(ys, "keys=")
    requires WithPrefix(xs, "expires=") == WithPrefix(ys, "expires=")
    ensures DbMeaning(index, Join(xs, ",")) == DbMeaning(index, Join(ys, ","))
  {
    SplitOfJoin(xs, ',');
    SplitOfJoin(ys, ',');
    FieldsReadAlike(xs, ys);
  }

  lemma NoneWithPrefix(fields: seq<string>, p: string)
    requires forall i :: 0 <= i < |fields| ==> !HasPrefix(fields[i], p)
    ensures WithPrefix(fields, p) == []
  {
  }

  /** The last field with the name counts, whatever it says: a value that does not parse makes it 0, also
      when an earlier field of that name did parse. */
  lemma LastFieldCounts(pre: seq<string>, p: string, value: string, post: seq<string>)
    requires forall i :: 0 <= i < |post| ==> !HasPrefix(post[i], p)
    ensures Counted(pre + [p + value] + post, p) == I64OrZero(value)
  {
    var field := p + value;
    assert field[..|p|] == p && field[|p|..] == value;
    NoneWithPrefix(post, p);
    WithPrefixConcat(pre + [field], post, p);
    WithPrefixConcat(pre, [field], p);
    assert [field][..0] == [];
    LastOfPrefix(pre + [field] + post, p);
  }

  /** A line as the server writes it: the first two fields are the counts, whatever follows them. */
  lemma {:induction false} ServerDbLine(raw: string, index: u32, keys: string, expires: string, more: seq<string>)
    requires ',' !in keys && ',' !in expires && CommaFree(more)
    requires forall i :: 0 <= i < |more| ==> !HasPrefix(more[i], "keys=") && !HasPrefix(more[i], "expires=")
    requires Trim(raw) == "db" + NatText(index) + ":" + Join(["keys=" + keys, "expires=" + expires] + more, ",")
    ensures Classify(raw) == Db(DbEntry(index, I64OrZero(keys), I64OrZero(expires)))
  {
    var fields := ["keys=" + keys, "expires=" + expires] + more;
    U32RoundTrip(index, "");
    ServerCounts(keys, expires, more);
    CountsOfJoined(fields, "keys=");
    CountsOfJoined(fields, "expires=");
    DbTextIsDb(raw, NatText(index), Join(fields, ","));
  }

  lemma CountsOfJoined(fields: seq<string>, p: string)
    requires fields != [] && CommaFree(fields)
    ensures Counted(Split(Join(fields, ","), ','), p) == Counted(fields, p)
  {
    SplitOfJoin(fields, ',');
  }

  lemma ServerCounts(keys: string, expires: string, more: seq<string>)
    requires forall i :: 0 <= i < |more| ==> !HasPrefix(more[i], "keys=") && !HasPrefix(more[i], "expires=")
    ensures var fields := ["keys=" + keys, "expires=" + expires] + more;
            Counted(fields, "keys=") == I64OrZero(keys) && Counted(fields, "expires=") == I64OrZero(expires)
  {
    var k, x := "keys=" + keys, "expires=" + expires;
    assert x[0] == 'e';
    assert [k, x] + more == [] + [k] + ([x] + more);
    LastFieldCounts([], "keys=", keys, [x] + more);
    assert [k, x] + more == [k] + [x] + more;
    LastFieldCounts([k], "expires=", expires, more);
  }

  /** A name that no field starts with counts as 0. */
  lemma MissingFieldIsZero(fields: seq<string>, p: string)
    requires forall i :: 0 <= i < |fields| ==> !HasPrefix(fields[i], p)
    ensures Counted(fields, p) == 0
  {
    NoneWithPrefix(fields, p);
    LastOfPrefix(fields, p);
    ParseI64Exact("", 0);
  }

  /** On the line itself: a field that starts with neither name may be put in anywhere, also
      as the only one. */
  lemma InsertField(index: string, pre: seq<string>, other: string, post: seq<string>)
    requires ParseU32(index).Some?
    requires CommaFree(pre) && CommaFree(post) && ',' !in other
    requires !HasPrefix(other, "keys=") && !HasPrefix(other, "expires=")
    ensures DbMeaning(index, Join(pre + [other] + post, ",")) == DbMeaning(index, Join(pre + post, ","))
  {
    // No field at all reads as one empty field.
    var rest := if pre + post == [] then [""] else pre + post;
    InsertedPrefix(pre, other, post, "keys=");
    InsertedPrefix(pre, other, post, "expires=");
    NoneWithPrefix([""], "keys=");
    NoneWithPrefix([""], "expires=");
    assert WithPrefix([], "keys=") == [] && WithPrefix([], "expires=") == [];
    assert CommaFree(pre + [other] + post) && CommaFree(rest);
    SameMeaning(index, pre + [other] + post, rest);
  }

  lemma InsertedPrefix(pre: seq<string>, other: string, post: seq<string>, p: string)
    requires !HasPrefix(other, p)
    ensures WithPrefix(pre + [other] + post, p) == WithPrefix(pre + post, p)
  {
    WithPrefixConcat(pre + [other], post, p);
    WithPrefixConcat(pre, [other], p);
    WithPrefixConcat(pre, post, p);
    NoneWithPrefix([other], p);
  }

  /** `db7`, `db007` and `db+7` name the same database. */
  lemma IndexSpellings(n: u32, zeros: string, fields: string)
    requires forall i :: 0 <= i < |zeros| ==> zeros[i] == '0'
    ensures ParseU32(NatText(n)).Some? && ParseU32(zeros + NatText(n)).Some? && ParseU32("+" + zeros + NatText(n)).Some?
    ensures DbMeaning(zeros + NatText(n), fields) == DbMeaning(NatText(n), fields)
    ensures DbMeaning("+" + zeros + NatText(n), fields) == DbMeaning(NatText(n), fields)
  {
    U32RoundTrip(n, zeros);
  }

  lemma PairPrefix(pre: seq<string>, x: string, y: string, post: seq<string>, p: string)
    requires !(HasPrefix(x, p) && HasPrefix(y, p))
    ensures WithPrefix(pre + [x, y] + post, p) == WithPrefix(pre + [y, x] + post, p)
  {
    WithPrefixConcat(pre + [x, y], post, p);
    WithPrefixConcat(pre + [y, x], post, p);
    WithPrefixConcat(pre, [x, y], p);
    WithPrefixConcat(pre, [y, x], p);
    assert [x, y][..1] == [x] && [y, x][..1] == [y];
    assert [x][..0] == [] && [y][..0] == [];
  }
}
