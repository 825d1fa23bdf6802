/** Character-level text operations with the meaning of the Rust `str` methods the
    parser calls: `trim`, `find`, `split`, `lines` and `strip_prefix`. */
module Text {

  // ---------- whitespace and trim ----------

  /** The Unicode White_Space property, which is what `str::trim` removes. */
  predicate IsWhitespace(c: char) {
    var n := c as int;
    9 <= n <= 13 || n == 0x20 || n == 0x85 || n == 0xA0 || n == 0x1680 || 0x2000 <= n <= 0x200A
    || n == 0x2028 || n == 0x2029 || n == 0x202F || n == 0x205F || n == 0x3000
  }

  /** The 25 characters of the property, and so no character of a key, of a numeral or between them. */
  lemma WhitespaceIs(c: char)
    ensures IsWhitespace(c) <==>
            c in "\t\n\U{0B}\U{0C}\r \U{85}\U{A0}\U{1680}\U{2000}\U{2001}\U{2002}\U{2003}\U{2004}\U{2005}" +
                 "\U{2006}\U{2007}\U{2008}\U{2009}\U{200A}\U{2028}\U{2029}\U{202F}\U{205F}\U{3000}"
    ensures '0' <= c <= '9' || 'a' <= c <= 'z' || c in "_:,=+-.#" ==> !IsWhitespace(c)
  {
    var n := c as int;
    if 0x2000 <= n <= 0x200A {
      assert n in {0x2000, 0x2001, 0x2002, 0x2003, 0x2004, 0x2005, 0x2006, 0x2007, 0x2008, 0x2009, 0x200A};
    } else if n < 0x20 {
      assert IsWhitespace(c) ==> n in {9, 10, 11, 12, 13};
    }
  }

  ghost predicate Blank(s: string) {
    forall i :: 0 <= i < |s| ==> IsWhitespace(s[i])
  }

  ghost predicate Trimmed(s: string) {
    s == "" || (!IsWhitespace(s[0]) && !IsWhitespace(s[|s| - 1]))
  }

  function TrimStart(s: string): string {
    if s != "" && IsWhitespace(s[0]) then TrimStart(s[1..]) else s
  }

  function TrimEnd(s: string): string {
    if s != "" && IsWhitespace(s[|s| - 1]) then TrimEnd(s[..|s| - 1]) else s
  }

  function Trim(s: string): string {
    TrimEnd(TrimStart(s))
  }

  lemma {:induction false} TrimStartOf(pre: string, s: string)
    requires Blank(pre)
    requires s == "" || !IsWhitespace(s[0])
    ensures TrimStart(pre + s) == s
  {
    if pre == "" {
      assert pre + s == s;
    } else {
      assert (pre + s)[1..] == pre[1..] + s;
      TrimStartOf(pre[1..], s);
    }
  }

  lemma {:induction false} TrimEndOf(s: string, post: string)
    requires Blank(post)
    requires s == "" || !IsWhitespace(s[|s| - 1])
    ensures TrimEnd(s + post) == s
  {
    if post == "" {
      assert s + post == s;
    } else {
      var t := s + post;
      assert t[..|t| - 1] == s + post[..|post| - 1];
      TrimEndOf(s, post[..|post| - 1]);
    }
  }

  /** `Trim` is determined by this: it inverts padding a trimmed text with whitespace. */
  lemma TrimOf(pre: string, s: string, post: string)
    requires Blank(pre) && Blank(post) && Trimmed(s)
    ensures Trim(pre + s + post) == s
  {
    if s == "" {
      assert pre + s + post == (pre + post) + "";
      TrimStartOf(pre + post, "");
    } else {
      assert pre + s + post == pre + (s + post);
      TrimStartOf(pre, s + post);
      TrimEndOf(s, post);
    }
  }

  lemma {:induction false} TrimStartSplits(s: string) returns (pre: string)
    ensures Blank(pre) && s == pre + TrimStart(s)
    ensures TrimStart(s) == "" || !IsWhitespace(TrimStart(s)[0])
  {
    if s != "" && IsWhitespace(s[0]) {
      var p := TrimStartSplits(s[1..]);
      pre := [s[0]] + p;
    } else {
      pre := "";
    }
  }

  lemma {:induction false} TrimEndSplits(s: string) returns (post: string)
    ensures Blank(post) && s == TrimEnd(s) + post
    ensures TrimEnd(s) == "" || !IsWhitespace(TrimEnd(s)[|TrimEnd(s)| - 1])
  {
    if s != "" && IsWhitespace(s[|s| - 1]) {
      var p := TrimEndSplits(s[..|s| - 1]);
      post := p + [s[|s| - 1]];
      assert s == s[..|s| - 1] + [s[|s| - 1]];
    } else {
      post := "";
    }
  }

  /** Every text is its trimmed core between two blank margins. */
  lemma TrimSplits(s: string) returns (pre: string, post: string)
    ensures Blank(pre) && Blank(post) && Trimmed(Trim(s))
    ensures s == pre + Trim(s) + post
  {
    pre := TrimStartSplits(s);
    var t := TrimStart(s);
    post := TrimEndSplits(t);
    assert TrimEnd(t) != "" ==> t[0] == TrimEnd(t)[0];
  }

  lemma TrimPadded(pre: string, s: string, post: string)
    requires Blank(pre) && Blank(post)
    ensures Trim(pre + s + post) == Trim(s)
  {
    var a, b := TrimSplits(s);
    assert pre + s + post == (pre + a) + Trim(s) + (b + post);
    TrimOf(pre + a, Trim(s), b + post);
  }

  // ---------- find, split, join ----------

  /** Index of the first `c` in `s`, or `|s|` when there is none. */
  function Find(s: string, c: char): (i: nat)
    ensures i <= |s|
    ensures c !in s[..i]
    ensures i < |s| ==> s[i] == c
  {
    if s == "" || s[0] == c then 0
    else
      var i := Find(s[1..], c);
      assert s[..i + 1] == [s[0]] + s[1..][..i];
      i + 1
  }

  lemma FindUnique(s: string, c: char, i: nat)
    requires i <= |s| && c !in s[..i]
    requires i < |s| ==> s[i] == c
    ensures Find(s, c) == i
  {
    var k := Find(s, c);
    assert forall j :: 0 <= j < i ==> s[..i][j] == s[j];
    assert forall j :: 0 <= j < k ==> s[..k][j] == s[j];
  }

  /** `str::split(sep)`: the pieces between separators; never an empty list. */
  function Split(s: string, sep: char): (r: seq<string>)
    ensures r != []
  {
    var i := Find(s, sep);
    if i == |s| then [s] else [s[..i]] + Split(s[i + 1..], sep)
  }

  function Join(parts: seq<string>, sep: string): string {
    if |parts| == 0 then ""
    else if |parts| == 1 then parts[0]
    else parts[0] + sep + Join(parts[1..], sep)
  }

  lemma SplitWhole(s: string, sep: char)
    requires sep !in s
    ensures Split(s, sep) == [s]
  {
    assert s[..|s|] == s;
    FindUnique(s, sep, |s|);
  }

  lemma SplitAt(s: string, sep: char, i: nat)
    requires i < |s| && s[i] == sep && sep !in s[..i]
    ensures Split(s, sep) == [s[..i]] + Split(s[i + 1..], sep)
  {
    FindUnique(s, sep, i);
  }

  lemma JoinedSlices(a: string, sep: char, b: string, i: nat)
    requires i <= |a|
    ensures (a + [sep] + b)[..i] == a[..i]
    ensures (a + [sep] + b)[i] == if i == |a| then sep else a[i]
    ensures (a + [sep] + b)[i + 1..] == if i == |a| then b else a[i + 1..] + [sep] + b
  {
  }

  lemma {:induction false} SplitConcat(a: string, sep: char, b: string)
    ensures Split(a + [sep] + b, sep) == Split(a, sep) + Split(b, sep)
  {
    var i := Find(a, sep);
    JoinedSlices(a, sep, b, i);
    SplitAt(a + [sep] + b, sep, i);
    if i == |a| {
      SplitWhole(a, sep);
      assert a[..i] == a;
    } else {
      SplitAt(a, sep, i);
      SplitConcat(a[i + 1..], sep, b);
      Associates([a[..i]], Split(a[i + 1..], sep), Split(b, sep));
    }
  }

  lemma Associates<T>(a: seq<T>, b: seq<T>, c: seq<T>)
    ensures a + (b + c) == a + b + c
  {
  }

  /** Splitting inverts joining when no piece contains the separator. */
  lemma {:induction false} SplitOfJoin(parts: seq<string>, sep: char)
    requires parts != []
    requires forall i :: 0 <= i < |parts| ==> sep !in parts[i]
    ensures Split(Join(parts, [sep]), sep) == parts
  {
    SplitWhole(parts[0], sep);
    if |parts| > 1 {
      SplitConcat(parts[0], sep, Join(parts[1..], [sep]));
      SplitOfJoin(parts[1..], sep);
    }
  }

  lemma JoinMore(first: string, rest: seq<string>, sep: string)
    requires rest != []
    ensures Join([first] + rest, sep) == first + sep + Join(rest, sep)
  {
    assert ([first] + rest)[1..] == rest;
  }

  /** Joining inverts splitting on every text, so `Split` loses nothing. */
  lemma {:induction false} JoinOfSplit(s: string, sep: char)
    ensures Join(Split(s, sep), [sep]) == s
    ensures forall i :: 0 <= i < |Split(s, sep)| ==> sep !in Split(s, sep)[i]
    decreases |s|
  {
    var i := Find(s, sep);
    if i == |s| {
      assert s[..i] == s;
    } else {
      var first, rest := s[..i], s[i + 1..];
      JoinOfSplit(rest, sep);
      JoinMore(first, Split(rest, sep), [sep]);
      assert s == first + [sep] + rest;
    }
  }

  // ---------- lines ----------

  function StripCarriageReturn(s: string): string {
    if s != "" && s[|s| - 1] == '\r' then s[..|s| - 1] else s
  }

  /** `str::lines`: split after each line feed, drop the feed and one carriage return
      before it; a last piece without a feed keeps its carriage return, and an
      empty last piece is not a line. */
  function Lines(s: string): seq<string> {
    if s == "" then []
    else
      var i := Find(s, '\n');
      if i == |s| then [s] else [StripCarriageReturn(s[..i])] + Lines(s[i + 1..])
  }

  /** The lines, each followed by `end`. */
  function Terminate(lines: seq<string>, end: string): string {
    if lines == [] then "" else lines[0] + end + Terminate(lines[1..], end)
  }

  lemma {:induction false} LinesOfFed(lines: seq<string>)
    requires LineFeedFree(lines)
    requires forall i :: 0 <= i < |lines| ==> StripCarriageReturn(lines[i]) == lines[i]
    ensures Lines(Terminate(lines, "\n")) == lines
  {
    if lines != [] {
      LinesOfFed(lines[1..]);
      FirstLine(lines[0], Terminate(lines[1..], "\n"));
    }
  }

  lemma {:induction false} LinesOfReturned(lines: seq<string>)
    requires LineFeedFree(lines)
    ensures Lines(Terminate(lines, "\r\n")) == lines
  {
    if lines != [] {
      LinesOfReturned(lines[1..]);
      FirstLine(lines[0] + "\r", Terminate(lines[1..], "\r\n"));
      assert lines[0] + "\r\n" == lines[0] + "\r" + "\n";
      assert (lines[0] + "\r")[..|lines[0]|] == lines[0];
    }
  }

  /** `lines` gives back what was written with either line end after each line. */
  lemma LinesOfTerminated(lines: seq<string>)
    requires LineFeedFree(lines)
    requires forall i :: 0 <= i < |lines| ==> StripCarriageReturn(lines[i]) == lines[i]
    ensures Lines(Terminate(lines, "\n")) == lines
    ensures Lines(Terminate(lines, "\r\n")) == lines
  {
    LinesOfFed(lines);
    LinesOfReturned(lines);
  }

  lemma OneLine(line: string)
    requires '\n' !in line && line != ""
    ensures Lines(line) == [line]
  {
    assert line[..|line|] == line;
    FindUnique(line, '\n', |line|);
  }

  /** A last line without a line end is read as it stands, its carriage return included. */
  lemma {:induction false} LinesUnterminated(lines: seq<string>, last: string)
    requires LineFeedFree(lines) && '\n' !in last && last != ""
    requires forall i :: 0 <= i < |lines| ==> StripCarriageReturn(lines[i]) == lines[i]
    ensures Lines(Terminate(lines, "\n") + last) == lines + [last]
  {
    if lines == [] {
      assert Terminate(lines, "\n") + last == last;
      OneLine(last);
    } else {
      var first, rest := lines[0], lines[1..];
      LinesUnterminated(rest, last);
      FirstLine(first, Terminate(rest, "\n") + last);
      assert Terminate(lines, "\n") + last == first + "\n" + (Terminate(rest, "\n") + last);
      assert lines == [first] + rest;
      assert [first] + (rest + [last]) == lines + [last];
    }
  }

  lemma FirstLine(line: string, rest: string)
    requires '\n' !in line
    ensures Lines(line + "\n" + rest) == [StripCarriageReturn(line)] + Lines(rest)
  {
    var s := line + "\n" + rest;
    assert s[..|line|] == line;
    FindUnique(s, '\n', |line|);
    assert s[|line| + 1..] == rest;
  }

  lemma TrimIgnoresCarriageReturn(s: string)
    ensures Trim(StripCarriageReturn(s)) == Trim(s)
  {
    var t := StripCarriageReturn(s);
    if t != s {
      assert s == "" + t + "\r";
      TrimPadded("", t, "\r");
    }
  }

  /** Every LF becomes CR LF. */
  function ToCrlf(s: string): string {
    if s == "" then ""
    else if s[0] == '\n' then "\r\n" + ToCrlf(s[1..])
    else [s[0]] + ToCrlf(s[1..])
  }

  ghost predicate LineFeedFree(pieces: seq<string>) {
    forall i :: 0 <= i < |pieces| ==> '\n' !in pieces[i]
  }

  lemma {:induction false} LinesFeedFree(s: string)
    ensures LineFeedFree(Lines(s))
  {
    var i := Find(s, '\n');
    if s == "" {
    } else if i == |s| {
      assert s[..i] == s;
    } else {
      LinesFeedFree(s[i + 1..]);
      assert forall c :: c in StripCarriageReturn(s[..i]) ==> c in s[..i];
    }
  }

  // ---------- prefixes ----------

  predicate HasPrefix(s: string, p: string) {
    |p| <= |s| && s[..|p|] == p
  }
}
