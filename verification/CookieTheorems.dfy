/** What the cookie jar promises: a round trip, idempotent aligning, and ingesting as a map update. */
module CookieTheorems {
  import opened Text
  import opened OrderedMap
  import opened CookieJar

  // Lines.

  lemma BreakAfter(a: string, b: string)
    requires OneLine(a)
    ensures BreakIndex(a + "\n" + b) == |a|
  {
    var s := a + "\n" + b;
    assert s[|a|] == '\n';
    assert forall k :: 0 <= k < |a| ==> s[k] == a[k];
    assert forall k :: 0 <= k < BreakIndex(s) ==> s[k] in s[..BreakIndex(s)];
  }

  lemma SplitOneLine(a: string, b: string)
    requires OneLine(a)
    ensures SplitLines(a + "\n" + b) == [a] + SplitLines(b)
  {
    BreakAfter(a, b);
    var s := a + "\n" + b;
    assert s[..|a|] == a && s[|a| + 1..] == b;
  }

  /** Splitting undoes joining with line feeds and a final one. */
  lemma {:induction false} SplitJoinLines(lines: seq<string>)
    requires lines != [] && forall l :: l in lines ==> OneLine(l)
    ensures SplitLines(Join(lines, "\n") + "\n") == lines
  {
    if |lines| == 1 {
      SplitOneLine(lines[0], "");
      assert lines[0] + "\n" + "" == lines[0] + "\n";
    } else {
      SplitJoinLines(lines[1..]);
      var rest := Join(lines[1..], "\n") + "\n";
      SplitOneLine(lines[0], rest);
      assert Join(lines, "\n") + "\n" == lines[0] + "\n" + rest;
      assert lines == [lines[0]] + lines[1..];
    }
  }

  /** Text that ends a line splits independently of what follows. */
  lemma {:induction false} SplitLinesConcat(a: string, b: string)
    requires a == "" || a[|a| - 1] == '\n'
    ensures SplitLines(a + b) == SplitLines(a) + SplitLines(b)
    decreases |a|
  {
    hide IsBreak, SplitLines, BreakIndex;
    if a == "" {
      assert a + b == b;
      NoLines();
    } else {
      var i := BreakIndex(a);
      EndsLine(a);
      BreakPrefix(a, b);
      var n := NextLine(a);
      assert (a + b)[i] == a[i] && (i + 1 < |a| ==> (a + b)[i + 1] == a[i + 1]);
      assert NextLine(a + b) == n;
      FirstLine(a);
      FirstLine(a + b);
      assert (a + b)[..i] == a[..i] && (a + b)[n..] == a[n..] + b;
      SplitLinesConcat(a[n..], b);
    }
  }

  lemma NoLines()
    ensures SplitLines("") == []
  {
  }

  /** Where the second line starts. */
  function NextLine(s: string): (n: nat)
    requires BreakIndex(s) < |s|
    ensures BreakIndex(s) < n <= |s|
  {
    var i := BreakIndex(s);
    if s[i] == '\r' && i + 1 < |s| && s[i + 1] == '\n' then i + 2 else i + 1
  }

  lemma FirstLine(s: string)
    requires BreakIndex(s) < |s|
    ensures SplitLines(s) == [s[..BreakIndex(s)]] + SplitLines(s[NextLine(s)..])
  {
  }

  lemma EndsLine(a: string)
    requires a != "" && a[|a| - 1] == '\n'
    ensures BreakIndex(a) < |a| && (a[BreakIndex(a)] == '\r' ==> BreakIndex(a) + 1 < |a|)
  {
    assert forall k :: 0 <= k < BreakIndex(a) ==> a[k] in a[..BreakIndex(a)];
  }

  lemma {:induction false} BreakPrefix(a: string, b: string)
    requires BreakIndex(a) < |a|
    ensures BreakIndex(a + b) == BreakIndex(a)
  {
    hide IsBreak;
    if !IsBreak(a[0]) {
      BreakPrefix(a[1..], b);
      assert (a + b)[1..] == a[1..] + b;
    }
  }

  // Fields.

  predicate Plain(s: string) {
    '\t' !in s && OneLine(s)
  }

  predicate PlainCookie(name: string, c: Cookie) {
    Plain(name) && Plain(c.host) && Plain(c.secure) && Plain(c.expires) && Plain(c.value)
  }

  predicate PlainJar(pairs: Jar) {
    Distinct(pairs) && forall e :: e in pairs ==> PlainCookie(e.key, e.value)
  }

  lemma {:induction false} JoinOneLine(parts: seq<string>)
    requires forall p :: p in parts ==> OneLine(p)
    ensures OneLine(Join(parts, "\t"))
  {
    if |parts| > 1 {
      JoinOneLine(parts[1..]);
      assert OneLine(parts[0]) && OneLine("\t");
    }
  }

  lemma {:induction false} OneLinePieces(s: string, c: char)
    requires OneLine(s)
    ensures forall p :: p in Split(s, c) ==> OneLine(p)
  {
    var i := IndexOf(s, c);
    if i < |s| {
      OneLinePieces(s[i + 1..], c);
    }
  }

  /** A text with a character that is not white space does not strip to nothing. */
  lemma TrimKeeps(s: string, i: nat)
    requires i < |s| && !PySpace(s[i])
    ensures Trim(s, PySpace) != "" && TrimLeft(s, PySpace) != ""
  {
    hide PySpace;
    TrimLeftKeeps(s, i);
    TrimRightKeeps(TrimLeft(s, PySpace));
  }

  lemma {:induction false} TrimLeftKeeps(s: string, i: nat)
    requires i < |s| && !PySpace(s[i])
    ensures TrimLeft(s, PySpace) != ""
  {
    hide PySpace;
    if PySpace(s[0]) {
      TrimLeftKeeps(s[1..], i - 1);
    }
  }

  lemma {:induction false} TrimRightKeeps(s: string)
    requires s != "" && !PySpace(s[0])
    ensures TrimRight(s, PySpace) != "" && TrimRight(s, PySpace)[0] == s[0]
  {
    hide PySpace;
    if PySpace(s[|s| - 1]) {
      TrimRightKeeps(s[..|s| - 1]);
    }
  }

  /** What a text starts with after its white space is decided by a part that is not all white space. */
  lemma {:induction false} TrimLeftPrefix(a: string, b: string)
    ensures TrimLeft(a, PySpace) != "" ==> TrimLeft(a + b, PySpace) == TrimLeft(a, PySpace) + b
    ensures TrimLeft(a, PySpace) == "" ==> TrimLeft(a + b, PySpace) == TrimLeft(b, PySpace)
  {
    hide PySpace;
    if a == "" {
      assert a + b == b;
    } else if PySpace(a[0]) {
      TrimLeftPrefix(a[1..], b);
      assert (a + b)[1..] == a[1..] + b;
    }
  }

  /** A host that would make its line read as a comment. */
  predicate HashHost(host: string) {
    "#" <= TrimLeft(host, PySpace)
  }

  lemma HashLine(host: string, rest: string)
    requires rest != "" && TrimLeft(rest, PySpace) != "" && TrimLeft(rest, PySpace)[0] != '#'
    ensures "#" <= TrimLeft(host + rest, PySpace) <==> HashHost(host)
    ensures HTTP_ONLY <= host + rest ==> HashHost(host)
  {
    TrimLeftPrefix(host, rest);
    assert !("#" <= rest);
    if HTTP_ONLY <= host + rest {
      assert (host + rest)[0] == '#';
      assert host == "" ==> host + rest == rest;
      assert host[0] == '#';
    }
  }

  // Printing and reading back.

  /** The fields after the host. */
  function Tail(name: string, c: Cookie): string {
    "\t" + Join(["FALSE", "/", c.secure, c.expires, name, c.value], "\t")
  }

  lemma TailShape(name: string, c: Cookie)
    ensures Join(Fields(name, c), "\t") == c.host + Tail(name, c)
    ensures |Tail(name, c)| > 1 && Tail(name, c)[1] == 'F'
    ensures TrimLeft(Tail(name, c), PySpace) != "" && TrimLeft(Tail(name, c), PySpace)[0] == 'F'
  {
    var rest := ["FALSE", "/", c.secure, c.expires, name, c.value];
    assert Fields(name, c)[1..] == rest;
    var t := Tail(name, c);
    hide Join;
    assert Join(rest, "\t") == "FALSE" + "\t" + Join(rest[1..], "\t") by {
      JoinStep(rest);
    }
    assert t[0] == '\t' && t[1] == 'F' && PySpace('\t') && !PySpace('F');
    assert TrimLeft(t, PySpace) == TrimLeft(t[1..], PySpace) == t[1..];
    JoinStep(Fields(name, c));
  }

  lemma JoinStep(parts: seq<string>)
    requires |parts| > 1
    ensures Join(parts, "\t") == parts[0] + "\t" + Join(parts[1..], "\t")
  {
  }

  lemma FieldsBack(name: string, c: Cookie)
    requires PlainCookie(name, c)
    ensures Split(Join(Fields(name, c), "\t"), '\t') == Fields(name, c)
    ensures OneLine(Join(Fields(name, c), "\t"))
    ensures Trim(Join(Fields(name, c), "\t"), PySpace) != ""
  {
    hide Join, Split, Trim, PySpace;
    assert OneLine("FALSE") && OneLine("/");
    SplitJoin(Fields(name, c), '\t');
    JoinOneLine(Fields(name, c));
    TailShape(name, c);
    NotSpace();
    TrimKeeps(Join(Fields(name, c), "\t"), |c.host| + 1);
  }

  lemma NotSpace()
    ensures !PySpace('F') && !PySpace('#')
  {
  }

  lemma PrefixCut(rest: string)
    ensures HTTP_ONLY <= HTTP_ONLY + rest && Body(HTTP_ONLY + rest) == rest && OneLine(HTTP_ONLY)
  {
    assert (HTTP_ONLY + rest)[|HTTP_ONLY|..] == rest;
  }

  /** A printed cookie reads back as itself exactly when it is HttpOnly or its host does not read as a comment. */
  lemma LineRoundTrip(name: string, c: Cookie)
    requires PlainCookie(name, c)
    ensures OneLine(RenderLine(name, c))
    ensures var r := ParseLine(RenderLine(name, c));
            && (c.httpOnly || !HashHost(c.host) ==> r == Some((name, c)))
            && (!c.httpOnly && HashHost(c.host) ==> r.None? || (r.value.0 == name && r.value.1 != c))
  {
    hide Join, Split, Trim, TrimLeft, PySpace, Body;
    var line := Join(Fields(name, c), "\t");
    FieldsBack(name, c);
    TailShape(name, c);
    if c.httpOnly {
      PrefixCut(line);
    } else {
      assert "" + line == line;
      HashLine(c.host, Tail(name, c));
      if HTTP_ONLY <= line {
        MisreadHost(name, c);
      } else {
        BodyOfPlain(line);
      }
    }
  }

  lemma BodyOfPlain(line: string)
    requires !(HTTP_ONLY <= line)
    ensures Body(line) == line
  {
  }

  /** A host that itself starts with the HttpOnly prefix loses it. */
  lemma MisreadHost(name: string, c: Cookie)
    requires PlainCookie(name, c) && HTTP_ONLY <= Join(Fields(name, c), "\t")
    ensures var r := ParseLine(Join(Fields(name, c), "\t")); r.None? || (r.value.0 == name && r.value.1.httpOnly)
  {
    hide Join, Split, Trim, TrimLeft, PySpace;
    var line := Join(Fields(name, c), "\t");
    TailShape(name, c);
    assert line[|c.host|] == '\t' && '\t' !in HTTP_ONLY;
    assert c.host == line[..|c.host|];
    assert HTTP_ONLY <= c.host;
    var shorter := c.(host := c.host[|HTTP_ONLY|..]);
    TailShape(name, shorter);
    assert Body(line) == Join(Fields(name, shorter), "\t");
    assert PlainCookie(name, shorter);
    FieldsBack(name, shorter);
  }

  lemma RenderedLines(pairs: Jar)
    requires forall e :: e in pairs ==> OneLine(RenderLine(e.key, e.value))
    ensures SplitLines(Render(pairs)) == [HEADER] + RenderLines(pairs)
  {
    hide SplitLines, Join, RenderLine;
    var lines := [HEADER] + RenderLines(pairs);
    forall l | l in lines
      ensures OneLine(l)
    {
      if l != HEADER {
        var i :| 0 <= i < |pairs| && RenderLines(pairs)[i] == l;
        assert pairs[i] in pairs;
      }
    }
    SplitJoinLines(lines);
  }

  lemma HeaderIsComment()
    ensures ParseLine(HEADER).None? && !(HTTP_ONLY <= HEADER) && Trim(HEADER, PySpace) != "" &&
        "#" <= Trim(HEADER, PySpace)
  {
    hide PySpace, TrimRight, Split;
    NotSpace();
    assert HEADER[0] == '#' && HEADER[1] == ' ' && HTTP_ONLY[1] == 'H';
    assert TrimLeft(HEADER, PySpace) == HEADER;
    TrimRightKeeps(HEADER);
    BodyOfPlain(HEADER);
  }

  /** Every entry of the jar prints to a line that reads back. */
  predicate ReadsBack(pairs: Jar) {
    forall e :: e in pairs ==> e.value.httpOnly || !HashHost(e.value.host)
  }

  /** The jar read from the header and the first n printed lines. */
  function ReadUpTo(pairs: Jar, n: nat): Jar
    requires n <= |pairs|
  {
    PairsOf([HEADER] + RenderLines(pairs)[..n])
  }

  lemma PairsSnoc(lines: seq<string>, line: string)
    ensures PairsOf(lines + [line]) ==
      match ParseLine(line) case None => PairsOf(lines) case Some((name, c)) => Put(PairsOf(lines), name, c)
  {
    hide ParseLine, Put;
    assert (lines + [line])[..|lines|] == lines;
  }

  lemma ReadNone(pairs: Jar)
    ensures ReadUpTo(pairs, 0) == []
  {
    hide ParseLine;
    HeaderIsComment();
    PairsSnoc([], HEADER);
    assert [HEADER] + RenderLines(pairs)[..0] == [] + [HEADER];
  }

  /** The next line adds what it parses to. */
  lemma ReadNext(pairs: Jar, n: nat)
    requires n < |pairs|
    ensures ReadUpTo(pairs, n + 1) ==
      match ParseLine(RenderLine(pairs[n].key, pairs[n].value))
      case None => ReadUpTo(pairs, n)
      case Some((name, c)) => Put(ReadUpTo(pairs, n), name, c)
  {
    hide ParseLine, RenderLine, PairsOf, Put;
    var lines := RenderLines(pairs);
    PairsSnoc([HEADER] + lines[..n], lines[n]);
    assert [HEADER] + lines[..n + 1] == [HEADER] + lines[..n] + [lines[n]];
  }

  lemma {:induction false} AllLinesBack(pairs: Jar, n: nat)
    requires PlainJar(pairs) && ReadsBack(pairs) && n <= |pairs|
    ensures ReadUpTo(pairs, n) == pairs[..n]
  {
    hide ParseLine, RenderLine, HashHost, PlainCookie, ReadUpTo;
    if n == 0 {
      ReadNone(pairs);
    } else {
      var e := pairs[n - 1];
      assert e in pairs;
      AllLinesBack(pairs, n - 1);
      ReadNext(pairs, n - 1);
      LineRoundTrip(e.key, e.value);
      assert pairs[..n - 1] + [] == pairs[..n - 1] && pairs[..n] == pairs[..n - 1] + [e];
      PutBehind(pairs[..n - 1], [], e.key, e.value);
    }
  }

  /** A name whose line is not yet read is absent; a line that reads as a comment never yields its cookie. */
  lemma {:induction false} HashLineLost(pairs: Jar, n: nat, i: nat)
    requires PlainJar(pairs) && n <= |pairs| && i < |pairs| && !pairs[i].value.httpOnly && HashHost(pairs[i].value.host)
    ensures Get(ReadUpTo(pairs, n), pairs[i].key) != Some(pairs[i].value)
    ensures n <= i ==> Get(ReadUpTo(pairs, n), pairs[i].key).None?
  {
    hide ParseLine, RenderLine, HashHost, PlainCookie, ReadUpTo;
    if n == 0 {
      ReadNone(pairs);
    } else {
      var e := pairs[n - 1];
      assert e in pairs;
      HashLineLost(pairs, n - 1, i);
      ReadNext(pairs, n - 1);
      LineRoundTrip(e.key, e.value);
      var r := ParseLine(RenderLine(e.key, e.value));
      if r.Some? {
        PutGet(ReadUpTo(pairs, n - 1), r.value.0, r.value.1, pairs[i].key);
      }
    }
  }

  /** Reading what was printed gives the same cookies in the same order, exactly when every entry reads back. */
  lemma JarRoundTrip(pairs: Jar)
    requires PlainJar(pairs)
    ensures Pairs(Render(pairs)) == pairs <==> ReadsBack(pairs)
  {
    hide PairsOf, RenderLines, RenderLine, SplitLines, HashHost, PlainCookie, Get;
    forall e | e in pairs
      ensures OneLine(RenderLine(e.key, e.value))
    {
      LineRoundTrip(e.key, e.value);
    }
    RenderedLines(pairs);
    assert RenderLines(pairs)[..|pairs|] == RenderLines(pairs) && pairs[..|pairs|] == pairs;
    assert Pairs(Render(pairs)) == ReadUpTo(pairs, |pairs|);
    if ReadsBack(pairs) {
      AllLinesBack(pairs, |pairs|);
    } else {
      var e :| e in pairs && !e.value.httpOnly && HashHost(e.value.host);
      var i :| 0 <= i < |pairs| && pairs[i] == e;
      DistinctGet(pairs, e);
      HashLineLost(pairs, |pairs|, i);
    }
  }

  // Aligning.

  /** A host name as a URL gives it. */
  predicate CleanHost(host: string) {
    Plain(host) && '#' !in host
  }

  /** The fields of an aligned line. */
  predicate Moved(parts: seq<string>, host: string, secureOk: bool) {
    && |parts| >= 7 && parts[0] == host && parts[1] == "FALSE" && (secureOk || parts[3] == "FALSE")
    && forall p :: p in parts ==> Plain(p)
  }

  function Prefixed(httpOnly: bool, rest: string): string {
    (if httpOnly then HTTP_ONLY else "") + rest
  }

  lemma {:induction false} TrimChars(s: string)
    ensures forall c :: c in Trim(s, PySpace) ==> c in s
  {
    TrimLeftChars(s);
    TrimRightChars(TrimLeft(s, PySpace));
  }

  lemma {:induction false} TrimLeftChars(s: string)
    ensures forall c :: c in TrimLeft(s, PySpace) ==> c in s
  {
    hide PySpace;
    if s != "" && PySpace(s[0]) {
      TrimLeftChars(s[1..]);
    }
  }

  lemma {:induction false} TrimRightChars(s: string)
    ensures forall c :: c in TrimRight(s, PySpace) ==> c in s
  {
    hide PySpace;
    if s != "" && PySpace(s[|s| - 1]) {
      TrimRightChars(s[..|s| - 1]);
    }
  }

  lemma MovedRest(parts: seq<string>, host: string, secureOk: bool)
    requires Moved(parts, host, secureOk) && CleanHost(host)
    ensures var rest := Join(parts, "\t");
            && Split(rest, '\t') == parts && OneLine(rest) && !(HTTP_ONLY <= rest)
            && Trim(rest, PySpace) != "" && TrimLeft(rest, PySpace) != "" && TrimLeft(rest, PySpace)[0] != '#'
  {
    hide Join, Split, PySpace, TrimLeft, Trim;
    SplitJoin(parts, '\t');
    JoinOneLine(parts);
    JoinStep(parts);
    JoinStep(parts[1..]);
    var rest, tail := Join(parts, "\t"), "\t" + Join(parts[1..], "\t");
    assert rest == host + tail && tail[0] == '\t' && tail[1] == 'F';
    NotSpace();
    assert rest[|host| + 1] == 'F';
    TrimKeeps(rest, |host| + 1);
    TailStart(tail);
    HashLine(host, tail);
    NoHash(host);
    assert !("#" <= TrimLeft(rest, PySpace));
  }

  /** A line of moved fields is no comment, is not blank, and splits back into them. */
  lemma MovedShape(parts: seq<string>, httpOnly: bool, host: string, secureOk: bool)
    requires Moved(parts, host, secureOk) && CleanHost(host)
    ensures var rest := Join(parts, "\t"); var line := Prefixed(httpOnly, rest);
            && (HTTP_ONLY <= line <==> httpOnly) && Body(line) == rest && Split(rest, '\t') == parts && OneLine(line)
            && Trim(line, PySpace) != "" && Trim(rest, PySpace) != ""
            && !("#" <= Trim(rest, PySpace)) && !("#" <= TrimLeft(rest, PySpace))
  {
    hide Join, Split, PySpace, TrimLeft, TrimRight, Moved;
    var rest := Join(parts, "\t");
    MovedRest(parts, host, secureOk);
    NotSpace();
    TrimRightKeeps(TrimLeft(rest, PySpace));
    PrefixCut(rest);
    assert "" + rest == rest;
    if httpOnly {
      assert (HTTP_ONLY + rest)[0] == '#';
      TrimKeeps(HTTP_ONLY + rest, 0);
    } else {
      BodyOfPlain(rest);
    }
  }

  lemma TailStart(tail: string)
    requires |tail| > 1 && tail[0] == '\t' && tail[1] == 'F'
    ensures TrimLeft(tail, PySpace) == tail[1..]
  {
    assert PySpace('\t') && !PySpace('F');
    assert TrimLeft(tail, PySpace) == TrimLeft(tail[1..], PySpace);
  }

  /** Aligning leaves an aligned line alone, and it parses to its fields. */
  lemma MovedStays(parts: seq<string>, httpOnly: bool, host: string, secureOk: bool)
    requires Moved(parts, host, secureOk) && CleanHost(host)
    ensures |parts| >= 7
    ensures var line := Prefixed(httpOnly, Join(parts, "\t"));
            && AlignLine(line, host, secureOk) == line
            && ParseLine(line) == Some((parts[5], Cookie(httpOnly, parts[0], parts[3], parts[4], parts[6])))
  {
    hide Join, Split, PySpace, TrimLeft, Trim, Body;
    MovedShape(parts, httpOnly, host, secureOk);
    assert parts[0 := host] == parts && parts[1 := "FALSE"] == parts;
    assert !secureOk ==> parts[3 := "FALSE"] == parts;
  }

  /** What aligning makes of a line: an aligned line, or the unchanged line of no cookie. */
  lemma AlignedLine(line: string, host: string, secureOk: bool)
    requires OneLine(line) && CleanHost(host)
    ensures (AlignLine(line, host, secureOk) == line && ParseLine(line).None?)
         || exists parts :: Moved(parts, host, secureOk) &&
             AlignLine(line, host, secureOk) == Prefixed(HTTP_ONLY <= line, Join(parts, "\t"))
  {
    hide Join, Split, PySpace, TrimLeft;
    var stripped, httpOnly := Trim(line, PySpace), HTTP_ONLY <= line;
    if stripped == "" || ("#" <= stripped && !httpOnly) {
      BlankOrComment(line);
    } else {
      var parts := Split(Body(line), '\t');
      if |parts| >= 7 {
        var moved := parts[0 := host][1 := "FALSE"];
        var all := if secureOk then moved else moved[3 := "FALSE"];
        assert OneLine(Body(line));
        OneLinePieces(Body(line), '\t');
        assert Plain("FALSE");
        forall p | p in all
          ensures Plain(p)
        {
          assert p in parts || p == host || p == "FALSE";
        }
        assert Moved(all, host, secureOk);
      }
    }
  }

  lemma BlankOrComment(line: string)
    requires Trim(line, PySpace) == "" || ("#" <= Trim(line, PySpace) && !(HTTP_ONLY <= line))
    ensures ParseLine(line).None?
  {
    hide PySpace, Split;
    var left := TrimLeft(line, PySpace);
    if left != "" {
      TrimRightKeeps(left);
    }
    if HTTP_ONLY <= line {
      NotSpace();
    } else {
      BodyOfPlain(line);
    }
  }

  lemma AlignedIsOneLine(line: string, host: string, secureOk: bool)
    requires OneLine(line) && CleanHost(host)
    ensures OneLine(AlignLine(line, host, secureOk))
    ensures AlignLine(AlignLine(line, host, secureOk), host, secureOk) == AlignLine(line, host, secureOk)
  {
    hide AlignLine, ParseLine, Moved, Join;
    AlignedLine(line, host, secureOk);
    if AlignLine(line, host, secureOk) != line {
      var parts :| Moved(parts, host, secureOk) && AlignLine(line, host, secureOk) ==
          Prefixed(HTTP_ONLY <= line, Join(parts, "\t"));
      MovedShape(parts, HTTP_ONLY <= line, host, secureOk);
      MovedStays(parts, HTTP_ONLY <= line, host, secureOk);
    }
  }

  lemma AlignedLines(text: string, host: string, secureOk: bool)
    requires CleanHost(host)
    ensures SplitLines(Align(text, host, secureOk)) == AlignLines(SplitLines(text), host, secureOk)
  {
    hide SplitLines, AlignLine, Join;
    var out := AlignLines(SplitLines(text), host, secureOk);
    forall l | l in out
      ensures OneLine(l)
    {
      var i :| 0 <= i < |out| && out[i] == l;
      AlignedIsOneLine(SplitLines(text)[i], host, secureOk);
    }
    if out == [] {
      NoLines();
    } else {
      SplitJoinLines(out);
    }
  }

  /** Aligning an aligned jar changes nothing. */
  lemma AlignIdempotent(text: string, host: string, secureOk: bool)
    requires CleanHost(host)
    ensures Align(Align(text, host, secureOk), host, secureOk) == Align(text, host, secureOk)
  {
    hide SplitLines, AlignLine;
    AlignedLines(text, host, secureOk);
    var lines := SplitLines(text);
    var out := AlignLines(lines, host, secureOk);
    forall i | 0 <= i < |lines|
      ensures AlignLine(out[i], host, secureOk) == out[i]
    {
      AlignedIsOneLine(lines[i], host, secureOk);
    }
    assert AlignLines(out, host, secureOk) == out;
  }

  // Ingesting.

  /** A jar whose cookies all stand for the smoke host. */
  predicate AlignedJar(pairs: Jar, host: string, secureOk: bool) {
    && PlainJar(pairs)
    && forall e :: e in pairs ==> e.value.host == host && (secureOk || e.value.secure == "FALSE")
  }

  lemma {:induction false} PairsAligned(lines: seq<string>, host: string, secureOk: bool)
    requires CleanHost(host) && forall l :: l in lines ==> OneLine(l)
    ensures AlignedJar(PairsOf(AlignLines(lines, host, secureOk)), host, secureOk)
  {
    hide AlignLine, ParseLine, Moved, Join;
    if lines != [] {
      var k := |lines| - 1;
      var out := AlignLines(lines, host, secureOk);
      PairsAligned(lines[..k], host, secureOk);
      assert out[..k] == AlignLines(lines[..k], host, secureOk);
      AlignedLine(lines[k], host, secureOk);
      if ParseLine(out[k]).Some? {
        var parts :| Moved(parts, host, secureOk) && out[k] == Prefixed(HTTP_ONLY <= lines[k], Join(parts, "\t"));
        MovedStays(parts, HTTP_ONLY <= lines[k], host, secureOk);
        var c := Cookie(HTTP_ONLY <= lines[k], parts[0], parts[3], parts[4], parts[6]);
        MovedCookie(parts, HTTP_ONLY <= lines[k], host, secureOk);
        StoreKeeps(PairsOf(out[..k]), parts[5], c, host, secureOk);
      }
    }
  }

  lemma MovedCookie(parts: seq<string>, httpOnly: bool, host: string, secureOk: bool)
    requires Moved(parts, host, secureOk)
    ensures PlainCookie(parts[5], Cookie(httpOnly, parts[0], parts[3], parts[4], parts[6]))
    ensures parts[0] == host && (secureOk || parts[3] == "FALSE")
  {
  }

  lemma StoreKeeps(pairs: Jar, name: string, c: Cookie, host: string, secureOk: bool)
    requires AlignedJar(pairs, host, secureOk) && PlainCookie(name, c) && c.host == host &&
        (secureOk || c.secure == "FALSE")
    ensures AlignedJar(Put(pairs, name, c), host, secureOk)
  {
    hide PlainCookie;
    PutDistinct(pairs, name, c);
    PutMembers(pairs, name, c);
  }

  lemma KnownAligned(jar: string, host: string, secureOk: bool)
    requires CleanHost(host)
    ensures AlignedJar(Known(jar, host, secureOk), host, secureOk)
  {
    hide SplitLines, AlignLine, ParseLine, Trim;
    if Trim(jar, PySpace) != "" {
      AlignedLines(jar, host, secureOk);
      PairsAligned(SplitLines(jar), host, secureOk);
    } else {
      NoLines();
    }
  }

  // What an ingest leaves in the jar.

  /** A cookie of the smoke host that prints on one line; its name and value may hold tabs. */
  predicate SmokeCookie(name: string, c: Cookie, host: string, secureOk: bool) {
    && OneLine(name) && OneLine(c.value) && c.host == host && Plain(c.expires)
    && Plain(c.secure) && (secureOk || c.secure == "FALSE")
  }

  predicate SmokeJar(pairs: Jar, host: string, secureOk: bool) {
    Distinct(pairs) && forall e :: e in pairs ==> SmokeCookie(e.key, e.value, host, secureOk)
  }

  predicate TabFreeNames(pairs: Jar) {
    forall e :: e in pairs ==> '\t' !in e.key
  }

  predicate TabFreeValues(pairs: Jar) {
    forall e :: e in pairs ==> '\t' !in e.value.value
  }

  lemma AlignedIsTabFree(pairs: Jar, host: string, secureOk: bool)
    requires CleanHost(host)
    ensures AlignedJar(pairs, host, secureOk) <==>
              SmokeJar(pairs, host, secureOk) && TabFreeNames(pairs) && TabFreeValues(pairs)
  {
  }

  predicate OneLines(items: seq<string>) {
    forall item :: item in items ==> OneLine(item)
  }

  /** Header lines are single lines, and so is what is cut out of them. */
  lemma {:induction false} CookieTextsOneLine(lines: seq<string>)
    requires OneLines(lines)
    ensures OneLines(CookieTexts(lines))
  {
    hide Trim, PySpace;
    if lines != [] {
      var k := |lines| - 1;
      assert OneLines(lines[..k]);
      CookieTextsOneLine(lines[..k]);
      assert OneLine(lines[k]);
      if ':' in lines[k] {
        TrimChars(After1(lines[k], ':'));
      }
    }
  }

  lemma ChunkOneLine(item: string)
    requires OneLine(item)
    ensures OneLine(Chunks(item)[0])
  {
    hide Split, PySpace, Trim;
    OneLinePieces(item, ';');
    var first := Split(item, ';')[0];
    assert first in Split(item, ';');
    TrimChars(first);
  }

  lemma ChangeKeeps(pairs: Jar, item: string, host: string, secureOk: bool)
    requires SmokeJar(pairs, host, secureOk) && OneLine(item)
    ensures SmokeJar(Changed(pairs, ChangeOf(item, host, secureOk)), host, secureOk)
  {
    hide Chunks, Expired, HasAttr, SmokeCookie;
    ChunkOneLine(item);
    var first := Chunks(item)[0];
    match ChangeOf(item, host, secureOk) {
      case Nothing =>
      case Drop(name) =>
        RemoveDistinct(pairs, name);
        RemoveGet(pairs, name, name);
      case Store(name, c) =>
        assert forall x :: x in name || x in c.value ==> x in first;
        StoredSmoke(name, c, host, secureOk);
        PutDistinct(pairs, name, c);
        PutMembers(pairs, name, c);
    }
  }

  lemma StoredSmoke(name: string, c: Cookie, host: string, secureOk: bool)
    requires OneLine(name) && OneLine(c.value) && c.host == host && c.expires == EXPIRES
    requires c.secure == if secureOk then "TRUE" else "FALSE"
    ensures SmokeCookie(name, c, host, secureOk)
  {
    hide Plain, OneLine;
    PlainConstants();
  }

  lemma PlainConstants()
    ensures Plain("TRUE") && Plain("FALSE") && Plain(EXPIRES)
  {
  }

  lemma {:induction false} ApplyKeeps(pairs: Jar, items: seq<string>, host: string, secureOk: bool)
    requires SmokeJar(pairs, host, secureOk) && OneLines(items)
    ensures SmokeJar(ApplyAll(pairs, items, host, secureOk), host, secureOk)
  {
    hide SmokeJar, ChangeOf;
    if items != [] {
      var k := |items| - 1;
      ApplyKeeps(pairs, items[..k], host, secureOk);
      ChangeKeeps(ApplyAll(pairs, items[..k], host, secureOk), items[k], host, secureOk);
    }
  }

  /** The pairs that a header batch leaves. */
  function Left(jar: string, headers: string, host: string, secureOk: bool): Jar {
    ApplyAll(Known(jar, host, secureOk), SetCookies(headers), host, secureOk)
  }

  lemma LeftIsSmoke(jar: string, headers: string, host: string, secureOk: bool)
    requires CleanHost(host)
    ensures SmokeJar(Left(jar, headers, host, secureOk), host, secureOk)
  {
    hide Known, ApplyAll, CookieTexts, SplitLines, SmokeJar;
    KnownAligned(jar, host, secureOk);
    AlignedIsTabFree(Known(jar, host, secureOk), host, secureOk);
    CookieTextsOneLine(SplitLines(headers));
    ApplyKeeps(Known(jar, host, secureOk), SetCookies(headers), host, secureOk);
  }

  // Reading an ingested jar back: a tab in a value cuts it.

  function CutCookie(c: Cookie): Cookie {
    c.(value := Before1(c.value, '\t'))
  }

  /** Values up to their first tab, except those of the given names. */
  function CutBut(pairs: Jar, names: set<string>): (cut: Jar)
    ensures |cut| == |pairs|
  {
    seq(|pairs|, i requires 0 <= i < |pairs| =>
      if pairs[i].key in names then pairs[i] else Entry(pairs[i].key, CutCookie(pairs[i].value)))
  }

  lemma {:induction false} JoinAppend(a: seq<string>, b: seq<string>)
    requires a != [] && b != []
    ensures Join(a + b, "\t") == Join(a, "\t") + "\t" + Join(b, "\t")
  {
    if |a| == 1 {
      assert (a + b)[1..] == b;
    } else {
      JoinAppend(a[1..], b);
      assert (a + b)[1..] == a[1..] + b;
    }
  }

  lemma {:induction false} JoinOfSplit(s: string)
    ensures Join(Split(s, '\t'), "\t") == s
  {
    var i := IndexOf(s, '\t');
    if i < |s| {
      JoinOfSplit(s[i + 1..]);
      assert s == s[..i] + "\t" + s[i + 1..];
    }
  }

  /** The fields before the value. */
  function FrontFields(name: string, c: Cookie): seq<string> {
    [c.host, "FALSE", "/", c.secure, c.expires, name]
  }

  lemma ValueLast(name: string, c: Cookie)
    ensures Join(Fields(name, c), "\t") == Join(FrontFields(name, c), "\t") + "\t" + c.value
  {
    hide Join;
    JoinAppend(FrontFields(name, c), [c.value]);
    assert Fields(name, c) == FrontFields(name, c) + [c.value];
    assert Join([c.value], "\t") == c.value by {
      JoinAlone(c.value);
    }
  }

  lemma JoinAlone(s: string)
    ensures Join([s], "\t") == s
  {
  }

  lemma SmokeOneLine(name: string, c: Cookie, host: string, secureOk: bool)
    requires SmokeCookie(name, c, host, secureOk) && CleanHost(host)
    ensures OneLine(RenderLine(name, c))
  {
    hide Join;
    assert OneLine("FALSE") && OneLine("/") && OneLine(HTTP_ONLY);
    JoinOneLine(Fields(name, c));
  }

  /**
   * The line of a cookie whose name holds no tab stays when aligned, and reads back up to the first tab of
   * its value.
   */
  lemma SmokeLine(name: string, c: Cookie, host: string, secureOk: bool)
    requires SmokeCookie(name, c, host, secureOk) && CleanHost(host) && '\t' !in name
    ensures AlignLine(RenderLine(name, c), host, secureOk) == RenderLine(name, c)
    ensures ParseLine(RenderLine(name, c)) == Some((name, CutCookie(c)))
  {
    hide Join, AlignLine, ParseLine, Split;
    var pieces := Split(c.value, '\t');
    var parts := FrontFields(name, c) + pieces;
    ValueLast(name, c);
    JoinOfSplit(c.value);
    JoinAppend(FrontFields(name, c), pieces);
    OneLinePieces(c.value, '\t');
    assert Plain("FALSE") && Plain("/");
    forall p | p in parts
      ensures Plain(p)
    {
      assert p in FrontFields(name, c) || p in pieces;
    }
    assert Moved(parts, host, secureOk);
    MovedStays(parts, c.httpOnly, host, secureOk);
    FirstPiece(c.value);
  }

  lemma FirstPiece(s: string)
    ensures Split(s, '\t')[0] == Before1(s, '\t')
  {
  }

  lemma {:induction false} CutLinesBack(pairs: Jar, n: nat, host: string, secureOk: bool)
    requires SmokeJar(pairs, host, secureOk) && CleanHost(host) && TabFreeNames(pairs) && n <= |pairs|
    ensures ReadUpTo(pairs, n) == CutBut(pairs, {})[..n]
  {
    hide ParseLine, RenderLine, SmokeCookie, ReadUpTo, CutCookie;
    if n == 0 {
      ReadNone(pairs);
    } else {
      var e, done := pairs[n - 1], CutBut(pairs, {})[..n - 1];
      assert e in pairs;
      CutLinesBack(pairs, n - 1, host, secureOk);
      ReadNext(pairs, n - 1);
      SmokeLine(e.key, e.value, host, secureOk);
      assert done + [] == done && CutBut(pairs, {})[..n] == done + [Entry(e.key, CutCookie(e.value))];
      PutBehind(done, [], e.key, CutCookie(e.value));
    }
  }

  /** What the next batch starts from: the printed pairs, values cut at their first tab. */
  lemma KnownOfRender(pairs: Jar, host: string, secureOk: bool)
    requires SmokeJar(pairs, host, secureOk) && CleanHost(host) && TabFreeNames(pairs)
    ensures Known(Render(pairs), host, secureOk) == CutBut(pairs, {})
  {
    hide SplitLines, Join, AlignLine, RenderLine, ParseLine, PairsOf, Trim, SmokeCookie, CutCookie;
    var text := Render(pairs);
    SmokeRendered(pairs, host, secureOk);
    var lines := [HEADER] + RenderLines(pairs);
    forall i | 0 <= i < |lines|
      ensures AlignLine(lines[i], host, secureOk) == lines[i]
    {
      if i == 0 {
        HeaderStays(host, secureOk);
      } else {
        var e := pairs[i - 1];
        assert e in pairs;
        SmokeLine(e.key, e.value, host, secureOk);
      }
    }
    assert AlignLines(lines, host, secureOk) == lines;
    assert Align(text, host, secureOk) == text;
    RenderNotBlank(pairs);
    CutLinesBack(pairs, |pairs|, host, secureOk);
    assert RenderLines(pairs)[..|pairs|] == RenderLines(pairs);
    assert CutBut(pairs, {})[..|pairs|] == CutBut(pairs, {});
  }

  lemma SmokeRendered(pairs: Jar, host: string, secureOk: bool)
    requires SmokeJar(pairs, host, secureOk) && CleanHost(host)
    ensures SplitLines(Render(pairs)) == [HEADER] + RenderLines(pairs)
  {
    hide SplitLines, RenderLine, Render, RenderLines, SmokeCookie;
    forall e | e in pairs
      ensures OneLine(RenderLine(e.key, e.value))
    {
      SmokeOneLine(e.key, e.value, host, secureOk);
    }
    RenderedLines(pairs);
  }

  lemma NoHash(host: string)
    requires CleanHost(host)
    ensures !HashHost(host)
  {
    TrimLeftChars(host);
  }

  lemma HeaderStays(host: string, secureOk: bool)
    ensures AlignLine(HEADER, host, secureOk) == HEADER
  {
    HeaderIsComment();
  }

  lemma RenderNotBlank(pairs: Jar)
    ensures Trim(Render(pairs), PySpace) != ""
  {
    hide Join, PySpace;
    var lines := [HEADER] + RenderLines(pairs);
    assert Render(pairs)[0] == '#' by {
      assert lines[0][0] == '#';
      JoinStart(lines);
    }
    NotSpace();
    TrimKeeps(Render(pairs), 0);
  }

  lemma JoinStart(lines: seq<string>)
    requires lines != [] && lines[0] != ""
    ensures Join(lines, "\n") != "" && Join(lines, "\n")[0] == lines[0][0]
  {
  }

  lemma {:induction false} ApplyConcat(pairs: Jar, a: seq<string>, b: seq<string>, host: string, secureOk: bool)
    ensures ApplyAll(pairs, a + b, host, secureOk) == ApplyAll(ApplyAll(pairs, a, host, secureOk), b, host, secureOk)
  {
    hide ChangeOf;
    if b == [] {
      assert a + b == a;
    } else {
      var k := |b| - 1;
      ApplyConcat(pairs, a, b[..k], host, secureOk);
      assert (a + b)[..|a| + k] == a + b[..k];
    }
  }

  lemma {:induction false} CookieTextsConcat(a: seq<string>, b: seq<string>)
    ensures CookieTexts(a + b) == CookieTexts(a) + CookieTexts(b)
  {
    hide CookieText;
    if b == [] {
      assert a + b == a;
    } else {
      var k := |b| - 1;
      CookieTextsConcat(a, b[..k]);
      assert (a + b)[..|a| + k] == a + b[..k];
    }
  }

  // Two batches.

  /** The names that header texts store or drop. */
  function Touched(items: seq<string>, host: string, secureOk: bool): set<string> {
    if items == [] then {}
    else
      var change := ChangeOf(items[|items| - 1], host, secureOk);
      Touched(items[..|items| - 1], host, secureOk) + (if change.Nothing? then {} else {change.name})
  }

  /** Cutting commutes with storing a cookie, whose name is then exempt. */
  lemma {:induction false} CutPut(pairs: Jar, names: set<string>, k: string, c: Cookie)
    requires Distinct(pairs)
    ensures Put(CutBut(pairs, names), k, c) == CutBut(Put(pairs, k, c), names + {k})
  {
    hide CutCookie;
    var cut := CutBut(pairs, names);
    if pairs != [] {
      assert cut[1..] == CutBut(pairs[1..], names);
      if pairs[0].key == k {
        assert Put(pairs, k, c)[1..] == pairs[1..];
        assert forall i :: 1 <= i < |pairs| ==> pairs[i].key != k;
      } else {
        CutPut(pairs[1..], names, k, c);
        assert Put(pairs, k, c)[1..] == Put(pairs[1..], k, c);
        assert CutBut(Put(pairs, k, c), names + {k})[1..] == CutBut(Put(pairs[1..], k, c), names + {k});
      }
    }
  }

  lemma {:induction false} CutRemove(pairs: Jar, names: set<string>, k: string)
    requires Distinct(pairs)
    ensures Remove(CutBut(pairs, names), k) == CutBut(Remove(pairs, k), names + {k})
  {
    hide CutCookie;
    var cut := CutBut(pairs, names);
    if pairs != [] {
      assert cut[1..] == CutBut(pairs[1..], names);
      if pairs[0].key == k {
        assert forall i :: 1 <= i < |pairs| ==> pairs[i].key != k;
      } else {
        CutRemove(pairs[1..], names, k);
        assert Remove(pairs, k)[1..] == Remove(pairs[1..], k);
        assert CutBut(Remove(pairs, k), names + {k})[1..] == CutBut(Remove(pairs[1..], k), names + {k});
      }
    }
  }

  /** A batch on the cut jar gives what it gives on the whole one, cut except where the batch had a word. */
  lemma {:induction false} CutApply(pairs: Jar, items: seq<string>, host: string, secureOk: bool)
    requires Distinct(pairs)
    ensures ApplyAll(CutBut(pairs, {}), items, host, secureOk) ==
              CutBut(ApplyAll(pairs, items, host, secureOk), Touched(items, host, secureOk))
  {
    hide ChangeOf, CutBut;
    if items != [] {
      var k := |items| - 1;
      var before, names := ApplyAll(pairs, items[..k], host, secureOk), Touched(items[..k], host, secureOk);
      CutApply(pairs, items[..k], host, secureOk);
      ApplyDistinct(pairs, items[..k], host, secureOk);
      match ChangeOf(items[k], host, secureOk) {
        case Nothing => assert names + {} == names;
        case Drop(name) => CutRemove(before, names, name);
        case Store(name, c) => CutPut(before, names, name, c);
      }
    }
  }

  /** Some value is really cut. */
  predicate Cuts(pairs: Jar, names: set<string>) {
    exists e :: e in pairs && e.key !in names && '\t' in e.value.value
  }

  lemma CutIsShorter(name: string, c: Cookie)
    ensures '\t' !in c.value ==> CutCookie(c) == c
    ensures '\t' in c.value ==> RenderLine(name, CutCookie(c)) != RenderLine(name, c)
  {
    hide Join;
    if '\t' in c.value {
      ValueLast(name, c);
      ValueLast(name, CutCookie(c));
      assert FrontFields(name, CutCookie(c)) == FrontFields(name, c);
    }
  }

  lemma CutSmoke(pairs: Jar, names: set<string>, host: string, secureOk: bool)
    requires SmokeJar(pairs, host, secureOk)
    ensures SmokeJar(CutBut(pairs, names), host, secureOk)
  {
    forall i | 0 <= i < |pairs|
      ensures SmokeCookie(pairs[i].key, CutBut(pairs, names)[i].value, host, secureOk)
    {
      assert pairs[i] in pairs;
    }
  }

  /** The printed texts agree exactly when nothing is cut. */
  lemma CutPrints(pairs: Jar, names: set<string>, host: string, secureOk: bool)
    requires SmokeJar(pairs, host, secureOk) && CleanHost(host)
    ensures Render(CutBut(pairs, names)) == Render(pairs) <==> !Cuts(pairs, names)
  {
    hide SplitLines, RenderLine, Render, CutCookie, SmokeJar;
    var cut := CutBut(pairs, names);
    if Cuts(pairs, names) {
      var e :| e in pairs && e.key !in names && '\t' in e.value.value;
      var i :| 0 <= i < |pairs| && pairs[i] == e;
      CutIsShorter(e.key, e.value);
      CutSmoke(pairs, names, host, secureOk);
      SmokeRendered(pairs, host, secureOk);
      SmokeRendered(cut, host, secureOk);
      assert RenderLines(cut)[i] != RenderLines(pairs)[i];
      assert ([HEADER] + RenderLines(cut))[i + 1] != ([HEADER] + RenderLines(pairs))[i + 1];
    } else {
      forall i | 0 <= i < |pairs|
        ensures cut[i] == pairs[i]
      {
        assert pairs[i] in pairs;
        CutIsShorter(pairs[i].key, pairs[i].value);
      }
      assert cut == pairs;
    }
  }

  /** What the last text about a name asks for. */
  function LastChange(items: seq<string>, name: string, host: string, secureOk: bool): Change {
    if items == [] then Nothing
    else
      var change := ChangeOf(items[|items| - 1], host, secureOk);
      if !change.Nothing? && change.name == name then change
      else LastChange(items[..|items| - 1], name, host, secureOk)
  }

  lemma {:induction false} ApplyDistinct(pairs: Jar, items: seq<string>, host: string, secureOk: bool)
    requires Distinct(pairs)
    ensures Distinct(ApplyAll(pairs, items, host, secureOk))
  {
    hide ChangeOf;
    if items != [] {
      var k := |items| - 1;
      ApplyDistinct(pairs, items[..k], host, secureOk);
      match ChangeOf(items[k], host, secureOk) {
        case Nothing =>
        case Drop(name) => RemoveDistinct(ApplyAll(pairs, items[..k], host, secureOk), name);
        case Store(name, c) => PutDistinct(ApplyAll(pairs, items[..k], host, secureOk), name, c);
      }
    }
  }

  /** Ingesting is a map update with deletion in which the last word on each name wins. */
  lemma {:induction false} LastWriteWins(pairs: Jar, items: seq<string>, name: string, host: string, secureOk: bool)
    requires Distinct(pairs)
    ensures Get(ApplyAll(pairs, items, host, secureOk), name) ==
            match LastChange(items, name, host, secureOk)
            case Nothing => Get(pairs, name)
            case Drop(_) => None
            case Store(_, c) => Some(c)
  {
    hide ChangeOf;
    if items != [] {
      var k := |items| - 1;
      var before := ApplyAll(pairs, items[..k], host, secureOk);
      LastWriteWins(pairs, items[..k], name, host, secureOk);
      ApplyDistinct(pairs, items[..k], host, secureOk);
      match ChangeOf(items[k], host, secureOk) {
        case Nothing =>
        case Drop(n) => RemoveGet(before, n, name);
        case Store(n, c) => PutGet(before, n, c, name);
      }
    }
  }

  lemma {:induction false} UntouchedIsNothing(items: seq<string>, name: string, host: string, secureOk: bool)
    ensures name in Touched(items, host, secureOk) <==> !LastChange(items, name, host, secureOk).Nothing?
  {
    hide ChangeOf;
    if items != [] {
      UntouchedIsNothing(items[..|items| - 1], name, host, secureOk);
    }
  }

  /** What a batch has no word on is cut after it if and only if it was before. */
  lemma CutsSurvive(pairs: Jar, items: seq<string>, host: string, secureOk: bool)
    requires Distinct(pairs)
    ensures var names := Touched(items, host, secureOk);
            Cuts(ApplyAll(pairs, items, host, secureOk), names) <==> Cuts(pairs, names)
  {
    hide ApplyAll, Touched, LastChange, Distinct;
    var after, names := ApplyAll(pairs, items, host, secureOk), Touched(items, host, secureOk);
    ApplyDistinct(pairs, items, host, secureOk);
    forall e: Entry<string, Cookie> | e.key !in names
      ensures e in after <==> e in pairs
    {
      UntouchedIsNothing(items, e.key, host, secureOk);
      LastWriteWins(pairs, items, e.key, host, secureOk);
      InJar(pairs, e);
      InJar(after, e);
    }
  }

  lemma InJar(pairs: Jar, e: Entry<string, Cookie>)
    requires Distinct(pairs)
    ensures e in pairs <==> Get(pairs, e.key) == Some(e.value)
  {
    hide Distinct;
    if e in pairs {
      DistinctGet(pairs, e);
    }
    GetFinds(pairs, e.key);
  }

  /**
   * Ingesting two header batches one after the other prints the same jar as ingesting both at once,
   * exactly when every cookie that the first batch leaves with a tab in its value is stored again or
   * dropped by the second.
   */
  lemma IngestTwice(jar: string, first: string, second: string, host: string, secureOk: bool)
    requires CleanHost(host) && TabFreeNames(Left(jar, first, host, secureOk))
    requires first == "" || first[|first| - 1] == '\n'
    ensures var inTurn := Ingest(Ingest(jar, first, host, secureOk), second, host, secureOk);
            inTurn == Ingest(jar, first + second, host, secureOk) <==>
              !Cuts(Left(jar, first, host, secureOk), Touched(SetCookies(second), host, secureOk))
  {
    hide Known, ApplyAll, SplitLines, CookieTexts, Render, SmokeJar, CutBut, Cuts, Touched, TabFreeNames;
    var p, items := Left(jar, first, host, secureOk), SetCookies(second);
    LeftIsSmoke(jar, first, host, secureOk);
    KnownOfRender(p, host, secureOk);
    assert Distinct(p) by {
      SmokeIsDistinct(p, host, secureOk);
    }
    CutApply(p, items, host, secureOk);
    CutsSurvive(p, items, host, secureOk);
    CookieTextsOneLine(SplitLines(second));
    ApplyKeeps(p, items, host, secureOk);
    CutPrints(ApplyAll(p, items, host, secureOk), Touched(items, host, secureOk), host, secureOk);
    SplitLinesConcat(first, second);
    CookieTextsConcat(SplitLines(first), SplitLines(second));
    ApplyConcat(Known(jar, host, secureOk), SetCookies(first), items, host, secureOk);
  }

  lemma SmokeIsDistinct(pairs: Jar, host: string, secureOk: bool)
    requires SmokeJar(pairs, host, secureOk)
    ensures Distinct(pairs)
  {
  }

  const TABBED := "a=b\tc"

  lemma TabbedChange(host: string)
    ensures ChangeOf(TABBED, host, true) == Store("a", Cookie(false, host, "TRUE", EXPIRES, "b\tc"))
  {
    hide PySpace, LastAttr, AttrKey, Expired, Split, IndexOf;
    assert !PySpace('a') && !PySpace('c') by {
      LettersStay();
    }
    SplitWhole(TABBED, ';');
    assert TABBED[0] == 'a' && TABBED[4] == 'c';
    assert Trim(TABBED, PySpace) == TABBED;
    IndexOfAfter("a", '=', "b\tc");
    assert TABBED == "a" + "=" + "b\tc";
    assert Chunks(TABBED) == [TABBED] && TABBED[..1] == "a" && TABBED[2..] == "b\tc" && TABBED[1] == '=';
    assert Chunks(TABBED)[1..] == [] && !HasAttr([], "httponly");
    assert Before1(TABBED, '=') == "a" && After1(TABBED, '=') == "b\tc";
    assert !Expired("b\tc", []) by {
      NeverExpires("b\tc");
    }
  }

  lemma LettersStay()
    ensures !PySpace('a') && !PySpace('c') && !PySpace('s') && PySpace(' ')
  {
  }

  lemma NeverExpires(value: string)
    requires value != ""
    ensures !Expired(value, [])
  {
  }

  const TABBED_LINE := "set-cookie: a=b\tc"

  lemma TabbedLower()
    ensures SET_COOKIE <= Lower(TABBED_LINE) && ':' in TABBED_LINE
  {
    assert TABBED_LINE[10] == ':';
    assert Lower(TABBED_LINE)[..11] == SET_COOKIE;
  }

  lemma TabbedAfter()
    ensures After1(TABBED_LINE, ':') == " a=b\tc"
  {
    hide IndexOf;
    IndexOfAfter("set-cookie", ':', " a=b\tc");
    assert TABBED_LINE == "set-cookie" + ":" + " a=b\tc" && TABBED_LINE[10] == ':';
  }

  lemma TabbedTrim()
    ensures Trim(" a=b\tc", PySpace) == TABBED
  {
    hide PySpace;
    LettersStay();
    var text := " a=b\tc";
    assert text[1..] == TABBED && TABBED[0] == 'a' && TABBED[4] == 'c' && text[0] == ' ';
    assert TrimLeft(text, PySpace) == TrimLeft(TABBED, PySpace) == TABBED;
  }

  lemma TabbedText()
    ensures OneLine(TABBED_LINE) && CookieText(TABBED_LINE) == Some(TABBED)
  {
    hide Trim, Lower, After1;
    TabbedLower();
    TabbedAfter();
    TabbedTrim();
  }

  lemma TabbedHeader()
    ensures SetCookies(TABBED_LINE + "\n") == [TABBED]
  {
    hide CookieText, SplitLines;
    TabbedText();
    SplitOneLine(TABBED_LINE, "");
    NoLines();
    assert TABBED_LINE + "\n" + "" == TABBED_LINE + "\n";
    assert [TABBED_LINE][..0] == [];
    assert CookieTexts([TABBED_LINE]) == CookieTexts([]) + [TABBED] == [TABBED];
  }

  lemma NoTexts()
    ensures CookieTexts([]) == []
  {
  }

  /** A value with a tab: an empty second batch already changes the jar. */
  lemma TabbedValueCut(host: string)
    requires CleanHost(host)
    ensures var first := TABBED_LINE + "\n";
            Ingest(Ingest("", first, host, true), "", host, true) != Ingest("", first + "", host, true)
  {
    hide ChangeOf, Ingest, SplitLines, CookieTexts, Render;
    var first := TABBED_LINE + "\n";
    TabbedChange(host);
    TabbedHeader();
    NoLines();
    assert Known("", host, true) == [];
    var e := Entry("a", Cookie(false, host, "TRUE", EXPIRES, "b\tc"));
    assert [TABBED][..0] == [];
    assert ApplyAll([], [TABBED], host, true) == Changed(ApplyAll([], [], host, true),
        ChangeOf(TABBED, host, true)) == Put([], "a", e.value);
    assert Left("", first, host, true) == [e];
    NoTexts();
    assert SetCookies("") == [];
    assert e in [e] && Cuts([e], {});
    IngestTwice("", first, "", host, true);
  }

  /** Whatever a jar text holds, no tab is read into a name or a value. */
  lemma {:induction false} ReadTabFree(lines: seq<string>)
    ensures TabFreeNames(PairsOf(lines)) && TabFreeValues(PairsOf(lines))
  {
    hide ParseLine;
    if lines != [] {
      var k := |lines| - 1;
      ReadTabFree(lines[..k]);
      ParsedTabFree(lines[k]);
      if ParseLine(lines[k]).Some? {
        PutMembers(PairsOf(lines[..k]), ParseLine(lines[k]).value.0, ParseLine(lines[k]).value.1);
      }
    }
  }

  lemma ParsedTabFree(line: string)
    ensures ParseLine(line).Some? ==> '\t' !in ParseLine(line).value.0 && '\t' !in ParseLine(line).value.1.value
  {
    hide Split, Trim, TrimLeft;
  }

  /**
   * After an ingest the jar on disk holds exactly the updated pairs, so the Cookie header sends just
   * those, if and only if none of their names and values has a tab.
   */
  lemma IngestedJarReads(jar: string, headers: string, host: string, secureOk: bool)
    requires CleanHost(host)
    ensures var left := Left(jar, headers, host, secureOk);
            Pairs(Ingest(jar, headers, host, secureOk)) == left <==> TabFreeNames(left) && TabFreeValues(left)
  {
    hide Known, ApplyAll, CookieTexts, PairsOf, SplitLines, Render, PlainCookie, SmokeJar, TabFreeNames, TabFreeValues;
    var p := Left(jar, headers, host, secureOk);
    LeftIsSmoke(jar, headers, host, secureOk);
    ReadTabFree(SplitLines(Render(p)));
    AlignedIsTabFree(p, host, secureOk);
    NoHash(host);
    if TabFreeNames(p) && TabFreeValues(p) {
      JarRoundTrip(p);
    }
  }
}
