/** What single headers and lines come to: expiry, flags, and the fields that aligning keeps. */
module CookieHeaders {
  import opened Text
  import opened OrderedMap
  import opened CookieJar
  import opened CookieTheorems

  /** The attribute that counts is the last one of its name. */
  lemma {:induction false} LastAttrIs(chunks: seq<string>, key: string)
    ensures match LastAttr(chunks, key)
            case None => forall c :: c in chunks ==> AttrKey(c) != key
            case Some(v) => exists i :: 0 <= i < |chunks| && AttrKey(chunks[i]) == key && v == AttrValue(chunks[i])
                              && forall j :: i < j < |chunks| ==> AttrKey(chunks[j]) != key
  {
    hide AttrKey, AttrValue;
    if chunks != [] && AttrKey(chunks[|chunks| - 1]) != key {
      LastAttrIs(chunks[..|chunks| - 1], key);
      assert chunks == chunks[..|chunks| - 1] + [chunks[|chunks| - 1]];
    }
  }

  /** A number as it is written. */
  function Numeral(k: int): string {
    if k < 0 then "-" + Digits(-k) else Digits(k)
  }

  lemma NumeralReads(k: int)
    ensures ParseInt(Numeral(k)) == Some(k)
    ensures Numeral(k) != "" && forall c :: c in Numeral(k) ==> c == '-' || IsDigit(c)
  {
    hide Digits, ValueOf;
    var n: nat := if k < 0 then -k else k;
    ValueOfDigits(n);
    assert Digits(n)[0] in Digits(n);
    if k < 0 {
      assert ("-" + Digits(n))[1..] == Digits(n);
    }
  }

  /** A text that neither starts nor ends with white space. */
  predicate Solid(s: string) {
    s != "" && !PySpace(s[0]) && !PySpace(s[|s| - 1])
  }

  lemma NumeralSolid(k: int)
    ensures Solid(Numeral(k))
  {
    NumeralReads(k);
    assert Numeral(k)[0] in Numeral(k) && Numeral(k)[|Numeral(k)| - 1] in Numeral(k);
  }

  lemma SolidStays(s: string)
    requires Solid(s)
    ensures Trim(s, PySpace) == s && Trim(" " + s, PySpace) == s
  {
    hide PySpace;
    assert PySpace(' ') by {
      SpaceIsSpace();
    }
    TrimOuter(" ", s, "", PySpace);
    assert " " + s + "" == " " + s;
  }

  lemma SpaceIsSpace()
    ensures PySpace(' ')
  {
  }

  /** An attribute as it is sent: a name in any case, and its value. */
  lemma AttrReads(key: string, value: string)
    requires '=' !in key && Solid(key) && Solid(value)
    ensures AttrKey(key + "=" + value) == Lower(key) && AttrValue(key + "=" + value) == value
    ensures AttrKey(key) == Lower(key) && AttrValue(key) == "1"
  {
    hide PySpace, IndexOf;
    var chunk := key + "=" + value;
    assert chunk == key + ['='] + value && chunk[|key|] == '=';
    IndexOfAfter(key, '=', value);
    assert chunk[..|key|] == key && chunk[|key| + 1..] == value;
    SolidStays(key);
    SolidStays(value);
    WholeKey(key);
  }

  lemma WholeKey(key: string)
    requires '=' !in key
    ensures IndexOf(key, '=') == |key| && Before1(key, '=') == key
  {
    assert key[..|key|] == key;
  }

  /** A text "n=v; a" is its pair and one attribute. */
  lemma TwoChunks(pair: string, attr: string)
    requires ';' !in pair && ';' !in attr && Solid(pair) && Solid(attr)
    ensures Chunks(pair + "; " + attr) == [pair, attr]
  {
    hide PySpace, Split, Trim;
    var item := pair + "; " + attr;
    assert item == pair + [';'] + (" " + attr);
    SplitFirst(pair, ';', " " + attr);
    SplitWhole(" " + attr, ';');
    SolidStays(pair);
    SolidStays(attr);
    assert Split(item, ';') == [pair, " " + attr];
  }

  const MAX_AGE := "Max-Age"

  lemma MaxAgeKey()
    ensures Lower(MAX_AGE) == "max-age" && Solid(MAX_AGE) && '=' !in MAX_AGE && ';' !in MAX_AGE
  {
    assert forall i :: 0 <= i < 7 ==> Lower(MAX_AGE)[i] == "max-age"[i];
  }

  /**
   * The attributes decide by the last max-age alone: a number above zero keeps the cookie, any other
   * number drops it.
   */
  lemma ExpiryIs(value: string, chunks: seq<string>)
    ensures Expired(value, chunks) <==>
              || value == ""
              || exists i, k :: 0 <= i < |chunks| && AttrKey(chunks[i]) == "max-age"
                   && (forall j :: i < j < |chunks| ==> AttrKey(chunks[j]) != "max-age")
                   && ParseInt(AttrValue(chunks[i])) == Some(k) && k <= 0
  {
    hide AttrKey, AttrValue, ParseInt, LastAttr;
    LastAttrIs(chunks, "max-age");
  }

  /** `n=v; Max-Age=k`: stored with its value when k is above zero, dropped otherwise. */
  lemma MaxAgeHeader(name: string, value: string, k: int, host: string, secureOk: bool)
    requires '=' !in name && ';' !in name && ';' !in value && Solid(name) && Solid(value)
    ensures ChangeOf(name + "=" + value + "; " + MAX_AGE + "=" + Numeral(k), host, secureOk) ==
              if k <= 0 then Drop(name)
              else Store(name, Cookie(false, host, if secureOk then "TRUE" else "FALSE", "1893456000", value))
  {
    hide PySpace, Split, Trim, IndexOf, AttrKey, AttrValue, Numeral, ParseInt, Expired, Lower, Solid;
    var pair, attr := name + "=" + value, MAX_AGE + "=" + Numeral(k);
    NumeralReads(k);
    NumeralSolid(k);
    MaxAgeKey();
    AttrReads(MAX_AGE, Numeral(k));
    SolidPair(name, value);
    SolidPair(MAX_AGE, Numeral(k));
    TwoChunks(pair, attr);
    assert name + "=" + value + "; " + MAX_AGE + "=" + Numeral(k) == pair + "; " + attr;
    PairReads(name, value);
    OneAttr(value, attr, k);
    assert [pair, attr][1..] == [attr];
    NotHttpOnly();
  }

  lemma NotHttpOnly()
    ensures "max-age" != "httponly"
  {
    assert "max-age"[0] != "httponly"[0];
  }

  lemma OneAttr(value: string, attr: string, k: int)
    requires Solid(value) && AttrKey(attr) == "max-age" && ParseInt(AttrValue(attr)) == Some(k)
    ensures Expired(value, [attr]) <==> k <= 0
  {
    hide AttrKey, AttrValue, ParseInt, PySpace;
    assert [attr][..0] == [];
  }

  lemma SolidPair(a: string, b: string)
    requires Solid(a) && Solid(b)
    ensures Solid(a + "=" + b)
  {
    hide PySpace;
  }

  lemma PairReads(name: string, value: string)
    requires '=' !in name
    ensures var pair := name + "=" + value;
            '=' in pair && Before1(pair, '=') == name && After1(pair, '=') == value
  {
    hide IndexOf;
    var pair := name + "=" + value;
    assert pair == name + ['='] + value && pair[|name|] == '=';
    IndexOfAfter(name, '=', value);
  }

  /** Of two ages the second counts. */
  lemma LastAgeCounts(value: string, first: string, a: int, b: int)
    requires Solid(value)
    ensures Expired(value, [MAX_AGE + "=" + Numeral(a), first, MAX_AGE + "=" + Numeral(b)]) <==> b <= 0
  {
    hide PySpace, AttrKey, AttrValue, Numeral, ParseInt, Lower;
    NumeralReads(b);
    NumeralSolid(b);
    MaxAgeKey();
    AttrReads(MAX_AGE, Numeral(b));
    var chunks := [MAX_AGE + "=" + Numeral(a), first, MAX_AGE + "=" + Numeral(b)];
    assert LastAttr(chunks, "max-age") == Some(Numeral(b));
  }

  /** A jar after such a header holds the cookie exactly when its age is above zero. */
  lemma AgedCookie(pairs: Jar, name: string, value: string, k: int, host: string, secureOk: bool)
    requires Distinct(pairs) && '=' !in name && ';' !in name && ';' !in value && Solid(name) && Solid(value)
    ensures var item := name + "=" + value + "; " + MAX_AGE + "=" + Numeral(k);
            var got := Get(ApplyAll(pairs, [item], host, secureOk), name);
            (got.Some? <==> k > 0) && (k > 0 ==> got.value.value == value && got.value.host == host)
  {
    hide ChangeOf, Solid, Numeral, Distinct;
    var item := name + "=" + value + "; " + MAX_AGE + "=" + Numeral(k);
    MaxAgeHeader(name, value, k, host, secureOk);
    LastWriteWins(pairs, [item], name, host, secureOk);
    assert [item][..0] == [];
  }

  /** `n=v; HttpOnly`, in any case: stored as a cookie scripts cannot read. */
  lemma HttpOnlyHeader(name: string, value: string, flag: string, host: string, secureOk: bool)
    requires '=' !in name && ';' !in name && ';' !in value && Solid(name) && Solid(value)
    requires Solid(flag) && '=' !in flag && ';' !in flag && Lower(flag) == "httponly"
    ensures ChangeOf(name + "=" + value + "; " + flag, host, secureOk) ==
              Store(name, Cookie(true, host, if secureOk then "TRUE" else "FALSE", "1893456000", value))
  {
    hide PySpace, Split, Trim, IndexOf, AttrKey, AttrValue, Expired, Lower, Solid;
    var pair := name + "=" + value;
    AttrReads(flag, flag);
    SolidPair(name, value);
    TwoChunks(pair, flag);
    assert name + "=" + value + "; " + flag == pair + "; " + flag;
    PairReads(name, value);
    assert [pair, flag][1..] == [flag];
    NotHttpOnly();
    NoAge(value, flag);
  }

  lemma NoAge(value: string, attr: string)
    requires Solid(value) && AttrKey(attr) != "max-age"
    ensures !Expired(value, [attr])
  {
    hide AttrKey, AttrValue, ParseInt, PySpace;
    assert [attr][..0] == [];
    assert LastAttr([attr], "max-age") == LastAttr([], "max-age") == None;
  }

  // Aligning keeps the cookies.

  function Realigned(c: Cookie, host: string, secureOk: bool): Cookie {
    Cookie(c.httpOnly, host, if secureOk then c.secure else "FALSE", c.expires, c.value)
  }

  /** A line that reads as a cookie reads as the same cookie of the smoke host when it is aligned. */
  lemma AlignKeepsCookie(line: string, host: string, secureOk: bool)
    requires OneLine(line) && CleanHost(host) && ParseLine(line).Some?
    ensures var (name, c) := ParseLine(line).value;
            ParseLine(AlignLine(line, host, secureOk)) == Some((name, Realigned(c, host, secureOk)))
  {
    hide Join, Split, PySpace, TrimLeft, TrimRight;
    var httpOnly, parts := HTTP_ONLY <= line, Split(Body(line), '\t');
    if Trim(line, PySpace) == "" || ("#" <= Trim(line, PySpace) && !httpOnly) {
      BlankOrComment(line);
    } else {
      var moved := parts[0 := host][1 := "FALSE"];
      var all := if secureOk then moved else moved[3 := "FALSE"];
      OneLinePieces(Body(line), '\t');
      assert Plain("FALSE");
      forall p | p in all
        ensures Plain(p)
      {
        assert p in parts || p == host || p == "FALSE";
      }
      MovedStays(all, httpOnly, host, secureOk);
    }
  }

  /** A line that reads as no cookie reads as none when aligned, unless it is blank behind the HttpOnly mark. */
  lemma AlignAddsNoCookie(line: string, host: string, secureOk: bool)
    requires OneLine(line) && CleanHost(host) && ParseLine(line).None?
    requires HTTP_ONLY <= line ==> Trim(Body(line), PySpace) != ""
    ensures ParseLine(AlignLine(line, host, secureOk)).None?
  {
    hide Join, Split, PySpace;
    if !(HTTP_ONLY <= line) {
      BodyOfPlain(line);
      var left := TrimLeft(line, PySpace);
      if left != "" {
        TrimRightKeeps(left);
      }
    }
  }

  function RealignedAll(pairs: Jar, host: string, secureOk: bool): (r: Jar)
    ensures |r| == |pairs|
  {
    seq(|pairs|, i requires 0 <= i < |pairs| => Entry(pairs[i].key, Realigned(pairs[i].value, host, secureOk)))
  }

  lemma {:induction false} RealignPut(pairs: Jar, name: string, c: Cookie, host: string, secureOk: bool)
    ensures RealignedAll(Put(pairs, name, c), host, secureOk) ==
              Put(RealignedAll(pairs, host, secureOk), name, Realigned(c, host, secureOk))
  {
    hide Realigned;
    if pairs != [] {
      var moved := RealignedAll(pairs, host, secureOk);
      assert moved[1..] == RealignedAll(pairs[1..], host, secureOk);
      if pairs[0].key != name {
        RealignPut(pairs[1..], name, c, host, secureOk);
        assert Put(pairs, name, c)[1..] == Put(pairs[1..], name, c);
        assert RealignedAll(Put(pairs, name, c), host, secureOk)[1..] ==
            RealignedAll(Put(pairs[1..], name, c), host, secureOk);
      } else {
        assert Put(pairs, name, c)[1..] == pairs[1..];
      }
    }
  }

  lemma {:induction false} AlignedPairsOf(lines: seq<string>, host: string, secureOk: bool)
    requires CleanHost(host)
    requires forall l :: l in lines ==> OneLine(l) && (HTTP_ONLY <= l ==> Trim(Body(l), PySpace) != "")
    ensures PairsOf(AlignLines(lines, host, secureOk)) == RealignedAll(PairsOf(lines), host, secureOk)
  {
    hide AlignLine, ParseLine, Trim, Realigned, Put, Body;
    if lines != [] {
      var front, last := lines[..|lines| - 1], lines[|lines| - 1];
      assert lines == front + [last];
      AlignedPairsOf(front, host, secureOk);
      assert AlignLines(lines, host, secureOk) == AlignLines(front, host, secureOk) + [AlignLine(last, host, secureOk)];
      PairsSnoc(front, last);
      PairsSnoc(AlignLines(front, host, secureOk), AlignLine(last, host, secureOk));
      if ParseLine(last).Some? {
        var (name, c) := ParseLine(last).value;
        AlignKeepsCookie(last, host, secureOk);
        RealignPut(PairsOf(front), name, c, host, secureOk);
      } else {
        AlignAddsNoCookie(last, host, secureOk);
      }
    }
  }

  /**
   * Aligning a jar keeps its cookies in their order, with their values and expiries, and moves them to the
   * smoke host.
   */
  lemma AlignKeepsJar(text: string, host: string, secureOk: bool)
    requires CleanHost(host)
    requires forall l :: l in SplitLines(text) && HTTP_ONLY <= l ==> Trim(Body(l), PySpace) != ""
    ensures Pairs(Align(text, host, secureOk)) == RealignedAll(Pairs(text), host, secureOk)
  {
    hide SplitLines, AlignLines, PairsOf, Trim, Body;
    AlignedLines(text, host, secureOk);
    AlignedPairsOf(SplitLines(text), host, secureOk);
  }

  // The file and the header as they are written.

  lemma JoinMore(front: seq<string>, last: string, text: string)
    requires front != [] && Join(front, "\t") == text
    ensures Join(front + [last], "\t") == text + "\t" + last
  {
    JoinAppend(front, [last]);
    JoinAlone(last);
  }

  lemma FrontFormat(name: string, c: Cookie)
    ensures Join(FrontFields(name, c), "\t") ==
              c.host + "\t" + "FALSE" + "\t" + "/" + "\t" + c.secure + "\t" + c.expires + "\t" + name
  {
    hide Join;
    var two := [c.host] + ["FALSE"];
    var three := two + ["/"];
    var four := three + [c.secure];
    var five := four + [c.expires];
    assert FrontFields(name, c) == five + [name];
    JoinAlone(c.host);
    JoinMore([c.host], "FALSE", c.host);
    JoinMore(two, "/", Join(two, "\t"));
    JoinMore(three, c.secure, Join(three, "\t"));
    JoinMore(four, c.expires, Join(four, "\t"));
    JoinMore(five, name, Join(five, "\t"));
  }

  /** A printed cookie: seven fields with tabs between them, behind the mark when scripts may not read it. */
  lemma LineFormat(name: string, c: Cookie)
    ensures var line := c.host + "\t" + "FALSE" + "\t" + "/" + "\t" + c.secure + "\t" + c.expires + "\t" + name
                        + "\t" + c.value;
            RenderLine(name, c) == (if c.httpOnly then "#HttpOnly_" else "") + line
  {
    hide Join;
    ValueLast(name, c);
    FrontFormat(name, c);
  }

  /** A jar without cookies is its header line alone. */
  lemma EmptyJarFormat()
    ensures Render([]) == "# Netscape HTTP Cookie File\n"
  {
    EmptyJar();
  }

  /** The Cookie header names each cookie of the jar with its value. */
  lemma HeaderNames(pairs: Jar, i: nat)
    requires i < |pairs|
    ensures HeaderParts(pairs)[i] == pairs[i].key + "=" + pairs[i].value.value
  {
  }

  /** Text without a line end is one line; a carriage return with a line feed ends one line, not two. */
  lemma LinesOfText(a: string, b: string)
    requires OneLine(a)
    ensures a != "" ==> SplitLines(a) == [a]
    ensures SplitLines(a + "\r\n" + b) == [a] + SplitLines(b)
  {
    NoBreak(a);
    var s := a + "\r\n" + b;
    assert s[|a|] == '\r' && s[|a| + 1] == '\n';
    assert forall k :: 0 <= k < |a| ==> s[k] == a[k];
    assert forall k :: 0 <= k < BreakIndex(s) ==> s[k] in s[..BreakIndex(s)];
    assert s[..|a|] == a && s[|a| + 2..] == b;
  }

  lemma NoBreak(a: string)
    requires OneLine(a)
    ensures BreakIndex(a) == |a|
  {
  }

  /** Line ends are those of `str.splitlines`, and white space that of `str.strip`. */
  lemma CharacterClasses(c: char)
    ensures IsBreak(c) <==> c as int in {10, 11, 12, 13, 28, 29, 30, 133, 8232, 8233}
    ensures PySpace(c) <==>
              IsBreak(c) || c as int in {9, 31, 32, 160, 5760, 8239, 8287, 12288} || 8192 <= c as int <= 8202
  {
  }
}
