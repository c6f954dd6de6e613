/**
 * The cookie jar of align-smoke-cookie-jar.py: reading, printing and aligning a Netscape cookie
 * file, and folding Set-Cookie headers into it (a simplified form of section 5.2 of RFC 6265).
 * `host` and `secureOk` are what the base URL says.
 */
module CookieJar {
  import opened Text
  import opened OrderedMap

  datatype Cookie = Cookie(httpOnly: bool, host: string, secure: string, expires: string, value: string)

  type Jar = seq<Entry<string, Cookie>>

  const HTTP_ONLY := "#HttpOnly_"
  const HEADER := "# Netscape HTTP Cookie File"
  const EXPIRES := "1893456000"

  /** White space as `str.strip` knows it. */
  predicate PySpace(c: char) {
    var k := c as int;
    9 <= k <= 13 || 0x1c <= k <= 0x20 || k == 0x85 || k == 0xa0 || k == 0x1680 || 0x2000 <= k <= 0x200a
    || k == 0x2028 || k == 0x2029 || k == 0x202f || k == 0x205f || k == 0x3000
  }

  /** Line ends as `str.splitlines` knows them. */
  predicate IsBreak(c: char) {
    var k := c as int;
    10 <= k <= 13 || 0x1c <= k <= 0x1e || k == 0x85 || k == 0x2028 || k == 0x2029
  }

  predicate OneLine(s: string) {
    forall c :: c in s ==> !IsBreak(c)
  }

  function BreakIndex(s: string): (i: nat)
    ensures i <= |s| && OneLine(s[..i]) && (i < |s| ==> IsBreak(s[i]))
  {
    if s == "" || IsBreak(s[0]) then 0
    else
      var i := BreakIndex(s[1..]) + 1;
      assert s[..i] == [s[0]] + s[1..][..i - 1];
      i
  }

  /** `str.splitlines`: a carriage return and line feed count as one end, and the last end opens no line. */
  function SplitLines(s: string): (lines: seq<string>)
    ensures forall l :: l in lines ==> OneLine(l)
  {
    if s == "" then []
    else
      var i := BreakIndex(s);
      if i == |s| then
        assert s[..i] == s;
        [s]
      else if s[i] == '\r' && i + 1 < |s| && s[i + 1] == '\n' then [s[..i]] + SplitLines(s[i + 2..])
      else [s[..i]] + SplitLines(s[i + 1..])
  }

  // Reading and printing.

  function Body(line: string): string {
    if HTTP_ONLY <= line then line[|HTTP_ONLY|..] else line
  }

  /** One line of a jar; None for blank lines, comments and lines with too few fields. */
  function ParseLine(line: string): Option<(string, Cookie)> {
    var httpOnly, body := HTTP_ONLY <= line, Body(line);
    if Trim(body, PySpace) == "" || (!httpOnly && "#" <= TrimLeft(body, PySpace)) then None
    else
      var parts := Split(body, '\t');
      if |parts| < 7 then None else Some((parts[5], Cookie(httpOnly, parts[0], parts[3], parts[4], parts[6])))
  }

  function PairsOf(lines: seq<string>): Jar {
    if lines == [] then []
    else
      var found := PairsOf(lines[..|lines| - 1]);
      match ParseLine(lines[|lines| - 1]) case None => found case Some((name, cookie)) => Put(found, name, cookie)
  }

  function Pairs(text: string): Jar {
    PairsOf(SplitLines(text))
  }

  /** `jar_pairs`. */
  method JarPairs(text: string) returns (found: Jar)
    ensures found == Pairs(text)
  {
    hide TrimLeft, Trim, Split, PySpace, SplitLines;
    var lines := SplitLines(text);
    found := [];
    for i := 0 to |lines|
      invariant found == PairsOf(lines[..i])
    {
      assert lines[..i + 1][..i] == lines[..i];
      var httpOnly := HTTP_ONLY <= lines[i];
      var body := if httpOnly then lines[i][|HTTP_ONLY|..] else lines[i];
      if !(Trim(body, PySpace) == "" || (!httpOnly && "#" <= TrimLeft(body, PySpace))) {
        var parts := Split(body, '\t');
        if |parts| >= 7 {
          found := Put(found, parts[5], Cookie(httpOnly, parts[0], parts[3], parts[4], parts[6]));
        }
      }
    }
    assert lines[..|lines|] == lines;
  }

  /** The tab-separated fields of a printed cookie. */
  function Fields(name: string, c: Cookie): seq<string> {
    [c.host, "FALSE", "/", c.secure, c.expires, name, c.value]
  }

  function RenderLine(name: string, c: Cookie): string {
    (if c.httpOnly then HTTP_ONLY else "") + Join(Fields(name, c), "\t")
  }

  function RenderLines(pairs: Jar): (lines: seq<string>)
    ensures |lines| == |pairs|
  {
    seq(|pairs|, i requires 0 <= i < |pairs| => RenderLine(pairs[i].key, pairs[i].value))
  }

  function Render(pairs: Jar): string {
    Join([HEADER] + RenderLines(pairs), "\n") + "\n"
  }

  /** `render_jar`. */
  method RenderJar(pairs: Jar) returns (text: string)
    ensures text == Render(pairs)
  {
    hide Join;
    var lines := [HEADER];
    for i := 0 to |pairs|
      invariant lines == [HEADER] + RenderLines(pairs)[..i]
    {
      var c := pairs[i].value;
      var line := Join([c.host, "FALSE", "/", c.secure, c.expires, pairs[i].key, c.value], "\t");
      lines := lines + [if c.httpOnly then HTTP_ONLY + line else line];
      assert "" + line == line;
    }
    assert lines == [HEADER] + RenderLines(pairs);
    text := Join(lines, "\n") + "\n";
  }

  // Aligning.

  function AlignLine(line: string, host: string, secureOk: bool): string {
    var stripped, httpOnly := Trim(line, PySpace), HTTP_ONLY <= line;
    if stripped == "" || ("#" <= stripped && !httpOnly) then line
    else
      var parts := Split(Body(line), '\t');
      if |parts| < 7 then line
      else
        var moved := parts[0 := host][1 := "FALSE"];
        (if httpOnly then HTTP_ONLY else "") + Join(if secureOk then moved else moved[3 := "FALSE"], "\t")
  }

  function AlignLines(lines: seq<string>, host: string, secureOk: bool): (out: seq<string>)
    ensures |out| == |lines|
  {
    seq(|lines|, i requires 0 <= i < |lines| => AlignLine(lines[i], host, secureOk))
  }

  function Align(text: string, host: string, secureOk: bool): string {
    var out := AlignLines(SplitLines(text), host, secureOk);
    if out == [] then "" else Join(out, "\n") + "\n"
  }

  /** `align_jar`. */
  method AlignJar(text: string, host: string, secureOk: bool) returns (aligned: string)
    ensures aligned == Align(text, host, secureOk)
  {
    hide TrimLeft, Trim, Split, PySpace, SplitLines, Join;
    var lines := SplitLines(text);
    var out: seq<string> := [];
    for i := 0 to |lines|
      invariant out == AlignLines(lines, host, secureOk)[..i]
    {
      ghost var before := out;
      var line := lines[i];
      var stripped := Trim(line, PySpace);
      var httpOnly := HTTP_ONLY <= line;
      if stripped == "" || ("#" <= stripped && !httpOnly) {
        out := out + [line];
      } else {
        var body := if httpOnly then line[|HTTP_ONLY|..] else line;
        var parts := Split(body, '\t');
        if |parts| < 7 {
          out := out + [line];
        } else {
          parts := parts[0 := host];
          parts := parts[1 := "FALSE"];
          if !secureOk {
            parts := parts[3 := "FALSE"];
          }
          var rebuilt := Join(parts, "\t");
          assert "" + rebuilt == rebuilt;
          out := out + [if httpOnly then HTTP_ONLY + rebuilt else rebuilt];
        }
      }
      assert out == before + [AlignLine(line, host, secureOk)];
    }
    aligned := Join(out, "\n") + (if |out| > 0 then "\n" else "");
    assert out == AlignLines(lines, host, secureOk);
    if out == [] {
      EmptyJoin();
    }
  }

  lemma EmptyJoin()
    ensures Join([], "\n") + "" == ""
  {
  }

  // Set-Cookie headers.

  /** Text before and after the first separator. */
  function Before1(s: string, c: char): string {
    s[..IndexOf(s, c)]
  }

  function After1(s: string, c: char): string
    requires c in s
  {
    s[IndexOf(s, c) + 1..]
  }

  /** `int(text)` for a signed run of digits; None where it raises. */
  function ParseInt(s: string): Option<int> {
    var digits := if s != "" && (s[0] == '+' || s[0] == '-') then s[1..] else s;
    if digits == "" || !AllDigits(digits) then None
    else if s[0] == '-' then Some(-(ValueOf(digits) as int))
    else Some(ValueOf(digits))
  }

  function AttrKey(chunk: string): string {
    Lower(Trim(Before1(chunk, '='), PySpace))
  }

  function AttrValue(chunk: string): string {
    if '=' in chunk then Trim(After1(chunk, '='), PySpace) else "1"
  }

  /** The attribute as the last chunk of that name gives it. */
  function LastAttr(chunks: seq<string>, key: string): Option<string> {
    if chunks == [] then None
    else if AttrKey(chunks[|chunks| - 1]) == key then Some(AttrValue(chunks[|chunks| - 1]))
    else LastAttr(chunks[..|chunks| - 1], key)
  }

  predicate Expired(value: string, chunks: seq<string>) {
    value == "" ||
    match LastAttr(chunks, "max-age")
    case None => false
    case Some(raw) => (match ParseInt(raw) case None => false case Some(k) => k <= 0)
  }

  /** `cookie_expired`: a dictionary of the attributes, later ones replacing earlier ones. */
  method CookieExpired(value: string, chunks: seq<string>) returns (expired: bool)
    ensures expired == Expired(value, chunks)
  {
    hide AttrKey, AttrValue, ParseInt;
    if value == "" {
      return true;
    }
    var attrs: map<string, string> := map[];
    for i := 0 to |chunks|
      invariant forall key :: (key in attrs <==> LastAttr(chunks[..i], key).Some?)
      invariant forall key :: key in attrs ==> Some(attrs[key]) == LastAttr(chunks[..i], key)
    {
      assert chunks[..i + 1][..i] == chunks[..i];
      attrs := attrs[AttrKey(chunks[i]) := AttrValue(chunks[i])];
    }
    assert chunks[..|chunks|] == chunks;
    if "max-age" in attrs {
      var age := ParseInt(attrs["max-age"]);
      return age.Some? && age.value <= 0;
    }
    expired := false;
  }

  const SET_COOKIE := "set-cookie:"

  /** One header line: the text of its cookie, if it is a Set-Cookie. */
  function CookieText(line: string): Option<string> {
    if SET_COOKIE <= Lower(line) && ':' in line then Some(Trim(After1(line, ':'), PySpace)) else None
  }

  function CookieTexts(lines: seq<string>): seq<string> {
    if lines == [] then []
    else
      CookieTexts(lines[..|lines| - 1])
      + (match CookieText(lines[|lines| - 1]) case None => [] case Some(item) => [item])
  }

  function SetCookies(headers: string): seq<string> {
    CookieTexts(SplitLines(headers))
  }

  function Chunks(item: string): (chunks: seq<string>)
    ensures |chunks| >= 1
  {
    var parts := Split(item, ';');
    seq(|parts|, i requires 0 <= i < |parts| => Trim(parts[i], PySpace))
  }

  predicate HasAttr(chunks: seq<string>, key: string) {
    exists chunk :: chunk in chunks && AttrKey(chunk) == key
  }

  /** What a Set-Cookie text asks for: nothing, dropping a name, or storing a cookie under it. */
  datatype Change = Nothing | Drop(name: string) | Store(name: string, cookie: Cookie)

  function ChangeOf(item: string, host: string, secureOk: bool): Change {
    var chunks := Chunks(item);
    if '=' !in chunks[0] then Nothing
    else
      var name, value := Before1(chunks[0], '='), After1(chunks[0], '=');
      if Expired(value, chunks[1..]) then Drop(name)
      else
        var httpOnly := HasAttr(chunks[1..], "httponly");
        Store(name, Cookie(httpOnly, host, if secureOk then "TRUE" else "FALSE", EXPIRES, value))
  }

  function Changed(pairs: Jar, change: Change): Jar {
    match change
    case Nothing => pairs
    case Drop(name) => Remove(pairs, name)
    case Store(name, cookie) => Put(pairs, name, cookie)
  }

  function ApplyAll(pairs: Jar, items: seq<string>, host: string, secureOk: bool): Jar {
    if items == [] then pairs
    else Changed(ApplyAll(pairs, items[..|items| - 1], host, secureOk), ChangeOf(items[|items| - 1], host, secureOk))
  }

  /** The pairs a header batch starts from. */
  function Known(jar: string, host: string, secureOk: bool): Jar {
    Pairs(if Trim(jar, PySpace) != "" then Align(jar, host, secureOk) else "")
  }

  function Ingest(jar: string, headers: string, host: string, secureOk: bool): string {
    Render(ApplyAll(Known(jar, host, secureOk), SetCookies(headers), host, secureOk))
  }

  /** `ingest_headers`. */
  method IngestHeaders(jar: string, headers: string, host: string, secureOk: bool) returns (text: string)
    ensures text == Ingest(jar, headers, host, secureOk)
  {
    hide Pairs, Align, Trim, Render, SetCookies, Expired, AttrKey, Chunks;
    var pairs: Jar;
    if Trim(jar, PySpace) != "" {
      var aligned := AlignJar(jar, host, secureOk);
      pairs := JarPairs(aligned);
    } else {
      pairs := JarPairs("");
    }
    ghost var known := pairs;
    var items := SetCookies(headers);
    for i := 0 to |items|
      invariant pairs == ApplyAll(known, items[..i], host, secureOk)
    {
      assert items[..i + 1][..i] == items[..i];
      var chunks := Chunks(items[i]);
      if '=' in chunks[0] {
        var name, value := Before1(chunks[0], '='), After1(chunks[0], '=');
        var expired := CookieExpired(value, chunks[1..]);
        if expired {
          pairs := Remove(pairs, name);
        } else {
          var httpOnly := HasAttr(chunks[1..], "httponly");
          pairs := Put(pairs, name, Cookie(httpOnly, host, if secureOk then "TRUE" else "FALSE", EXPIRES, value));
        }
      }
    }
    assert items[..|items|] == items;
    if pairs == [] {
      EmptyJar();
      text := HEADER + "\n";
    } else {
      text := RenderJar(pairs);
    }
  }

  lemma EmptyJar()
    ensures Render([]) == HEADER + "\n"
  {
    assert [HEADER] + RenderLines([]) == [HEADER];
  }

  function HeaderParts(pairs: Jar): (parts: seq<string>)
    ensures |parts| == |pairs|
  {
    seq(|pairs|, i requires 0 <= i < |pairs| => pairs[i].key + "=" + pairs[i].value.value)
  }

  /** `cookie_header`. */
  method CookieHeader(jar: string) returns (header: string)
    ensures header == Join(HeaderParts(Pairs(jar)), "; ")
  {
    hide Pairs, Join;
    var pairs := JarPairs(jar);
    var parts: seq<string> := [];
    for i := 0 to |pairs|
      invariant parts == HeaderParts(pairs)[..i]
    {
      parts := parts + [pairs[i].key + "=" + pairs[i].value.value];
    }
    assert parts == HeaderParts(pairs);
    header := Join(parts, "; ");
  }
}
