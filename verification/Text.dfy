/** String helpers shared by the day keys, the shift times, the pocket draft and the cookie jar. */
module Text {

  datatype Option<+T> = None | Some(value: T)

  function IndexOf(s: string, c: char): (i: nat)
    ensures i <= |s| && c !in s[..i] && (i < |s| ==> s[i] == c)
  {
    if s == "" || s[0] == c then 0
    else
      var i := IndexOf(s[1..], c) + 1;
      assert s[..i] == [s[0]] + s[1..][..i - 1];
      i
  }

  /** `s.split(c)`: never empty, and the pieces never hold the separator. */
  function Split(s: string, c: char): (parts: seq<string>)
    ensures |parts| >= 1
    ensures forall p :: p in parts ==> c !in p
  {
    var i := IndexOf(s, c);
    if i == |s| then
      assert s[..i] == s;
      [s]
    else [s[..i]] + Split(s[i + 1..], c)
  }

  function Join(parts: seq<string>, sep: string): string {
    if |parts| == 0 then ""
    else if |parts| == 1 then parts[0]
    else parts[0] + sep + Join(parts[1..], sep)
  }

  lemma IndexOfAfter(a: string, c: char, b: string)
    requires c !in a
    ensures IndexOf(a + [c] + b, c) == |a|
  {
    var s := a + [c] + b;
    assert s[|a|] == c;
    assert forall k :: 0 <= k < |a| ==> s[k] == a[k];
  }

  lemma SplitFirst(a: string, c: char, b: string)
    requires c !in a
    ensures Split(a + [c] + b, c) == [a] + Split(b, c)
  {
    IndexOfAfter(a, c, b);
    assert (a + [c] + b)[..|a|] == a;
    assert (a + [c] + b)[|a| + 1..] == b;
  }

  lemma SplitWhole(a: string, c: char)
    requires c !in a
    ensures Split(a, c) == [a]
  {
    assert IndexOf(a, c) == |a|;
  }

  /** Splitting undoes joining. */
  lemma {:induction false} SplitJoin(parts: seq<string>, c: char)
    requires |parts| >= 1
    requires forall p :: p in parts ==> c !in p
    ensures Split(Join(parts, [c]), c) == parts
  {
    if |parts| == 1 {
      SplitWhole(parts[0], c);
    } else {
      SplitJoin(parts[1..], c);
      SplitFirst(parts[0], c, Join(parts[1..], [c]));
      assert parts == [parts[0]] + parts[1..];
    }
  }

  // Decimal numerals.

  predicate IsDigit(c: char) {
    '0' <= c <= '9'
  }

  predicate AllDigits(s: string) {
    forall c :: c in s ==> IsDigit(c)
  }

  function DigitChar(d: nat): char
    requires d < 10
  {
    '0' + d as char
  }

  /** `String(n)` for a natural number. */
  function Digits(n: nat): (s: string)
    ensures |s| >= 1 && AllDigits(s)
  {
    if n < 10 then [DigitChar(n)] else Digits(n / 10) + [DigitChar(n % 10)]
  }

  function ValueOf(s: string): nat
    requires AllDigits(s)
  {
    if s == "" then 0
    else
      var front, last := s[..|s| - 1], s[|s| - 1];
      assert last in s;
      10 * ValueOf(front) + (last - '0') as nat
  }

  /** `Number(s)` on digit strings; the empty string is 0, every other text is NaN (None). */
  function Number(s: string): Option<nat> {
    if AllDigits(s) then Some(ValueOf(s)) else None
  }

  /** `String(n).padStart(2, "0")`. */
  function Pad2(n: nat): string {
    if n < 10 then "0" + Digits(n) else Digits(n)
  }

  lemma {:induction false} ValueOfDigits(n: nat)
    ensures ValueOf(Digits(n)) == n
  {
    if n >= 10 {
      ValueOfDigits(n / 10);
      assert Digits(n)[..|Digits(n)| - 1] == Digits(n / 10);
    }
  }

  lemma NumberOfDigits(n: nat)
    ensures Number(Digits(n)) == Some(n)
  {
    ValueOfDigits(n);
  }

  lemma NumberOfPad2(n: nat)
    ensures AllDigits(Pad2(n)) && Number(Pad2(n)) == Some(n)
  {
    ValueOfDigits(n);
    if n < 10 {
      assert Pad2(n)[..1] == "0";
      assert ValueOf("0") == 0;
    }
  }

  /** JavaScript `<` on strings: lexicographic order of the characters. */
  predicate Before(a: string, b: string) {
    if b == "" then false
    else if a == "" then true
    else if a[0] != b[0] then a[0] < b[0]
    else Before(a[1..], b[1..])
  }

  lemma {:induction false} BeforeAppend(a: string, b: string, x: string, y: string)
    requires |a| == |b|
    ensures Before(a + x, b + y) <==> Before(a, b) || (a == b && Before(x, y))
  {
    if a == "" {
      assert a + x == x && b + y == y;
    } else {
      BeforeAppend(a[1..], b[1..], x, y);
      assert (a + x)[1..] == a[1..] + x && (b + y)[1..] == b[1..] + y;
      assert a == [a[0]] + a[1..] && b == [b[0]] + b[1..];
    }
  }

  lemma {:induction false} BeforeIrreflexive(a: string)
    ensures !Before(a, a)
  {
    if a != "" {
      BeforeIrreflexive(a[1..]);
    }
  }

  /** Numerals of equal length compare as their values do. */
  lemma {:induction false} BeforeIsLess(a: string, b: string)
    requires AllDigits(a) && AllDigits(b) && |a| == |b|
    ensures Before(a, b) <==> ValueOf(a) < ValueOf(b)
    ensures a == b <==> ValueOf(a) == ValueOf(b)
  {
    if a != "" {
      var n := |a| - 1;
      BeforeIsLess(a[..n], b[..n]);
      assert a == a[..n] + [a[n]] && b == b[..n] + [b[n]];
      BeforeAppend(a[..n], b[..n], [a[n]], [b[n]]);
      assert a[n] in a && b[n] in b;
      assert Before([a[n]], [b[n]]) <==> a[n] < b[n] by {
        assert [a[n]][1..] == "" && [b[n]][1..] == "";
      }
    }
  }

  // Trimming and digits.

  function TrimLeft(s: string, space: char -> bool): (t: string)
    ensures t == "" || !space(t[0])
  {
    if s == "" || !space(s[0]) then s else TrimLeft(s[1..], space)
  }

  function TrimRight(s: string, space: char -> bool): (t: string)
    ensures t == "" || !space(t[|t| - 1])
  {
    if s == "" || !space(s[|s| - 1]) then s else TrimRight(s[..|s| - 1], space)
  }

  function Trim(s: string, space: char -> bool): string {
    TrimRight(TrimLeft(s, space), space)
  }

  lemma {:induction false} TrimLeftOuter(pre: string, s: string, space: char -> bool)
    requires forall c :: c in pre ==> space(c)
    ensures TrimLeft(pre + s, space) == TrimLeft(s, space)
  {
    if pre == "" {
      assert pre + s == s;
    } else {
      TrimLeftOuter(pre[1..], s, space);
      assert (pre + s)[1..] == pre[1..] + s;
    }
  }

  lemma {:induction false} TrimRightOuter(s: string, post: string, space: char -> bool)
    requires forall c :: c in post ==> space(c)
    ensures TrimRight(s + post, space) == TrimRight(s, space)
  {
    if post == "" {
      assert s + post == s;
    } else {
      var k := |post| - 1;
      TrimRightOuter(s, post[..k], space);
      assert (s + post)[..|s| + k] == s + post[..k];
    }
  }

  lemma {:induction false} TrimLeftOf(s: string, post: string, space: char -> bool)
    ensures TrimLeft(s, space) != "" ==> TrimLeft(s + post, space) == TrimLeft(s, space) + post
    ensures TrimLeft(s, space) == "" ==> TrimLeft(s + post, space) == TrimLeft(post, space)
  {
    if s == "" {
      assert s + post == post;
    } else if space(s[0]) {
      TrimLeftOf(s[1..], post, space);
      assert (s + post)[1..] == s[1..] + post;
    }
  }

  /** Trimming takes away what white space there is around a text, and nothing of the text itself. */
  lemma TrimOuter(pre: string, s: string, post: string, space: char -> bool)
    requires forall c :: c in pre || c in post ==> space(c)
    ensures Trim(pre + s + post, space) == Trim(s, space)
    ensures s != "" && !space(s[0]) && !space(s[|s| - 1]) ==> Trim(s, space) == s
  {
    assert pre + s + post == pre + (s + post);
    TrimLeftOuter(pre, s + post, space);
    TrimLeftOf(s, post, space);
    if TrimLeft(s, space) == "" {
      assert post + "" == post;
      TrimLeftOuter(post, "", space);
    } else {
      TrimRightOuter(TrimLeft(s, space), post, space);
    }
  }

  /** White space as `String.prototype.trim` knows it. */
  predicate JsSpace(c: char) {
    var k := c as int;
    9 <= k <= 13 || k == 32 || k == 0xa0 || k == 0x1680 || 0x2000 <= k <= 0x200a
    || k == 0x2028 || k == 0x2029 || k == 0x202f || k == 0x205f || k == 0x3000 || k == 0xfeff
  }

  /** `s.replace(/\D/g, "")`. */
  function OnlyDigits(s: string): (t: string)
    ensures AllDigits(t)
  {
    if s == "" then "" else (if IsDigit(s[0]) then [s[0]] else "") + OnlyDigits(s[1..])
  }

  /** Of a text exactly its digits are kept, in their order. */
  lemma {:induction false} OnlyDigitsAdd(a: string, b: string)
    ensures OnlyDigits(a + b) == OnlyDigits(a) + OnlyDigits(b)
  {
    hide IsDigit;
    if a == "" {
      assert a + b == b;
    } else {
      OnlyDigitsAdd(a[1..], b);
      assert (a + b)[1..] == a[1..] + b && (a + b)[0] == a[0];
    }
  }

  lemma OnlyDigitsOne(c: char)
    ensures OnlyDigits([c]) == (if '0' <= c <= '9' then [c] else "") && OnlyDigits("") == ""
  {
    assert [c][1..] == "";
  }

  /** Lower case for the ASCII letters. */
  function Lower(s: string): (t: string)
    ensures |t| == |s|
  {
    seq(|s|, i requires 0 <= i < |s| => if 'A' <= s[i] <= 'Z' then s[i] + 32 as char else s[i])
  }
}
