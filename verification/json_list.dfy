/**
 * The JSON text stored in the list-valued text columns (`technologies`, `features`,
 * `responsibilities`, `projects`): an encoder in the shape `json.dumps` gives a list of
 * strings (`["a", "b"]`) and a decoder that may fail, with the round trip proved.
 */
module JsonList {
  import opened Wrappers

  /** JSON insignificant whitespace. */
  predicate IsWs(c: char) {
    c == ' ' || c == '\t' || c == '\n' || c == '\r'
  }

  /** The text with its leading whitespace removed: always a suffix of the input. */
  function SkipWs(t: string): (r: string)
    ensures |r| <= |t|
    ensures |r| > 0 ==> !IsWs(r[0])
  {
    if |t| > 0 && IsWs(t[0]) then SkipWs(t[1..]) else t
  }

  const Backspace: char := 8 as char
  const FormFeed: char := 12 as char

  /** A lower-case hexadecimal digit. */
  function HexDigit(d: nat): (c: char)
    requires d < 16
    ensures '0' <= c <= '9' || 'a' <= c <= 'f'
    ensures HexValue(c) == Some(d)
  {
    if d < 10 then ('0' as int + d) as char else ('a' as int + d - 10) as char
  }

  /** The value of a hexadecimal digit of either case. */
  function HexValue(c: char): (r: Option<nat>)
    ensures r.Some? ==> r.value < 16
  {
    if '0' <= c <= '9' then Some(c as int - '0' as int)
    else if 'a' <= c <= 'f' then Some(c as int - 'a' as int + 10)
    else if 'A' <= c <= 'F' then Some(c as int - 'A' as int + 10)
    else None
  }

  /** The number written by four hexadecimal digits, as in a `\uXXXX` escape. */
  function Hex4(h: string): (r: Option<nat>)
    requires |h| == 4
    ensures r.Some? ==> r.value < 0x1_0000
  {
    match (HexValue(h[0]), HexValue(h[1]), HexValue(h[2]), HexValue(h[3]))
    case (Some(a), Some(b), Some(c), Some(d)) => Some(((a * 16 + b) * 16 + c) * 16 + d)
    case _ => None
  }

  /** The four lower-case hexadecimal digits of a number below 0x10000. */
  function Hex4Digits(n: nat): (h: string)
    requires n < 0x1_0000
    ensures |h| == 4 && Hex4(h) == Some(n)
  {
    var (a, b, c, d) := (n / 0x1000, n / 0x100 % 16, n / 16 % 16, n % 16);
    assert n / 0x100 == a * 16 + b;
    assert n / 16 == n / 0x100 * 16 + c;
    [HexDigit(a), HexDigit(b), HexDigit(c), HexDigit(d)]
  }

  /** The six-character escape `\uXXXX` of a UTF-16 code unit. */
  function UEscape(n: nat): (e: string)
    requires n < 0x1_0000
    ensures |e| == 6 && e[0] == '\\' && e[1] == 'u' && Hex4(e[2..6]) == Some(n)
  {
    ['\\', 'u'] + Hex4Digits(n)
  }

  /** A character outside printable ASCII without a short escape: written with `\u`. */
  predicate NeedsU(c: char) {
    !(' ' <= c <= '~') && c != '\n' && c != '\t' && c != '\r' && c != Backspace && c != FormFeed
  }

  /**
   * How one character is written inside a string literal, as `json.dumps` does with its
   * default `ensure_ascii`: quote, backslash and the five control characters with a short
   * form get a two-character escape; every other character outside printable ASCII
   * becomes `\uXXXX`, or a surrogate pair of them above U+FFFF; the rest stand for themselves.
   */
  function EscapeChar(c: char): (e: string)
    ensures |e| == 1 <==> ' ' <= c <= '~' && c != '"' && c != '\\'
    ensures |e| == 1 ==> e == [c]
    ensures NeedsU(c) <==> |e| == 6 || |e| == 12
  {
    if c == '"' then ['\\', '"']
    else if c == '\\' then ['\\', '\\']
    else if c == '\n' then ['\\', 'n']
    else if c == '\t' then ['\\', 't']
    else if c == '\r' then ['\\', 'r']
    else if c == Backspace then ['\\', 'b']
    else if c == FormFeed then ['\\', 'f']
    else if ' ' <= c <= '~' then [c]
    else if (c as int) < 0x1_0000 then UEscape(c as int)
    else UEscape(Halves(c).0) + UEscape(Halves(c).1)
  }

  /** The character a two-character escape `\e` stands for, if `e` is one. */
  function Unescape(e: char): Option<char> {
    if e == '"' then Some('"')
    else if e == '\\' then Some('\\')
    else if e == '/' then Some('/')
    else if e == 'n' then Some('\n')
    else if e == 't' then Some('\t')
    else if e == 'r' then Some('\r')
    else if e == 'b' then Some(Backspace)
    else if e == 'f' then Some(FormFeed)
    else None
  }

  function Escape(s: string): string {
    if |s| == 0 then [] else EscapeChar(s[0]) + Escape(s[1..])
  }

  /** A string literal: the escaped text between double quotes. */
  function Quote(s: string): string {
    ['"'] + Escape(s) + ['"']
  }

  function EncodeItems(xs: seq<string>): string {
    if |xs| == 0 then []
    else if |xs| == 1 then Quote(xs[0])
    else Quote(xs[0]) + ", " + EncodeItems(xs[1..])
  }

  /** `json.dumps` of a list of strings: items separated by ", " inside brackets. */
  function Dumps(xs: seq<string>): (t: string)
    ensures |t| >= 2 && t[0] == '[' && t[|t| - 1] == ']'
    ensures xs == [] <==> t == "[]"
  {
    "[" + EncodeItems(xs) + "]"
  }

  /**
   * Reads the rest of a string literal whose opening quote has been consumed:
   * the decoded text and whatever follows the closing quote.
   */
  function ParseBody(t: string): (r: Option<(string, string)>)
    ensures r.Some? ==> |r.value.1| < |t|
  {
    if |t| == 0 then None
    else if t[0] == '"' then Some(([], t[1..]))
    else if t[0] == '\\' then
      if |t| < 2 then None
      else if t[1] == 'u' then
        if |t| < 6 then None
        else match Hex4(t[2..6])
          case None => None
          case Some(n) =>
            if 0xDC00 <= n < 0xE000 then None
            else if 0xD800 <= n < 0xDC00 then
              // a high surrogate must be followed by an escaped low one; the pair is one character
              if |t| < 12 || t[6] != '\\' || t[7] != 'u' then None
              else match Hex4(t[8..12])
                case None => None
                case Some(m) =>
                  if 0xDC00 <= m < 0xE000 then
                    Prepend((0x1_0000 + (n - 0xD800) * 0x400 + (m - 0xDC00)) as char, ParseBody(t[12..]))
                  else None
            else Prepend(n as char, ParseBody(t[6..]))
      else match Unescape(t[1])
        case None => None
        case Some(c) => Prepend(c, ParseBody(t[2..]))
    else if t[0] < ' ' then None
    else Prepend(t[0], ParseBody(t[1..]))
  }

  /** One decoded character in front of the rest of a literal's body. */
  function Prepend(c: char, p: Option<(string, string)>): (r: Option<(string, string)>)
    ensures r.Some? <==> p.Some?
    ensures r.Some? ==> r.value == ([c] + p.value.0, p.value.1)
  {
    match p
    case None => None
    case Some((s, rest)) => Some(([c] + s, rest))
  }

  /** True when nothing but whitespace remains. */
  predicate AtEnd(t: string) {
    SkipWs(t) == []
  }

  /** The items of a non-empty array, starting at the first item's opening quote. */
  function ParseItems(t: string): Option<seq<string>>
    decreases |t|, 1
  {
    if |t| == 0 || t[0] != '"' then None
    else
      match ParseBody(t[1..])
      case None => None
      case Some(p) => AfterItem(p.0, SkipWs(p.1))
  }

  /** What may follow an item: the closing bracket, or a comma and more items. */
  function AfterItem(item: string, r: string): Option<seq<string>>
    decreases |r|, 2
  {
    if |r| == 0 then None
    else if r[0] == ']' then (if AtEnd(r[1..]) then Some([item]) else None)
    else if r[0] == ',' then
      match ParseItems(SkipWs(r[1..]))
      case None => None
      case Some(more) => Some([item] + more)
    else None
  }

  /**
   * `json.loads`, restricted to texts denoting a list of strings; every other text
   * (malformed, or JSON of another shape) is a decoding failure.
   */
  function Loads(t: string): (r: Option<seq<string>>)
    ensures r.Some? ==> |SkipWs(t)| >= 2 && SkipWs(t)[0] == '['
  {
    var a := SkipWs(t);
    if |a| == 0 || a[0] != '[' then None
    else
      var b := SkipWs(a[1..]);
      if |b| > 0 && b[0] == ']' then (if AtEnd(b[1..]) then Some([]) else None)
      else
        var items := ParseItems(b);
        if items.Some? then
          assert |b| > 0;
          items
        else None
  }

  /** A character written as itself or with a two-character escape. */
  lemma ParseBodyShort(c: char, tail: string)
    requires !NeedsU(c)
    ensures ParseBody(EscapeChar(c) + tail) == Prepend(c, ParseBody(tail))
  {
    var e := EscapeChar(c);
    var t := e + tail;
    if |e| == 1 {
      assert t[0] == c && t[1..] == tail;
    } else {
      assert t[0] == '\\' && t[1] != 'u' && t[2..] == tail;
      assert Unescape(t[1]) == Some(c);
    }
  }

  /** A character below U+10000 written as one `\uXXXX`. */
  lemma ParseBodyBmp(c: char, tail: string)
    requires NeedsU(c) && (c as int) < 0x1_0000
    ensures ParseBody(EscapeChar(c) + tail) == Prepend(c, ParseBody(tail))
  {
    var e := EscapeChar(c);
    assert e == UEscape(c as int);
    var t := e + tail;
    assert t[0] == '\\' && t[1] == 'u';
    assert t[2..6] == e[2..6] && t[6..] == tail;
    assert (c as int) as char == c;
  }

  /** The surrogate halves of a character above U+FFFF, and how they recombine. */
  function Halves(c: char): (h: (nat, nat))
    requires (c as int) >= 0x1_0000
    ensures 0xD800 <= h.0 < 0xDC00 && 0xDC00 <= h.1 < 0xE000
    ensures 0x1_0000 + (h.0 - 0xD800) * 0x400 + (h.1 - 0xDC00) == c as int
  {
    var v := c as int - 0x1_0000;
    (0xD800 + v / 0x400, 0xDC00 + v % 0x400)
  }

  /** A well-formed escaped surrogate pair decodes to the character the halves combine to. */
  lemma ParseBodyPairText(t: string, hi: nat, lo: nat)
    requires |t| >= 12 && t[0] == '\\' && t[1] == 'u' && t[6] == '\\' && t[7] == 'u'
    requires 0xD800 <= hi < 0xDC00 && 0xDC00 <= lo < 0xE000
    requires Hex4(t[2..6]) == Some(hi) && Hex4(t[8..12]) == Some(lo)
    ensures ParseBody(t) == Prepend((0x1_0000 + (hi - 0xD800) * 0x400 + (lo - 0xDC00)) as char, ParseBody(t[12..]))
  {
  }

  /** Two six-character escapes followed by a tail, read position by position. */
  lemma PairLayout(uh: string, ul: string, tail: string)
    requires |uh| == 6 && |ul| == 6
    ensures var t := uh + (ul + tail);
      && t[0] == uh[0] && t[1] == uh[1] && t[2..6] == uh[2..6]
      && t[6] == ul[0] && t[7] == ul[1] && t[8..12] == ul[2..6] && t[12..] == tail
  {
    var t := uh + (ul + tail);
    assert t[..6] == uh && t[6..] == ul + tail;
    assert t[2..6] == t[..6][2..6];
    var w := t[6..];
    assert w[..6] == ul && w[6..] == tail;
    assert t[8..12] == w[..6][2..6];
  }

  /** A character above U+FFFF written as an escaped surrogate pair. */
  lemma ParseBodyPair(c: char, tail: string)
    requires (c as int) >= 0x1_0000
    ensures ParseBody(EscapeChar(c) + tail) == Prepend(c, ParseBody(tail))
  {
    var (hi, lo) := Halves(c);
    var (uh, ul) := (UEscape(hi), UEscape(lo));
    assert EscapeChar(c) == uh + ul;
    assert EscapeChar(c) + tail == uh + (ul + tail);
    PairLayout(uh, ul, tail);
    ParseBodyPairText(uh + (ul + tail), hi, lo);
  }

  /** Decoding one escaped character, followed by anything, yields that character first. */
  lemma ParseBodyChar(c: char, tail: string)
    ensures ParseBody(EscapeChar(c) + tail) == Prepend(c, ParseBody(tail))
  {
    if !NeedsU(c) {
      ParseBodyShort(c, tail);
    } else if (c as int) < 0x1_0000 {
      ParseBodyBmp(c, tail);
    } else {
      ParseBodyPair(c, tail);
    }
  }

  /** Decoding a literal's body gives back the text that was escaped, and stops at its closing quote. */
  lemma {:induction false} ParseBodyEscape(s: string, rest: string)
    ensures ParseBody(Escape(s) + ['"'] + rest) == Some((s, rest))
  {
    var t := Escape(s) + ['"'] + rest;
    if |s| == 0 {
      assert t == ['"'] + rest;
      assert t[1..] == rest;
    } else {
      assert t == EscapeChar(s[0]) + (Escape(s[1..]) + ['"'] + rest);
      ParseBodyChar(s[0], Escape(s[1..]) + ['"'] + rest);
      ParseBodyEscape(s[1..], rest);
      assert [s[0]] + s[1..] == s;
    }
  }

  /** A raw control character anywhere in a literal's body makes decoding fail. */
  lemma {:induction false} ParseBodyRejectsRaw(s: string, c: char, rest: string)
    requires c < ' '
    ensures ParseBody(Escape(s) + [c] + rest) == None
  {
    if |s| == 0 {
      assert Escape(s) + [c] + rest == [c] + rest;
    } else {
      assert Escape(s) + [c] + rest == EscapeChar(s[0]) + (Escape(s[1..]) + [c] + rest);
      ParseBodyChar(s[0], Escape(s[1..]) + [c] + rest);
      ParseBodyRejectsRaw(s[1..], c, rest);
    }
  }

  /** A text that starts with a quote has no leading whitespace to skip. */
  lemma SkipWsQuote(t: string)
    requires |t| > 0 && t[0] == '"'
    ensures SkipWs(t) == t
  {
  }

  /** Parsing an item's literal hands the text after its closing quote to `AfterItem`. */
  lemma {:induction false} ParseItemsFirst(x: string, after: string)
    ensures ParseItems(['"'] + Escape(x) + ['"'] + after) == AfterItem(x, SkipWs(after))
  {
    var t := ['"'] + Escape(x) + ['"'] + after;
    assert t[1..] == Escape(x) + ['"'] + after;
    ParseBodyEscape(x, after);
  }

  /** A last item followed by the closing bracket and trailing whitespace. */
  lemma {:induction false} ParseItemsLast(x: string, rest: string)
    requires AtEnd(rest)
    ensures ParseItems(['"'] + Escape(x) + ['"'] + ("]" + rest)) == Some([x])
  {
    var after := "]" + rest;
    ParseItemsFirst(x, after);
    assert SkipWs(after) == after;
    assert after[1..] == rest;
  }

  /** A comma, a space and further items continue the array. */
  lemma {:induction false} AfterItemComma(x: string, next: string, ys: seq<string>)
    requires |next| > 0 && next[0] == '"' && ParseItems(next) == Some(ys)
    ensures AfterItem(x, ", " + next) == Some([x] + ys)
  {
    var r := ", " + next;
    assert r[1..] == [' '] + next;
    assert SkipWs(r[1..]) == SkipWs(next);
    SkipWsQuote(next);
  }

  /** An item followed by ", " and further items. */
  lemma {:induction false} ParseItemsCons(x: string, next: string, ys: seq<string>)
    requires |next| > 0 && next[0] == '"' && ParseItems(next) == Some(ys)
    ensures ParseItems(['"'] + Escape(x) + ['"'] + (", " + next)) == Some([x] + ys)
  {
    var after := ", " + next;
    ParseItemsFirst(x, after);
    assert SkipWs(after) == after;
    AfterItemComma(x, next, ys);
  }

  /** The encoded items, split after the first item's literal. */
  lemma {:induction false} EncodeItemsSplit(xs: seq<string>, rest: string)
    requires |xs| > 0
    ensures |xs| == 1 ==>
      EncodeItems(xs) + "]" + rest == ['"'] + Escape(xs[0]) + ['"'] + ("]" + rest)
    ensures |xs| > 1 ==>
      EncodeItems(xs) + "]" + rest
        == ['"'] + Escape(xs[0]) + ['"'] + (", " + (EncodeItems(xs[1..]) + "]" + rest))
    ensures EncodeItems(xs)[0] == '"'
  {
  }

  lemma {:induction false} ParseItemsEncode(xs: seq<string>, rest: string)
    requires |xs| > 0 && AtEnd(rest)
    ensures ParseItems(EncodeItems(xs) + "]" + rest) == Some(xs)
  {
    EncodeItemsSplit(xs, rest);
    if |xs| == 1 {
      ParseItemsLast(xs[0], rest);
      assert xs == [xs[0]];
    } else {
      ParseItemsEncode(xs[1..], rest);
      EncodeItemsSplit(xs[1..], rest);
      ParseItemsCons(xs[0], EncodeItems(xs[1..]) + "]" + rest, xs[1..]);
      assert [xs[0]] + xs[1..] == xs;
    }
  }

  /** Round trip: decoding what `Dumps` wrote gives back the same list. */
  lemma LoadsDumps(xs: seq<string>)
    ensures Loads(Dumps(xs)) == Some(xs)
  {
    var t := Dumps(xs);
    assert SkipWs(t) == t;
    if |xs| == 0 {
      assert t[1..] == "]";
    } else {
      assert t[1..] == EncodeItems(xs) + "]" + [];
      assert EncodeItems(xs)[0] == '"';
      SkipWsQuote(t[1..]);
      ParseItemsEncode(xs, []);
    }
  }

  /** Distinct lists are stored as distinct texts. */
  lemma DumpsInjective(xs: seq<string>, ys: seq<string>)
    requires Dumps(xs) == Dumps(ys)
    ensures xs == ys
  {
    LoadsDumps(xs);
    LoadsDumps(ys);
  }

  /** Empty or non-array texts fail to decode. */
  lemma LoadsRejectsNonArray(t: string)
    requires AtEnd(t) || SkipWs(t)[0] != '['
    ensures Loads(t) == None
  {
  }

  /** Encoded items with nothing after them: the array is never closed. */
  lemma {:induction false} ParseItemsUnclosed(xs: seq<string>)
    requires |xs| > 0
    ensures ParseItems(EncodeItems(xs)) == None
  {
    var x := xs[0];
    if |xs| == 1 {
      assert EncodeItems(xs) == ['"'] + Escape(x) + ['"'] + [];
      ParseItemsFirst(x, []);
    } else {
      var more := EncodeItems(xs[1..]);
      var after := ", " + more;
      assert EncodeItems(xs) == ['"'] + Escape(x) + ['"'] + after;
      ParseItemsFirst(x, after);
      assert SkipWs(after) == after;
      assert after[1..] == [' '] + more;
      EncodeItemsSplit(xs[1..], []);
      SkipWsQuote(more);
      ParseItemsUnclosed(xs[1..]);
    }
  }

  /** The JSON text of any list with its closing bracket cut off fails to decode. */
  lemma LoadsRejectsUnclosed(xs: seq<string>)
    ensures var t := Dumps(xs); Loads(t[..|t| - 1]) == None
  {
    var t := Dumps(xs);
    var u := t[..|t| - 1];
    assert u == "[" + EncodeItems(xs);
    assert SkipWs(u) == u;
    assert u[1..] == EncodeItems(xs);
    if |xs| > 0 {
      EncodeItemsSplit(xs, []);
      SkipWsQuote(EncodeItems(xs));
      ParseItemsUnclosed(xs);
    }
  }

  /**
   * A raw control character inside the first string literal of an array is rejected, as by
   * strict `json.loads`, whatever precedes it in the literal and whatever follows.
   */
  lemma LoadsRejectsRawControl(s: string, c: char, rest: string)
    requires c < ' '
    ensures Loads("[\"" + Escape(s) + [c] + rest) == None
  {
    var t := "[\"" + Escape(s) + [c] + rest;
    assert SkipWs(t) == t;
    assert t[1..] == ['"'] + (Escape(s) + [c] + rest);
    assert t[1..][1..] == Escape(s) + [c] + rest;
    ParseBodyRejectsRaw(s, c, rest);
  }
}
