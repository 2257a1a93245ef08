/**
 * JSON text: a printer standing in for `JSON.stringify` and a parser standing
 * in for `JSON.parse`, restricted to the values of JsonValues (integer
 * numbers). The one fact the resume code relies on, that parsing what was
 * printed gives the value back, is proved here (ParseStringify).
 */
module JsonText {
  import opened Wrappers
  import opened JsonValues

  // ---------------------------------------------------------------- printing

  function IntText(n: int): string
  {
    if n < 0 then "-" + NatText(-n) else NatText(n)
  }

  /** The escape `JSON.stringify` writes for one character of a string. */
  function EscapeChar(c: char): (r: string)
    ensures |r| >= 1
  {
    if c == '"' then "\\\""
    else if c == '\\' then "\\\\"
    else if c == '\n' then "\\n"
    else if c == '\r' then "\\r"
    else if c == '\t' then "\\t"
    else [c]
  }

  function Escape(s: string): string
  {
    if s == [] then [] else EscapeChar(s[0]) + Escape(s[1..])
  }

  function Quote(s: string): string
  {
    "\"" + Escape(s) + "\""
  }

  /** Compact JSON text of v: no whitespace, members and elements in order. */
  function Stringify(v: Json): string
    decreases v
  {
    match v
    case JNull => "null"
    case JBool(b) => if b then "true" else "false"
    case JNum(n) => IntText(n)
    case JStr(s) => Quote(s)
    case JArr(items) => "[" + Elements(items) + "]"
    case JObj(ms) => "{" + Members(ms) + "}"
  }

  function Elements(items: seq<Json>): string
    decreases items
  {
    if items == [] then ""
    else if |items| == 1 then Stringify(items[0])
    else Stringify(items[0]) + "," + Elements(items[1..])
  }

  function Members(ms: seq<(string, Json)>): string
    decreases ms
  {
    if ms == [] then ""
    else if |ms| == 1 then MemberText(ms[0])
    else MemberText(ms[0]) + "," + Members(ms[1..])
  }

  function MemberText(m: (string, Json)): string
    decreases m
  {
    Quote(m.0) + ":" + Stringify(m.1)
  }

  // ----------------------------------------------------------------- parsing

  predicate IsWs(c: char)
  {
    c == ' ' || c == '\t' || c == '\n' || c == '\r'
  }

  predicate IsDigit(c: char)
  {
    '0' <= c <= '9'
  }

  function SkipWs(s: string): (r: string)
    ensures |r| <= |s|
    ensures r == [] || !IsWs(r[0])
  {
    if s != [] && IsWs(s[0]) then SkipWs(s[1..]) else s
  }

  /** The length of the run of digits s starts with. */
  function DigitRun(s: string): (n: nat)
    ensures n <= |s|
    ensures forall i :: 0 <= i < n ==> IsDigit(s[i])
    ensures n < |s| ==> !IsDigit(s[n])
  {
    if s != [] && IsDigit(s[0]) then 1 + DigitRun(s[1..]) else 0
  }

  function DigitsValue(ds: string): nat
    requires forall i :: 0 <= i < |ds| ==> IsDigit(ds[i])
  {
    if ds == [] then 0
    else
      assert IsDigit(ds[|ds| - 1]);
      DigitsValue(ds[..|ds| - 1]) * 10 + (ds[|ds| - 1] as int - '0' as int)
  }

  /** A natural number in JSON syntax (no superfluous leading zero), and the text after it. */
  function ParseNat(s: string): (r: Option<(nat, string)>)
    ensures r.Some? ==> |r.value.1| < |s|
  {
    var k := DigitRun(s);
    if k == 0 || (k > 1 && s[0] == '0') then None
    else Some((DigitsValue(s[..k]), s[k..]))
  }

  function ParseNumber(s: string): (r: Option<(Json, string)>)
    ensures r.Some? ==> |r.value.1| < |s|
  {
    if s != [] && s[0] == '-' then
      match ParseNat(s[1..])
      case None => None
      case Some((n, rest)) => Some((JNum(-(n as int)), rest))
    else
      match ParseNat(s)
      case None => None
      case Some((n, rest)) => Some((JNum(n), rest))
  }

  function HexValue(c: char): (r: Option<nat>)
    ensures r.Some? ==> r.value < 16
  {
    if '0' <= c <= '9' then Some(c as int - '0' as int)
    else if 'a' <= c <= 'f' then Some(c as int - 'a' as int + 10)
    else if 'A' <= c <= 'F' then Some(c as int - 'A' as int + 10)
    else None
  }

  /** The UTF-16 code unit four hex digits name. */
  function CodeUnit(s: string): (r: Option<nat>)
    requires |s| == 4
    ensures r.Some? ==> r.value < 0x10000
  {
    match (HexValue(s[0]), HexValue(s[1]), HexValue(s[2]), HexValue(s[3]))
    case (Some(a), Some(b), Some(c), Some(d)) => Some(((a * 16 + b) * 16 + c) * 16 + d)
    case _ => None
  }

  /**
   * The character a `\u` escape stands for; s is the text after the `u`. A
   * code unit outside the surrogate range stands for itself, a high surrogate
   * followed by a `\u` escape of a low surrogate for the character of the
   * pair, and a surrogate half without its partner is refused.
   */
  function ParseUnicodeEscape(s: string): (r: Option<(char, string)>)
    ensures r.Some? ==> |r.value.1| < |s|
  {
    if |s| < 4 then None
    else
      match CodeUnit(s[..4])
      case None => None
      case Some(u) =>
        if u < 0xD800 || 0xE000 <= u then Some((u as char, s[4..]))
        else if u < 0xDC00 && |s| >= 10 && s[4] == '\\' && s[5] == 'u' then
          match CodeUnit(s[6..10])
          case None => None
          case Some(l) =>
            if 0xDC00 <= l < 0xE000 then
              Some(((0x10000 + (u - 0xD800) * 0x400 + (l - 0xDC00)) as char, s[10..]))
            else None
        else None
  }

  /** The character an escape stands for; s is the text after the backslash. */
  function Unescape(s: string): (r: Option<(char, string)>)
    ensures r.Some? ==> |r.value.1| < |s|
  {
    if s == [] then None
    else if s[0] == '"' || s[0] == '\\' || s[0] == '/' then Some((s[0], s[1..]))
    else if s[0] == 'b' then Some(('\U{8}', s[1..]))
    else if s[0] == 'f' then Some(('\U{C}', s[1..]))
    else if s[0] == 'n' then Some(('\n', s[1..]))
    else if s[0] == 'r' then Some(('\r', s[1..]))
    else if s[0] == 't' then Some(('\t', s[1..]))
    else if s[0] == 'u' then ParseUnicodeEscape(s[1..])
    else None
  }

  /** The contents of a string literal up to its closing quote; s is the text after the opening quote. */
  function ParseStringBody(s: string): (r: Option<(string, string)>)
    ensures r.Some? ==> |r.value.1| < |s|
    decreases |s|
  {
    if s == [] then None
    else if s[0] == '"' then Some(([], s[1..]))
    else if s[0] == '\\' then
      match Unescape(s[1..])
      case None => None
      case Some((c, rest)) =>
        match ParseStringBody(rest)
        case None => None
        case Some((t, rest')) => Some(([c] + t, rest'))
    else
      match ParseStringBody(s[1..])
      case None => None
      case Some((t, rest)) => Some(([s[0]] + t, rest))
  }

  /** One JSON value after optional whitespace, and the text after it. */
  function ParseValue(s: string): (r: Option<(Json, string)>)
    ensures r.Some? ==> |r.value.1| < |s|
    decreases |s|, 1
  {
    var t := SkipWs(s);
    if t == [] then None
    else if t[0] == 'n' then ParseWord(t, "null", JNull)
    else if t[0] == 't' then ParseWord(t, "true", JBool(true))
    else if t[0] == 'f' then ParseWord(t, "false", JBool(false))
    else if t[0] == '"' then ParseString(t[1..])
    else if t[0] == '[' then ParseArray(t[1..])
    else if t[0] == '{' then ParseObject(t[1..])
    else if t[0] == '-' || IsDigit(t[0]) then ParseNumber(t)
    else None
  }

  /** The literal w, standing for v. */
  function ParseWord(s: string, w: string, v: Json): (r: Option<(Json, string)>)
    requires |w| > 0
    ensures r.Some? ==> |r.value.1| < |s|
  {
    if w <= s then Some((v, s[|w|..])) else None
  }

  /** A string value; s is the text after the opening quote. */
  function ParseString(s: string): (r: Option<(Json, string)>)
    ensures r.Some? ==> |r.value.1| < |s|
  {
    match ParseStringBody(s)
    case None => None
    case Some((str, rest)) => Some((JStr(str), rest))
  }

  /** An array; s is the text after the opening bracket. */
  function ParseArray(s: string): (r: Option<(Json, string)>)
    ensures r.Some? ==> |r.value.1| < |s|
    decreases |s|, 3
  {
    var u := SkipWs(s);
    if u != [] && u[0] == ']' then Some((JArr([]), u[1..]))
    else
      match ParseElements(u)
      case None => None
      case Some((xs, rest)) => Some((JArr(xs), rest))
  }

  /** An object; s is the text after the opening brace. */
  function ParseObject(s: string): (r: Option<(Json, string)>)
    ensures r.Some? ==> |r.value.1| < |s|
    decreases |s|, 3
  {
    var u := SkipWs(s);
    if u != [] && u[0] == '}' then Some((JObj([]), u[1..]))
    else
      match ParseMembers(u)
      case None => None
      case Some((ms, rest)) => Some((JObj(ms), rest))
  }

  /** The elements of an array and its closing bracket. */
  function ParseElements(s: string): (r: Option<(seq<Json>, string)>)
    ensures r.Some? ==> |r.value.1| < |s|
    decreases |s|, 2
  {
    match ParseValue(s)
    case None => None
    case Some((v, rest)) =>
      var t := SkipWs(rest);
      if t == [] then None
      else if t[0] == ']' then Some(([v], t[1..]))
      else if t[0] == ',' then
        match ParseElements(t[1..])
        case None => None
        case Some((vs, rest')) => Some(([v] + vs, rest'))
      else None
  }

  /** One `"key":value` member of an object. */
  function ParseMember(s: string): (r: Option<((string, Json), string)>)
    ensures r.Some? ==> |r.value.1| < |s|
    decreases |s|, 0
  {
    var t := SkipWs(s);
    if t == [] || t[0] != '"' then None
    else
      match ParseStringBody(t[1..])
      case None => None
      case Some((k, r1)) =>
        var r2 := SkipWs(r1);
        if r2 == [] || r2[0] != ':' then None
        else
          match ParseValue(r2[1..])
          case None => None
          case Some((v, r3)) => Some(((k, v), r3))
  }

  /** The members of an object and its closing brace. */
  function ParseMembers(s: string): (r: Option<(seq<(string, Json)>, string)>)
    ensures r.Some? ==> |r.value.1| < |s|
    decreases |s|, 2
  {
    match ParseMember(s)
    case None => None
    case Some((m, rest)) =>
      var t := SkipWs(rest);
      if t == [] then None
      else if t[0] == '}' then Some(([m], t[1..]))
      else if t[0] == ',' then
        match ParseMembers(t[1..])
        case None => None
        case Some((ms, rest')) => Some(([m] + ms, rest'))
      else None
  }

  /** `JSON.parse`: one value, surrounded by optional whitespace, and nothing else; None where it throws. */
  function Parse(s: string): Option<Json>
  {
    match ParseValue(s)
    case None => None
    case Some((v, rest)) => if SkipWs(rest) == [] then Some(v) else None
  }

  /** An escaped surrogate pair stands for one character beyond U+FFFF. */
  lemma EscapedPairDecoded()
    ensures Parse("\"\\ud83d\\ude00\"") == Some(JStr("\U{1F600}"))
  {
    var body := "\\ud83d\\ude00\"";
    assert CodeUnit("d83d") == Some(0xD83D);
    assert CodeUnit("de00") == Some(0xDE00);
    assert ParseUnicodeEscape(body[2..]) == Some(('\U{1F600}', "\"")) by {
      assert body[2..][..4] == "d83d" && body[2..][6..10] == "de00";
    }
    assert Unescape(body[1..]) == Some(('\U{1F600}', "\"")) by {
      assert body[1..][0] == 'u' && body[1..][1..] == body[2..];
    }
    assert ParseStringBody(body) == Some(("\U{1F600}", [])) by {
      assert body[0] == '\\';
      assert ParseStringBody("\"") == Some(([], []));
      assert ['\U{1F600}'] + [] == "\U{1F600}";
    }
  }

  /** A high surrogate half without its low partner is refused. */
  lemma LoneHalfRefused()
    ensures Parse("\"\\ud83d\"") == None
  {
    var body := "\\ud83d\"";
    assert CodeUnit("d83d") == Some(0xD83D);
    assert ParseUnicodeEscape(body[2..]) == None by {
      assert body[2..][..4] == "d83d";
    }
  }

  /** The lowercase hex digit for d. */
  function HexDigit(d: nat): (c: char)
    requires d < 16
    ensures HexValue(c) == Some(d)
  {
    if d < 10 then ('0' as int + d) as char else ('a' as int + d - 10) as char
  }

  /** A code unit as the four lowercase hex digits of a `\u` escape. */
  function Hex4(u: nat): (s: string)
    requires u < 0x10000
    ensures |s| == 4 && CodeUnit(s) == Some(u)
  {
    var q1 := u / 16;
    var q2 := q1 / 16;
    var q3 := q2 / 16;
    assert q1 * 16 + u % 16 == u && q2 * 16 + q1 % 16 == q1 && q3 * 16 + q2 % 16 == q2;
    [HexDigit(q3), HexDigit(q2 % 16), HexDigit(q1 % 16), HexDigit(u % 16)]
  }

  /** The high half of the UTF-16 surrogate pair of a character beyond U+FFFF. */
  function HighSurrogate(c: char): (u: nat)
    requires c as int >= 0x10000
    ensures 0xD800 <= u < 0xDC00
  {
    0xD800 + (c as int - 0x10000) / 0x400
  }

  /** The low half of the UTF-16 surrogate pair of a character beyond U+FFFF. */
  function LowSurrogate(c: char): (u: nat)
    requires c as int >= 0x10000
    ensures 0xDC00 <= u < 0xE000
  {
    0xDC00 + (c as int - 0x10000) % 0x400
  }

  /** Any escape, in either case of hex digits, of a code unit outside the surrogate range stands for that code unit. */
  lemma BmpEscapeDecoded(h: string, rest: string)
    requires |h| == 4 && CodeUnit(h).Some?
    requires CodeUnit(h).value < 0xD800 || 0xE000 <= CodeUnit(h).value
    ensures ParseUnicodeEscape(h + rest) == Some((CodeUnit(h).value as char, rest))
  {
    assert (h + rest)[..4] == h && (h + rest)[4..] == rest;
  }

  /**
   * A high surrogate escape followed by a low surrogate escape stands for the
   * one character beyond U+FFFF whose UTF-16 pair they are.
   */
  lemma PairEscapeDecoded(h: string, l: string, rest: string)
    requires |h| == 4 && CodeUnit(h).Some? && 0xD800 <= CodeUnit(h).value < 0xDC00
    requires |l| == 4 && CodeUnit(l).Some? && 0xDC00 <= CodeUnit(l).value < 0xE000
    ensures var r := ParseUnicodeEscape(h + "\\u" + l + rest);
      && r.Some? && r.value.1 == rest && r.value.0 as int >= 0x10000
      && HighSurrogate(r.value.0) == CodeUnit(h).value
      && LowSurrogate(r.value.0) == CodeUnit(l).value
  {
    var s := h + "\\u" + l + rest;
    assert s[..4] == h && s[4] == '\\' && s[5] == 'u' && s[6..10] == l && s[10..] == rest;
  }

  /** Every character beyond U+FFFF is the meaning of the escapes of its UTF-16 pair. */
  lemma AstralEscapeDecoded(c: char, rest: string)
    requires c as int >= 0x10000
    ensures ParseUnicodeEscape(Hex4(HighSurrogate(c)) + "\\u" + Hex4(LowSurrogate(c)) + rest) == Some((c, rest))
  {
    PairEscapeDecoded(Hex4(HighSurrogate(c)), Hex4(LowSurrogate(c)), rest);
  }

  /** An escaped low surrogate with no high one before it is refused. */
  lemma LowHalfRefused(h: string, rest: string)
    requires |h| == 4 && CodeUnit(h).Some? && 0xDC00 <= CodeUnit(h).value < 0xE000
    ensures ParseUnicodeEscape(h + rest) == None
  {
    assert (h + rest)[..4] == h;
  }

  /** An escaped high surrogate that no escaped low surrogate follows is refused. */
  lemma UnpairedHighRefused(h: string, rest: string)
    requires |h| == 4 && CodeUnit(h).Some? && 0xD800 <= CodeUnit(h).value < 0xDC00
    requires !(|rest| >= 6 && rest[0] == '\\' && rest[1] == 'u' && CodeUnit(rest[2..6]).Some?
               && 0xDC00 <= CodeUnit(rest[2..6]).value < 0xE000)
    ensures ParseUnicodeEscape(h + rest) == None
  {
    var s := h + rest;
    assert s[..4] == h;
    if |s| >= 10 && s[4] == '\\' && s[5] == 'u' {
      assert s[6..10] == rest[2..6];
    }
  }

  // -------------------------------------------------------------- round trip

  /** The characters a printed value can begin with. */
  predicate StartsValue(c: char)
  {
    c == 'n' || c == 't' || c == 'f' || c == '"' || c == '[' || c == '{' || c == '-' || IsDigit(c)
  }

  lemma StringifyStart(v: Json)
    ensures |Stringify(v)| > 0 && StartsValue(Stringify(v)[0])
  {
    match v
    case JNum(n) =>
      if n < 0 { assert Stringify(v)[0] == '-'; } else { assert Stringify(v) == NatText(n); }
    case JArr(items) => assert Stringify(v)[0] == '[';
    case JObj(ms) => assert Stringify(v)[0] == '{';
    case JStr(s) => assert Stringify(v)[0] == '"';
    case _ =>
  }

  lemma {:induction false} DigitRunAll(ds: string, rest: string)
    requires forall i :: 0 <= i < |ds| ==> IsDigit(ds[i])
    requires rest == [] || !IsDigit(rest[0])
    ensures DigitRun(ds + rest) == |ds|
  {
    if ds != [] {
      assert (ds + rest)[1..] == ds[1..] + rest;
      DigitRunAll(ds[1..], rest);
    }
  }

  lemma {:induction false} DigitsValueNatText(n: nat)
    ensures DigitsValue(NatText(n)) == n
  {
    if n >= 10 {
      var p := NatText(n / 10);
      var t := NatText(n);
      assert t == p + [DigitChar(n % 10)];
      assert t[..|t| - 1] == p;
      DigitsValueNatText(n / 10);
    } else {
      assert NatText(n)[..0] == [];
    }
  }

  lemma NatRoundTrip(n: nat, rest: string)
    requires rest == [] || !IsDigit(rest[0])
    ensures ParseNat(NatText(n) + rest) == Some((n, rest))
  {
    var t := NatText(n);
    DigitRunAll(t, rest);
    assert (t + rest)[..|t|] == t;
    assert (t + rest)[|t|..] == rest;
    DigitsValueNatText(n);
  }

  /** ParseNumber on a minus sign followed by a natural number. */
  lemma ParseNumberMinus(t: string, n: nat, rest: string)
    requires ParseNat(t) == Some((n, rest))
    ensures ParseNumber(['-'] + t) == Some((JNum(-(n as int)), rest))
  {
    assert (['-'] + t)[1..] == t;
  }

  lemma NegRoundTrip(n: nat, rest: string)
    requires n > 0 && (rest == [] || !IsDigit(rest[0]))
    ensures ParseNumber(IntText(-(n as int)) + rest) == Some((JNum(-(n as int)), rest))
  {
    var t := NatText(n) + rest;
    assert IntText(-(n as int)) == "-" + NatText(n);
    assert IntText(-(n as int)) + rest == ['-'] + t;
    NatRoundTrip(n, rest);
    ParseNumberMinus(t, n, rest);
  }

  lemma NonNegRoundTrip(n: nat, rest: string)
    requires rest == [] || !IsDigit(rest[0])
    ensures ParseNumber(IntText(n) + rest) == Some((JNum(n), rest))
  {
    var t := NatText(n) + rest;
    assert IntText(n) + rest == t;
    assert t[0] == NatText(n)[0];
    NatRoundTrip(n, rest);
  }

  lemma IntRoundTrip(n: int, rest: string)
    requires rest == [] || !IsDigit(rest[0])
    ensures ParseNumber(IntText(n) + rest) == Some((JNum(n), rest))
  {
    if n < 0 {
      NegRoundTrip(-n, rest);
    } else {
      NonNegRoundTrip(n, rest);
    }
  }

  lemma EscapeCharRoundTrip(c: char, tail: string)
    ensures Unescape(EscapeChar(c)[1..] + tail) == Some((c, tail)) || (|EscapeChar(c)| == 1 && EscapeChar(c)[0] == c && c != '"' && c != '\\')
  {
    if c == '"' || c == '\\' || c == '\n' || c == '\r' || c == '\t' {
      assert |EscapeChar(c)| == 2;
      assert (EscapeChar(c)[1..] + tail)[1..] == tail;
    }
  }

  lemma {:induction false} StringRoundTrip(s: string, rest: string)
    ensures ParseStringBody(Escape(s) + "\"" + rest) == Some((s, rest))
  {
    if s == [] {
      assert Escape(s) + "\"" + rest == ['"'] + rest;
    } else {
      var c := s[0];
      var tail := Escape(s[1..]) + "\"" + rest;
      var u := EscapeChar(c) + tail;
      assert Escape(s) + "\"" + rest == u;
      StringRoundTrip(s[1..], rest);
      EscapeCharRoundTrip(c, tail);
      assert [c] + s[1..] == s;
      if |EscapeChar(c)| == 2 {
        assert u[0] == '\\';
        assert u[1..] == EscapeChar(c)[1..] + tail;
      } else {
        assert u[1..] == tail;
      }
    }
  }

  lemma ParseValueAt(s: string)
    requires s != [] && StartsValue(s[0])
    ensures ParseValue(s) ==
      if s[0] == 'n' then ParseWord(s, "null", JNull)
      else if s[0] == 't' then ParseWord(s, "true", JBool(true))
      else if s[0] == 'f' then ParseWord(s, "false", JBool(false))
      else if s[0] == '"' then ParseString(s[1..])
      else if s[0] == '[' then ParseArray(s[1..])
      else if s[0] == '{' then ParseObject(s[1..])
      else ParseNumber(s)
  {
    assert SkipWs(s) == s;
  }

  lemma LiteralRoundTrip(v: Json, rest: string)
    requires v.JNull? || v.JBool?
    ensures ParseValue(Stringify(v) + rest) == Some((v, rest))
  {
    var s := Stringify(v) + rest;
    if v.JNull? {
      assert s[0] == 'n' && SkipWs(s) == s;
      assert "null" <= s && s[4..] == rest;
    } else if v.b {
      assert s[0] == 't' && SkipWs(s) == s;
      assert "true" <= s && s[4..] == rest;
    } else {
      assert s[0] == 'f' && SkipWs(s) == s;
      assert "false" <= s && s[5..] == rest;
    }
  }

  lemma NumValueRoundTrip(n: int, rest: string)
    requires rest == [] || !IsDigit(rest[0])
    ensures ParseValue(Stringify(JNum(n)) + rest) == Some((JNum(n), rest))
  {
    var s := Stringify(JNum(n)) + rest;
    StringifyStart(JNum(n));
    assert s[0] == Stringify(JNum(n))[0];
    ParseValueAt(s);
    IntRoundTrip(n, rest);
  }

  lemma StrValueRoundTrip(str: string, rest: string)
    ensures ParseValue(Stringify(JStr(str)) + rest) == Some((JStr(str), rest))
  {
    var s := Stringify(JStr(str)) + rest;
    assert s[0] == '"' && s[1..] == Escape(str) + "\"" + rest;
    ParseValueAt(s);
    StringRoundTrip(str, rest);
  }

  lemma {:induction false} ArrValueRoundTrip(items: seq<Json>, rest: string)
    ensures ParseValue(Stringify(JArr(items)) + rest) == Some((JArr(items), rest))
    decreases items, 3
  {
    var s := Stringify(JArr(items)) + rest;
    assert s[0] == '[' && s[1..] == Elements(items) + "]" + rest;
    ParseValueAt(s);
    ArrayRoundTrip(items, rest);
  }

  lemma {:induction false} ObjValueRoundTrip(ms: seq<(string, Json)>, rest: string)
    ensures ParseValue(Stringify(JObj(ms)) + rest) == Some((JObj(ms), rest))
    decreases ms, 3
  {
    var s := Stringify(JObj(ms)) + rest;
    assert s[0] == '{' && s[1..] == Members(ms) + "}" + rest;
    ParseValueAt(s);
    ObjectRoundTrip(ms, rest);
  }

  lemma {:induction false} ValueRoundTrip(v: Json, rest: string)
    requires rest == [] || !IsDigit(rest[0])
    ensures ParseValue(Stringify(v) + rest) == Some((v, rest))
    decreases v
  {
    match v
    case JNull => LiteralRoundTrip(v, rest);
    case JBool(_) => LiteralRoundTrip(v, rest);
    case JNum(n) => NumValueRoundTrip(n, rest);
    case JStr(str) => StrValueRoundTrip(str, rest);
    case JArr(items) => ArrValueRoundTrip(items, rest);
    case JObj(ms) => ObjValueRoundTrip(ms, rest);
  }

  lemma {:induction false} ArrayRoundTrip(items: seq<Json>, rest: string)
    ensures ParseArray(Elements(items) + "]" + rest) == Some((JArr(items), rest))
    decreases items, 2
  {
    var u := Elements(items) + "]" + rest;
    if items == [] {
      assert u == "]" + rest;
      assert SkipWs(u) == u;
    } else {
      StringifyStart(items[0]);
      assert u[0] == Stringify(items[0])[0];
      assert SkipWs(u) == u;
      ElementsRoundTrip(items, rest);
    }
  }

  lemma {:induction false} ObjectRoundTrip(ms: seq<(string, Json)>, rest: string)
    ensures ParseObject(Members(ms) + "}" + rest) == Some((JObj(ms), rest))
    decreases ms, 2
  {
    var u := Members(ms) + "}" + rest;
    if ms == [] {
      assert u == "}" + rest;
      assert SkipWs(u) == u;
    } else {
      assert MemberText(ms[0])[0] == '"';
      assert Members(ms)[0] == MemberText(ms[0])[0];
      assert u[0] == '"';
      assert SkipWs(u) == u;
      MembersRoundTrip(ms, rest);
    }
  }

  lemma Regroup(a: string, b: string, c: string, d: string, e: string)
    ensures a + b + c + d + e == a + (b + (c + d + e))
  {
  }

  /** ParseElements after the last element. */
  lemma ParseElementsLast(s: string, v: Json, rest: string)
    requires ParseValue(s) == Some((v, "]" + rest))
    ensures ParseElements(s) == Some(([v], rest))
  {
    assert SkipWs("]" + rest) == "]" + rest;
    assert ("]" + rest)[1..] == rest;
  }

  /** ParseElements after an element followed by a comma. */
  lemma ParseElementsNext(s: string, v: Json, tail: string, vs: seq<Json>, rest: string)
    requires ParseValue(s) == Some((v, "," + tail))
    requires ParseElements(tail) == Some((vs, rest))
    ensures ParseElements(s) == Some(([v] + vs, rest))
  {
    assert SkipWs("," + tail) == "," + tail;
    assert ("," + tail)[1..] == tail;
  }

  lemma {:induction false} ElementsRoundTrip(items: seq<Json>, rest: string)
    requires items != []
    ensures ParseElements(Elements(items) + "]" + rest) == Some((items, rest))
    decreases items, 1
  {
    if |items| == 1 {
      LastElementRoundTrip(items, rest);
    } else {
      MoreElementsRoundTrip(items, rest);
    }
  }

  lemma {:induction false} LastElementRoundTrip(items: seq<Json>, rest: string)
    requires |items| == 1
    ensures ParseElements(Elements(items) + "]" + rest) == Some((items, rest))
    decreases items, 0
  {
    var s := Elements(items) + "]" + rest;
    assert s == Stringify(items[0]) + ("]" + rest);
    ValueRoundTrip(items[0], "]" + rest);
    ParseElementsLast(s, items[0], rest);
    assert [items[0]] == items;
  }

  lemma {:induction false} MoreElementsRoundTrip(items: seq<Json>, rest: string)
    requires |items| > 1
    ensures ParseElements(Elements(items) + "]" + rest) == Some((items, rest))
    decreases items, 0
  {
    var s := Elements(items) + "]" + rest;
    var tail := Elements(items[1..]) + "]" + rest;
    Regroup(Stringify(items[0]), ",", Elements(items[1..]), "]", rest);
    assert s == Stringify(items[0]) + ("," + tail);
    ValueRoundTrip(items[0], "," + tail);
    ElementsRoundTrip(items[1..], rest);
    ParseElementsNext(s, items[0], tail, items[1..], rest);
    assert [items[0]] + items[1..] == items;
  }

  /** One step of ParseMember: a key string, a colon and a value. */
  lemma ParseMemberStep(s: string, k: string, r1: string, v: Json, r3: string)
    requires s != [] && s[0] == '"' && ParseStringBody(s[1..]) == Some((k, r1))
    requires r1 != [] && r1[0] == ':' && ParseValue(r1[1..]) == Some((v, r3))
    ensures ParseMember(s) == Some(((k, v), r3))
  {
    assert SkipWs(s) == s;
    assert SkipWs(r1) == r1;
  }

  /** ParseMembers after the last member. */
  lemma ParseMembersLast(s: string, m: (string, Json), rest: string)
    requires ParseMember(s) == Some((m, "}" + rest))
    ensures ParseMembers(s) == Some(([m], rest))
  {
    assert SkipWs("}" + rest) == "}" + rest;
    assert ("}" + rest)[1..] == rest;
  }

  /** ParseMembers after a member followed by a comma. */
  lemma ParseMembersNext(s: string, m: (string, Json), tail: string, ms: seq<(string, Json)>, rest: string)
    requires ParseMember(s) == Some((m, "," + tail))
    requires ParseMembers(tail) == Some((ms, rest))
    ensures ParseMembers(s) == Some(([m] + ms, rest))
  {
    assert SkipWs("," + tail) == "," + tail;
    assert ("," + tail)[1..] == tail;
  }

  lemma MemberTextShape(m: (string, Json), after: string)
    ensures var s := MemberText(m) + after; var afterKey := ":" + Stringify(m.1) + after;
      s != [] && s[0] == '"' && s[1..] == Escape(m.0) + "\"" + afterKey &&
      afterKey[0] == ':' && afterKey[1..] == Stringify(m.1) + after
  {
    var afterKey := ":" + Stringify(m.1) + after;
    assert MemberText(m) + after == "\"" + (Escape(m.0) + "\"" + afterKey);
  }

  lemma {:induction false} MemberRoundTrip(m: (string, Json), after: string)
    requires after == [] || !IsDigit(after[0])
    ensures ParseMember(MemberText(m) + after) == Some((m, after))
    decreases m
  {
    var afterKey := ":" + Stringify(m.1) + after;
    var s := MemberText(m) + after;
    MemberTextShape(m, after);
    StringRoundTrip(m.0, afterKey);
    ValueRoundTrip(m.1, after);
    ParseMemberStep(s, m.0, afterKey, m.1, after);
  }

  lemma {:induction false} MembersRoundTrip(ms: seq<(string, Json)>, rest: string)
    requires ms != []
    ensures ParseMembers(Members(ms) + "}" + rest) == Some((ms, rest))
    decreases ms, 1
  {
    if |ms| == 1 {
      LastMemberRoundTrip(ms, rest);
    } else {
      MoreMembersRoundTrip(ms, rest);
    }
  }

  lemma {:induction false} LastMemberRoundTrip(ms: seq<(string, Json)>, rest: string)
    requires |ms| == 1
    ensures ParseMembers(Members(ms) + "}" + rest) == Some((ms, rest))
    decreases ms, 0
  {
    var s := Members(ms) + "}" + rest;
    assert s == MemberText(ms[0]) + ("}" + rest);
    MemberRoundTrip(ms[0], "}" + rest);
    ParseMembersLast(s, ms[0], rest);
    assert [ms[0]] == ms;
  }

  lemma {:induction false} MoreMembersRoundTrip(ms: seq<(string, Json)>, rest: string)
    requires |ms| > 1
    ensures ParseMembers(Members(ms) + "}" + rest) == Some((ms, rest))
    decreases ms, 0
  {
    var s := Members(ms) + "}" + rest;
    var tail := Members(ms[1..]) + "}" + rest;
    Regroup(MemberText(ms[0]), ",", Members(ms[1..]), "}", rest);
    assert s == MemberText(ms[0]) + ("," + tail);
    MemberRoundTrip(ms[0], "," + tail);
    MembersRoundTrip(ms[1..], rest);
    ParseMembersNext(s, ms[0], tail, ms[1..], rest);
    assert [ms[0]] + ms[1..] == ms;
  }

  /** `JSON.parse(JSON.stringify(v))` gives v back. */
  lemma ParseStringify(v: Json)
    ensures Parse(Stringify(v)) == Some(v)
  {
    ValueRoundTrip(v, []);
    assert Stringify(v) + [] == Stringify(v);
  }
}
