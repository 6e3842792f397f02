/**
 A reader for JSON text (RFC 8259), restricted to objects whose values are
 strings, numbers and literals. It knows nothing of the emitter: it is the
 independent definition that emitted lines are judged by. Text is UTF-8, as
 section 8.1 asks, and lone surrogate escapes are refused.
 */
module JsonText {
  import opened Bytes
  import Utf8

  datatype Parsed<+T> = Parsed(value: T, rest: bytes)
  datatype Json = Null | Bool(flag: bool) | Number(text: bytes) | String(points: seq<int>)
  datatype Pair = Pair(key: seq<int>, value: Json)

  const NULL_TEXT: bytes := [0x6e, 0x75, 0x6c, 0x6c]
  const TRUE_TEXT: bytes := [0x74, 0x72, 0x75, 0x65]
  const FALSE_TEXT: bytes := [0x66, 0x61, 0x6c, 0x73, 0x65]
  const OPEN: byte := 0x7b
  const CLOSE: byte := 0x7d

  // ----- strings, section 7 -----

  function HexValue(b: byte): (v: int)
    ensures -1 <= v < 16
  {
    if 0x30 <= b <= 0x39 then b - 0x30
    else if 0x61 <= b <= 0x66 then b - 0x61 + 10
    else if 0x41 <= b <= 0x46 then b - 0x41 + 10
    else -1
  }

  /** Four hexadecimal digits, or -1. */
  function Unit(s: bytes): (u: int)
    ensures -1 <= u < 0x10000
    ensures u >= 0 ==> |s| >= 4
  {
    if |s| < 4 || HexValue(s[0]) < 0 || HexValue(s[1]) < 0 || HexValue(s[2]) < 0 || HexValue(s[3]) < 0 then -1
    else HexValue(s[0]) * 4096 + HexValue(s[1]) * 256 + HexValue(s[2]) * 16 + HexValue(s[3])
  }

  function SimpleEscape(b: byte): (c: int)
    ensures c == -1 || Utf8.Scalar(c)
  {
    if b == QUOTE || b == BACKSLASH || b == 0x2f then b
    else if b == 0x62 then 0x08
    else if b == 0x66 then 0x0c
    else if b == 0x6e then 0x0a
    else if b == 0x72 then 0x0d
    else if b == 0x74 then 0x09
    else -1
  }

  /** One escape sequence; `s` starts just after `\u`. */
  function UnicodeEscape(s: bytes): (r: Option<Parsed<int>>)
    ensures r.Some? ==> |r.value.rest| < |s| && Utf8.Scalar(r.value.value)
  {
    var u := Unit(s);
    if u < 0 || 0xdc00 <= u < 0xe000 then None
    else if u < 0xd800 || u >= 0xe000 then Some(Parsed(u, s[4..]))
    else if |s| < 6 || s[4] != BACKSLASH || s[5] != 0x75 then None
    else
      var l := Unit(s[6..]);
      if 0xdc00 <= l < 0xe000 then Some(Parsed(0x10000 + (u - 0xd800) * 0x400 + (l - 0xdc00), s[10..]))
      else None
  }

  /** One character of a string body: an escape or an unescaped code point. */
  function Char(s: bytes): (r: Option<Parsed<int>>)
    ensures r.Some? ==> |r.value.rest| < |s| && Utf8.Scalar(r.value.value)
  {
    if s == [] || s[0] < 0x20 || s[0] == QUOTE then None
    else if s[0] == BACKSLASH then
      if |s| < 2 then None
      else if s[1] == 0x75 then UnicodeEscape(s[2..])
      else if SimpleEscape(s[1]) < 0 then None
      else Some(Parsed(SimpleEscape(s[1]), s[2..]))
    else
      var n := Utf8.SequenceLength(s);
      if n == 0 then None else
        Utf8.RecogniserSound(s);
        Some(Parsed(Utf8.FrontScalar(s), s[n..]))
  }

  /** The body of a string up to and including its closing quotation mark. */
  function Body(s: bytes): (r: Option<Parsed<seq<int>>>)
    ensures r.Some? ==> |r.value.rest| < |s|
    decreases |s|
  {
    if s == [] then None
    else if s[0] == QUOTE then Some(Parsed([], s[1..]))
    else
      match Char(s)
      case None => None
      case Some(c) =>
        match Body(c.rest)
        case None => None
        case Some(b) => Some(Parsed([c.value] + b.value, b.rest))
  }

  function StringText(s: bytes): (r: Option<Parsed<seq<int>>>)
    ensures r.Some? ==> |r.value.rest| < |s|
  {
    if s == [] || s[0] != QUOTE then None else Body(s[1..])
  }

  // ----- numbers, section 6 -----

  predicate IsDigit(b: byte) {
    0x30 <= b <= 0x39
  }

  function SkipDigits(s: bytes): bytes {
    if s == [] || !IsDigit(s[0]) then s else SkipDigits(s[1..])
  }

  predicate Exponent(v: bytes) {
    v == [] ||
    ((v[0] == 0x65 || v[0] == 0x45) &&
     var w := if |v| > 1 && (v[1] == 0x2b || v[1] == MINUS) then v[2..] else v[1..];
     w != [] && IsDigit(w[0]) && SkipDigits(w) == [])
  }

  predicate Fraction(v: bytes) {
    if v != [] && v[0] == 0x2e then |v| > 1 && IsDigit(v[1]) && Exponent(SkipDigits(v[1..]))
    else Exponent(v)
  }

  predicate IsNumber(t: bytes) {
    var u := if t != [] && t[0] == MINUS then t[1..] else t;
    u != [] && IsDigit(u[0]) &&
    (u[0] == ZERO ==> |u| == 1 || !IsDigit(u[1])) &&
    Fraction(SkipDigits(u))
  }

  predicate NumberByte(b: byte) {
    IsDigit(b) || b == MINUS || b == 0x2b || b == 0x2e || b == 0x65 || b == 0x45
  }

  function NumberRun(s: bytes): (n: nat)
    ensures n <= |s|
  {
    if s == [] || !NumberByte(s[0]) then 0 else 1 + NumberRun(s[1..])
  }

  // ----- values, section 3, and objects, section 4 -----

  function Value(s: bytes): (r: Option<Parsed<Json>>)
    ensures r.Some? ==> |r.value.rest| < |s|
  {
    if s != [] && s[0] == QUOTE then
      match StringText(s)
      case None => None
      case Some(t) => Some(Parsed(String(t.value), t.rest))
    else if NULL_TEXT <= s then Some(Parsed(Null, s[4..]))
    else if TRUE_TEXT <= s then Some(Parsed(Bool(true), s[4..]))
    else if FALSE_TEXT <= s then Some(Parsed(Bool(false), s[5..]))
    else
      var n := NumberRun(s);
      if IsNumber(s[..n]) then Some(Parsed(Number(s[..n]), s[n..])) else None
  }

  function Member(s: bytes): (r: Option<Parsed<Pair>>)
    ensures r.Some? ==> |r.value.rest| < |s|
  {
    match StringText(s)
    case None => None
    case Some(k) =>
      if k.rest == [] || k.rest[0] != COLON then None
      else
        match Value(k.rest[1..])
        case None => None
        case Some(v) => Some(Parsed(Pair(k.value, v.value), v.rest))
  }

  function Members(s: bytes): Option<Parsed<seq<Pair>>>
    decreases |s|
  {
    match Member(s)
    case None => None
    case Some(m) =>
      if m.rest == [] then None
      else if m.rest[0] == CLOSE then Some(Parsed([m.value], m.rest[1..]))
      else if m.rest[0] != COMMA then None
      else
        match Members(m.rest[1..])
        case None => None
        case Some(ms) => Some(Parsed([m.value] + ms.value, ms.rest))
  }

  /** The ordered pairs of a text that is exactly one object. */
  function Document(s: bytes): Option<seq<Pair>> {
    if s == [] || s[0] != OPEN then None
    else if |s| == 2 && s[1] == CLOSE then Some([])
    else
      match Members(s[1..])
      case None => None
      case Some(ms) => if ms.rest == [] then Some(ms.value) else None
  }

  // ----- composing texts -----

  /** What may follow a value inside an object. */
  predicate Delimiter(s: bytes) {
    s != [] && (s[0] == COMMA || s[0] == CLOSE)
  }

  ghost predicate ReadsAs(t: bytes, v: Json) {
    forall rest | Delimiter(rest) :: Value(t + rest) == Some(Parsed(v, rest))
  }

  ghost predicate ReadsAsKey(t: bytes, k: seq<int>) {
    forall rest :: StringText(t + rest) == Some(Parsed(k, rest))
  }

  ghost predicate ReadsAsMember(t: bytes, p: Pair) {
    forall rest | Delimiter(rest) :: Member(t + rest) == Some(Parsed(p, rest))
  }

  lemma MemberText(k: bytes, key: seq<int>, v: bytes, value: Json)
    requires ReadsAsKey(k, key) && ReadsAs(v, value)
    ensures ReadsAsMember(k + [COLON] + v, Pair(key, value))
  {
    forall rest | Delimiter(rest)
      ensures Member(k + [COLON] + v + rest) == Some(Parsed(Pair(key, value), rest))
    {
      hide StringText, Value;
      var tail := [COLON] + (v + rest);
      Assoc(k, [COLON], v);
      Assoc(k, [COLON] + v, rest);
      Assoc([COLON], v, rest);
      assert k + [COLON] + v + rest == k + tail;
      Tail(COLON, v + rest);
      assert StringText(k + tail) == Some(Parsed(key, tail));
    }
  }

  /** Member texts separated by commas. */
  function Join(ts: seq<bytes>): bytes {
    if ts == [] then []
    else if |ts| == 1 then ts[0]
    else ts[0] + [COMMA] + Join(ts[1..])
  }

  ghost predicate ReadAsMembers(ts: seq<bytes>, ps: seq<Pair>) {
    |ts| == |ps| && forall i :: 0 <= i < |ts| ==> ReadsAsMember(ts[i], ps[i])
  }

  /** A non-empty comma-joined list of members reads back as exactly those pairs. */
  lemma {:induction false} MembersText(ts: seq<bytes>, ps: seq<Pair>)
    requires ts != [] && ReadAsMembers(ts, ps)
    ensures Members(Join(ts) + [CLOSE]) == Some(Parsed(ps, []))
  {
    hide Member;
    assert ReadsAsMember(ts[0], ps[0]);
    if |ts| == 1 {
      assert Delimiter([CLOSE]);
      assert Member(ts[0] + [CLOSE]) == Some(Parsed(ps[0], [CLOSE]));
      assert [CLOSE][1..] == [];
      assert ps == [ps[0]];
    } else {
      var inner := Join(ts[1..]) + [CLOSE];
      MembersText(ts[1..], ps[1..]);
      Assoc(ts[0], [COMMA], Join(ts[1..]));
      Assoc(ts[0], [COMMA] + Join(ts[1..]), [CLOSE]);
      Assoc([COMMA], Join(ts[1..]), [CLOSE]);
      assert Join(ts) + [CLOSE] == ts[0] + ([COMMA] + inner);
      Tail(COMMA, inner);
      assert Delimiter([COMMA] + inner);
      assert Member(ts[0] + ([COMMA] + inner)) == Some(Parsed(ps[0], [COMMA] + inner));
      assert ps == [ps[0]] + ps[1..];
    }
  }

  lemma {:induction false} DocumentText(ts: seq<bytes>, ps: seq<Pair>)
    requires ts != [] && ReadAsMembers(ts, ps)
    ensures Document([OPEN] + Join(ts) + [CLOSE]) == Some(ps)
  {
    var body := Join(ts) + [CLOSE];
    var s := [OPEN] + body;
    Assoc([OPEN], Join(ts), [CLOSE]);
    Tail(OPEN, body);
    MembersText(ts, ps);
  }

  // ----- numbers in place -----

  predicate NumberBytes(t: bytes) {
    forall i :: 0 <= i < |t| ==> NumberByte(t[i])
  }

  lemma {:induction false} SkipDigitsBytes(s: bytes)
    requires NumberBytes(SkipDigits(s))
    ensures NumberBytes(s)
  {
    if s == [] || !IsDigit(s[0]) {
    } else {
      SkipDigitsBytes(s[1..]);
      Tail(s[0], s[1..]);
      assert s == [s[0]] + s[1..];
    }
  }

  lemma ExponentBytes(v: bytes)
    requires Exponent(v)
    ensures NumberBytes(v)
  {
    if v != [] {
      var n := if |v| > 1 && (v[1] == 0x2b || v[1] == MINUS) then 2 else 1;
      SkipDigitsBytes(v[n..]);
      Halves(v, n);
      assert NumberBytes(v[..n]);
    }
  }

  lemma FractionBytes(v: bytes)
    requires Fraction(v)
    ensures NumberBytes(v)
  {
    if v != [] && v[0] == 0x2e {
      ExponentBytes(SkipDigits(v[1..]));
      SkipDigitsBytes(v[1..]);
      assert v == [v[0]] + v[1..];
    } else {
      ExponentBytes(v);
    }
  }

  lemma NumberIsBytes(t: bytes)
    requires IsNumber(t)
    ensures t != [] && NumberBytes(t)
  {
    var u := if t != [] && t[0] == MINUS then t[1..] else t;
    FractionBytes(SkipDigits(u));
    SkipDigitsBytes(u);
    if t[0] == MINUS {
      assert t == [t[0]] + u;
    }
  }

  lemma {:induction false} RunStops(t: bytes, rest: bytes)
    requires NumberBytes(t) && (rest == [] || !NumberByte(rest[0]))
    ensures NumberRun(t + rest) == |t|
  {
    if t == [] {
      assert t + rest == rest;
    } else {
      RunStops(t[1..], rest);
      assert (t + rest)[1..] == t[1..] + rest;
    }
  }

  lemma NumberReads(t: bytes)
    requires IsNumber(t)
    ensures ReadsAs(t, Number(t))
  {
    NumberIsBytes(t);
    forall rest | Delimiter(rest)
      ensures Value(t + rest) == Some(Parsed(Number(t), rest))
    {
      RunStops(t, rest);
      Suffix(t, rest);
      assert (t + rest)[0] == t[0];
      hide IsNumber, NumberRun;
    }
  }

  lemma LiteralsRead()
    ensures ReadsAs(NULL_TEXT, Null) && ReadsAs(TRUE_TEXT, Bool(true)) && ReadsAs(FALSE_TEXT, Bool(false))
  {
    forall rest: bytes
      ensures Value(NULL_TEXT + rest) == Some(Parsed(Null, rest))
    {
      Suffix(NULL_TEXT, rest);
      assert (NULL_TEXT + rest)[0] == 0x6e;
    }
    forall rest: bytes
      ensures Value(TRUE_TEXT + rest) == Some(Parsed(Bool(true), rest))
    {
      Suffix(TRUE_TEXT, rest);
      assert (TRUE_TEXT + rest)[0] == 0x74;
    }
    forall rest: bytes
      ensures Value(FALSE_TEXT + rest) == Some(Parsed(Bool(false), rest))
    {
      Suffix(FALSE_TEXT, rest);
      assert (FALSE_TEXT + rest)[0] == 0x66;
    }
  }

  // ----- one member that does not read spoils the object -----

  ghost predicate FailsAsMember(t: bytes) {
    forall rest :: Member(t + rest) == None
  }

  lemma {:induction false} MembersSpoilt(ts: seq<bytes>, ps: seq<Pair>, bad: nat)
    requires bad < |ts| && |ts| == |ps| && FailsAsMember(ts[bad])
    requires forall i :: 0 <= i < bad ==> ReadsAsMember(ts[i], ps[i])
    ensures Members(Join(ts) + [CLOSE]) == None
  {
    hide Member;
    var inner := Join(ts[1..]) + [CLOSE];
    if |ts| > 1 {
      Assoc(ts[0], [COMMA], Join(ts[1..]));
      Assoc(ts[0], [COMMA] + Join(ts[1..]), [CLOSE]);
      Assoc([COMMA], Join(ts[1..]), [CLOSE]);
      assert Join(ts) + [CLOSE] == ts[0] + ([COMMA] + inner);
    }
    if bad == 0 {
    } else {
      MembersSpoilt(ts[1..], ps[1..], bad - 1);
      Tail(COMMA, inner);
      assert Delimiter([COMMA] + inner);
      assert ReadsAsMember(ts[0], ps[0]);
      assert Member(ts[0] + ([COMMA] + inner)) == Some(Parsed(ps[0], [COMMA] + inner));
    }
  }

  lemma {:induction false} DocumentSpoilt(ts: seq<bytes>, ps: seq<Pair>, bad: nat)
    requires bad < |ts| && |ts| == |ps| && ts[0] != [] && FailsAsMember(ts[bad])
    requires forall i :: 0 <= i < bad ==> ReadsAsMember(ts[i], ps[i])
    ensures Document([OPEN] + Join(ts) + [CLOSE]) == None
  {
    MembersSpoilt(ts, ps, bad);
    assert |Join(ts)| > 0;
    hide Members, Join;
    var body := Join(ts) + [CLOSE];
    Assoc([OPEN], Join(ts), [CLOSE]);
    Tail(OPEN, body);
  }

  // ----- accepted text holds no control byte -----

  /** Reading went from `s` to its end part `rest`, over no control byte. */
  ghost predicate Over(s: bytes, rest: bytes) {
    |rest| <= |s| && s[|s| - |rest|..] == rest && forall i :: 0 <= i < |s| - |rest| ==> s[i] >= 0x20
  }

  lemma OverTrans(a: bytes, b: bytes, c: bytes)
    requires Over(a, b) && Over(b, c)
    ensures Over(a, c)
  {
    var n := |a| - |b|;
    assert forall i :: n <= i < |a| ==> a[i] == b[i - n];
  }

  lemma OverFront(s: bytes, n: nat)
    requires n <= |s| && forall i :: 0 <= i < n ==> s[i] >= 0x20
    ensures Over(s, s[n..])
  {
  }

  lemma UnicodeEscapeOver(s: bytes)
    requires UnicodeEscape(s).Some?
    ensures Over(s, UnicodeEscape(s).value.rest)
  {
    assert forall b: byte | HexValue(b) >= 0 :: b >= 0x20;
    var r := UnicodeEscape(s).value.rest;
    if |s| - |r| == 4 {
      OverFront(s, 4);
    } else {
      assert s[6..][0] == s[6] && s[6..][1] == s[7] && s[6..][2] == s[8] && s[6..][3] == s[9];
      OverFront(s, 10);
    }
  }

  lemma CharOver(s: bytes)
    requires Char(s).Some?
    ensures Over(s, Char(s).value.rest)
  {
    if s[0] == BACKSLASH {
      OverFront(s, 2);
      if s[1] == 0x75 {
        UnicodeEscapeOver(s[2..]);
        OverTrans(s, s[2..], Char(s).value.rest);
      }
    } else {
      OverFront(s, Utf8.SequenceLength(s));
    }
  }

  lemma {:induction false} BodyOver(s: bytes)
    requires Body(s).Some?
    ensures Over(s, Body(s).value.rest)
    decreases |s|
  {
    if s[0] == QUOTE {
      OverFront(s, 1);
    } else {
      CharOver(s);
      hide Char, Over;
      var c := Char(s).value;
      BodyOver(c.rest);
      OverTrans(s, c.rest, Body(c.rest).value.rest);
    }
  }

  lemma StringOver(s: bytes)
    requires StringText(s).Some?
    ensures Over(s, StringText(s).value.rest)
  {
    OverFront(s, 1);
    BodyOver(s[1..]);
    OverTrans(s, s[1..], StringText(s).value.rest);
  }

  lemma {:induction false} RunOver(s: bytes)
    ensures Over(s, s[NumberRun(s)..])
  {
    if s == [] || !NumberByte(s[0]) {
    } else {
      RunOver(s[1..]);
      OverFront(s, 1);
      OverTrans(s, s[1..], s[1..][NumberRun(s[1..])..]);
      assert s[1..][NumberRun(s[1..])..] == s[NumberRun(s)..];
    }
  }

  lemma ValueOver(s: bytes)
    requires Value(s).Some?
    ensures Over(s, Value(s).value.rest)
  {
    hide StringText, Over, IsNumber, NumberRun;
    if s != [] && s[0] == QUOTE {
      StringOver(s);
    } else if NULL_TEXT <= s || TRUE_TEXT <= s {
      OverFront(s, 4);
    } else if FALSE_TEXT <= s {
      OverFront(s, 5);
    } else {
      RunOver(s);
    }
  }

  lemma MemberOver(s: bytes)
    requires Member(s).Some?
    ensures Over(s, Member(s).value.rest)
  {
    StringOver(s);
    var k := StringText(s).value;
    OverFront(k.rest, 1);
    ValueOver(k.rest[1..]);
    hide StringText, Value, Over;
    OverTrans(s, k.rest, k.rest[1..]);
    OverTrans(s, k.rest[1..], Value(k.rest[1..]).value.rest);
  }

  lemma {:induction false} MembersOver(s: bytes)
    requires Members(s).Some?
    ensures Over(s, Members(s).value.rest)
    decreases |s|
  {
    MemberOver(s);
    var m := Member(s).value;
    OverFront(m.rest, 1);
    hide Member, Over;
    OverTrans(s, m.rest, m.rest[1..]);
    if m.rest[0] == CLOSE {
    } else {
      MembersOver(m.rest[1..]);
      OverTrans(s, m.rest[1..], Members(m.rest[1..]).value.rest);
    }
  }

  /** A text that is one object has no raw newline, nor any other control byte. */
  lemma DocumentHasNoControls(s: bytes)
    requires Document(s).Some?
    ensures forall i :: 0 <= i < |s| ==> s[i] >= 0x20
  {
    if !(|s| == 2 && s[1] == CLOSE) {
      OverFront(s, 1);
      MembersOver(s[1..]);
      OverTrans(s, s[1..], []);
    }
  }
}
