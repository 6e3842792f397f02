/**
 The kvfmt language (src/pslog.c, `pslog_parse_kvfmt_layout`): formats such as
 `user=%s tries=%ld`, their grammar, their parser, and the printer of the
 benchmark data set (gobencher/benchmark/dataset.go, `EntryToKVFmt`).
 */
module Kvfmt {
  import opened Bytes

  const MAX_FIELDS: nat := 32
  const LETTER_L: byte := 0x6c
  const LETTER_S: byte := 0x73
  const LETTER_D: byte := 0x64
  const LETTER_U: byte := 0x75
  const LETTER_F: byte := 0x66
  const LETTER_P: byte := 0x70
  const LETTER_B: byte := 0x62
  const LETTER_M: byte := 0x6d

  datatype ArgType =
    | StringArg | IntArg | LongArg | UnsignedArg | UnsignedLongArg | DoubleArg | PointerArg | BoolArg | ErrnoArg

  datatype Spec = Spec(key: bytes, arg: ArgType)

  // ----- the grammar -----

  /** One field of a format: spaces, a key, `=%`, perhaps an `l`, and a verb. */
  datatype Item = Item(gap: nat, key: bytes, long: bool, verb: byte)

  predicate KeyByte(b: byte) {
    b >= 0x21 && b != QUOTE && b != BACKSLASH && b != DEL
  }

  predicate KeyText(k: bytes) {
    (forall i :: 0 <= i < |k| ==> KeyByte(k[i])) &&
    (forall i :: 0 <= i < |k| - 1 ==> !(k[i] == EQUALS && k[i + 1] == PERCENT))
  }

  predicate GoodKey(k: bytes) {
    k != [] && KeyText(k)
  }

  function ArgOf(long: bool, verb: byte): Option<ArgType> {
    if verb == LETTER_S then Some(StringArg)
    else if verb == LETTER_D then Some(if long then LongArg else IntArg)
    else if verb == LETTER_U then Some(if long then UnsignedLongArg else UnsignedArg)
    else if verb == LETTER_F then Some(DoubleArg)
    else if verb == LETTER_P then Some(PointerArg)
    else if verb == LETTER_B then Some(BoolArg)
    else if verb == LETTER_M && !long then Some(ErrnoArg)
    else None
  }

  function Spaces(n: nat): bytes {
    if n == 0 then [] else [SPACE] + Spaces(n - 1)
  }

  function VerbText(i: Item): bytes {
    if i.long then [LETTER_L, i.verb] else [i.verb]
  }

  function ItemText(i: Item): bytes {
    Spaces(i.gap) + (i.key + ([EQUALS, PERCENT] + VerbText(i)))
  }

  /** Only the first field may stand without a space before it. */
  predicate GoodItem(i: Item, first: bool) {
    GoodKey(i.key) && ArgOf(i.long, i.verb).Some? && (!first ==> i.gap >= 1)
  }

  predicate GoodItems(items: seq<Item>, first: bool) {
    items == [] || (GoodItem(items[0], first) && GoodItems(items[1..], false))
  }

  /** The text of a format that ends in `tail` spaces. */
  function Render(items: seq<Item>, tail: nat): bytes {
    if items == [] then Spaces(tail) else ItemText(items[0]) + Render(items[1..], tail)
  }

  function Meaning(items: seq<Item>, first: bool): seq<Spec>
    requires GoodItems(items, first)
  {
    if items == [] then []
    else [Spec(items[0].key, ArgOf(items[0].long, items[0].verb).value)] + Meaning(items[1..], false)
  }

  // ----- the parser as a function -----

  /** Where the first `=%` is, if only key bytes come before it. */
  function KeyEnd(t: bytes): (r: Option<nat>)
    ensures r.Some? ==> r.value + 2 <= |t|
  {
    if |t| < 2 then None
    else if t[0] == EQUALS && t[1] == PERCENT then Some(0)
    else if !KeyByte(t[0]) then None
    else
      match KeyEnd(t[1..])
      case None => None
      case Some(n) => Some(n + 1)
  }

  datatype VerbRead = VerbRead(arg: ArgType, rest: bytes)

  function ReadVerb(t: bytes): (r: Option<VerbRead>)
    ensures r.Some? ==> |r.value.rest| < |t|
  {
    var long := t != [] && t[0] == LETTER_L;
    var u := if long then t[1..] else t;
    if u == [] then None
    else
      match ArgOf(long, u[0])
      case None => None
      case Some(a) => if |u| > 1 && u[1] != SPACE then None else Some(VerbRead(a, u[1..]))
  }

  /** One field and what follows it; `t` starts with its key. */
  datatype FieldRead = FieldRead(spec: Spec, rest: bytes)

  function ReadField(t: bytes): (r: Option<FieldRead>)
    ensures r.Some? ==> |r.value.rest| < |t|
  {
    match KeyEnd(t)
    case None => None
    case Some(n) =>
      if n == 0 then None
      else
        match ReadVerb(t[n + 2..])
        case None => None
        case Some(v) => Some(FieldRead(Spec(t[..n], v.arg), v.rest))
  }

  /** The fields of `t`, no more than `room` of them. */
  function ParseFrom(t: bytes, room: nat): Option<seq<Spec>>
    decreases |t|
  {
    if t == [] then Some([])
    else if t[0] == SPACE then ParseFrom(t[1..], room)
    else if room == 0 then None
    else
      match ReadField(t)
      case None => None
      case Some(f) => Glue([f.spec], ParseFrom(f.rest, room - 1))
  }

  function Glue(front: seq<Spec>, rest: Option<seq<Spec>>): Option<seq<Spec>> {
    match rest
    case None => None
    case Some(specs) => Some(front + specs)
  }

  function Parse(t: bytes): Option<seq<Spec>> {
    ParseFrom(t, MAX_FIELDS)
  }

  // ----- the parser accepts exactly the grammar -----

  lemma {:induction false} KeyEndOf(k: bytes, rest: bytes)
    requires KeyText(k)
    ensures KeyEnd(k + ([EQUALS, PERCENT] + rest)) == Some(|k|)
  {
    var after := [EQUALS, PERCENT] + rest;
    if k == [] {
      assert k + after == after;
    } else {
      KeyEndOf(k[1..], rest);
      var t := k + after;
      assert t[1..] == k[1..] + after;
      assert t[0] == k[0] && t[1] == (if |k| > 1 then k[1] else EQUALS);
    }
  }

  lemma {:induction false} KeyEndSound(t: bytes)
    requires KeyEnd(t).Some?
    ensures var n := KeyEnd(t).value;
            KeyText(t[..n]) && t == t[..n] + ([EQUALS, PERCENT] + t[n + 2..])
  {
    var n := KeyEnd(t).value;
    if n == 0 {
      assert t == [t[0], t[1]] + t[2..];
    } else {
      KeyEndSound(t[1..]);
      var k := t[1..][..n - 1];
      assert t[..n] == [t[0]] + k;
      assert t[1..][n + 1..] == t[n + 2..];
      Assoc([t[0]], k, [EQUALS, PERCENT] + t[n + 2..]);
      assert t == [t[0]] + t[1..];
      assert n > 1 ==> k[0] == t[1];
      assert n == 1 ==> t[1] == EQUALS;
    }
  }

  lemma ReadVerbOf(i: Item, rest: bytes)
    requires ArgOf(i.long, i.verb).Some? && (rest == [] || rest[0] == SPACE)
    ensures ReadVerb(VerbText(i) + rest) == Some(VerbRead(ArgOf(i.long, i.verb).value, rest))
  {
    var t := VerbText(i) + rest;
    if i.long {
      assert t[1..] == [i.verb] + rest;
      assert t[1..][1..] == rest;
    } else {
      assert t[1..] == rest;
    }
  }

  lemma ReadVerbSound(t: bytes) returns (i: Item)
    requires ReadVerb(t).Some?
    ensures var v := ReadVerb(t).value;
            ArgOf(i.long, i.verb) == Some(v.arg) && t == VerbText(i) + v.rest && (v.rest == [] || v.rest[0] == SPACE)
  {
    var long := t[0] == LETTER_L;
    var u := if long then t[1..] else t;
    i := Item(0, [], long, u[0]);
    assert u == [u[0]] + u[1..];
    if long {
      assert t == [LETTER_L] + u;
      assert [LETTER_L] + ([u[0]] + u[1..]) == [LETTER_L, u[0]] + u[1..];
    }
  }

  lemma ReadFieldOf(i: Item, rest: bytes)
    requires GoodKey(i.key) && ArgOf(i.long, i.verb).Some? && (rest == [] || rest[0] == SPACE)
    ensures ReadField(i.key + ([EQUALS, PERCENT] + VerbText(i)) + rest) ==
            Some(FieldRead(Spec(i.key, ArgOf(i.long, i.verb).value), rest))
  {
    var verb := VerbText(i) + rest;
    KeyEndOf(i.key, verb);
    ReadVerbOf(i, rest);
    hide KeyEnd, ReadVerb, ArgOf, VerbText;
    Assoc([EQUALS, PERCENT], VerbText(i), rest);
    Assoc(i.key, [EQUALS, PERCENT] + VerbText(i), rest);
    var t := i.key + ([EQUALS, PERCENT] + verb);
    assert t[..|i.key|] == i.key;
    assert t[|i.key| + 2..] == verb;
  }

  lemma {:induction false} SkipSpaces(n: nat, t: bytes, room: nat)
    ensures ParseFrom(Spaces(n) + t, room) == ParseFrom(t, room)
  {
    if n == 0 {
      assert Spaces(n) + t == t;
    } else {
      SkipSpaces(n - 1, t, room);
      Assoc([SPACE], Spaces(n - 1), t);
      Tail(SPACE, Spaces(n - 1) + t);
    }
  }

  lemma {:induction false} SpacesFirst(n: nat)
    ensures n > 0 ==> Spaces(n) != [] && Spaces(n)[0] == SPACE
  {
  }

  lemma {:induction false} RenderStart(items: seq<Item>, tail: nat)
    requires GoodItems(items, false)
    ensures Render(items, tail) == [] || Render(items, tail)[0] == SPACE
  {
    SpacesFirst(tail);
    if items != [] {
      SpacesFirst(items[0].gap);
      assert ItemText(items[0])[0] == SPACE;
    }
  }

  /** Parsing goes over one field of the grammar to the next. */
  lemma {:induction false} ItemStep(i: Item, rest: bytes, room: nat)
    requires GoodKey(i.key) && ArgOf(i.long, i.verb).Some? && (rest == [] || rest[0] == SPACE)
    ensures ParseFrom(ItemText(i) + rest, room) ==
            if room == 0 then None
            else Glue([Spec(i.key, ArgOf(i.long, i.verb).value)], ParseFrom(rest, room - 1))
  {
    var body := i.key + ([EQUALS, PERCENT] + VerbText(i));
    ReadFieldOf(i, rest);
    hide ReadField, ArgOf, VerbText;
    Assoc(Spaces(i.gap), body, rest);
    SkipSpaces(i.gap, body + rest, room);
    assert KeyByte(i.key[0]) && (body + rest)[0] == i.key[0];
  }

  /** Every format of the grammar with at most 32 fields parses to what it means; extra spaces do not matter. */
  lemma {:induction false} ParseComplete(items: seq<Item>, tail: nat, first: bool, room: nat)
    requires GoodItems(items, first) && |items| <= room
    ensures ParseFrom(Render(items, tail), room) == Some(Meaning(items, first))
    decreases |items|
  {
    if items == [] {
      SkipSpaces(tail, [], room);
      assert Spaces(tail) + [] == Spaces(tail);
    } else {
      hide ArgOf, ItemText, ParseFrom;
      ParseComplete(items[1..], tail, false, room - 1);
      RenderStart(items[1..], tail);
      ItemStep(items[0], Render(items[1..], tail), room);
    }
  }

  /** A format with more fields than that is refused. */
  lemma {:induction false} ParseRefuses(items: seq<Item>, tail: nat, first: bool, room: nat)
    requires GoodItems(items, first) && |items| > room
    ensures ParseFrom(Render(items, tail), room) == None
    decreases |items|
  {
    hide ArgOf, ItemText, ParseFrom;
    RenderStart(items[1..], tail);
    ItemStep(items[0], Render(items[1..], tail), room);
    if room == 0 {
    } else {
      ParseRefuses(items[1..], tail, false, room - 1);
    }
  }

  lemma FieldParts(k: bytes, verb: bytes, rest: bytes)
    ensures k + ([EQUALS, PERCENT] + (verb + rest)) == Spaces(0) + (k + ([EQUALS, PERCENT] + verb)) + rest
  {
    var body := k + ([EQUALS, PERCENT] + verb);
    Assoc([EQUALS, PERCENT], verb, rest);
    Assoc(k, [EQUALS, PERCENT] + verb, rest);
    assert Spaces(0) + body == body;
  }

  lemma ReadFieldSound(t: bytes) returns (i: Item)
    requires ReadField(t).Some?
    ensures var f := ReadField(t).value;
            GoodItem(i, true) && i.gap == 0 && f.spec == Spec(i.key, ArgOf(i.long, i.verb).value) &&
            t == ItemText(i) + f.rest && (f.rest == [] || f.rest[0] == SPACE)
  {
    hide KeyEnd, ReadVerb, ArgOf, KeyText, Spaces;
    KeyEndSound(t);
    var n := KeyEnd(t).value;
    var v := ReadVerbSound(t[n + 2..]);
    i := Item(0, t[..n], v.long, v.verb);
    FieldParts(i.key, VerbText(i), ReadField(t).value.rest);
  }

  lemma Widen(items: seq<Item>, tail: nat)
    requires items != [] && GoodItems(items, true)
    ensures var wider := [items[0].(gap := items[0].gap + 1)] + items[1..];
            GoodItems(wider, false) && Meaning(wider, false) == Meaning(items, true) &&
            Render(wider, tail) == [SPACE] + Render(items, tail)
  {
    var i := items[0];
    var wider := [i.(gap := i.gap + 1)] + items[1..];
    Tail(i.(gap := i.gap + 1), items[1..]);
    var body := i.key + ([EQUALS, PERCENT] + VerbText(i));
    Assoc([SPACE], Spaces(i.gap), body);
    Assoc([SPACE], ItemText(i), Render(items[1..], tail));
  }

  lemma {:induction false} FirstIsLaxer(items: seq<Item>)
    requires GoodItems(items, false)
    ensures GoodItems(items, true) && Meaning(items, true) == Meaning(items, false)
  {
  }

  /** What the parser accepts is a format of the grammar with that meaning. */
  lemma {:induction false} ParseSound(t: bytes, room: nat) returns (items: seq<Item>, tail: nat)
    requires ParseFrom(t, room).Some?
    ensures |items| <= room && GoodItems(items, t == [] || t[0] != SPACE)
    ensures Render(items, tail) == t && Meaning(items, t == [] || t[0] != SPACE) == ParseFrom(t, room).value
    decreases |t|
  {
    hide GoodKey, ArgOf, ReadField;
    if t == [] {
      items, tail := [], 0;
    } else if t[0] == SPACE {
      var inner, n := ParseSound(t[1..], room);
      assert t == [SPACE] + t[1..];
      if inner == [] {
        items, tail := [], n + 1;
      } else {
        if t[1..][0] == SPACE {
          FirstIsLaxer(inner);
        }
        Widen(inner, n);
        items, tail := [inner[0].(gap := inner[0].gap + 1)] + inner[1..], n;
      }
    } else {
      var f := ReadField(t).value;
      var i := ReadFieldSound(t);
      hide ItemText;
      var inner, n := ParseSound(f.rest, room - 1);
      if f.rest == [] {
        EmptyRender(inner, n);
      }
      items, tail := [i] + inner, n;
      Tail(i, inner);
      assert inner != [] ==> f.rest != [];
    }
  }

  lemma {:induction false} EmptyRender(items: seq<Item>, tail: nat)
    requires Render(items, tail) == []
    ensures items == []
  {
  }

  /** The parser accepts exactly the formats of the grammar with at most 32 fields, as what they mean. */
  lemma ParserAcceptsGrammar(t: bytes)
    ensures Parse(t).Some? <==> exists items, tail :: InGrammar(t, items, tail)
    ensures forall items, tail | InGrammar(t, items, tail) :: Parse(t) == Some(Meaning(items, true))
  {
    forall items, tail | InGrammar(t, items, tail)
      ensures Parse(t) == Some(Meaning(items, true))
    {
      ParseComplete(items, tail, true, MAX_FIELDS);
    }
    if Parse(t).Some? {
      var items, tail := ParseSound(t, MAX_FIELDS);
      if !(t == [] || t[0] != SPACE) {
        FirstIsLaxer(items);
      }
      assert InGrammar(t, items, tail);
    }
  }

  // ----- the language in its own letters -----

  /** A format of one field, as it is written. */
  predicate Compiles(key: bytes, verb: string, arg: ArgType)
    requires IsAscii(verb)
  {
    Parse(key + (Ascii("=%") + Ascii(verb))) == Some([Spec(key, arg)])
  }

  lemma OneItem(key: bytes, long: bool, verb: byte)
    requires GoodKey(key) && ArgOf(long, verb).Some?
    ensures Parse(key + ([EQUALS, PERCENT] + VerbText(Item(0, key, long, verb)))) ==
            Some([Spec(key, ArgOf(long, verb).value)])
  {
    hide ParseFrom, KeyText, ArgOf, VerbText;
    var item := Item(0, key, long, verb);
    assert [item][1..] == [];
    ParseComplete([item], 0, true, MAX_FIELDS);
    var body := key + ([EQUALS, PERCENT] + VerbText(item));
    assert ItemText(item) == [] + body == body;
    assert Render([item], 0) == ItemText(item) + Render([], 0) == body + [] == body;
    assert Meaning([item], true) == [Spec(key, ArgOf(long, verb).value)] + [] == [Spec(key, ArgOf(long, verb).value)];
  }

  lemma OneVerb(key: bytes, long: bool, verb: byte, text: string, arg: ArgType)
    requires GoodKey(key) && ArgOf(long, verb) == Some(arg) && IsAscii(text)
    requires Ascii(text) == VerbText(Item(0, key, long, verb))
    ensures Compiles(key, text, arg)
  {
    hide Parse, GoodKey, ArgOf;
    OneItem(key, long, verb);
    assert Ascii("=%") == [EQUALS, PERCENT];
  }

  /** The verbs, and with which length prefix they mean what. */
  lemma VerbsMean(key: bytes)
    requires GoodKey(key)
    ensures Compiles(key, "s", StringArg) && Compiles(key, "d", IntArg) && Compiles(key, "ld", LongArg)
    ensures Compiles(key, "u", UnsignedArg) && Compiles(key, "lu", UnsignedLongArg) && Compiles(key, "f", DoubleArg)
    ensures Compiles(key, "p", PointerArg) && Compiles(key, "b", BoolArg) && Compiles(key, "m", ErrnoArg)
  {
    hide Compiles, GoodKey;
    OneVerb(key, false, LETTER_S, "s", StringArg);
    OneVerb(key, false, LETTER_D, "d", IntArg);
    OneVerb(key, true, LETTER_D, "ld", LongArg);
    OneVerb(key, false, LETTER_U, "u", UnsignedArg);
    OneVerb(key, true, LETTER_U, "lu", UnsignedLongArg);
    OneVerb(key, false, LETTER_F, "f", DoubleArg);
    OneVerb(key, false, LETTER_P, "p", PointerArg);
    OneVerb(key, false, LETTER_B, "b", BoolArg);
    OneVerb(key, false, LETTER_M, "m", ErrnoArg);
  }

  /** No other letter is a verb, and `%lm` is none. */
  lemma OnlyVerbs(long: bool, verb: byte)
    ensures ArgOf(long, verb).Some? <==> verb in Ascii("sdufpb") || (!long && verb in Ascii("m"))
  {
    var letters := Ascii("sdufpb");
    assert letters == [LETTER_S, LETTER_D, LETTER_U, LETTER_F, LETTER_P, LETTER_B];
    assert Ascii("m") == [LETTER_M];
  }

  /** A byte that no key may hold: a control byte, a space, a quotation mark, a backslash or DEL. */
  lemma KeyBytesAre(b: byte)
    ensures !KeyByte(b) <==> b < 0x20 || b == 0x7f || b in Ascii(" \"\\")
  {
    assert Ascii(" \"\\") == [SPACE, QUOTE, BACKSLASH];
  }

  predicate InGrammar(t: bytes, items: seq<Item>, tail: nat) {
    |items| <= MAX_FIELDS && GoodItems(items, true) && Render(items, tail) == t
  }

  /** Whatever the text, accepted keys can be quoted raw and there are at most 32 of them. */
  lemma {:induction false} AcceptedKeys(t: bytes, room: nat)
    requires ParseFrom(t, room).Some?
    ensures |ParseFrom(t, room).value| <= room
    ensures forall i :: 0 <= i < |ParseFrom(t, room).value| ==> GoodKey(ParseFrom(t, room).value[i].key)
    decreases |t|
  {
    hide GoodKey;
    if t == [] {
    } else {
      if t[0] == SPACE {
        AcceptedKeys(t[1..], room);
      } else {
        var i := ReadFieldSound(t);
        hide ReadField;
        AcceptedKeys(ReadField(t).value.rest, room - 1);
      }
    }
  }

  // ----- the parser as a loop over a C string -----

  lemma {:induction false} SkipOne(t: bytes, cursor: nat, room: nat)
    requires cursor < |t| && t[cursor] == SPACE
    ensures ParseFrom(t[cursor..], room) == ParseFrom(t[cursor + 1..], room)
  {
    hide ReadField;
    assert t[cursor..][1..] == t[cursor + 1..];
  }

  method SkipBlanks(mem: bytes, start: nat, ghost room: nat) returns (cursor: nat)
    requires CString(mem) && start < |mem|
    ensures start <= cursor < |mem| && mem[cursor] != SPACE
    ensures ParseFrom(Text(mem)[start..], room) == ParseFrom(Text(mem)[cursor..], room)
  {
    hide ParseFrom;
    cursor := start;
    while mem[cursor] == SPACE
      invariant start <= cursor < |mem|
      invariant ParseFrom(Text(mem)[start..], room) == ParseFrom(Text(mem)[cursor..], room)
      decreases |mem| - cursor
    {
      SkipOne(Text(mem), cursor, room);
      cursor := cursor + 1;
    }
  }

  /** The key loop: `ok` if it stopped at `=%` after at least one key byte. */
  method ScanKey(mem: bytes, start: nat) returns (ok: bool, cursor: nat)
    requires CString(mem) && start < |mem| - 1
    ensures ok <==> KeyEnd(Text(mem)[start..]).Some? && KeyEnd(Text(mem)[start..]).value > 0
    ensures ok ==> cursor == start + KeyEnd(Text(mem)[start..]).value
  {
    ghost var t := Text(mem);
    cursor := start;
    while mem[cursor] != 0 && mem[cursor + 1] != 0
      invariant start <= cursor < |mem| - 1
      invariant KeyEnd(t[start..]) ==
                match KeyEnd(t[cursor..]) case None => None case Some(n) => Some(cursor - start + n)
      decreases |mem| - cursor
    {
      if mem[cursor] == EQUALS && mem[cursor + 1] == PERCENT {
        break;
      }
      if !KeyByte(mem[cursor]) {
        return false, cursor;
      }
      assert t[cursor..][1..] == t[cursor + 1..];
      cursor := cursor + 1;
    }
    ok := cursor > start && mem[cursor] == EQUALS && mem[cursor + 1] == PERCENT;
  }

  /** The verb, its optional `l`, and the blank or end that must follow. */
  method ScanVerb(mem: bytes, start: nat) returns (arg: Option<ArgType>, cursor: nat)
    requires CString(mem) && start < |mem|
    ensures var r := ReadVerb(Text(mem)[start..]);
            arg.Some? <==> r.Some?
    ensures var r := ReadVerb(Text(mem)[start..]);
            arg.Some? ==> start < cursor < |mem| && r == Some(VerbRead(arg.value, Text(mem)[cursor..]))
  {
    ghost var t := Text(mem);
    ghost var s := t[start..];
    cursor := start;
    var long := false;
    if mem[cursor] == LETTER_L {
      long := true;
      cursor := cursor + 1;
      assert s[1..] == t[cursor..];
    }
    if mem[cursor] == 0 {
      return None, cursor;
    }
    arg := ArgOf(long, mem[cursor]);
    if arg.None? {
      return;
    }
    assert t[cursor..][1..] == t[cursor + 1..];
    cursor := cursor + 1;
    if mem[cursor] != 0 && mem[cursor] != SPACE {
      return None, cursor;
    }
  }

  /** One field of the layout. */
  method ScanField(mem: bytes, start: nat) returns (spec: Option<Spec>, cursor: nat)
    requires CString(mem) && start < |mem| - 1
    ensures spec.Some? <==> ReadField(Text(mem)[start..]).Some?
    ensures spec.Some? ==> start < cursor < |mem| &&
                           ReadField(Text(mem)[start..]) == Some(FieldRead(spec.value, Text(mem)[cursor..]))
  {
    ghost var t := Text(mem);
    var ok, end := ScanKey(mem, start);
    if !ok {
      return None, end;
    }
    assert t[start..][end - start + 2..] == t[end + 2..];
    assert t[start..][..end - start] == mem[start..end];
    var arg;
    arg, cursor := ScanVerb(mem, end + 2);
    spec := if arg.Some? then Some(Spec(mem[start..end], arg.value)) else None;
  }

  /** What is parsed so far and what the rest will give make up the result. */
  predicate ParsedSoFar(t: bytes, cursor: nat, fields: seq<Spec>) {
    cursor <= |t| && |fields| <= MAX_FIELDS &&
    Parse(t) == Glue(fields, ParseFrom(t[cursor..], MAX_FIELDS - |fields|))
  }

  lemma ParseBegins(t: bytes)
    ensures ParsedSoFar(t, 0, [])
  {
    assert t[0..] == t;
    GlueNothing(Parse(t));
  }

  lemma ParseEnds(t: bytes, fields: seq<Spec>)
    requires ParsedSoFar(t, |t|, fields)
    ensures Parse(t) == Some(fields)
  {
    assert t[|t|..] == [];
    assert fields + [] == fields;
  }

  lemma ParseFull(t: bytes, cursor: nat, fields: seq<Spec>)
    requires ParsedSoFar(t, cursor, fields) && cursor < |t| && t[cursor] != SPACE && |fields| == MAX_FIELDS
    ensures Parse(t) == None
  {
    assert t[cursor..] != [] && t[cursor..][0] == t[cursor];
  }

  lemma ParseMoves(t: bytes, cursor: nat, fields: seq<Spec>, spec: Option<Spec>, next: nat)
    requires ParsedSoFar(t, cursor, fields) && cursor < |t| && t[cursor] != SPACE && |fields| < MAX_FIELDS
    requires next <= |t|
    requires ReadField(t[cursor..]) == if spec.None? then None else Some(FieldRead(spec.value, t[next..]))
    ensures spec.None? ==> Parse(t) == None
    ensures spec.Some? ==> ParsedSoFar(t, next, fields + [spec.value])
  {
    hide ReadField;
    var rest := t[cursor..];
    assert rest != [] && rest[0] == t[cursor];
    if spec.Some? {
      GlueMore(fields, spec.value, ParseFrom(t[next..], MAX_FIELDS - |fields| - 1));
    }
  }

  /** `pslog_parse_kvfmt_layout` */
  method ParseLayout(mem: bytes) returns (layout: Option<seq<Spec>>)
    requires CString(mem)
    ensures layout == Parse(Text(mem))
  {
    hide ParseFrom, ReadField, Parse;
    ghost var t := Text(mem);
    var cursor, fields: seq<Spec> := 0, [];
    ParseBegins(t);
    while mem[cursor] != 0
      invariant 0 <= cursor < |mem| && ParsedSoFar(t, cursor, fields)
      decreases |mem| - cursor
    {
      cursor := SkipBlanks(mem, cursor, MAX_FIELDS - |fields|);
      if mem[cursor] == 0 {
        break;
      }
      if |fields| >= MAX_FIELDS {
        ParseFull(t, cursor, fields);
        return None;
      }
      var spec, next := ScanField(mem, cursor);
      ParseMoves(t, cursor, fields, spec, if spec.Some? then next else 0);
      if spec.None? {
        return None;
      }
      fields := fields + [spec.value];
      cursor := next;
    }
    ParseEnds(t, fields);
    layout := Some(fields);
  }

  lemma GlueNothing(rest: Option<seq<Spec>>)
    ensures Glue([], rest) == rest
  {
    if rest.Some? {
      assert [] + rest.value == rest.value;
    }
  }

  lemma GlueMore(front: seq<Spec>, one: Spec, rest: Option<seq<Spec>>)
    ensures Glue(front, Glue([one], rest)) == Glue(front + [one], rest)
  {
    if rest.Some? {
      Assoc(front, [one], rest.value);
    }
  }

  // ----- printing an entry and reading it back -----

  datatype Kind = StringKind | BoolKind | Int64Kind | Uint64Kind | Float64Kind | OtherKind
  datatype DataField = DataField(key: bytes, kind: Kind)

  /** `fieldToKVFmtArg`: the verb of a kind; some kinds have none. */
  function VerbOf(k: Kind): Option<bytes> {
    match k
    case StringKind => Some([PERCENT, LETTER_S])
    case BoolKind => Some([PERCENT, LETTER_B])
    case Int64Kind => Some([PERCENT, LETTER_L, LETTER_D])
    case Uint64Kind => Some([PERCENT, LETTER_L, LETTER_U])
    case Float64Kind => Some([PERCENT, LETTER_F])
    case OtherKind => None
  }

  lemma VerbsPrinted()
    ensures VerbOf(StringKind) == Some(Ascii("%s")) && VerbOf(BoolKind) == Some(Ascii("%b"))
    ensures VerbOf(Int64Kind) == Some(Ascii("%ld")) && VerbOf(Uint64Kind) == Some(Ascii("%lu"))
    ensures VerbOf(Float64Kind) == Some(Ascii("%f")) && VerbOf(OtherKind) == None
  {
    assert Ascii("%s") == [PERCENT, LETTER_S] && Ascii("%b") == [PERCENT, LETTER_B] && Ascii("%f") == [PERCENT, LETTER_F];
    assert Ascii("%ld") == [PERCENT, LETTER_L, LETTER_D] && Ascii("%lu") == [PERCENT, LETTER_L, LETTER_U];
  }

  function TypeOf(k: Kind): ArgType
    requires !k.OtherKind?
  {
    match k
    case StringKind => StringArg
    case BoolKind => BoolArg
    case Int64Kind => LongArg
    case Uint64Kind => UnsignedLongArg
    case Float64Kind => DoubleArg
  }

  predicate Printable(fs: seq<DataField>) {
    forall i :: 0 <= i < |fs| ==> !fs[i].kind.OtherKind?
  }

  function Printed(fs: seq<DataField>): bytes
    requires Printable(fs)
  {
    if fs == [] then []
    else
      var front := fs[..|fs| - 1];
      Printed(front) + (if front == [] then [] else [SPACE]) +
      fs[|fs| - 1].key + [EQUALS] + VerbOf(fs[|fs| - 1].kind).value
  }

  /** `EntryToKVFmt`, its format string; it fails at the first kind without a verb. */
  method EntryToKvfmt(fs: seq<DataField>) returns (format: Option<bytes>)
    ensures format == if Printable(fs) then Some(Printed(fs)) else None
  {
    var text: bytes := [];
    for i := 0 to |fs|
      invariant Printable(fs[..i]) && text == Printed(fs[..i])
    {
      var verb := VerbOf(fs[i].kind);
      if verb.None? {
        return None;
      }
      assert fs[..i + 1][..i] == fs[..i];
      if i > 0 {
        text := text + [SPACE];
      } else {
        assert text + [] == text;
      }
      text := text + fs[i].key + [EQUALS] + verb.value;
    }
    assert fs[..|fs|] == fs;
    format := Some(text);
  }

  function ItemOf(f: DataField, first: bool): Item
    requires !f.kind.OtherKind?
  {
    var v := VerbOf(f.kind).value;
    Item(if first then 0 else 1, f.key, |v| == 3, v[|v| - 1])
  }

  function ItemsOf(fs: seq<DataField>): (items: seq<Item>)
    requires Printable(fs)
    ensures |items| == |fs|
    ensures forall i :: 0 <= i < |fs| ==> items[i] == ItemOf(fs[i], i == 0)
  {
    if fs == [] then [] else ItemsOf(fs[..|fs| - 1]) + [ItemOf(fs[|fs| - 1], |fs| == 1)]
  }

  lemma {:induction false} RenderSnoc(items: seq<Item>, i: Item)
    ensures Render(items + [i], 0) == Render(items, 0) + ItemText(i)
  {
    if items == [] {
      assert (items + [i])[1..] == [];
      assert Render([], 0) + ItemText(i) == ItemText(i) + Render([], 0);
    } else {
      RenderSnoc(items[1..], i);
      assert (items + [i])[1..] == items[1..] + [i];
      Assoc(ItemText(items[0]), Render(items[1..], 0), ItemText(i));
    }
  }

  lemma PrintedItem(f: DataField, first: bool, before: bytes)
    requires !f.kind.OtherKind?
    ensures before + (if first then [] else [SPACE]) + f.key + [EQUALS] + VerbOf(f.kind).value ==
            before + ItemText(ItemOf(f, first))
  {
    var i := ItemOf(f, first);
    var gap: bytes := if first then [] else [SPACE];
    assert Spaces(i.gap) == gap by { assert Spaces(1) == [SPACE] + Spaces(0); }
    assert [EQUALS] + VerbOf(f.kind).value == [EQUALS, PERCENT] + VerbText(i);
    Assoc(before + gap, f.key, [EQUALS]);
    Assoc(before + gap, f.key + [EQUALS], VerbOf(f.kind).value);
    Assoc(f.key, [EQUALS], VerbOf(f.kind).value);
    Assoc(before, gap, f.key + ([EQUALS, PERCENT] + VerbText(i)));
  }

  lemma {:induction false} PrintedIsRendered(fs: seq<DataField>)
    requires Printable(fs)
    ensures Printed(fs) == Render(ItemsOf(fs), 0)
  {
    if fs == [] {
    } else {
      var front, f := fs[..|fs| - 1], fs[|fs| - 1];
      PrintedIsRendered(front);
      RenderSnoc(ItemsOf(front), ItemOf(f, |fs| == 1));
      hide Render, ItemText;
      PrintedItem(f, |fs| == 1, Printed(front));
    }
  }

  lemma {:induction false} GoodItemsFrom(items: seq<Item>, first: bool)
    requires forall i :: 0 <= i < |items| ==> GoodItem(items[i], first && i == 0)
    ensures GoodItems(items, first)
    ensures |Meaning(items, first)| == |items|
    ensures forall i :: 0 <= i < |items| ==>
              GoodItem(items[i], first && i == 0) &&
              Meaning(items, first)[i] == Spec(items[i].key, ArgOf(items[i].long, items[i].verb).value)
  {
    hide ArgOf, GoodKey;
    if items == [] {
    } else {
      GoodItemsFrom(items[1..], false);
    }
  }

  function SpecsOf(fs: seq<DataField>): seq<Spec>
    requires Printable(fs)
  {
    seq(|fs|, i requires 0 <= i < |fs| => Spec(fs[i].key, TypeOf(fs[i].kind)))
  }

  predicate GoodKeys(fs: seq<DataField>) {
    forall i :: 0 <= i < |fs| ==> GoodKey(fs[i].key)
  }

  lemma VerbTypes(f: DataField, first: bool)
    requires !f.kind.OtherKind?
    ensures ArgOf(ItemOf(f, first).long, ItemOf(f, first).verb) == Some(TypeOf(f.kind))
  {
  }

  lemma {:induction false} GoodPrinted(fs: seq<DataField>)
    requires Printable(fs) && |fs| <= MAX_FIELDS && GoodKeys(fs)
    ensures Parse(Printed(fs)) == Some(SpecsOf(fs))
  {
    PrintedIsRendered(fs);
    var items := ItemsOf(fs);
    forall i | 0 <= i < |fs|
      ensures GoodItem(items[i], i == 0) && ArgOf(items[i].long, items[i].verb) == Some(TypeOf(fs[i].kind))
    {
      VerbTypes(fs[i], i == 0);
    }
    GoodItemsFrom(items, true);
    ParseComplete(items, 0, true, MAX_FIELDS);
    assert Meaning(items, true) == SpecsOf(fs);
  }

  lemma {:induction false} RecoveredIsGood(fs: seq<DataField>)
    requires Printable(fs) && Parse(Printed(fs)) == Some(SpecsOf(fs))
    ensures |fs| <= MAX_FIELDS && GoodKeys(fs)
  {
    AcceptedKeys(Printed(fs), MAX_FIELDS);
    forall i | 0 <= i < |fs|
      ensures GoodKey(fs[i].key)
    {
      assert SpecsOf(fs)[i].key == fs[i].key;
    }
  }

  /**
   Parsing what the printer printed recovers exactly the keys and the types, in
   order, if and only if there are at most 32 fields and every key is non-empty,
   free of forbidden bytes and free of `=%`.
   */
  lemma {:induction false} PrintThenParse(fs: seq<DataField>)
    requires Printable(fs)
    ensures Parse(Printed(fs)) == Some(SpecsOf(fs)) <==> |fs| <= MAX_FIELDS && GoodKeys(fs)
  {
    if |fs| <= MAX_FIELDS && GoodKeys(fs) {
      GoodPrinted(fs);
    }
    if Parse(Printed(fs)) == Some(SpecsOf(fs)) {
      RecoveredIsGood(fs);
    }
  }
}
