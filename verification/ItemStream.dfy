/** The attributes of an item as a stream of tagged values. */
module ItemStream {
  import opened Bytes
  import opened PropStreams
  import opened ItemRecord

  const ATTR_ACTION_ID: byte := 4
  const ATTR_UNIQUE_ID: byte := 5
  const ATTR_TEXT: byte := 6
  const ATTR_DESC: byte := 7
  const ATTR_TELE_DEST: byte := 8
  const ATTR_DEPOT_ID: byte := 10
  const ATTR_RUNE_CHARGES: byte := 12
  const ATTR_HOUSEDOORID: byte := 14
  const ATTR_DURATION: byte := 16
  const ATTR_DECAYING_STATE: byte := 17
  const ATTR_CHARGES: byte := 18

  datatype StreamType = StreamType(rune: bool, moveable: bool, fluid: bool, charged: bool)

  type ushort = n: int | 0 <= n < 0x1_0000
  type ulong = n: int | 0 <= n < UINT32

  datatype Attrs = Attrs(count: byte, charges: byte, fluid: byte, actionId: ushort, uniqueId: ushort,
                         text: seq<byte>, desc: seq<byte>, duration: ulong, decaying: Decay)

  // ---------------------------------------------------------------- setters

  function SetSubtype(typ: StreamType, a: Attrs, n: byte): Attrs {
    if typ.fluid then a.(fluid := n) else if typ.charged then a.(charges := n) else a.(count := n)
  }

  function SetActionId(a: Attrs, n: ushort): Attrs {
    a.(actionId := if n < 100 then 100 else n)
  }

  function SetUniqueId(a: Attrs, n: ushort): Attrs {
    if a.uniqueId != 0 then a else a.(uniqueId := if n < 1000 then 1000 else n)
  }

  function SetText(a: Attrs, s: seq<byte>): Attrs {
    if s == [] then a else a.(text := s)
  }

  function SetDesc(a: Attrs, s: seq<byte>): Attrs {
    if s == [] then a else a.(desc := s)
  }

  // ---------------------------------------------------------------- writing

  function RuneField(typ: StreamType, a: Attrs): seq<byte> {
    if typ.rune then [ATTR_RUNE_CHARGES, a.charges] else []
  }

  function ActionField(typ: StreamType, a: Attrs): seq<byte> {
    if typ.moveable && a.actionId != 0 then [ATTR_ACTION_ID] + Le(a.actionId, 2) else []
  }

  function TextField(tag: byte, s: seq<byte>): seq<byte> {
    if s == [] then [] else [tag] + PutString(s)
  }

  function DurationField(a: Attrs): seq<byte> {
    if a.duration != 0 then [ATTR_DURATION] + Le(a.duration, 4) else []
  }

  function DecayCode(d: Decay): byte {
    match d case DECAYING_FALSE => 0 case DECAYING_TRUE => 1 case DECAYING_PENDING => 2
  }

  function DecayField(a: Attrs): seq<byte> {
    if a.decaying.DECAYING_FALSE? then [] else [ATTR_DECAYING_STATE, DecayCode(a.decaying)]
  }

  /** `serializeAttr` */
  function Serialize(typ: StreamType, a: Attrs): seq<byte> {
    RuneField(typ, a) + (ActionField(typ, a) + (TextField(ATTR_TEXT, a.text) + (TextField(ATTR_DESC, a.desc)
    + (DurationField(a) + DecayField(a)))))
  }

  // ---------------------------------------------------------------- reading

  /** `readAttr`: the value behind a tag goes into the item, or past it if it belongs to a special kind of item. */
  function ReadAttr(typ: StreamType, a: Attrs, tag: byte, s: seq<byte>): (r: Option<(Attrs, seq<byte>)>)
    ensures r.Some? ==> |r.value.1| <= |s|
  {
    if tag == ATTR_TEXT || tag == ATTR_DESC then
      match GetString(s)
      case None => None
      case Some(pair) => Some((if tag == ATTR_TEXT then SetText(a, pair.0) else SetDesc(a, pair.0), pair.1))
    else
      match Take(s, Width(tag))
      case None => None
      case Some(pair) =>
        if Width(tag) == 0 then None else Some((SetValue(typ, a, tag, FromLe(pair.0)), pair.1))
  }

  /** How many bytes the value behind a tag has; none for an unknown tag. */
  function Width(tag: byte): nat {
    if tag == ATTR_RUNE_CHARGES || tag == ATTR_HOUSEDOORID || tag == ATTR_DECAYING_STATE then 1
    else if tag == ATTR_ACTION_ID || tag == ATTR_UNIQUE_ID || tag == ATTR_DEPOT_ID then 2
    else if tag == ATTR_DURATION || tag == ATTR_CHARGES then 4
    else if tag == ATTR_TELE_DEST then 5
    else 0
  }

  function SetValue(typ: StreamType, a: Attrs, tag: byte, n: nat): Attrs {
    if tag == ATTR_RUNE_CHARGES then SetSubtype(typ, a, n % 256)
    else if tag == ATTR_ACTION_ID then SetActionId(a, n % USHORT)
    else if tag == ATTR_UNIQUE_ID then SetUniqueId(a, n % USHORT)
    else if tag == ATTR_DURATION then a.(duration := n % UINT32)
    else if tag == ATTR_CHARGES then a.(charges := n % 256)
    else if tag == ATTR_DECAYING_STATE then (if n == 0 then a else a.(decaying := DECAYING_PENDING))
    else a
  }

  /** `unserializeAttr`: fields are read until the stream ends or a field cannot be read. */
  function Parse(typ: StreamType, a: Attrs, s: seq<byte>): (bool, Attrs)
    decreases |s|
  {
    if s == [] then (true, a)
    else
      match ReadAttr(typ, a, s[0], s[1..])
      case None => (false, a)
      case Some(pair) => Parse(typ, pair.0, pair.1)
  }

  // ---------------------------------------------------------------- the round trip

  function RuneBack(typ: StreamType, x: Attrs, a: Attrs): Attrs {
    if typ.rune then SetSubtype(typ, x, a.charges) else x
  }

  function ActionBack(typ: StreamType, x: Attrs, a: Attrs): Attrs {
    if typ.moveable && a.actionId != 0 then SetActionId(x, a.actionId) else x
  }

  /** A string as it comes back: cut to the length that fits 16 bits, and at the first zero. */
  function TextBack(s: seq<byte>): seq<byte> {
    CString(s[..|s| % USHORT])
  }

  function DurationBack(x: Attrs, a: Attrs): Attrs {
    if a.duration != 0 then x.(duration := a.duration) else x
  }

  function DecayBack(x: Attrs, a: Attrs): Attrs {
    if a.decaying.DECAYING_FALSE? then x else x.(decaying := DECAYING_PENDING)
  }

  /** What a new item becomes when it reads what another of its type has written. */
  function Restored(typ: StreamType, made: Attrs, a: Attrs): Attrs {
    DecayBack(DurationBack(SetDesc(SetText(ActionBack(typ, RuneBack(typ, made, a), a), TextBack(a.text)),
                                   TextBack(a.desc)), a), a)
  }

  /** A field of fixed width at the front of a stream. */
  lemma ReadNumber(typ: StreamType, x: Attrs, tag: byte, n: nat, rest: seq<byte>)
    requires tag != ATTR_TEXT && tag != ATTR_DESC && Width(tag) > 0 && n < Power(Width(tag))
    ensures Parse(typ, x, [tag] + Le(n, Width(tag)) + rest) == Parse(typ, SetValue(typ, x, tag, n), rest)
  {
    hide SetValue;
    var s := [tag] + Le(n, Width(tag)) + rest;
    assert s[1..] == Le(n, Width(tag)) + rest;
    TakeBack(Le(n, Width(tag)), rest);
    LeBack(n, Width(tag));
  }

  /** What each tag of fixed width sets; the others are for depots, doors and teleports and set nothing. Tags 5 and 18
      are read but never written: a unique id is kept once there is one, and of the charges eight bits are. */
  lemma ReadTags(typ: StreamType, x: Attrs, s: seq<byte>, rest: seq<byte>)
    ensures FromLe(s) < Power(|s|) && Power(1) == 0x100 && Power(2) == 0x1_0000 && Power(4) == UINT32
    ensures |s| == 1 ==>
              && Parse(typ, x, [12] + s + rest)
                 == Parse(typ, if typ.fluid then x.(fluid := s[0]) else if typ.charged then x.(charges := s[0])
                               else x.(count := s[0]), rest)
              && Parse(typ, x, [14] + s + rest) == Parse(typ, x, rest)
              && Parse(typ, x, [17] + s + rest)
                 == Parse(typ, if s[0] == 0 then x else x.(decaying := DECAYING_PENDING), rest)
    ensures |s| == 2 ==>
              && Parse(typ, x, [4] + s + rest) == Parse(typ, x.(actionId := Max(FromLe(s), 100)), rest)
              && Parse(typ, x, [5] + s + rest)
                 == Parse(typ, if x.uniqueId == 0 then x.(uniqueId := Max(FromLe(s), 1000)) else x, rest)
              && Parse(typ, x, [10] + s + rest) == Parse(typ, x, rest)
    ensures |s| == 4 ==>
              && Parse(typ, x, [16] + s + rest) == Parse(typ, x.(duration := FromLe(s)), rest)
              && Parse(typ, x, [18] + s + rest) == Parse(typ, x.(charges := s[0]), rest)
    ensures |s| == 5 ==> Parse(typ, x, [8] + s + rest) == Parse(typ, x, rest)
  {
    hide Parse, FromLe, Power;
    Sizes();
    LeOf(s);
    FirstByte(s);
    if |s| == 1 {
      ReadNumber(typ, x, 12, FromLe(s), rest);
      ReadNumber(typ, x, 14, FromLe(s), rest);
      ReadNumber(typ, x, 17, FromLe(s), rest);
    } else if |s| == 2 {
      ReadNumber(typ, x, 4, FromLe(s), rest);
      ReadNumber(typ, x, 5, FromLe(s), rest);
      ReadNumber(typ, x, 10, FromLe(s), rest);
    } else if |s| == 4 {
      ReadNumber(typ, x, 16, FromLe(s), rest);
      ReadNumber(typ, x, 18, FromLe(s), rest);
    } else if |s| == 5 {
      ReadNumber(typ, x, 8, FromLe(s), rest);
    }
  }

  /** A tag that is not known, or whose value is cut off, ends the reading with an error. */
  lemma Unreadable(typ: StreamType, x: Attrs, tag: byte, s: seq<byte>)
    requires tag !in {4, 5, 6, 7, 8, 10, 12, 14, 16, 17, 18} || |s| < 1
             || (tag in {4, 5, 6, 7, 10} && |s| < 2) || (tag in {16, 18} && |s| < 4) || (tag == 8 && |s| < 5)
    ensures Parse(typ, x, [tag] + s) == (false, x)
  {
    assert ([tag] + s)[1..] == s;
    assert Take(s, 0).Some?;
  }

  /** An item writes nothing if it has nothing that the stream keeps. */
  lemma NothingWritten(typ: StreamType, a: Attrs)
    ensures Serialize(typ, a) == []
            <==> && !typ.rune && (a.actionId == 0 || !typ.moveable) && a.text == [] && a.desc == [] && a.duration == 0
                 && a.decaying.DECAYING_FALSE?
  {
    hide Le, PutString;
  }

  lemma FirstByte(s: seq<byte>)
    ensures s != [] ==> FromLe(s) % 256 == s[0]
    ensures |s| == 1 ==> FromLe(s) == s[0]
  {
  }

  /** The stream of an item that has everything. */
  lemma AllFields()
    ensures var typ := StreamType(true, true, false, true);
            var a := Attrs(1, 7, 0, 0x1234, 0, [65], [66, 67], 5, DECAYING_TRUE);
            Serialize(typ, a)
            == [12, 7] + ([4] + [0x34, 0x12] + ([6] + ([1, 0] + [65]) + ([7] + ([2, 0] + [66, 67])
               + ([16] + [5, 0, 0, 0] + [17, 1]))))
  {
    hide Le;
    Bytes2(0x34, 0x12);
    Bytes2(1, 0);
    Bytes2(2, 0);
    Bytes4(5, 0, 0, 0);
    assert [65][..1] == [65] && [66, 67][..2] == [66, 67];
  }

  lemma ReadText(typ: StreamType, x: Attrs, tag: byte, t: seq<byte>, rest: seq<byte>)
    requires tag == ATTR_TEXT || tag == ATTR_DESC
    ensures Parse(typ, x, [tag] + PutString(t) + rest)
            == Parse(typ, if tag == ATTR_TEXT then SetText(x, TextBack(t)) else SetDesc(x, TextBack(t)), rest)
  {
    hide SetText, SetDesc, PutString;
    var s := [tag] + PutString(t) + rest;
    assert s[1..] == PutString(t) + rest;
    StringBack(t, rest);
  }

  lemma ReadRune(typ: StreamType, x: Attrs, a: Attrs, rest: seq<byte>)
    ensures Parse(typ, x, RuneField(typ, a) + rest) == Parse(typ, RuneBack(typ, x, a), rest)
  {
    hide Parse, Le, FromLe, Power, SetSubtype, ReadAttr;
    Sizes();
    if typ.rune {
      ReadNumber(typ, x, ATTR_RUNE_CHARGES, a.charges, rest);
      OneByte(a.charges);
      assert RuneField(typ, a) + rest == [ATTR_RUNE_CHARGES] + Le(a.charges, 1) + rest;
    } else {
      assert [] + rest == rest;
    }
  }

  lemma OneByte(b: byte)
    ensures Le(b, 1) == [b]
  {
    assert Le(b / 256, 0) == [];
  }

  lemma ReadAction(typ: StreamType, x: Attrs, a: Attrs, rest: seq<byte>)
    ensures Parse(typ, x, ActionField(typ, a) + rest) == Parse(typ, ActionBack(typ, x, a), rest)
  {
    hide Parse, Le, FromLe, Power, SetActionId, ReadAttr;
    Sizes();
    if typ.moveable && a.actionId != 0 {
      ReadNumber(typ, x, ATTR_ACTION_ID, a.actionId, rest);
    } else {
      assert [] + rest == rest;
    }
  }

  lemma ReadString(typ: StreamType, x: Attrs, tag: byte, t: seq<byte>, rest: seq<byte>)
    requires tag == ATTR_TEXT || tag == ATTR_DESC
    ensures Parse(typ, x, TextField(tag, t) + rest)
            == Parse(typ, if tag == ATTR_TEXT then SetText(x, TextBack(t)) else SetDesc(x, TextBack(t)), rest)
  {
    hide Parse;
    if t != [] {
      ReadText(typ, x, tag, t, rest);
    } else {
      assert [] + rest == rest;
    }
  }

  lemma ReadDuration(typ: StreamType, x: Attrs, a: Attrs, rest: seq<byte>)
    ensures Parse(typ, x, DurationField(a) + rest) == Parse(typ, DurationBack(x, a), rest)
  {
    hide Parse, Le, FromLe, Power, ReadAttr;
    Sizes();
    if a.duration != 0 {
      ReadNumber(typ, x, ATTR_DURATION, a.duration, rest);
    } else {
      assert [] + rest == rest;
    }
  }

  lemma ReadDecay(typ: StreamType, x: Attrs, a: Attrs)
    ensures Parse(typ, x, DecayField(a)) == (true, DecayBack(x, a))
  {
    Sizes();
    if !a.decaying.DECAYING_FALSE? {
      ReadNumber(typ, x, ATTR_DECAYING_STATE, DecayCode(a.decaying), []);
      OneByte(DecayCode(a.decaying));
      assert DecayField(a) == [ATTR_DECAYING_STATE] + Le(DecayCode(a.decaying), 1) + [];
    }
  }

  /** Reading what an item has written succeeds, whatever the item, and gives this. */
  lemma ParseSerialize(typ: StreamType, made: Attrs, a: Attrs)
    ensures Parse(typ, made, Serialize(typ, a)) == (true, Restored(typ, made, a))
  {
    hide *;
    var x1 := RuneBack(typ, made, a);
    var x2 := ActionBack(typ, x1, a);
    var x3 := SetText(x2, TextBack(a.text));
    var x4 := SetDesc(x3, TextBack(a.desc));
    var x5 := DurationBack(x4, a);
    var s5 := DecayField(a);
    var s4 := DurationField(a) + s5;
    var s3 := TextField(ATTR_DESC, a.desc) + s4;
    var s2 := TextField(ATTR_TEXT, a.text) + s3;
    var s1 := ActionField(typ, a) + s2;
    SerializeIs(typ, a);
    RestoredIs(typ, made, a);
    TagsDiffer();
    ReadRune(typ, made, a, s1);
    ReadAction(typ, x1, a, s2);
    ReadString(typ, x2, ATTR_TEXT, a.text, s3);
    ReadString(typ, x3, ATTR_DESC, a.desc, s4);
    ReadDuration(typ, x4, a, s5);
    ReadDecay(typ, x5, a);
  }

  lemma TagsDiffer()
    ensures ATTR_TEXT != ATTR_DESC
  {
  }

  lemma SerializeIs(typ: StreamType, a: Attrs)
    ensures Serialize(typ, a)
            == RuneField(typ, a) + (ActionField(typ, a) + (TextField(ATTR_TEXT, a.text) + (TextField(ATTR_DESC, a.desc)
               + (DurationField(a) + DecayField(a)))))
  {
  }

  lemma RestoredIs(typ: StreamType, made: Attrs, a: Attrs)
    ensures Restored(typ, made, a)
            == DecayBack(DurationBack(SetDesc(SetText(ActionBack(typ, RuneBack(typ, made, a), a), TextBack(a.text)),
                                              TextBack(a.desc)), a), a)
  {
  }

  /** A new item has no ids and no texts, and does not decay. */
  predicate New(made: Attrs) {
    made.actionId == 0 && made.uniqueId == 0 && made.text == [] && made.desc == [] && made.decaying.DECAYING_FALSE?
  }

  predicate Printable(s: seq<byte>) {
    |s| < USHORT && 0 !in s
  }

  /** What the stream has room for: counts as in a new item, but for the charges of a rune that has charges by its
      type; an action id only if the item can be moved, and no unique id; texts without zeros, under 65536 bytes;
      and a duration of nothing only if that is what a new item has. */
  predicate Storable(typ: StreamType, made: Attrs, a: Attrs) {
    && (if typ.rune && !typ.fluid && typ.charged then a.count == made.count && a.fluid == made.fluid
        else if typ.rune && typ.fluid then a.fluid == a.charges == made.charges && a.count == made.count
        else if typ.rune then a.count == a.charges == made.charges && a.fluid == made.fluid
        else a.count == made.count && a.charges == made.charges && a.fluid == made.fluid)
    && (a.actionId == 0 || (typ.moveable && a.actionId >= 100)) && a.uniqueId == 0
    && Printable(a.text) && Printable(a.desc)
    && (a.duration == 0 ==> made.duration == 0)
  }

  lemma TextBackIff(s: seq<byte>)
    ensures TextBack(s) == s <==> Printable(s)
  {
    if |s| < USHORT {
      assert s[..|s|] == s;
      CStringIff(s);
    } else {
      CStringShorter(s[..|s| % USHORT]);
    }
  }

  lemma {:induction false} CStringShorter(s: seq<byte>)
    ensures |CString(s)| <= |s|
  {
    if s != [] {
      CStringShorter(s[1..]);
    }
  }

  /** A new item that reads the stream becomes the item that wrote it, its decay pending, exactly when the item is
      storable. */
  lemma RestoredIffStorable(typ: StreamType, made: Attrs, a: Attrs)
    requires New(made)
    ensures Restored(typ, made, a) == a.(decaying := AsPending(a.decaying)) <==> Storable(typ, made, a)
  {
    hide TextBack, Printable;
    TextBackIff(a.text);
    TextBackIff(a.desc);
  }
}
