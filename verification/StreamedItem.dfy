/** Items as objects, writing their attributes to a stream and reading them from one. */
module StreamedItem {
  import opened Bytes
  import opened PropStreams
  import opened ItemRecord
  import opened ItemStream
  import opened AttributeList

  function IntOf(contents: map<AttrType, Value>, t: AttrType): ulong {
    if t in contents && contents[t].Word? then contents[t].n % UINT32 else 0
  }

  function TextOf(contents: map<AttrType, Value>, t: AttrType): seq<byte> {
    if t in contents && contents[t].Text? then contents[t].s else []
  }

  function DecayOf(n: nat): Decay {
    if n == 1 then DECAYING_TRUE else if n == 2 then DECAYING_PENDING else DECAYING_FALSE
  }

  /** The attribute holds the code that the stream has; any other number is no decay. */
  lemma DecayCodes(n: nat)
    ensures DecayOf(1) == DECAYING_TRUE && DecayOf(2) == DECAYING_PENDING && DecayCode(DECAYING_FALSE) == 0
    ensures DecayOf(n) == DECAYING_FALSE <==> n != 1 && n != 2
    ensures DecayOf(n) != DECAYING_FALSE ==> DecayCode(DecayOf(n)) == n
  {
  }

  /** What the getters of an item say. */
  function AttrsOf(count: byte, charges: byte, fluid: byte, contents: map<AttrType, Value>): Attrs {
    Attrs(count, charges, fluid, IntOf(contents, ATTR_ITEM_ACTIONID) % USHORT,
          IntOf(contents, ATTR_ITEM_UNIQUEID) % USHORT, TextOf(contents, ATTR_ITEM_TEXT),
          TextOf(contents, ATTR_ITEM_DESC), IntOf(contents, ATTR_ITEM_DURATION),
          DecayOf(IntOf(contents, ATTR_ITEM_DECAYING)))
  }

  lemma NoAttributes(count: byte, charges: byte, fluid: byte)
    ensures AttrsOf(count, charges, fluid, map[]) == Attrs(count, charges, fluid, 0, 0, [], [], 0, DECAYING_FALSE)
  {
  }

  class Item {
    const typ: StreamType
    var count: byte
    var charges: byte
    var fluid: byte
    const attributes: ItemAttributes

    ghost predicate Valid()
      reads this, attributes, attributes.nodes
    {
      attributes.Valid() && attributes.Typed()
    }

    ghost function State(): Attrs
      reads this, attributes
    {
      AttrsOf(count, charges, fluid, attributes.contents)
    }

    constructor (typ: StreamType, count: byte, charges: byte, fluid: byte)
      ensures Valid() && fresh(attributes) && attributes.nodes == [] && this.typ == typ
      ensures State() == Attrs(count, charges, fluid, 0, 0, [], [], 0, DECAYING_FALSE)
    {
      this.typ, this.count, this.charges, this.fluid := typ, count, charges, fluid;
      attributes := new ItemAttributes();
      new;
      hide *;
      NoAttributes(count, charges, fluid);
      StateIs();
      ValidIs();
    }

    lemma StateIs()
      ensures State() == AttrsOf(count, charges, fluid, attributes.contents)
    {
    }

    lemma ValidIs()
      ensures Valid() <==> attributes.Valid() && attributes.Typed()
    {
    }

    // -------------------------------------------------------------- writing

    /** `serializeAttr` */
    method SerializeAttr(out: PropWriteStream)
      requires Valid() && out.Valid()
      modifies out, out.buffer
      ensures out.Valid() && (out.buffer == old(out.buffer) || fresh(out.buffer))
      ensures out.Contents() == old(out.Contents()) + Serialize(typ, State())
    {
      hide *;
      ghost var a, was := State(), out.Contents();
      WriteRune(out);
      WriteAction(out);
      WriteTexts(out);
      WriteDuration(out);
      WriteDecay(out);
      SerializeIs(typ, a);
      Regroup(was, RuneField(typ, a), ActionField(typ, a), TextField(ATTR_TEXT, a.text), TextField(ATTR_DESC, a.desc),
              DurationField(a), DecayField(a));
    }

    method WriteRune(out: PropWriteStream)
      requires Valid() && out.Valid()
      modifies out, out.buffer
      ensures out.Valid() && (out.buffer == old(out.buffer) || fresh(out.buffer))
      ensures out.Contents() == old(out.Contents()) + RuneField(typ, State())
    {
      NothingMore(out.Contents());
      if typ.rune {
        AddField(out, ATTR_RUNE_CHARGES, Le(charges, 1));
        OneByte(charges);
      }
    }

    method WriteAction(out: PropWriteStream)
      requires Valid() && out.Valid()
      modifies out, out.buffer
      ensures out.Valid() && (out.buffer == old(out.buffer) || fresh(out.buffer))
      ensures out.Contents() == old(out.Contents()) + ActionField(typ, State())
    {
      NothingMore(out.Contents());
      var actionId := ActionId();
      if typ.moveable && actionId != 0 {
        AddField(out, ATTR_ACTION_ID, Le(actionId, 2));
      }
    }

    method WriteTexts(out: PropWriteStream)
      requires Valid() && out.Valid()
      modifies out, out.buffer
      ensures out.Valid() && (out.buffer == old(out.buffer) || fresh(out.buffer))
      ensures out.Contents()
              == old(out.Contents()) + TextField(ATTR_TEXT, State().text) + TextField(ATTR_DESC, State().desc)
    {
      NothingMore(out.Contents());
      var text := StrAttr(ATTR_ITEM_TEXT);
      if text != [] {
        AddText(out, ATTR_TEXT, text);
      }
      NothingMore(out.Contents());
      var desc := StrAttr(ATTR_ITEM_DESC);
      if desc != [] {
        AddText(out, ATTR_DESC, desc);
      }
    }

    method WriteDuration(out: PropWriteStream)
      requires Valid() && out.Valid()
      modifies out, out.buffer
      ensures out.Valid() && (out.buffer == old(out.buffer) || fresh(out.buffer))
      ensures out.Contents() == old(out.Contents()) + DurationField(State())
    {
      NothingMore(out.Contents());
      var duration := IntAttr(ATTR_ITEM_DURATION);
      if duration != 0 {
        AddField(out, ATTR_DURATION, Le(duration, 4));
      }
    }

    method WriteDecay(out: PropWriteStream)
      requires Valid() && out.Valid()
      modifies out, out.buffer
      ensures out.Valid() && (out.buffer == old(out.buffer) || fresh(out.buffer))
      ensures out.Contents() == old(out.Contents()) + DecayField(State())
    {
      NothingMore(out.Contents());
      var decayState := IntAttr(ATTR_ITEM_DECAYING);
      if decayState == 1 || decayState == 2 {
        AddField(out, ATTR_DECAYING_STATE, Le(decayState, 1));
        OneByte(decayState);
      }
    }

    // -------------------------------------------------------------- reading

    /** `unserializeAttr` */
    method UnserializeAttr(input: PropStream) returns (ok: bool)
      requires Valid() && input.Valid()
      modifies this, attributes, attributes.nodes, input
      ensures Valid() && input.Valid() && fresh(set n | n in attributes.nodes && n !in old(attributes.nodes))
      ensures (ok, State()) == Parse(typ, old(State()), old(input.Rest()))
    {
      hide *;
      ghost var first, all := State(), input.Rest();
      ok := true;
      while true
        invariant Valid() && input.Valid() && fresh(set n | n in attributes.nodes && n !in old(attributes.nodes))
        invariant Parse(typ, State(), input.Rest()) == Parse(typ, first, all)
        decreases |input.Rest()|
      {
        ghost var a, s := State(), input.Rest();
        ParseOnce(typ, a, s);
        TakeOne(s);
        var more, tag := input.GetBytes(1);
        if !more {
          break;
        }
        ok := ReadAttr(tag[0], input);
        if !ok {
          break;
        }
      }
    }

    /** `readAttr` */
    method ReadAttr(tag: byte, input: PropStream) returns (ok: bool)
      requires Valid() && input.Valid()
      modifies this, attributes, attributes.nodes, input
      ensures Valid() && input.Valid() && fresh(set n | n in attributes.nodes && n !in old(attributes.nodes))
      ensures match ItemStream.ReadAttr(typ, old(State()), tag, old(input.Rest()))
              case None => !ok && State() == old(State())
              case Some(pair) => ok && State() == pair.0 && input.Rest() == pair.1
    {
      hide Valid, State;
      if tag == ATTR_TEXT || tag == ATTR_DESC {
        var s;
        ok, s := input.GetText();
        if ok {
          SetString(tag == ATTR_TEXT, s);
        }
        return;
      }
      if Width(tag) == 0 {
        return false;
      }
      var s;
      ok, s := input.GetBytes(Width(tag));
      if ok {
        Store(tag, FromLe(s));
      }
    }

    /** `setText` and `setSpecialDescription` */
    method SetString(isText: bool, s: seq<byte>)
      requires Valid()
      modifies attributes, attributes.nodes
      ensures Valid() && fresh(set n | n in attributes.nodes && n !in old(attributes.nodes))
      ensures State() == if isText then SetText(old(State()), s) else SetDesc(old(State()), s)
    {
      hide Valid, AttrsOf;
      ValidMeans();
      StringSet(count, charges, fluid, attributes.contents, s);
      attributes.SetStrAttr(if isText then ATTR_ITEM_TEXT else ATTR_ITEM_DESC, s);
      ValidMeans();
    }

    /** Puts the number behind a tag where it belongs. */
    method Store(tag: byte, n: nat)
      requires Valid()
      modifies this, attributes, attributes.nodes
      ensures Valid() && fresh(set a | a in attributes.nodes && a !in old(attributes.nodes))
      ensures State() == SetValue(typ, old(State()), tag, n)
    {
      hide Valid, AttrsOf, State, IntOf;
      IdKnown();
      if tag == ATTR_RUNE_CHARGES {
        SetItemCountOrSubtype(n % 256);
      } else if tag == ATTR_ACTION_ID {
        SetWord(ATTR_ITEM_ACTIONID, Max(100, n % USHORT));
      } else if tag == ATTR_UNIQUE_ID {
        var was := IntAttr(ATTR_ITEM_UNIQUEID);
        if was % USHORT == 0 {
          SetWord(ATTR_ITEM_UNIQUEID, Max(1000, n % USHORT));
        }
      } else if tag == ATTR_DURATION {
        SetWord(ATTR_ITEM_DURATION, n % UINT32);
      } else if tag == ATTR_CHARGES {
        SetItemCharge(n % 256);
      } else if tag == ATTR_DECAYING_STATE && n != 0 {
        SetWord(ATTR_ITEM_DECAYING, 2);
      }
    }

    method SetWord(t: AttrType, n: ulong)
      requires Valid() && IsInt(t)
      modifies attributes, attributes.nodes
      ensures Valid() && fresh(set a | a in attributes.nodes && a !in old(attributes.nodes))
      ensures match t
              case ATTR_ITEM_ACTIONID => State() == old(State()).(actionId := n % USHORT)
              case ATTR_ITEM_UNIQUEID => State() == old(State()).(uniqueId := n % USHORT)
              case ATTR_ITEM_DURATION => State() == old(State()).(duration := n)
              case ATTR_ITEM_DECAYING => State() == old(State()).(decaying := DecayOf(n))
              case _ => State() == old(State())
    {
      hide Valid, AttrsOf, DecayOf;
      ValidMeans();
      WordSet(count, charges, fluid, attributes.contents, t, n);
      attributes.SetIntAttr(t, n);
      ValidMeans();
    }

    lemma ValidMeans()
      ensures Valid() <==> attributes.Valid() && attributes.Typed()
    {
    }

    lemma IdKnown()
      ensures State().uniqueId == IntOf(attributes.contents, ATTR_ITEM_UNIQUEID) % USHORT
    {
    }

    method SetItemCharge(n: byte)
      requires Valid()
      modifies this
      ensures Valid() && attributes.nodes == old(attributes.nodes) && State() == old(State()).(charges := n)
    {
      charges := n;
    }

    /** `setItemCountOrSubtype` */
    method SetItemCountOrSubtype(n: byte)
      requires Valid()
      modifies this
      ensures Valid() && attributes.contents == old(attributes.contents) && State() == SetSubtype(typ, old(State()), n)
    {
      if typ.fluid {
        fluid := n;
      } else if typ.charged {
        charges := n;
      } else {
        count := n;
      }
    }

    method IntAttr(t: AttrType) returns (n: ulong)
      requires Valid() && IsInt(t)
      ensures n == IntOf(attributes.contents, t)
    {
      n := attributes.GetIntAttr(t);
    }

    method ActionId() returns (n: ushort)
      requires Valid()
      ensures n == State().actionId
    {
      var m := attributes.GetIntAttr(ATTR_ITEM_ACTIONID);
      n := m % USHORT;
    }

    method StrAttr(t: AttrType) returns (s: seq<byte>)
      requires Valid() && !IsInt(t)
      ensures s == TextOf(attributes.contents, t)
    {
      s := attributes.GetStrAttr(t);
    }
  }

  method AddText(out: PropWriteStream, tag: byte, s: seq<byte>)
    requires out.Valid()
    modifies out, out.buffer
    ensures out.Valid() && (out.buffer == old(out.buffer) || fresh(out.buffer))
    ensures out.Contents() == old(out.Contents()) + ([tag] + PutString(s))
  {
    ghost var was := out.Contents();
    out.AddBytes([tag]);
    out.AddString(s);
    ConcatAssoc(was, [tag], PutString(s));
  }

  lemma ParseOnce(typ: StreamType, a: Attrs, s: seq<byte>)
    ensures Parse(typ, a, s) == if s == [] then (true, a)
                                else
                                  match ItemStream.ReadAttr(typ, a, s[0], s[1..])
                                  case None => (false, a)
                                  case Some(pair) => Parse(typ, pair.0, pair.1)
  {
  }

  lemma TakeOne(s: seq<byte>)
    ensures Take(s, 1) == if s == [] then None else Some(([s[0]], s[1..]))
  {
    if s != [] {
      assert s[..1] == [s[0]];
    }
  }

  /** Which getter a number that has been set shows up in. */
  lemma WordSet(count: byte, charges: byte, fluid: byte, contents: map<AttrType, Value>, t: AttrType, n: ulong)
    requires IsInt(t)
    ensures var a, b := AttrsOf(count, charges, fluid, contents), AttrsOf(count, charges, fluid, contents[t := Word(n)]);
            match t
            case ATTR_ITEM_ACTIONID => b == a.(actionId := n % USHORT)
            case ATTR_ITEM_UNIQUEID => b == a.(uniqueId := n % USHORT)
            case ATTR_ITEM_DURATION => b == a.(duration := n)
            case ATTR_ITEM_DECAYING => b == a.(decaying := DecayOf(n))
            case _ => b == a
  {
  }

  lemma StringSet(count: byte, charges: byte, fluid: byte, contents: map<AttrType, Value>, s: seq<byte>)
    ensures var a := AttrsOf(count, charges, fluid, contents);
            && AttrsOf(count, charges, fluid, contents[ATTR_ITEM_TEXT := Text(s)]) == a.(text := s)
            && AttrsOf(count, charges, fluid, contents[ATTR_ITEM_DESC := Text(s)]) == a.(desc := s)
  {
  }

  lemma NothingMore(s: seq<byte>)
    ensures s + [] == s
  {
  }

  lemma Regroup(was: seq<byte>, r: seq<byte>, a: seq<byte>, t: seq<byte>, d: seq<byte>, u: seq<byte>, y: seq<byte>)
    ensures was + r + a + t + d + u + y == was + (r + (a + (t + (d + (u + y)))))
  {
  }
}
