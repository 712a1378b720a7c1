/** One item as the server holds it, and as a row of the `items` table. */
module ItemRecord {
  import opened Bytes

  /** Doors, teleports, beds and the like are special. */
  datatype Kind = Plain | Special | Box | Locker

  /** What the item table says of a type. */
  datatype ItemType = ItemType(kind: Kind, fluid: bool, stackable: bool, charges: nat, decayTime: nat)

  type Types = nat -> ItemType

  /** Items of this type hold other items. */
  predicate IsContainer(t: ItemType) {
    t.kind.Box? || t.kind.Locker?
  }

  lemma Containers(t: ItemType)
    ensures IsContainer(t) <==> !t.kind.Plain? && !t.kind.Special?
  {
  }

  datatype Decay = DECAYING_FALSE | DECAYING_TRUE | DECAYING_PENDING

  datatype Info = Info(typ: nat, count: byte, fluid: byte, charges: byte, actionId: nat, uniqueId: nat, owner: nat,
                       duration: int, decaying: Decay, text: string, desc: string)

  datatype Row = Row(slot: nat, sid: nat, pid: nat, typ: nat, number: nat, actionId: nat, duration: int,
                     charges: nat, decaystate: Decay, text: string, specialdesc: string)

  /** The columns of a row that describe the item alone. */
  datatype Columns = Columns(typ: nat, number: nat, actionId: nat, duration: int, charges: nat, decaystate: Decay,
                             text: string, specialdesc: string)

  function ColumnsIn(row: Row): Columns {
    Columns(row.typ, row.number, row.actionId, row.duration, row.charges, row.decaystate, row.text, row.specialdesc)
  }

  /** What is written of an item. */
  function ColumnsOf(types: Types, info: Info): Columns {
    ColumnsIn(ToRow(types, info, 0, 0, 0))
  }

  function CountOrSubtype(types: Types, info: Info): byte {
    if types(info.typ).fluid then info.fluid else if info.charges != 0 then info.charges else info.count
  }

  function ToRow(types: Types, info: Info, slot: nat, sid: nat, pid: nat): Row {
    Row(slot, sid, pid, info.typ, CountOrSubtype(types, info), info.actionId, info.duration, info.charges,
        info.decaying, info.text, info.desc)
  }

  /** `Item::CreateItem`: the count comes in 16 bits and is kept in 8; only plain items are built with it. */
  function Create(types: Types, typ: nat, number: nat): Info {
    var t := types(typ);
    var n := if t.kind.Plain? then number % 0x1_0000 else 0;
    Info(typ,
         if !t.fluid && t.stackable then LowByte(n) else 1,
         if t.fluid then LowByte(n) else 0,
         LowByte(if !t.fluid && !t.stackable && t.charges != 0 && n != 0 then n else t.charges),
         0, 0, 0, t.decayTime * 1000, DECAYING_FALSE, "", "")
  }

  /** What `loadPlayer` makes of a row. */
  function FromRow(types: Types, row: Row): Info {
    FromColumns(types, ColumnsIn(row))
  }

  function FromColumns(types: Types, row: Columns): Info {
    var made := Create(types, row.typ, row.number);
    made.(actionId := if row.actionId >= 100 then row.actionId else 0,
           duration := if row.duration > 0 then row.duration else made.duration,
           charges := if row.charges > 0 then LowByte(row.charges) else made.charges,
           decaying := AsPending(row.decaystate),
           text := row.text,
           desc := row.specialdesc)
  }

  /** Any decaying state is read back as pending. */
  function AsPending(d: Decay): Decay {
    if d.DECAYING_FALSE? then DECAYING_FALSE else DECAYING_PENDING
  }

  /** The item after one save and load. */
  function Restored(types: Types, info: Info): Info {
    FromRow(types, ToRow(types, info, 0, 0, 0))
  }

  lemma RowWritten(types: Types, info: Info, slot: nat, sid: nat, pid: nat)
    ensures var row := ToRow(types, info, slot, sid, pid);
            && ColumnsIn(row) == ColumnsOf(types, info)
            && row.slot == slot && row.sid == sid && row.pid == pid
  {
  }

  /** Each column holds what it is named for; the number is the fluid, the charges if there are any, or the count. */
  lemma ColumnsAre(types: Types, info: Info)
    ensures var c := ColumnsOf(types, info);
            && c.typ == info.typ && c.text == info.text && c.specialdesc == info.desc
            && c.actionId == info.actionId && c.duration == info.duration && c.charges == info.charges
            && c.decaystate == info.decaying
            && (types(info.typ).fluid ==> c.number == info.fluid)
            && (!types(info.typ).fluid && info.charges > 0 ==> c.number == info.charges)
            && (!types(info.typ).fluid && info.charges == 0 ==> c.number == info.count)
  {
  }

  /** What a loaded item has of each column: type and texts as they are, action ids from 100 on, durations and charges
      above 0, any decay as pending; and the number where items of its type are built with one. */
  lemma LoadedColumns(types: Types, row: Row)
    ensures var info, t := FromRow(types, row), types(row.typ);
            && info.typ == row.typ && info.text == row.text && info.desc == row.specialdesc
            && info.actionId == (if row.actionId >= 100 then row.actionId else 0)
            && (row.duration > 0 ==> info.duration == row.duration)
            && (row.duration <= 0 ==> info.duration == t.decayTime * 1000)
            && (0 < row.charges < 256 ==> info.charges == row.charges)
            && (row.charges == 0 && t.kind.Plain? && !t.fluid && !t.stackable && t.charges != 0 && 0 < row.number < 256 ==>
                  info.charges == row.number)
            && (row.decaystate.DECAYING_FALSE? <==> info.decaying.DECAYING_FALSE?)
            && (!row.decaystate.DECAYING_FALSE? <==> info.decaying.DECAYING_PENDING?)
            && (t.kind.Plain? && t.fluid && row.number < 256 ==> info.fluid == row.number)
            && (t.kind.Plain? && !t.fluid && t.stackable && row.number < 256 ==> info.count == row.number)
            && (row.charges == 0 && t.charges < 256 && !(t.kind.Plain? && !t.fluid && !t.stackable && row.number != 0) ==>
                  info.charges == t.charges)
            && (t.fluid || !t.stackable ==> info.count == 1) && (!t.fluid ==> info.fluid == 0)
            && (!t.kind.Plain? && !t.fluid && t.stackable ==> info.count == 0) && (!t.kind.Plain? ==> info.fluid == 0)
            && info.uniqueId == 0 && info.owner == 0
  {
  }

  /** The fields the columns have room for. */
  predicate Storable(types: Types, info: Info) {
    var t := types(info.typ);
    && (info.actionId == 0 || info.actionId >= 100) && info.uniqueId == 0 && info.owner == 0
    && (info.duration > 0 || info.duration == t.decayTime * 1000)
    && (info.charges > 0 || t.charges == 0
        || (t.charges % 256 == 0 && (t.fluid || t.stackable || !t.kind.Plain?)))
    && (if t.fluid then info.count == 1 && (!t.kind.Plain? ==> info.fluid == 0)
        else
          && info.fluid == 0
          && if !t.stackable then info.count == 1
             else if !t.kind.Plain? then info.count == 0
             else info.charges == 0 || info.charges == info.count)
  }

  /** A save and load gives an item back, its decay pending, exactly when it is storable. */
  lemma RestoredIffStorable(types: Types, info: Info)
    ensures Restored(types, info) == info.(decaying := AsPending(info.decaying)) <==> Storable(types, info)
  {
  }

  /** One item that comes back different: a worn-out item of a type that has charges is given a charge again. */
  lemma ZeroChargesLost(types: Types, info: Info)
    requires types(info.typ) == ItemType(Plain, false, false, 5, 0)
    requires info.charges == 0 && info.count == 1
    ensures Restored(types, info).charges == 1
  {
  }
}
