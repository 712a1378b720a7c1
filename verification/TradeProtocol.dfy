/** The trade handshake between any number of players. */
module TradeProtocol {
  import opened ItemForest

  datatype TradeState = NONE | INITIATED | ACCEPT | ACKNOWLEDGE | TRANSFER

  class Player {
    const id: nat
    var tradeState: TradeState
    var tradePartner: Player?
    var tradeItem: Thing?

    constructor (id: nat)
      ensures this.id == id && tradeState == NONE && tradePartner == null && tradeItem == null
    {
      this.id, tradeState, tradePartner, tradeItem := id, NONE, null, null;
    }
  }

  /** All players, the table of items on offer, and the references that the table holds on items. */
  datatype Trading = Trading(mode: map<Player, TradeState>, partner: map<Player, Player?>, item: map<Player, Thing?>,
                         tradeItems: map<Thing, nat>, held: multiset<Thing>)
  {
    ghost function Players(): set<Player> {
      mode.Keys
    }
  }

  ghost predicate SamePlayers(st: Trading) {
    st.partner.Keys == st.Players() && st.item.Keys == st.Players()
  }

  // ---------------------------------------------------------------- the steps

  ghost predicate CanStart(st: Trading, p: Player, q: Player)
    requires SamePlayers(st) && p in st.Players() && q in st.Players()
  {
    && (st.mode[p] == NONE || (st.mode[p] == ACKNOWLEDGE && st.partner[p] == q))
    && (st.mode[q] == NONE || st.partner[q] == p)
  }

  /** `internalStartTrade`: an offer, or the answer to one. */
  ghost function Start(st: Trading, p: Player, q: Player, x: Thing): (r: Trading)
    requires SamePlayers(st) && p in st.Players() && q in st.Players()
    ensures SamePlayers(r) && r.Players() == st.Players()
  {
    if CanStart(st, p, q) then Asked(Offered(st, p, q, x), q, p) else st
  }

  /** The item goes on the table. */
  ghost function Offered(st: Trading, p: Player, q: Player, x: Thing): (r: Trading)
    requires SamePlayers(st) && p in st.Players()
    ensures SamePlayers(r) && r.Players() == st.Players()
  {
    st.(mode := st.mode[p := INITIATED], partner := st.partner[p := q], item := st.item[p := x],
        tradeItems := st.tradeItems[x := p.id], held := st.held + multiset{x})
  }

  /** A player who is not trading yet is drawn in. */
  ghost function Asked(st: Trading, q: Player, p: Player): (r: Trading)
    requires SamePlayers(st) && q in st.Players()
    ensures SamePlayers(r) && r.Players() == st.Players()
  {
    if st.mode[q] == NONE then st.(mode := st.mode[q := ACKNOWLEDGE], partner := st.partner[q := p]) else st
  }

  /** An item on offer leaves the table, and its reference is given back. */
  ghost function Drop(st: Trading, x: Thing?): (r: Trading)
    ensures r.mode == st.mode && r.partner == st.partner && r.item == st.item
  {
    if x != null && x in st.tradeItems
    then st.(tradeItems := st.tradeItems - {x}, held := st.held - multiset{x})
    else st
  }

  /** A player is no longer trading. */
  ghost function Reset(st: Trading, p: Player): (r: Trading)
    requires SamePlayers(st) && p in st.Players()
    ensures SamePlayers(r) && r.Players() == st.Players()
  {
    st.(mode := st.mode[p := NONE], partner := st.partner[p := null], item := st.item[p := null])
  }

  datatype Answer = Refused | Waiting | Closed | NullDereference

  /** `playerAcceptTrade`: once both have accepted, the table is cleared and both are done, whatever becomes of the
      items; telling a player without an item that the trade failed follows a null pointer. */
  ghost function Accept(st: Trading, p: Player): (Answer, Trading)
    requires SamePlayers(st) && p in st.Players()
    requires st.partner[p] != null ==> st.partner[p] in st.Players()
  {
    if st.mode[p] != ACKNOWLEDGE && st.mode[p] != INITIATED then (Refused, st)
    else
      var st1 := st.(mode := st.mode[p := ACCEPT]);
      var q := st1.partner[p];
      if q == null || st1.mode[q] != ACCEPT then (Waiting, st1)
      else if st1.item[p] == null || st1.item[q] == null then (NullDereference, st1)
      else (Closed, Finished(st1, p, q))
  }

  /** Both items leave the table, and both players the trade. */
  ghost function Finished(st: Trading, p: Player, q: Player): (r: Trading)
    requires SamePlayers(st) && p in st.Players() && q in st.Players()
    ensures SamePlayers(r) && r.Players() == st.Players()
  {
    Reset(Reset(Drop(Drop(st, st.item[p]), st.item[q]), p), q)
  }

  /** `playerCloseTrade` */
  ghost function Close(st: Trading, p: Player): (r: Trading)
    requires SamePlayers(st) && p in st.Players()
    requires st.partner[p] != null ==> st.partner[p] in st.Players()
    ensures SamePlayers(r) && r.Players() == st.Players()
  {
    var q := st.partner[p];
    if st.mode[p] == TRANSFER || (q != null && st.mode[q] == TRANSFER) then st
    else
      var st1 := Reset(Drop(st, st.item[p]), p);
      if q == null then st1 else Reset(Drop(st1, st1.item[q]), q)
  }

  // ---------------------------------------------------------------- what every step keeps

  /** Only a player who is trading has a partner, the partner is somebody else, and each is the other's partner. */
  ghost predicate PartnerOk(st: Trading, p: Player)
    requires SamePlayers(st) && p in st.Players()
  {
    var q := st.partner[p];
    && (q == null <==> st.mode[p] == NONE)
    && (q != null ==> q in st.Players() && q != p && st.partner[q] == p)
  }

  /** Who has made an offer has an item on the table under his name; who was only asked has none. Of two partners,
      one has made an offer, and they have not both accepted. No transfer is going on. */
  ghost predicate ModeOk(st: Trading, p: Player)
    requires SamePlayers(st) && p in st.Players()
  {
    var x, q := st.item[p], st.partner[p];
    && st.mode[p] != TRANSFER
    && (x == null <==> st.mode[p] == NONE || st.mode[p] == ACKNOWLEDGE)
    && (x != null ==> x in st.tradeItems && st.tradeItems[x] == p.id)
    && (q != null && q in st.Players() ==>
          !(st.mode[p] == ACKNOWLEDGE && st.mode[q] == ACKNOWLEDGE) && !(st.mode[p] == ACCEPT && st.mode[q] == ACCEPT))
  }

  /** An item on the table is offered by a player. */
  ghost predicate OfferedBySome(st: Trading, x: Thing)
    requires SamePlayers(st)
  {
    exists p :: p in st.Players() && st.item[p] == x
  }

  /** No two players offer the same item. */
  ghost predicate OfferOk(st: Trading, p: Player, q: Player)
    requires SamePlayers(st) && p in st.Players() && q in st.Players()
  {
    st.item[p] != null && st.item[p] == st.item[q] ==> p == q
  }

  /** The items on the table are just those on offer, and for each of them there is one reference. */
  ghost predicate TableOk(st: Trading)
    requires SamePlayers(st)
  {
    && (forall p, q :: p in st.Players() && q in st.Players() ==> OfferOk(st, p, q))
    && (forall x :: x in st.tradeItems ==> OfferedBySome(st, x))
    && st.held == multiset(st.tradeItems.Keys)
  }

  ghost predicate Inv(st: Trading) {
    && SamePlayers(st)
    && (forall p :: p in st.Players() ==> PartnerOk(st, p) && ModeOk(st, p))
    && TableOk(st)
  }

  lemma PlayerOk(st: Trading, p: Player)
    requires Inv(st) && p in st.Players()
    ensures SamePlayers(st) && PartnerOk(st, p) && ModeOk(st, p)
    ensures st.partner[p] != null ==> PartnerOk(st, st.partner[p]) && ModeOk(st, st.partner[p])
  {
  }

  lemma InvMeans(st: Trading)
    requires Inv(st)
    ensures SamePlayers(st) && TableOk(st)
  {
  }

  /** What an offer does to the record of one player. */
  lemma StartAt(st: Trading, p: Player, q: Player, x: Thing, t: Player)
    requires SamePlayers(st) && p in st.Players() && q in st.Players() && t in st.Players() && p != q
    requires CanStart(st, p, q)
    ensures var st' := Start(st, p, q, x);
            && st'.mode[t] == (if t == p then INITIATED
                               else if t == q && st.mode[q] == NONE then ACKNOWLEDGE else st.mode[t])
            && st'.partner[t] == (if t == p then q else if t == q && st.mode[q] == NONE then p else st.partner[t])
            && st'.item[t] == (if t == p then x else st.item[t])
            && st'.tradeItems == st.tradeItems[x := p.id] && st'.held == st.held + multiset{x}
  {
  }

  lemma StartPlayer(st: Trading, p: Player, q: Player, x: Thing, t: Player)
    requires Inv(st) && p in st.Players() && q in st.Players() && p != q && x !in st.tradeItems && t in st.Players()
    requires CanStart(st, p, q)
    ensures PartnerOk(Start(st, p, q, x), t) && ModeOk(Start(st, p, q, x), t)
  {
    hide Inv, Start, TableOk;
    InvMeans(st);
    PlayerOk(st, p);
    PlayerOk(st, q);
    PlayerOk(st, t);
    StartAt(st, p, q, x, t);
    StartAt(st, p, q, x, p);
    StartAt(st, p, q, x, q);
    if st.partner[t] != null {
      StartAt(st, p, q, x, st.partner[t]);
    }
  }

  /** An offer of an item that is not yet on the table. */
  lemma StartKeeps(st: Trading, p: Player, q: Player, x: Thing)
    requires Inv(st) && p in st.Players() && q in st.Players() && p != q && x !in st.tradeItems
    ensures Inv(Start(st, p, q, x))
  {
    hide CanStart, Start, PartnerOk, ModeOk;
    if CanStart(st, p, q) {
      var st' := Start(st, p, q, x);
      forall t | t in st.Players() ensures PartnerOk(st', t) && ModeOk(st', t) {
        StartPlayer(st, p, q, x, t);
      }
      StartTable(st, p, q, x);
    } else {
      StartRefused(st, p, q, x);
    }
  }

  lemma StartRefused(st: Trading, p: Player, q: Player, x: Thing)
    requires SamePlayers(st) && p in st.Players() && q in st.Players() && !CanStart(st, p, q)
    ensures Start(st, p, q, x) == st
  {
  }

  lemma StartTable(st: Trading, p: Player, q: Player, x: Thing)
    requires Inv(st) && p in st.Players() && q in st.Players() && p != q && x !in st.tradeItems
    requires CanStart(st, p, q)
    ensures TableOk(Start(st, p, q, x))
  {
    hide Start, PartnerOk, ModeOk, CanStart, OfferOk, OfferedBySome, Inv;
    InvMeans(st);
    var st' := Start(st, p, q, x);
    StartAt(st, p, q, x, p);
    forall t, u | t in st.Players() && u in st.Players() ensures OfferOk(st', t, u) {
      StartOffers(st, p, q, x, t, u);
    }
    forall y | y in st'.tradeItems ensures OfferedBySome(st', y) {
      StartOffered(st, p, q, x, y);
    }
    assert st'.tradeItems.Keys == st.tradeItems.Keys + {x};
  }

  lemma StartOffers(st: Trading, p: Player, q: Player, x: Thing, t: Player, u: Player)
    requires Inv(st) && p in st.Players() && q in st.Players() && p != q && x !in st.tradeItems && CanStart(st, p, q)
    requires t in st.Players() && u in st.Players()
    ensures OfferOk(Start(st, p, q, x), t, u)
  {
    hide Inv, Start, CanStart;
    InvMeans(st);
    assert OfferOk(st, t, u);
    hide TableOk;
    PlayerOk(st, t);
    PlayerOk(st, u);
    StartAt(st, p, q, x, t);
    StartAt(st, p, q, x, u);
  }

  lemma StartOffered(st: Trading, p: Player, q: Player, x: Thing, y: Thing)
    requires Inv(st) && p in st.Players() && q in st.Players() && p != q && x !in st.tradeItems && CanStart(st, p, q)
    requires y == x || y in st.tradeItems
    ensures OfferedBySome(Start(st, p, q, x), y)
  {
    hide Inv, Start;
    InvMeans(st);
    PlayerOk(st, p);
    StartAt(st, p, q, x, p);
    if y == x {
      assert Start(st, p, q, x).item[p] == y;
    } else {
      var t :| t in st.Players() && st.item[t] == y;
      PlayerOk(st, t);
      StartAt(st, p, q, x, t);
      assert Start(st, p, q, x).item[t] == y;
    }
  }

  // ---------------------------------------------------------------- the end of a trade

  /** The items two players have on offer. */
  ghost function Offers(st: Trading, p: Player, q: Player): set<Thing>
    requires SamePlayers(st) && p in st.Players() && q in st.Players()
  {
    (if st.item[p] != null then {st.item[p]} else {}) + (if st.item[q] != null then {st.item[q]} else {})
  }

  /** Both players are out of the trade with all they had on the table; nothing else has changed. */
  ghost predicate Cleared(st: Trading, p: Player, q: Player, end: Trading)
    requires SamePlayers(st) && p in st.Players() && q in st.Players()
  {
    && SamePlayers(end) && end.Players() == st.Players()
    && (forall t :: t in st.Players() ==> ClearedAt(st, p, q, end, t))
    && OffTable(st, p, q, end)
  }

  ghost predicate OffTable(st: Trading, p: Player, q: Player, end: Trading)
    requires SamePlayers(st) && p in st.Players() && q in st.Players()
  {
    end.tradeItems == st.tradeItems - Offers(st, p, q) && end.held == st.held - multiset(Offers(st, p, q))
  }

  ghost predicate ClearedAt(st: Trading, p: Player, q: Player, end: Trading, t: Player)
    requires SamePlayers(st) && SamePlayers(end) && end.Players() == st.Players() && t in st.Players()
  {
    if t == p || t == q then end.mode[t] == NONE && end.partner[t] == null && end.item[t] == null
    else end.mode[t] == st.mode[t] && end.partner[t] == st.partner[t] && end.item[t] == st.item[t]
  }

  lemma ClearedPlayer(st: Trading, p: Player, q: Player, end: Trading, t: Player)
    requires Inv(st) && p in st.Players() && q in st.Players() && st.partner[p] == q && Cleared(st, p, q, end)
    requires t in st.Players()
    ensures PartnerOk(end, t) && ModeOk(end, t)
  {
    hide Inv, TableOk;
    InvMeans(st);
    PlayerOk(st, p);
    PlayerOk(st, t);
    assert ClearedAt(st, p, q, end, t);
    if st.partner[t] != null {
      assert ClearedAt(st, p, q, end, st.partner[t]);
    }
    if st.item[t] != null && t != p && t != q {
      OffersApart(st, p, q, t);
    }
  }

  lemma OffersApart(st: Trading, p: Player, q: Player, t: Player)
    requires Inv(st) && p in st.Players() && q in st.Players() && t in st.Players() && t != p && t != q
    ensures st.item[t] != null ==> st.item[t] !in Offers(st, p, q)
  {
    hide PartnerOk, ModeOk;
    assert OfferOk(st, t, p) && OfferOk(st, t, q);
  }

  lemma ClearedKeeps(st: Trading, p: Player, q: Player, end: Trading)
    requires Inv(st) && p in st.Players() && q in st.Players() && st.partner[p] == q && Cleared(st, p, q, end)
    ensures Inv(end)
  {
    hide PartnerOk, ModeOk, ClearedAt, Inv, Offers;
    InvMeans(st);
    forall t | t in end.Players() ensures PartnerOk(end, t) && ModeOk(end, t) {
      ClearedPlayer(st, p, q, end, t);
    }
    ClearedTable(st, p, q, end);
    InvIs(end);
  }

  lemma InvIs(st: Trading)
    requires SamePlayers(st) && TableOk(st)
    requires forall p :: p in st.Players() ==> PartnerOk(st, p) && ModeOk(st, p)
    ensures Inv(st)
  {
  }

  lemma MultisetMinus<T>(a: set<T>, b: set<T>)
    ensures multiset(a) - multiset(b) == multiset(a - b)
  {
  }

  lemma ClearedTable(st: Trading, p: Player, q: Player, end: Trading)
    requires Inv(st) && p in st.Players() && q in st.Players() && st.partner[p] == q && Cleared(st, p, q, end)
    ensures TableOk(end)
  {
    hide PartnerOk, ModeOk, Inv, Offers;
    InvMeans(st);
    forall t, u | t in st.Players() && u in st.Players() ensures OfferOk(end, t, u) {
      assert OfferOk(st, t, u) && ClearedAt(st, p, q, end, t) && ClearedAt(st, p, q, end, u);
    }
    forall x | x in end.tradeItems ensures OfferedBySome(end, x) {
      ClearedOffer(st, p, q, end, x);
    }
    MultisetMinus(st.tradeItems.Keys, Offers(st, p, q));
    assert end.tradeItems.Keys == st.tradeItems.Keys - Offers(st, p, q);
  }

  lemma ClearedOffer(st: Trading, p: Player, q: Player, end: Trading, x: Thing)
    requires Inv(st) && p in st.Players() && q in st.Players() && Cleared(st, p, q, end) && x in end.tradeItems
    ensures OfferedBySome(end, x)
  {
    hide PartnerOk, ModeOk;
    var t :| t in st.Players() && st.item[t] == x;
    assert ClearedAt(st, p, q, end, t);
  }

  /** The items of a player are on the table. */
  lemma OfferOnTable(st: Trading, p: Player)
    requires Inv(st) && p in st.Players()
    ensures st.item[p] != null ==> st.item[p] in st.tradeItems && st.item[p] in st.held
  {
    PlayerOk(st, p);
  }

  lemma DifferentOffers(st: Trading, p: Player, q: Player)
    requires Inv(st) && p in st.Players() && q in st.Players() && p != q
    ensures st.item[p] != null ==> st.item[p] != st.item[q]
  {
    assert OfferOk(st, p, q);
  }

  function One(x: Thing?): set<Thing> {
    if x == null then {} else {x}
  }

  lemma DropIs(st: Trading, x: Thing?)
    requires x != null ==> x in st.tradeItems
    ensures Drop(st, x).tradeItems == st.tradeItems - One(x) && Drop(st, x).held == st.held - multiset(One(x))
  {
  }

  lemma ResetIs(st: Trading, p: Player)
    requires SamePlayers(st) && p in st.Players()
    ensures var end := Reset(st, p);
            && end.mode == st.mode[p := NONE] && end.partner == st.partner[p := null] && end.item == st.item[p := null]
            && end.tradeItems == st.tradeItems && end.held == st.held
  {
  }

  lemma MinusTwo(st: Trading, x: Thing?, y: Thing?)
    requires x != null ==> x != y
    ensures st.tradeItems - One(x) - One(y) == st.tradeItems - (One(x) + One(y))
    ensures st.held - multiset(One(x)) - multiset(One(y)) == st.held - multiset(One(x) + One(y))
  {
  }

  lemma OffersAre(st: Trading, p: Player, q: Player)
    requires SamePlayers(st) && p in st.Players() && q in st.Players()
    ensures Offers(st, p, q) == One(st.item[p]) + One(st.item[q])
  {
  }

  lemma TwoDropped(st: Trading, p: Player, q: Player, end: Trading)
    requires SamePlayers(st) && p in st.Players() && q in st.Players()
    requires st.item[p] != null ==> st.item[p] != st.item[q]
    requires end.tradeItems == st.tradeItems - One(st.item[p]) - One(st.item[q])
    requires end.held == st.held - multiset(One(st.item[p])) - multiset(One(st.item[q]))
    ensures OffTable(st, p, q, end)
  {
    hide One;
    MinusTwo(st, st.item[p], st.item[q]);
    OffersAre(st, p, q);
  }

  /** Both offers dropped and both players reset, with the mode of `p` out of date: all is cleared. */
  lemma BothOut(st: Trading, p: Player, q: Player, end: Trading)
    requires Inv(st) && p in st.Players() && q in st.Players() && p != q
    requires end.mode.Keys == st.Players()
    requires end.mode[q] == NONE && end.mode[p] == NONE
    requires forall t :: t in st.Players() && t != p && t != q ==> end.mode[t] == st.mode[t]
    requires end.partner == st.partner[p := null][q := null] && end.item == st.item[p := null][q := null]
    requires OffTable(st, p, q, end)
    ensures Cleared(st, p, q, end)
  {
    InvMeans(st);
    hide *;
    forall t | t in st.Players() ensures SamePlayers(end) && ClearedAt(st, p, q, end, t) {
      OutAt(st, p, q, end, t);
    }
    ClearedIs(st, p, q, end);
  }

  lemma ClearedIs(st: Trading, p: Player, q: Player, end: Trading)
    requires SamePlayers(st) && p in st.Players() && q in st.Players() && OffTable(st, p, q, end)
    requires SamePlayers(end) && end.mode.Keys == st.Players()
    requires forall t :: t in st.Players() ==> ClearedAt(st, p, q, end, t)
    ensures Cleared(st, p, q, end)
  {
  }

  lemma OutAt(st: Trading, p: Player, q: Player, end: Trading, t: Player)
    requires SamePlayers(st) && p in st.Players() && q in st.Players() && p != q && t in st.Players()
    requires end.mode.Keys == st.Players()
    requires end.mode[q] == NONE && end.mode[p] == NONE && (t != p && t != q ==> end.mode[t] == st.mode[t])
    requires end.partner == st.partner[p := null][q := null] && end.item == st.item[p := null][q := null]
    ensures SamePlayers(end) && ClearedAt(st, p, q, end, t)
  {
  }

  /** Closing a trade clears it for both partners. */
  lemma CloseClears(st: Trading, p: Player)
    requires Inv(st) && p in st.Players()
    ensures st.partner[p] == null ==> Close(st, p) == st
    ensures st.partner[p] != null ==> st.partner[p] in st.Players() && Cleared(st, p, st.partner[p], Close(st, p))
    ensures Inv(Close(st, p))
  {
    hide Inv, TableOk, Cleared, Close, Finished;
    InvMeans(st);
    PlayerOk(st, p);
    var q := st.partner[p];
    if q == null {
      NothingToClose(st, p);
    } else {
      CloseFinishes(st, p, q);
      FinishClears(st, st, p, q);
      ClearedKeeps(st, p, q, Close(st, p));
    }
  }

  lemma DropReset(st: Trading, p: Player, x: Thing?)
    requires SamePlayers(st) && p in st.Players()
    ensures Drop(Reset(st, p), x) == Reset(Drop(st, x), p)
  {
  }

  /** The order in which items leave the table and players the trade makes no difference. */
  lemma CloseFinishes(st: Trading, p: Player, q: Player)
    requires SamePlayers(st) && p in st.Players() && q in st.Players() && p != q && st.partner[p] == q
    requires st.mode[p] != TRANSFER && st.mode[q] != TRANSFER
    ensures Close(st, p) == Finished(st, p, q)
  {
    hide Drop, Reset;
    DropReset(Drop(st, st.item[p]), p, st.item[q]);
    ResetIs(Drop(st, st.item[p]), p);
  }

  /** The items of two players are dropped and both are reset. */
  lemma FinishIs(st: Trading, p: Player, q: Player)
    requires SamePlayers(st) && p in st.Players() && q in st.Players()
    requires st.item[p] != null ==> st.item[p] in st.tradeItems && st.item[p] != st.item[q]
    requires st.item[q] != null ==> st.item[q] in st.tradeItems
    ensures var end := Finished(st, p, q);
            && end.mode == st.mode[p := NONE][q := NONE] && end.partner == st.partner[p := null][q := null]
            && end.item == st.item[p := null][q := null]
            && end.tradeItems == st.tradeItems - One(st.item[p]) - One(st.item[q])
            && end.held == st.held - multiset(One(st.item[p])) - multiset(One(st.item[q]))
  {
    hide Drop, Reset;
    DropIs(st, st.item[p]);
    var st1 := Drop(st, st.item[p]);
    DropIs(st1, st.item[q]);
    var st2 := Drop(st1, st.item[q]);
    ResetIs(st2, p);
    ResetIs(Reset(st2, p), q);
  }

  /** `st1` is the trading after `p` has perhaps accepted. */
  lemma FinishClears(st: Trading, st1: Trading, p: Player, q: Player)
    requires Inv(st) && p in st.Players() && q in st.Players() && st.partner[p] == q
    requires SamePlayers(st1) && st1.Players() == st.Players() && st1.partner == st.partner && st1.item == st.item
    requires st1.tradeItems == st.tradeItems && st1.held == st.held
    requires forall t :: t in st.Players() && t != p ==> st1.mode[t] == st.mode[t]
    ensures Cleared(st, p, q, Finished(st1, p, q))
  {
    hide Inv, TableOk, Cleared, Finished, OffTable, One;
    InvMeans(st);
    PlayerOk(st, p);
    OfferOnTable(st, p);
    OfferOnTable(st, q);
    DifferentOffers(st, p, q);
    FinishIs(st1, p, q);
    TwoDropped(st, p, q, Finished(st1, p, q));
    BothOut(st, p, q, Finished(st1, p, q));
  }

  lemma NothingToClose(st: Trading, p: Player)
    requires Inv(st) && p in st.Players() && st.partner[p] == null
    ensures Close(st, p) == st
  {
    hide TableOk;
    PlayerOk(st, p);
  }

  /** What accepting does. A player who has only been asked has no item; if he accepts, the table is no longer in
      order, and a null pointer is followed exactly when his partner had accepted before. */
  lemma AcceptMeans(st: Trading, p: Player)
    requires Inv(st) && p in st.Players()
    ensures st.partner[p] != null ==> st.partner[p] in st.Players()
    ensures var (answer, end) := Accept(st, p);
            && (Inv(end) <==> st.mode[p] != ACKNOWLEDGE)
            && (answer == NullDereference
                <==> st.mode[p] == ACKNOWLEDGE && st.partner[p] != null && st.mode[st.partner[p]] == ACCEPT)
            && (answer == Refused <==> st.mode[p] == NONE || st.mode[p] == ACCEPT)
            && (answer == Closed ==> st.partner[p] != null && Cleared(st, p, st.partner[p], end))
            && (answer == Closed <==> st.mode[p] == INITIATED && st.partner[p] != null
                                      && st.mode[st.partner[p]] == ACCEPT)
  {
    hide Inv, TableOk, Cleared;
    InvMeans(st);
    PlayerOk(st, p);
    var (answer, end) := Accept(st, p);
    var q := st.partner[p];
    if st.mode[p] == ACKNOWLEDGE {
      NoOfferAccepted(st, p);
    } else if st.mode[p] == INITIATED && st.mode[q] == ACCEPT {
      AcceptClears(st, p, q);
      ClearedKeeps(st, p, q, end);
    } else if st.mode[p] == INITIATED {
      WaitingKeeps(st, p);
    }
  }

  lemma NoOfferAccepted(st: Trading, p: Player)
    requires Inv(st) && p in st.Players() && st.mode[p] == ACKNOWLEDGE
    ensures st.partner[p] != null ==> st.partner[p] in st.Players()
    ensures !Inv(Accept(st, p).1)
  {
    hide TableOk;
    PlayerOk(st, p);
    var end := Accept(st, p).1;
    if Inv(end) {
      PlayerOk(end, p);
    }
  }

  lemma AcceptClears(st: Trading, p: Player, q: Player)
    requires Inv(st) && p in st.Players() && q in st.Players() && st.partner[p] == q
    requires st.mode[p] == INITIATED && st.mode[q] == ACCEPT
    ensures Cleared(st, p, q, Accept(st, p).1)
  {
    hide Inv, TableOk, Cleared, Finished;
    InvMeans(st);
    PlayerOk(st, p);
    FinishClears(st, st.(mode := st.mode[p := ACCEPT]), p, q);
  }

  lemma WaitingKeeps(st: Trading, p: Player)
    requires Inv(st) && p in st.Players() && st.mode[p] == INITIATED && st.partner[p] != null
    requires st.partner[p] in st.Players() && st.mode[st.partner[p]] != ACCEPT
    ensures Inv(Accept(st, p).1)
  {
    var end := Accept(st, p).1;
    PlayerOk(st, p);
    forall t | t in end.Players() ensures PartnerOk(end, t) && ModeOk(end, t) {
      PlayerOk(st, t);
    }
    assert forall t, u :: t in st.Players() && u in st.Players() ==> OfferOk(st, t, u) && OfferOk(end, t, u);
    forall x | x in end.tradeItems ensures OfferedBySome(end, x) {
      assert OfferedBySome(st, x);
    }
  }

  /** If a player who was only asked accepts, his partner's acceptance follows a null pointer. */
  lemma AskedAcceptsCrashes(st: Trading, p: Player)
    requires Inv(st) && p in st.Players() && st.mode[p] == ACKNOWLEDGE && st.partner[p] != null
    ensures st.partner[p] in st.Players()
    ensures var q, (first, mid) := st.partner[p], Accept(st, p);
            if st.mode[q] == ACCEPT then first == NullDereference
            else && first == Waiting && SamePlayers(mid) && mid.Players() == st.Players() && mid.partner == st.partner
                 && st.partner[q] == p && Accept(mid, q).0 == NullDereference
  {
    hide TableOk;
    PlayerOk(st, p);
  }

  // ---------------------------------------------------------------- runs

  datatype Event =
    | RequestEvent(p: Player, q: Player, x: Thing, admitted: bool)
    | AcceptEvent(p: Player)
    | CloseEvent(p: Player)

  ghost predicate Known(st: Trading, e: Event) {
    e.p in st.Players() && (e.RequestEvent? ==> e.q in st.Players())
  }

  /** A request is refused if it is not admitted, goes to the player himself, or is for an item on the table. */
  ghost function Do(st: Trading, e: Event): Trading
    requires Inv(st) && Known(st, e)
  {
    InvMeans(st);
    PlayerOk(st, e.p);
    match e
    case RequestEvent(p, q, x, admitted) => if admitted && p != q && x !in st.tradeItems then Start(st, p, q, x) else st
    case AcceptEvent(p) => Accept(st, p).1
    case CloseEvent(p) => Close(st, p)
  }

  /** Nobody accepts without an item on offer. */
  ghost predicate Sensible(st: Trading, e: Event)
    requires Known(st, e)
  {
    e.AcceptEvent? ==> st.mode[e.p] != ACKNOWLEDGE
  }

  /** A step keeps the table in order exactly when nobody accepts without an item on offer. */
  lemma StepKeepsIff(st: Trading, e: Event)
    requires Inv(st) && Known(st, e)
    ensures Inv(Do(st, e)) <==> Sensible(st, e)
  {
    hide Inv, Start, Accept, Close;
    InvMeans(st);
    PlayerOk(st, e.p);
    match e
    case RequestEvent(p, q, x, admitted) =>
      if admitted && p != q && x !in st.tradeItems {
        StartKeeps(st, p, q, x);
      }
    case AcceptEvent(p) => AcceptMeans(st, p);
    case CloseEvent(p) => CloseClears(st, p);
  }

  ghost predicate Run(st: Trading, events: seq<Event>, end: Trading)
    decreases |events|
  {
    if events == [] then end == st
    else
      Inv(st) && Known(st, events[0]) && Sensible(st, events[0]) && Run(Do(st, events[0]), events[1..], end)
  }

  ghost predicate Fresh(st: Trading) {
    && SamePlayers(st) && st.tradeItems == map[] && st.held == multiset{}
    && forall p :: p in st.Players() ==> st.mode[p] == NONE && st.partner[p] == null && st.item[p] == null
  }

  /** Over any run, by any number of players, in any order, the table stays in order. */
  lemma {:induction false} RunKeeps(st: Trading, events: seq<Event>, end: Trading)
    requires Inv(st) && Run(st, events, end)
    ensures Inv(end)
    decreases |events|
  {
    hide Inv, Do, Known, Sensible;
    if events != [] {
      StepKeepsIff(st, events[0]);
      RunKeeps(Do(st, events[0]), events[1..], end);
    }
  }

  lemma FreshInv(st: Trading)
    requires Fresh(st)
    ensures Inv(st)
  {
  }

  /** No run of sensible steps ever comes to a null pointer. */
  lemma RunNeverCrashes(st: Trading, events: seq<Event>, end: Trading, p: Player)
    requires Fresh(st) && Run(st, events, end) && p in end.Players()
    ensures Inv(end) && SamePlayers(end) && (end.partner[p] != null ==> end.partner[p] in end.Players())
    ensures end.mode[p] != ACKNOWLEDGE ==> Accept(end, p).0 != NullDereference
  {
    hide Inv, Fresh, Accept;
    FreshInv(st);
    RunKeeps(st, events, end);
    InvMeans(end);
    PlayerOk(end, p);
    AcceptMeans(end, p);
  }
}
