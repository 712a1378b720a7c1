/** Trading as the server does it: the players' trade fields and the table of items on offer are changed in place. */
module TradeTable {
  import opened ItemForest
  import opened MoveLaws
  import opened GameWorld
  import opened TradeProtocol

  class Trades {
    const players: set<Player>
    var tradeItems: map<Thing, nat>
    ghost var held: multiset<Thing>

    ghost function Modes(): map<Player, TradeState>
      reads players`tradeState
    {
      map p | p in players :: p.tradeState
    }

    ghost function Partners(): map<Player, Player?>
      reads players`tradePartner
    {
      map p | p in players :: p.tradePartner
    }

    ghost function Items(): map<Player, Thing?>
      reads players`tradeItem
    {
      map p | p in players :: p.tradeItem
    }

    ghost function State(): (st: Trading)
      reads this, players
      ensures st.Players() == players
    {
      Trading(Modes(), Partners(), Items(), tradeItems, held)
    }

    ghost predicate Valid()
      reads this, players
    {
      Inv(State())
    }

    constructor (players: set<Player>)
      requires forall p :: p in players ==> p.tradeState == NONE && p.tradePartner == null && p.tradeItem == null
      ensures this.players == players && Valid()
    {
      this.players, tradeItems, held := players, map[], multiset{};
      new;
      FreshInv(State());
    }

    lemma StateIs()
      ensures State() == Trading(Modes(), Partners(), Items(), tradeItems, held)
      ensures Valid() <==> Inv(State())
    {
    }

    lemma PlayerIs(p: Player)
      requires p in players
      ensures SamePlayers(State()) && State().mode[p] == p.tradeState
      ensures State().partner[p] == p.tradePartner && State().item[p] == p.tradeItem
    {
    }

    method SetState(p: Player, mode: TradeState)
      requires p in players
      modifies p`tradeState
      ensures p.tradeState == mode && Modes() == old(Modes())[p := mode]
    {
      p.tradeState := mode;
    }

    method SetPartner(p: Player, q: Player?)
      requires p in players
      modifies p`tradePartner
      ensures p.tradePartner == q && Partners() == old(Partners())[p := q]
    {
      p.tradePartner := q;
    }

    method SetItem(p: Player, x: Thing?)
      requires p in players
      modifies p`tradeItem
      ensures p.tradeItem == x && Items() == old(Items())[p := x]
    {
      p.tradeItem := x;
    }

    /** An item is taken off the table if it is there, and its reference is given back. */
    method TakeOff(x: Thing?)
      modifies this
      ensures State() == Drop(old(State()), x)
    {
      hide *;
      StateIs();
      IsDrop(State(), x);
      if x != null && x in tradeItems {
        tradeItems := tradeItems - {x};
        held := held - multiset{x};
      }
      StateIs();
    }

    /** The item is on the table as what `p` offers to `q`, and each is the other's partner. */
    ghost predicate OnOffer(p: Player, q: Player, x: Thing)
      reads this, p, q
    {
      && p.tradeState == INITIATED && p.tradePartner == q && q.tradePartner == p && p.tradeItem == x
      && x in tradeItems && tradeItems[x] == p.id
    }

    // -------------------------------------------------------------- the handshake

    /** Is the item on the table, or inside something that is, or does it hold something that is? */
    method BeingTraded(g: Game, x: Thing) returns (found: bool)
      requires g.Valid() && x in g.things && tradeItems.Keys <= g.things
      ensures SameKeys(g.World())
      ensures found <==> exists it :: it in tradeItems && Related(g.World(), it, x)
    {
      hide *;
      g.ValidMeans();
      ForestKeys(g.World());
      var rest := tradeItems.Keys;
      found := false;
      while rest != {} && !found
        invariant rest <= tradeItems.Keys
        invariant found ==> exists it :: it in tradeItems && Related(g.World(), it, x)
        invariant !found ==> forall it :: it in tradeItems && it !in rest ==> !Related(g.World(), it, x)
        decreases rest, !found
      {
        var it :| it in rest;
        var inside := g.IsHoldingItem(x, it);
        var around := g.IsHoldingItem(it, x);
        found := it == x || inside || around;
        RelatedIs(g.World(), it, x);
        rest := rest - {it};
      }
    }

    /** `playerRequestTrade` and `internalStartTrade`. An offer only goes on the table if it has nothing to do with
        what is there, and is no container of more than 99 things. `inReach` stands for the checks of place. */
    method RequestTrade(g: Game, p: Player, q: Player, x: Thing, inReach: bool) returns (started: bool)
      requires Valid() && p in players && q in players
      requires g.Valid() && x in g.things && tradeItems.Keys <= g.things
      modifies this, players
      ensures Valid() && SameKeys(g.World())
      ensures State() == if started then Start(old(State()), p, q, x) else old(State())
      ensures started
              <==> && p != q && inReach && x.typ.pickupable
                   && (forall it :: it in old(tradeItems) ==> !Related(g.World(), it, x))
                   && (!x.typ.kind.Plain? ==> |g.World().Below(x)| + 1 <= 100)
                   && (old(p.tradeState) == NONE || (old(p.tradeState) == ACKNOWLEDGE && old(p.tradePartner) == q))
                   && (old(q.tradeState) == NONE || old(q.tradePartner) == p)
      ensures started ==> OnOffer(p, q, x)
    {
      hide *;
      g.ValidMeans();
      ForestKeys(g.World());
      RelatedSelf(g.World(), x);
      if p == q || !inReach || !x.typ.pickupable {
        return false;
      }
      var traded := BeingTraded(g, x);
      if traded {
        return false;
      }
      if !x.typ.kind.Plain? {
        var inside := g.GetItemHoldingCount(x);
        if inside + 1 > 100 {
          return false;
        }
      }
      ghost var st := State();
      StateIs();
      PlayerIs(p);
      if !CanStart(st, p, q) {
        StartRefused(st, p, q, x);
      }
      started := StartTrade(p, q, x);
    }

    /** `internalStartTrade` */
    method StartTrade(p: Player, q: Player, x: Thing) returns (started: bool)
      requires Valid() && p in players && q in players && p != q && x !in tradeItems
      modifies this, players
      ensures Valid() && (started <==> CanStart(old(State()), p, q))
      ensures started
              <==> && (old(p.tradeState) == NONE || (old(p.tradeState) == ACKNOWLEDGE && old(p.tradePartner) == q))
                   && (old(q.tradeState) == NONE || old(q.tradePartner) == p)
      ensures started ==> OnOffer(p, q, x) && q.tradeItem == old(q.tradeItem)
      ensures started ==> q.tradeState == if old(q.tradeState) == NONE then ACKNOWLEDGE else old(q.tradeState)
      ensures State() == Start(old(State()), p, q, x)
    {
      hide *;
      StateIs();
      PlayerIs(p);
      PlayerIs(q);
      ghost var st := State();
      StartIs(st, p, q, x);
      StartKeeps(st, p, q, x);
      if p.tradeState != NONE && !(p.tradeState == ACKNOWLEDGE && p.tradePartner == q) {
        return false;
      }
      if q.tradeState != NONE && q.tradePartner != p {
        return false;
      }
      started := true;
      PutOnTable(p, q, x);
      DrawIn(q, p);
      StateIs();
      StartAt(st, p, q, x, p);
      StartAt(st, p, q, x, q);
      PlayerIs(p);
      PlayerIs(q);
      OnOfferIs(p, q, x);
    }

    lemma OnOfferIs(p: Player, q: Player, x: Thing)
      ensures OnOffer(p, q, x)
              <==> && p.tradeState == INITIATED && p.tradePartner == q && q.tradePartner == p && p.tradeItem == x
                   && x in tradeItems && tradeItems[x] == p.id
    {
    }

    method PutOnTable(p: Player, q: Player, x: Thing)
      requires p in players
      modifies this, players
      ensures SamePlayers(old(State())) && State() == Offered(old(State()), p, q, x)
    {
      hide *;
      PlayerIs(p);
      StateIs();
      ghost var st := State();
      SetPartner(p, q);
      SetItem(p, x);
      SetState(p, INITIATED);
      tradeItems := tradeItems[x := p.id];
      held := held + multiset{x};
      StateIs();
      IsOffered(st, p, q, x, State());
    }

    method DrawIn(q: Player, p: Player)
      requires q in players
      modifies players
      ensures SamePlayers(old(State())) && State() == Asked(old(State()), q, p)
    {
      hide *;
      PlayerIs(q);
      StateIs();
      ghost var st := State();
      if q.tradeState == NONE {
        SetState(q, ACKNOWLEDGE);
        SetPartner(q, p);
      }
      StateIs();
      IsAsked(st, q, p, State());
    }

    /** `playerAcceptTrade`; `swapped` is what becomes of the two items. */
    method AcceptTrade(p: Player, swapped: bool) returns (isSuccess: bool, answer: Answer)
      requires Valid() && p in players
      modifies this, players
      ensures Valid() <==> old(p.tradeState) != ACKNOWLEDGE
      ensures SamePlayers(old(State())) && (old(p.tradePartner) != null ==> old(p.tradePartner) in players)
      ensures (answer, State()) == Accept(old(State()), p)
      ensures answer == NullDereference ==> old(p.tradeState) == ACKNOWLEDGE
      ensures isSuccess <==> answer == Closed && swapped
    {
      hide *;
      StateIs();
      PlayerIs(p);
      ghost var st := State();
      PlayerOk(st, p);
      AcceptMeans(st, p);
      AcceptIs(st, p);
      PartnerKnown(st, p);
      if p.tradeState != ACKNOWLEDGE && p.tradeState != INITIATED {
        return false, Refused;
      }
      var tradePartner := p.tradePartner;
      if tradePartner != null {
        PlayerIs(tradePartner);
      }
      SetState(p, ACCEPT);
      StateIs();
      PlayerIs(p);
      isSuccess, answer := false, Waiting;
      if tradePartner != null && tradePartner.tradeState == ACCEPT {
        if p.tradeItem == null || tradePartner.tradeItem == null {
          return false, NullDereference;
        }
        answer := Closed;
        isSuccess := swapped;
        FinishedIs(State(), p, tradePartner);
        TakeOff(p.tradeItem);
        TakeOff(tradePartner.tradeItem);
        Leave(p);
        Leave(tradePartner);
      }
      StateIs();
    }

    /** The trade fields of a player are cleared. */
    method Leave(p: Player)
      requires p in players
      modifies p
      ensures SamePlayers(old(State())) && State() == Reset(old(State()), p)
    {
      hide *;
      StateIs();
      PlayerIs(p);
      ResetIs(State(), p);
      SetState(p, NONE);
      SetItem(p, null);
      SetPartner(p, null);
      StateIs();
      ResetWhole(old(State()), p, State());
    }

    /** `playerCloseTrade` */
    method CloseTrade(p: Player)
      requires Valid() && p in players
      modifies this, players
      ensures Valid()
      ensures SamePlayers(old(State())) && (old(p.tradePartner) != null ==> old(p.tradePartner) in players)
      ensures State() == Close(old(State()), p)
    {
      hide *;
      StateIs();
      PlayerIs(p);
      ghost var st := State();
      PlayerOk(st, p);
      CloseClears(st, p);
      CloseIs(st, p);
      PartnerKnown(st, p);
      var tradePartner := p.tradePartner;
      if tradePartner != null {
        PlayerIs(tradePartner);
      }
      if (tradePartner != null && tradePartner.tradeState == TRANSFER) || p.tradeState == TRANSFER {
        return;
      }
      TakeOff(p.tradeItem);
      Leave(p);
      if tradePartner != null {
        PlayerIs(tradePartner);
        TakeOff(tradePartner.tradeItem);
        Leave(tradePartner);
      }
      StateIs();
    }
  }

  /** One is the other, or inside it. */
  ghost predicate Related(st: State, it: Thing, x: Thing) {
    it == x || (it in st.above.Keys && x in st.above[it]) || (x in st.above.Keys && it in st.above[x])
  }

  lemma IsDrop(st: Trading, x: Thing?)
    ensures Drop(st, x) == if x != null && x in st.tradeItems
                           then Trading(st.mode, st.partner, st.item, st.tradeItems - {x}, st.held - multiset{x})
                           else st
  {
  }

  lemma RelatedSelf(st: State, x: Thing)
    ensures Related(st, x, x)
  {
  }

  lemma RelatedIs(st: State, it: Thing, x: Thing)
    requires SameKeys(st) && it in st.All() && x in st.All()
    ensures Related(st, it, x) <==> it == x || x in st.above[it] || it in st.above[x]
  {
  }

  lemma StartIs(st: Trading, p: Player, q: Player, x: Thing)
    requires SamePlayers(st) && p in st.Players() && q in st.Players() && p != q
    ensures CanStart(st, p, q)
            <==> (st.mode[p] == NONE || (st.mode[p] == ACKNOWLEDGE && st.partner[p] == q))
                 && (st.mode[q] == NONE || st.partner[q] == p)
    ensures Start(st, p, q, x) == if CanStart(st, p, q) then Asked(Offered(st, p, q, x), q, p) else st
  {
  }

  lemma IsOffered(st: Trading, p: Player, q: Player, x: Thing, end: Trading)
    requires SamePlayers(st) && p in st.Players()
    requires end.mode == st.mode[p := INITIATED] && end.partner == st.partner[p := q] && end.item == st.item[p := x]
    requires end.tradeItems == st.tradeItems[x := p.id] && end.held == st.held + multiset{x}
    ensures end == Offered(st, p, q, x)
  {
  }

  lemma IsAsked(st: Trading, q: Player, p: Player, end: Trading)
    requires SamePlayers(st) && q in st.Players()
    requires end.item == st.item && end.tradeItems == st.tradeItems && end.held == st.held
    requires st.mode[q] == NONE ==> end.mode == st.mode[q := ACKNOWLEDGE] && end.partner == st.partner[q := p]
    requires st.mode[q] != NONE ==> end.mode == st.mode && end.partner == st.partner
    ensures end == Asked(st, q, p)
  {
  }

  lemma PartnerKnown(st: Trading, p: Player)
    requires SamePlayers(st) && p in st.Players() && PartnerOk(st, p)
    ensures st.partner[p] != null ==> st.partner[p] in st.Players() && st.partner[p] != p
  {
  }

  lemma AcceptIs(st: Trading, p: Player)
    requires SamePlayers(st) && p in st.Players() && PartnerOk(st, p)
    ensures var q, st1 := st.partner[p], st.(mode := st.mode[p := ACCEPT]);
            Accept(st, p)
            == if st.mode[p] != ACKNOWLEDGE && st.mode[p] != INITIATED then (Refused, st)
               else if q == null || st.mode[q] != ACCEPT then (Waiting, st1)
               else if st.item[p] == null || st.item[q] == null then (NullDereference, st1)
               else (Closed, Finished(st1, p, q))
  {
    hide Finished;
  }

  lemma FinishedIs(st: Trading, p: Player, q: Player)
    requires SamePlayers(st) && p in st.Players() && q in st.Players()
    ensures Finished(st, p, q) == Reset(Reset(Drop(Drop(st, st.item[p]), st.item[q]), p), q)
  {
  }

  lemma ResetWhole(st: Trading, p: Player, end: Trading)
    requires SamePlayers(st) && p in st.Players()
    requires end == Trading(st.mode[p := NONE], st.partner[p := null], st.item[p := null], st.tradeItems, st.held)
    ensures end == Reset(st, p)
  {
  }

  lemma CloseIs(st: Trading, p: Player)
    requires SamePlayers(st) && p in st.Players() && PartnerOk(st, p)
    ensures var q := st.partner[p];
            var st1 := Reset(Drop(st, st.item[p]), p);
            Close(st, p)
            == if st.mode[p] == TRANSFER || (q != null && st.mode[q] == TRANSFER) then st
               else if q == null then st1 else Reset(Drop(st1, st1.item[q]), q)
  {
    hide Drop, Reset;
  }
}
