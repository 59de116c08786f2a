/** What every run of the game strand keeps, and exactly when the sharper agreements hold. */
module WorldRuns {
  import opened Wrappers
  import opened Geometry
  import opened ZoneIndex
  import opened World

  // ---- The invariant, task by task ----

  lemma BotsAdd(accs: set<string>, acc: string)
    requires acc !in accs
    ensures |Bots(accs + {acc})| == |Bots(accs)| + (if IsBot(acc) then 1 else 0)
  {
    if IsBot(acc) {
      assert Bots(accs + {acc}) == Bots(accs) + {acc};
    } else {
      assert Bots(accs + {acc}) == Bots(accs);
    }
  }

  lemma BotsSplit(all: set<string>, gone: set<string>)
    requires gone <= all
    ensures |Bots(all - gone)| == |Bots(all)| - |Bots(gone)|
  {
    assert Bots(all) == Bots(all - gone) + Bots(gone);
  }

  lemma InverseAdd(players: map<string, PlayerInfo>, uidToAccount: map<nat, string>, acc: string, p: PlayerInfo)
    requires Inverse(players, uidToAccount) && acc !in players && p.uid !in uidToAccount
    ensures Inverse(players[acc := p], uidToAccount[p.uid := acc])
  {
  }

  lemma InverseUpdate(players: map<string, PlayerInfo>, uidToAccount: map<nat, string>, acc: string, p: PlayerInfo)
    requires Inverse(players, uidToAccount) && acc in players && p.uid == players[acc].uid
    ensures Inverse(players[acc := p], uidToAccount)
  {
  }

  lemma InverseRemove(players: map<string, PlayerInfo>, uidToAccount: map<nat, string>, accs: set<string>)
    requires Inverse(players, uidToAccount) && accs <= players.Keys
    ensures Inverse(players - accs, uidToAccount - Uids(players, accs))
  {
  }

  lemma IssuedShift(uidToAccount: map<nat, string>, placed: set<Placement>, counter: nat, uid: nat,
                    from: Option<Cell>, to: Option<Cell>)
    requires Issued(uidToAccount, placed, counter) && uid in uidToAccount
    ensures Issued(uidToAccount, Shift(placed, uid, from, to), counter)
  {
  }

  lemma CompleteAdd(layout: Layout, players: map<string, PlayerInfo>, placed: set<Placement>, acc: string,
                    p: PlayerInfo)
    requires layout.Positive() && Complete(layout, players, placed)
    ensures Complete(layout, players[acc := p], Enter(placed, p.uid, CellOfPlayer(layout, p)))
  {
  }

  /** Moving one player leaves the placements of the others alone. */
  lemma CompleteUpdate(layout: Layout, players: map<string, PlayerInfo>, uidToAccount: map<nat, string>,
                       placed: set<Placement>,
                       acc: string, p: PlayerInfo)
    requires layout.Positive() && Inverse(players, uidToAccount) && Complete(layout, players, placed)
    requires acc in players && p.uid == players[acc].uid
    ensures Complete(layout, players[acc := p],
              Shift(placed, p.uid, CellOfPlayer(layout, players[acc]), CellOfPlayer(layout, p)))
  {
    var placed' := Shift(placed, p.uid, CellOfPlayer(layout, players[acc]), CellOfPlayer(layout, p));
    forall a | a in players && a != acc && CellOfPlayer(layout, players[a]).Some?
      ensures (players[a].uid, CellOfPlayer(layout, players[a]).value) in placed'
    {
      assert uidToAccount[players[a].uid] == a && uidToAccount[players[acc].uid] == acc;
    }
  }

  lemma CompleteRemove(layout: Layout, players: map<string, PlayerInfo>, uidToAccount: map<nat, string>,
                       placed: set<Placement>,
                       accs: set<string>)
    requires layout.Positive() && Inverse(players, uidToAccount) && Complete(layout, players, placed)
    requires accs <= players.Keys
    ensures Complete(layout, players - accs, placed - Placements(layout, players, accs))
  {
    forall a | a in players && a !in accs && CellOfPlayer(layout, players[a]).Some?
      ensures (players[a].uid, CellOfPlayer(layout, players[a]).value) !in Placements(layout, players, accs)
    {
      forall b | b in accs ensures players[b].uid != players[a].uid {
        assert uidToAccount[players[a].uid] == a && uidToAccount[players[b].uid] == b;
      }
    }
  }

  lemma CoveredRegister(online: set<string>, gateways: map<Gateway, set<string>>, gw: Gateway, acc: string)
    requires Covered(online, gateways)
    ensures Covered(online + {acc}, Register(gateways, gw, acc))
  {
    var after := Register(gateways, gw, acc);
    forall a | a in online + {acc} ensures InSomeSet(after, a) {
      if a == acc {
        assert gw in after && a in after[gw];
      } else {
        var g :| g in gateways && a in gateways[g];
        assert g in after && a in after[g];
      }
    }
  }

  lemma CoveredUnregister(online: set<string>, gateways: map<Gateway, set<string>>, gw: Gateway, acc: string)
    requires Covered(online, gateways)
    ensures Covered(online - {acc}, Unregister(gateways, gw, acc))
  {
    var after := Unregister(gateways, gw, acc);
    forall a | a in online - {acc} ensures InSomeSet(after, a) {
      var g :| g in gateways && a in gateways[g];
      assert g in after && a in after[g];
    }
  }

  lemma CoveredCleanup(online: set<string>, gateways: map<Gateway, set<string>>, gw: Gateway)
    requires Covered(online, gateways)
    ensures Covered(online - Members(gateways, gw) * online, gateways - {gw})
  {
    var after := gateways - {gw};
    forall a | a in online - Members(gateways, gw) * online ensures InSomeSet(after, a) {
      var g :| g in gateways && a in gateways[g];
      assert g in after && a in after[g];
    }
  }

  lemma MirroredWrite(players: map<string, PlayerInfo>, redis: map<string, int>, acc: string, p: PlayerInfo)
    requires Mirrored(players, redis) && 1 <= p.hp <= DEFAULT_HP
    ensures Mirrored(players[acc := p], redis[acc := p.hp])
  {
  }

  lemma IssuedAdd(uidToAccount: map<nat, string>, placed: set<Placement>, counter: nat, acc: string, cell: Option<Cell>)
    requires Issued(uidToAccount, placed, counter)
    ensures Issued(uidToAccount[counter := acc], Enter(placed, counter, cell), counter + 1)
    ensures counter !in uidToAccount && forall c :: (counter, c) !in placed
  {
    forall c ensures (counter, c) !in placed {
      var p: Placement := (counter, c);
      assert p in placed ==> p.0 < counter;
    }
  }

  lemma AdmitKeepsMaps(layout: Layout, w: State, gw: Gateway, acc: string, x: real, y: real)
    requires layout.Positive() && acc !in w.players
    requires Inverse(w.players, w.uidToAccount) && Issued(w.uidToAccount, w.placed, w.uidCounter)
    requires Complete(layout, w.players, w.placed)
    ensures var v := Admit(layout, w, gw, acc, x, y);
            && Inverse(v.players, v.uidToAccount) && Issued(v.uidToAccount, v.placed, v.uidCounter)
            && Complete(layout, v.players, v.placed)
  {
    var p := PlayerInfo(w.uidCounter, x, y, DEFAULT_HP, DEFAULT_ATK, DEFAULT_DEF);
    IssuedAdd(w.uidToAccount, w.placed, w.uidCounter, acc, layout.CellOf(x, y));
    InverseAdd(w.players, w.uidToAccount, acc, p);
    CompleteAdd(layout, w.players, w.placed, acc, p);
  }

  lemma AdmitKeepsMirrors(layout: Layout, w: State, gw: Gateway, acc: string, x: real, y: real)
    requires layout.Positive() && acc !in w.players
    requires Mirrored(w.players, w.redis) && w.bots == |Bots(w.players.Keys)| && Covered(w.players.Keys, w.gateways)
    ensures var v := Admit(layout, w, gw, acc, x, y);
            Mirrored(v.players, v.redis) && v.bots == |Bots(v.players.Keys)| && Covered(v.players.Keys, v.gateways)
  {
    var p := PlayerInfo(w.uidCounter, x, y, DEFAULT_HP, DEFAULT_ATK, DEFAULT_DEF);
    assert w.players[acc := p].Keys == w.players.Keys + {acc};
    MirroredWrite(w.players, w.redis, acc, p);
    BotsAdd(w.players.Keys, acc);
    CoveredRegister(w.players.Keys, w.gateways, gw, acc);
  }

  lemma AdmitKeepsInv(layout: Layout, w: State, gw: Gateway, acc: string, x: real, y: real)
    requires layout.Positive() && Inv(layout, w) && acc !in w.players
    requires 0.0 <= x <= layout.width as real && 0.0 <= y <= layout.height as real
    ensures Inv(layout, Admit(layout, w, gw, acc, x, y))
  {
    AdmitKeepsMaps(layout, w, gw, acc, x, y);
    AdmitKeepsMirrors(layout, w, gw, acc, x, y);
    assert Bounded(layout, Admit(layout, w, gw, acc, x, y).players);
  }

  lemma RelocateKeepsInv(layout: Layout, w: State, acc: string, x: real, y: real)
    requires layout.Positive() && Inv(layout, w) && acc in w.players
    requires 0.0 <= x <= layout.width as real && 0.0 <= y <= layout.height as real
    ensures Inv(layout, Relocate(layout, w, acc, x, y))
  {
    var p := w.players[acc].(x := x, y := y);
    assert w.players[acc := p].Keys == w.players.Keys;
    InverseUpdate(w.players, w.uidToAccount, acc, p);
    CompleteUpdate(layout, w.players, w.uidToAccount, w.placed, acc, p);
    IssuedShift(w.uidToAccount, w.placed, w.uidCounter, p.uid,
                CellOfPlayer(layout, w.players[acc]), layout.CellOf(x, y));
  }

  lemma EvictKeepsRest(layout: Layout, w: State, accs: set<string>, gateways: map<Gateway, set<string>>)
    requires layout.Positive() && Inv(layout, w) && accs <= w.players.Keys
    requires Covered(w.players.Keys - accs, gateways)
    ensures Inv(layout, Evict(layout, w, accs).(gateways := gateways))
  {
    assert (w.players - accs).Keys == w.players.Keys - accs;
    InverseRemove(w.players, w.uidToAccount, accs);
    CompleteRemove(layout, w.players, w.uidToAccount, w.placed, accs);
    BotsSplit(w.players.Keys, accs);
  }

  lemma DepartKeepsInv(layout: Layout, w: State, gw: Gateway, acc: string)
    requires layout.Positive() && Inv(layout, w)
    ensures Inv(layout, Depart(layout, w, gw, acc))
  {
    if acc in w.players {
      CoveredUnregister(w.players.Keys, w.gateways, gw, acc);
      EvictKeepsRest(layout, w, {acc}, Unregister(w.gateways, gw, acc));
    }
  }

  lemma CleanupKeepsInv(layout: Layout, w: State, gw: Gateway)
    requires layout.Positive() && Inv(layout, w)
    ensures Inv(layout, Cleanup(layout, w, gw))
  {
    CoveredCleanup(w.players.Keys, w.gateways, gw);
    EvictKeepsRest(layout, w, Members(w.gateways, gw) * w.players.Keys, w.gateways - {gw});
  }

  /** A new value for an online player: HP mirrored, position told to the zone. */
  function Rewrite(layout: Layout, w: State, acc: string, p: PlayerInfo): State
    requires layout.Positive() && acc in w.players
  {
    w.(players := w.players[acc := p], redis := w.redis[acc := p.hp],
       placed := Shift(w.placed, p.uid, CellOfPlayer(layout, w.players[acc]), CellOfPlayer(layout, p)))
  }

  lemma RewriteKeepsInv(layout: Layout, w: State, acc: string, p: PlayerInfo)
    requires layout.Positive() && Inv(layout, w) && acc in w.players
    requires p.uid == w.players[acc].uid && 1 <= p.hp <= DEFAULT_HP
    requires 0.0 <= p.x <= layout.width as real && 0.0 <= p.y <= layout.height as real
    ensures Inv(layout, Rewrite(layout, w, acc, p))
  {
    assert w.players[acc := p].Keys == w.players.Keys;
    InverseUpdate(w.players, w.uidToAccount, acc, p);
    CompleteUpdate(layout, w.players, w.uidToAccount, w.placed, acc, p);
    MirroredWrite(w.players, w.redis, acc, p);
    IssuedShift(w.uidToAccount, w.placed, w.uidCounter, p.uid,
                CellOfPlayer(layout, w.players[acc]), CellOfPlayer(layout, p));
  }

  lemma StrikeRewrites(layout: Layout, w: State, uid: nat, damage: nat)
    requires layout.Positive() && uid in w.uidToAccount && w.uidToAccount[uid] in w.players
    requires w.players[w.uidToAccount[uid]].uid == uid
    ensures var acc := w.uidToAccount[uid];
            Strike(layout, w, uid, damage) == Rewrite(layout, w, acc, Strike(layout, w, uid, damage).players[acc])
  {
  }

  lemma StrikeKeepsInv(layout: Layout, w: State, uid: nat, damage: nat)
    requires layout.Positive() && Inv(layout, w)
    ensures Inv(layout, Strike(layout, w, uid, damage))
  {
    if uid in w.uidToAccount {
      StrikeRewrites(layout, w, uid, damage);
      RewriteKeepsInv(layout, w, w.uidToAccount[uid], Strike(layout, w, uid, damage).players[w.uidToAccount[uid]]);
    }
  }

  lemma StepKeepsInv(layout: Layout, w: State, e: Event)
    requires layout.Positive() && Inv(layout, w)
    ensures Inv(layout, Step(layout, w, e))
  {
    match e
    case Move(gw, acc, rawX, rawY) =>
      var x, y := ClampAxis(rawX, layout.width), ClampAxis(rawY, layout.height);
      if acc !in w.players {
        AdmitKeepsInv(layout, w, gw, acc, x, y);
        RelocateKeepsInv(layout, Admit(layout, w, gw, acc, x, y), acc, x, y);
      } else {
        RelocateKeepsInv(layout, w, acc, x, y);
      }
    case Leave(gw, acc) => DepartKeepsInv(layout, w, gw, acc);
    case Down(gw) => CleanupKeepsInv(layout, w, gw);
    case Hit(uid, damage) => StrikeKeepsInv(layout, w, uid, damage);
  }

  /** Boundary moves, foreign leaves and repeated cleanups included. */
  lemma {:induction false} EveryRunKeepsInv(layout: Layout, events: seq<Event>)
    requires layout.Positive()
    ensures Inv(layout, Run(layout, Empty, events))
    decreases |events|
  {
    if events != [] {
      var init := events[..|events| - 1];
      EveryRunKeepsInv(layout, init);
      StepKeepsInv(layout, Run(layout, Empty, init), events[|events| - 1]);
    }
  }

  // ---- Uids are never issued twice ----

  /** The counter never falls; a newly online account gets the current counter, a uid that
      nothing in the state refers to yet; an account that stays online keeps its uid. */
  lemma StepIssuesFreshUids(layout: Layout, w: State, e: Event, acc: string)
    requires layout.Positive() && Inv(layout, w)
    requires acc in Step(layout, w, e).players
    ensures w.uidCounter <= Step(layout, w, e).uidCounter
    ensures acc in w.players ==> Step(layout, w, e).players[acc].uid == w.players[acc].uid
    ensures acc !in w.players ==>
              && Step(layout, w, e).players[acc].uid == w.uidCounter < Step(layout, w, e).uidCounter
              && w.uidCounter !in w.uidToAccount && forall c :: (w.uidCounter, c) !in w.placed
  {
    if acc !in w.players {
      IssuedAdd(w.uidToAccount, w.placed, w.uidCounter, acc, None);
    }
  }

  // ---- Index agreement: exactly which moves break it ----

  /** The move takes an online player from inside the map onto its far edge
      (x == width or y == height after clamping), where the zone has no sector. */
  predicate LeavesGrid(layout: Layout, w: State, acc: string, rawX: real, rawY: real)
    requires layout.Positive()
  {
    && acc in w.players && CellOfPlayer(layout, w.players[acc]).Some?
    && !layout.InMap(ClampAxis(rawX, layout.width), ClampAxis(rawY, layout.height))
  }

  /** Other players' genuine placements survive a change of one player. */
  lemma GenuineOfOthers(layout: Layout, players: map<string, PlayerInfo>, uidToAccount: map<nat, string>,
                        acc: string, p: PlayerInfo, q: Placement)
    requires layout.Positive() && Inverse(players, uidToAccount)
    requires acc in players && p.uid == players[acc].uid && q.0 != p.uid
    requires Genuine(layout, players, uidToAccount, q)
    ensures Genuine(layout, players[acc := p], uidToAccount, q)
  {
    assert players[uidToAccount[q.0]].uid == q.0;
  }

  lemma RelocateExact(layout: Layout, w: State, acc: string, p: PlayerInfo)
    requires layout.Positive() && Inverse(w.players, w.uidToAccount)
    requires Complete(layout, w.players, w.placed) && Exact(layout, w)
    requires acc in w.players && p.uid == w.players[acc].uid
    ensures
      var from, to := CellOfPlayer(layout, w.players[acc]), CellOfPlayer(layout, p);
      !(from.Some? && to.None?) <==>
      Exact(layout, w.(players := w.players[acc := p], placed := Shift(w.placed, p.uid, from, to)))
  {
    var from, to := CellOfPlayer(layout, w.players[acc]), CellOfPlayer(layout, p);
    var placed := Shift(w.placed, p.uid, from, to);
    if from.Some? && to.None? {
      var stale: Placement := (p.uid, from.value);
      assert stale in placed && !Genuine(layout, w.players[acc := p], w.uidToAccount, stale);
    } else {
      forall q | q in placed ensures Genuine(layout, w.players[acc := p], w.uidToAccount, q) {
        if q.0 != p.uid {
          GenuineOfOthers(layout, w.players, w.uidToAccount, acc, p, q);
        } else if q in w.placed {
          assert Genuine(layout, w.players, w.uidToAccount, q);
        }
      }
    }
  }

  lemma AdmitExact(layout: Layout, w: State, gw: Gateway, acc: string, x: real, y: real)
    requires layout.Positive() && Inv(layout, w) && Exact(layout, w) && acc !in w.players
    ensures Exact(layout, Admit(layout, w, gw, acc, x, y))
  {
    var v := Admit(layout, w, gw, acc, x, y);
    forall q | q in v.placed ensures Genuine(layout, v.players, v.uidToAccount, q) {
      if q in w.placed {
        assert q.0 < w.uidCounter;
        GenuineAfterAdmit(layout, w.players, w.uidToAccount, w.uidCounter, acc, v.players[acc], q);
      }
    }
  }

  lemma GenuineAfterAdmit(layout: Layout, players: map<string, PlayerInfo>, uidToAccount: map<nat, string>,
                          uid: nat, acc: string, p: PlayerInfo, q: Placement)
    requires layout.Positive() && acc !in players && q.0 != uid
    requires Genuine(layout, players, uidToAccount, q)
    ensures Genuine(layout, players[acc := p], uidToAccount[uid := acc], q)
  {
  }

  /** A move keeps the sectors exact if and only if it does not leave the grid. */
  lemma MoveKeepsExactIff(layout: Layout, w: State, gw: Gateway, acc: string, rawX: real, rawY: real)
    requires layout.Positive() && Inv(layout, w) && Exact(layout, w)
    ensures Exact(layout, MoveTo(layout, w, gw, acc, rawX, rawY)) <==> !LeavesGrid(layout, w, acc, rawX, rawY)
  {
    var x, y := ClampAxis(rawX, layout.width), ClampAxis(rawY, layout.height);
    if acc in w.players {
      RelocateExact(layout, w, acc, w.players[acc].(x := x, y := y));
    } else {
      AdmitExact(layout, w, gw, acc, x, y);
      AdmitKeepsInv(layout, w, gw, acc, x, y);
      var v := Admit(layout, w, gw, acc, x, y);
      RelocateExact(layout, v, acc, v.players[acc].(x := x, y := y));
    }
  }

  lemma EvictKeepsExact(layout: Layout, w: State, accs: set<string>)
    requires layout.Positive() && Inv(layout, w) && Exact(layout, w) && accs <= w.players.Keys
    ensures Exact(layout, Evict(layout, w, accs))
  {
    var v := Evict(layout, w, accs);
    forall q | q in v.placed ensures Genuine(layout, v.players, v.uidToAccount, q) {
      assert Genuine(layout, w.players, w.uidToAccount, q);
      EvictedPlacement(layout, w, accs, q);
    }
  }

  lemma EvictedPlacement(layout: Layout, w: State, accs: set<string>, q: Placement)
    requires layout.Positive() && Inverse(w.players, w.uidToAccount) && accs <= w.players.Keys
    requires Genuine(layout, w.players, w.uidToAccount, q) && q !in Placements(layout, w.players, accs)
    ensures w.uidToAccount[q.0] !in accs && q.0 !in Uids(w.players, accs)
  {
    var a := w.uidToAccount[q.0];
    assert w.players[a].uid == q.0;
    assert forall b :: b in accs && CellOfPlayer(layout, w.players[b]).Some? ==>
      (w.players[b].uid, CellOfPlayer(layout, w.players[b]).value) in Placements(layout, w.players, accs);
  }

  lemma StrikeKeepsExact(layout: Layout, w: State, uid: nat, damage: nat)
    requires layout.Positive() && Inv(layout, w) && Exact(layout, w)
    ensures Exact(layout, Strike(layout, w, uid, damage))
  {
    if uid in w.uidToAccount {
      var acc := w.uidToAccount[uid];
      CellInGrid(layout, SPAWN_X, SPAWN_Y);
      var v := Strike(layout, w, uid, damage);
      var p := v.players[acc];
      RelocateExact(layout, w, acc, p);
      assert v.placed == Shift(w.placed, uid, CellOfPlayer(layout, w.players[acc]), CellOfPlayer(layout, p));
    }
  }

  predicate StaysInside(layout: Layout, e: Event) {
    e.Move? ==> e.x < layout.width as real && e.y < layout.height as real
  }

  ghost predicate AllInside(layout: Layout, players: map<string, PlayerInfo>)
    requires layout.Positive()
  {
    forall a :: a in players ==> CellOfPlayer(layout, players[a]).Some?
  }

  lemma InsideStep(layout: Layout, w: State, e: Event)
    requires layout.Positive() && StaysInside(layout, e) && AllInside(layout, w.players)
    ensures AllInside(layout, Step(layout, w, e).players)
    ensures e.Move? ==> !LeavesGrid(layout, w, e.acc, e.x, e.y)
  {
    CellInGrid(layout, SPAWN_X, SPAWN_Y);
  }

  lemma OtherTasksKeepExact(layout: Layout, w: State, e: Event)
    requires layout.Positive() && Inv(layout, w) && Exact(layout, w) && !e.Move?
    ensures Exact(layout, Step(layout, w, e))
  {
    match e
    case Leave(gw, acc) => if acc in w.players { EvictKeepsExact(layout, w, {acc}); }
    case Down(gw) => EvictKeepsExact(layout, w, Members(w.gateways, gw) * w.players.Keys);
    case Hit(uid, damage) => StrikeKeepsExact(layout, w, uid, damage);
  }

  /** On runs whose requested positions stay short of the far edges the sectors are exact
      and every online player is inside the map. */
  lemma {:induction false} InsideRunsAreExact(layout: Layout, events: seq<Event>)
    requires layout.Positive()
    requires forall i :: 0 <= i < |events| ==> StaysInside(layout, events[i])
    ensures Exact(layout, Run(layout, Empty, events)) && AllInside(layout, Run(layout, Empty, events).players)
    decreases |events|
  {
    if events != [] {
      var init, e := events[..|events| - 1], events[|events| - 1];
      InsideRunsAreExact(layout, init);
      EveryRunKeepsInv(layout, init);
      var w := Run(layout, Empty, init);
      InsideStep(layout, w, e);
      if e.Move? {
        MoveKeepsExactIff(layout, w, e.gw, e.acc, e.x, e.y);
      } else {
        OtherTasksKeepExact(layout, w, e);
      }
    }
  }

  /** The i-th task is no move onto the far edge of an online player inside the map. */
  ghost predicate StaysOnGrid(layout: Layout, events: seq<Event>, i: nat)
    requires layout.Positive() && i < |events|
  {
    var e := events[i];
    e.Move? ==> !LeavesGrid(layout, Run(layout, Empty, events[..i]), e.acc, e.x, e.y)
  }

  ghost predicate ExactAfter(layout: Layout, events: seq<Event>, k: nat)
    requires layout.Positive() && k <= |events|
  {
    Exact(layout, Run(layout, Empty, events[..k]))
  }

  lemma TaskKeepsExactIff(layout: Layout, events: seq<Event>, i: nat)
    requires layout.Positive() && i < |events| && ExactAfter(layout, events, i)
    ensures ExactAfter(layout, events, i + 1) <==> StaysOnGrid(layout, events, i)
  {
    var w, e := Run(layout, Empty, events[..i]), events[i];
    assert events[..i + 1][..i] == events[..i];
    EveryRunKeepsInv(layout, events[..i]);
    if e.Move? {
      MoveKeepsExactIff(layout, w, e.gw, e.acc, e.x, e.y);
    } else {
      OtherTasksKeepExact(layout, w, e);
    }
  }

  lemma {:induction false} OnGridKeepsExact(layout: Layout, events: seq<Event>, k: nat)
    requires layout.Positive() && k <= |events|
    requires forall i :: 0 <= i < k ==> StaysOnGrid(layout, events, i)
    ensures ExactAfter(layout, events, k)
  {
    if k > 0 {
      OnGridKeepsExact(layout, events, k - 1);
      TaskKeepsExactIff(layout, events, k - 1);
    }
  }

  /** Whole runs: the sectors are exact after every task if and only if no move takes an online
      player from inside the map onto its far edge. */
  lemma RunIsExactIff(layout: Layout, events: seq<Event>)
    requires layout.Positive()
    ensures (forall k :: 0 <= k <= |events| ==> ExactAfter(layout, events, k))
       <==> (forall i :: 0 <= i < |events| ==> StaysOnGrid(layout, events, i))
  {
    if forall i :: 0 <= i < |events| ==> StaysOnGrid(layout, events, i) {
      forall k | 0 <= k <= |events| ensures ExactAfter(layout, events, k) {
        OnGridKeepsExact(layout, events, k);
      }
    }
    if forall k :: 0 <= k <= |events| ==> ExactAfter(layout, events, k) {
      forall i | 0 <= i < |events| ensures StaysOnGrid(layout, events, i) {
        assert ExactAfter(layout, events, i) && ExactAfter(layout, events, i + 1);
        TaskKeepsExactIff(layout, events, i);
      }
    }
  }

  /** The run that shows the limit is real: one step onto the far edge and back elsewhere
      leaves the player in two sectors. */
  lemma EdgeMoveDuplicates()
    ensures var layout := Layout(1000, 1000, 50);
            var moves := [Move(7, "a", 10.0, 10.0), Move(7, "a", 1000.0, 10.0), Move(7, "a", 60.0, 10.0)];
            var w := Run(layout, Empty, moves);
            (1, Cell(0, 0)) in w.placed && (1, Cell(0, 1)) in w.placed && Near(Cell(0, 0), Cell(0, 1))
  {
    var layout := Layout(1000, 1000, 50);
    var e1, e2, e3 := Move(7, "a", 10.0, 10.0), Move(7, "a", 1000.0, 10.0), Move(7, "a", 60.0, 10.0);
    var w1 := Run(layout, Empty, [e1]);
    assert [e1][..0] == [] && [e1, e2][..1] == [e1] && [e1, e2, e3][..2] == [e1, e2];
    assert w1 == Step(layout, Run(layout, Empty, []), e1) == Step(layout, Empty, e1);
    assert (10.0 / 50.0).Floor == 0 && (60.0 / 50.0).Floor == 1;
    assert layout.CellOf(10.0, 10.0) == Some(Cell(0, 0)) && layout.CellOf(60.0, 10.0) == Some(Cell(0, 1));
    assert w1.players["a"].uid == 1 && (1, Cell(0, 0)) in w1.placed;
    var w2 := Run(layout, Empty, [e1, e2]);
    assert w2 == Step(layout, w1, e2);
    assert layout.CellOf(1000.0, 10.0) == None;
    assert (1, Cell(0, 0)) in w2.placed && w2.players["a"].x == 1000.0;
    var w3 := Run(layout, Empty, [e1, e2, e3]);
    assert w3 == Step(layout, w2, e3);
  }

  // ---- The area of interest against a plain scan ----

  /** The plain scan: online accounts whose cell is in the block. */
  ghost function Scan(layout: Layout, w: State, center: Cell): set<string>
    requires layout.Positive()
  {
    set a | a in w.players && CellOfPlayer(layout, w.players[a]).Some? &&
            Near(CellOfPlayer(layout, w.players[a]).value, center)
  }

  lemma AoiMember(aoi: seq<nat>, placed: set<Placement>, center: Cell, id: nat)
    requires IsAOI(aoi, placed, center)
    ensures id in aoi <==> exists c :: (id, c) in placed && Near(c, center)
  {
    var cells := CellsHolding(placed, id, center);
    assert id in aoi <==> id in multiset(aoi);
    assert id in multiset(aoi) <==> multiset(aoi)[id] != 0;
    if c :| (id, c) in placed && Near(c, center) {
      assert (id, c).0 == id && (id, c).1 == c;
      assert c in cells;
    }
    if cells != {} {
      var c :| c in cells;
      assert (id, c) in placed && Near(c, center);
    }
  }

  /** On every run, no in-map player of the block is missed. */
  lemma AoiComplete(layout: Layout, w: State, x: real, y: real, aoi: seq<nat>, acc: string)
    requires layout.Positive() && Inv(layout, w) && layout.InMap(x, y)
    requires IsAOI(aoi, w.placed, layout.CellOf(x, y).value)
    requires acc in w.players && layout.InMap(w.players[acc].x, w.players[acc].y)
    ensures acc in Scan(layout, w, layout.CellOf(x, y).value) ==> w.players[acc].uid in aoi
    ensures Within(w.players[acc].x, w.players[acc].y, x, y, layout.sectorSize as real) ==> w.players[acc].uid in aoi
  {
    var center := layout.CellOf(x, y).value;
    BlockBounds(layout, w.players[acc].x, w.players[acc].y, x, y);
    AoiMember(aoi, w.placed, center, w.players[acc].uid);
  }

  /** When the sectors are exact, the query returns each online player of the block exactly
      once and nothing else, all closer than two sector sizes on both axes. */
  lemma AoiRefinesScan(layout: Layout, w: State, x: real, y: real, aoi: seq<nat>)
    requires layout.Positive() && Inv(layout, w) && Exact(layout, w) && layout.InMap(x, y)
    requires IsAOI(aoi, w.placed, layout.CellOf(x, y).value)
    ensures forall id: nat :: multiset(aoi)[id] ==
              if id in Uids(w.players, Scan(layout, w, layout.CellOf(x, y).value)) then 1 else 0
    ensures forall a :: a in w.players && w.players[a].uid in aoi ==>
              && Abs(w.players[a].x - x) < 2.0 * layout.sectorSize as real
              && Abs(w.players[a].y - y) < 2.0 * layout.sectorSize as real
  {
    var center := layout.CellOf(x, y).value;
    forall id: nat ensures multiset(aoi)[id] == if id in Uids(w.players, Scan(layout, w, center)) then 1 else 0 {
      HeldOnce(layout, w, center, id);
    }
    forall a | a in w.players && w.players[a].uid in aoi
      ensures Abs(w.players[a].x - x) < 2.0 * layout.sectorSize as real
      ensures Abs(w.players[a].y - y) < 2.0 * layout.sectorSize as real
    {
      AoiMember(aoi, w.placed, center, w.players[a].uid);
      var c :| (w.players[a].uid, c) in w.placed && Near(c, center);
      assert Genuine(layout, w.players, w.uidToAccount, (w.players[a].uid, c));
      BlockBounds(layout, w.players[a].x, w.players[a].y, x, y);
    }
  }

  lemma HeldOnce(layout: Layout, w: State, center: Cell, id: nat)
    requires layout.Positive() && Inverse(w.players, w.uidToAccount)
    requires Complete(layout, w.players, w.placed) && Exact(layout, w)
    ensures |CellsHolding(w.placed, id, center)| == if id in Uids(w.players, Scan(layout, w, center)) then 1 else 0
  {
    var cells := CellsHolding(w.placed, id, center);
    forall c | c in cells
      ensures id in w.uidToAccount && w.uidToAccount[id] in Scan(layout, w, center)
      ensures CellOfPlayer(layout, w.players[w.uidToAccount[id]]) == Some(c)
    {
      assert (id, c) in w.placed;
      assert Genuine(layout, w.players, w.uidToAccount, (id, c));
    }
    if a :| a in Scan(layout, w, center) && w.players[a].uid == id {
      var c := CellOfPlayer(layout, w.players[a]).value;
      assert (id, c) in w.placed && (id, c).0 == id && (id, c).1 == c;
      assert cells == {c};
    } else {
      assert cells == {};
    }
  }

  // ---- Gateway sets ----

  /** A leave keeps the gateway sets a partition of the online accounts if and only if it
      concerns nobody online or arrives over the registering gateway. */
  lemma LeaveKeepsPartitionIff(layout: Layout, w: State, gw: Gateway, acc: string)
    requires layout.Positive() && Covered(w.players.Keys, w.gateways) && Partitioned(w.players.Keys, w.gateways)
    ensures var v := Depart(layout, w, gw, acc);
            Partitioned(v.players.Keys, v.gateways) <==> (acc in w.players ==> acc in Members(w.gateways, gw))
  {
    if acc in w.players {
      assert (w.players - {acc}).Keys == w.players.Keys - {acc};
      assert InSomeSet(w.gateways, acc);
      UnregisterPartition(w.players.Keys, w.gateways, gw, acc);
    }
  }

  lemma UnregisterPartition(online: set<string>, gateways: map<Gateway, set<string>>, gw: Gateway, acc: string)
    requires Partitioned(online, gateways) && InSomeSet(gateways, acc)
    ensures Partitioned(online - {acc}, Unregister(gateways, gw, acc)) <==> acc in Members(gateways, gw)
  {
    var after := Unregister(gateways, gw, acc);
    if acc in Members(gateways, gw) {
      forall g | g in after ensures after[g] <= online - {acc} {
        assert g != gw ==> gateways[g] !! gateways[gw];
      }
    } else {
      var g :| g in gateways && acc in gateways[g];
      assert g in after && acc in after[g];
    }
  }

  lemma OtherTasksKeepPartition(layout: Layout, w: State, e: Event)
    requires layout.Positive() && Partitioned(w.players.Keys, w.gateways) && !e.Leave?
    ensures Partitioned(Step(layout, w, e).players.Keys, Step(layout, w, e).gateways)
  {
    match e
    case Move(gw, acc, x, y) =>
      RegisterPartition(w.players.Keys, w.gateways, gw, acc);
      assert Step(layout, w, e).players.Keys == w.players.Keys + {acc};
      assert acc in w.players ==> w.players.Keys + {acc} == w.players.Keys;
    case Down(gw) =>
      CleanupPartition(w.players.Keys, w.gateways, gw);
      assert Step(layout, w, e).players.Keys == w.players.Keys - Members(w.gateways, gw) * w.players.Keys;
    case Hit(uid, damage) =>
      assert Step(layout, w, e).players.Keys == w.players.Keys;
  }

  /** The i-th task is no leave, or a leave of an offline account, or a leave over a gateway whose
      set holds the account at that moment. */
  ghost predicate OwnLeave(layout: Layout, events: seq<Event>, i: nat)
    requires layout.Positive() && i < |events|
  {
    var w := Run(layout, Empty, events[..i]);
    events[i].Leave? && events[i].acc in w.players ==> events[i].acc in Members(w.gateways, events[i].gw)
  }

  ghost predicate PartitionedAfter(layout: Layout, events: seq<Event>, k: nat)
    requires layout.Positive() && k <= |events|
  {
    Partitioned(Run(layout, Empty, events[..k]).players.Keys, Run(layout, Empty, events[..k]).gateways)
  }

  lemma TaskKeepsPartitionIff(layout: Layout, events: seq<Event>, i: nat)
    requires layout.Positive() && i < |events| && PartitionedAfter(layout, events, i)
    ensures PartitionedAfter(layout, events, i + 1) <==> OwnLeave(layout, events, i)
  {
    var w, e := Run(layout, Empty, events[..i]), events[i];
    assert events[..i + 1][..i] == events[..i];
    EveryRunKeepsInv(layout, events[..i]);
    if e.Leave? {
      LeaveKeepsPartitionIff(layout, w, e.gw, e.acc);
    } else {
      OtherTasksKeepPartition(layout, w, e);
    }
  }

  lemma {:induction false} OwnLeavesKeepPartition(layout: Layout, events: seq<Event>, k: nat)
    requires layout.Positive() && k <= |events|
    requires forall i :: 0 <= i < k ==> OwnLeave(layout, events, i)
    ensures PartitionedAfter(layout, events, k)
  {
    if k > 0 {
      OwnLeavesKeepPartition(layout, events, k - 1);
      TaskKeepsPartitionIff(layout, events, k - 1);
    }
  }

  /** Whole runs: the gateway sets partition the online accounts after every task if and only if
      every leave of an online account arrives over a gateway whose set holds it. */
  lemma RunIsPartitionedIff(layout: Layout, events: seq<Event>)
    requires layout.Positive()
    ensures (forall k :: 0 <= k <= |events| ==> PartitionedAfter(layout, events, k))
       <==> (forall i :: 0 <= i < |events| ==> OwnLeave(layout, events, i))
  {
    if forall i :: 0 <= i < |events| ==> OwnLeave(layout, events, i) {
      forall k | 0 <= k <= |events| ensures PartitionedAfter(layout, events, k) {
        OwnLeavesKeepPartition(layout, events, k);
      }
    }
    if forall k :: 0 <= k <= |events| ==> PartitionedAfter(layout, events, k) {
      forall i | 0 <= i < |events| ensures OwnLeave(layout, events, i) {
        assert PartitionedAfter(layout, events, i) && PartitionedAfter(layout, events, i + 1);
        TaskKeepsPartitionIff(layout, events, i);
      }
    }
  }

  /** A foreign leave: the account is gone, but gateway 3 still lists it. */
  lemma ForeignLeaveKeepsName(layout: Layout)
    requires layout.Positive()
    ensures var w := Run(layout, Empty, [Move(3, "a", 0.0, 0.0), Leave(4, "a")]);
            w.players == map[] && 3 in w.gateways && "a" in w.gateways[3] && !Partitioned(w.players.Keys, w.gateways)
  {
    var e1, e2 := Move(3, "a", 0.0, 0.0), Leave(4, "a");
    assert [e1][..0] == [] && [e1, e2][..1] == [e1];
    var w1 := Run(layout, Empty, [e1]);
    assert w1 == Step(layout, Run(layout, Empty, []), e1);
    assert w1.players.Keys == {"a"} && "a" in Members(w1.gateways, 3) && 4 !in w1.gateways;
    var w := Run(layout, Empty, [e1, e2]);
    assert w == Depart(layout, w1, 4, "a");
    assert w.players == w1.players - {"a"} == map[];
    assert w.gateways == w1.gateways;
  }

  lemma RegisterPartition(online: set<string>, gateways: map<Gateway, set<string>>, gw: Gateway, acc: string)
    requires Partitioned(online, gateways)
    ensures acc !in online ==> Partitioned(online + {acc}, Register(gateways, gw, acc))
  {
  }

  lemma CleanupPartition(online: set<string>, gateways: map<Gateway, set<string>>, gw: Gateway)
    requires Partitioned(online, gateways)
    ensures Partitioned(online - Members(gateways, gw) * online, gateways - {gw})
  {
    forall g | g in gateways && g != gw ensures gateways[g] <= online - Members(gateways, gw) * online {
      assert gw in gateways ==> gateways[g] !! gateways[gw];
    }
  }

  predicate FromGateway(e: Event, g: Gateway) {
    !e.Hit? && e.gw == g
  }

  /** No task of a session runs after the cleanup of that session. */
  ghost predicate Fifo(events: seq<Event>) {
    forall i, j :: 0 <= i < j < |events| && events[i].Down? ==> !FromGateway(events[j], events[i].gw)
  }

  /** After a gateway failure its set never reappears, and every online account belongs to a
      gateway that has not failed. */
  lemma {:induction false} NoZombies(layout: Layout, events: seq<Event>)
    requires layout.Positive() && Fifo(events)
    ensures var w := Run(layout, Empty, events);
            && (forall g :: Down(g) in events ==> g !in w.gateways)
            && (forall a :: a in w.players ==>
                  exists g :: g in w.gateways && a in w.gateways[g] && Down(g) !in events)
    decreases |events|
  {
    var w := Run(layout, Empty, events);
    if events != [] {
      var init, e := events[..|events| - 1], events[|events| - 1];
      NoZombies(layout, init);
      var v := Run(layout, Empty, init);
      forall g | Down(g) in events ensures g !in w.gateways {
        if e != Down(g) {
          assert Down(g) in init;
          var i :| 0 <= i < |init| && init[i] == Down(g);
          assert events[i] == Down(g);
          assert !FromGateway(e, g);
        }
      }
    }
    EveryRunKeepsInv(layout, events);
    forall a | a in w.players
      ensures exists g :: g in w.gateways && a in w.gateways[g] && Down(g) !in events
    {
      var g :| g in w.gateways && a in w.gateways[g];
      assert Down(g) !in events;
    }
  }
}
