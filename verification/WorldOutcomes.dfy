/** What each player task does, told by its effect: who is online where, with how much HP, in which
    sets, and that nobody else notices.  `b` and `g` stand for any account and any gateway.
 */
module WorldOutcomes {
  import opened Wrappers
  import opened Geometry
  import opened ZoneIndex
  import opened World
  import opened WorldRuns

  /** The requested coordinate, or the nearer end of the map. */
  predicate Arrives(x: real, raw: real, limit: int) {
    && (0.0 <= raw <= limit as real ==> x == raw)
    && (raw < 0.0 ==> x == 0.0)
    && (limit as real < raw ==> x == limit as real)
  }

  /** The account has the same record, mirror entry and sector entries as before. */
  ghost predicate SameRecord(w: State, v: State, b: string) {
    && (b in v.players <==> b in w.players) && (b in v.redis <==> b in w.redis)
    && (b in w.redis && b in v.redis ==> v.redis[b] == w.redis[b])
    && (b in w.players && b in v.players ==>
          v.players[b] == w.players[b] && SamePlaces(w.placed, v.placed, w.players[b].uid))
  }

  ghost predicate SamePlaces(placed: set<Placement>, after: set<Placement>, uid: nat) {
    forall c: Cell :: (uid, c) in after <==> (uid, c) in placed
  }

  predicate SameSet(w: State, v: State, b: string, g: Gateway) {
    b in Members(v.gateways, g) <==> b in Members(w.gateways, g)
  }

  /** Online accounts have different uids, and none has the next one. */
  lemma UidsDiffer(layout: Layout, w: State, a: string, b: string)
    requires layout.Positive() && Inv(layout, w) && a in w.players
    ensures b in w.players && a != b ==> w.players[a].uid != w.players[b].uid
    ensures w.players[a].uid < w.uidCounter
  {
    assert Inverse(w.players, w.uidToAccount) && Issued(w.uidToAccount, w.placed, w.uidCounter);
  }

  /** A move of an online account takes it to the requested point, brought to the edge if outside,
      and to the sector there; everything else about it stays. */
  lemma MoveOutcome(layout: Layout, w: State, gw: Gateway, acc: string, rawX: real, rawY: real)
    requires layout.Positive() && acc in w.players
    ensures var v := MoveTo(layout, w, gw, acc, rawX, rawY);
            && acc in v.players
            && Arrives(v.players[acc].x, rawX, layout.width) && Arrives(v.players[acc].y, rawY, layout.height)
            && v.players[acc] == w.players[acc].(x := v.players[acc].x, y := v.players[acc].y)
            && v.uidToAccount == w.uidToAccount && v.gateways == w.gateways && v.redis == w.redis
            && v.uidCounter == w.uidCounter && v.bots == w.bots
            && (acc in w.redis ==> acc in v.redis)
  {
  }

  /** A move of an offline account brings it in at that point: a new uid, full HP, the set of its
      gateway. */
  lemma EntryOutcome(layout: Layout, w: State, gw: Gateway, acc: string, rawX: real, rawY: real)
    requires layout.Positive() && acc !in w.players
    ensures var v := MoveTo(layout, w, gw, acc, rawX, rawY);
            && acc in v.players && acc in v.redis && acc in Members(v.gateways, gw)
            && Arrives(v.players[acc].x, rawX, layout.width) && Arrives(v.players[acc].y, rawY, layout.height)
            && v.players[acc].uid == w.uidCounter && v.players[acc].hp == DEFAULT_HP == v.redis[acc]
            && v.players[acc].atk == DEFAULT_ATK && v.players[acc].def == DEFAULT_DEF
            && w.uidCounter in v.uidToAccount && v.uidToAccount[w.uidCounter] == acc
            && v.uidCounter == w.uidCounter + 1
  {
  }

  lemma ShiftSparesOthers(placed: set<Placement>, id: nat, from: Option<Cell>, to: Option<Cell>, uid: nat)
    requires uid != id
    ensures SamePlaces(placed, Shift(placed, id, from, to), uid)
    ensures SamePlaces(placed, Enter(placed, id, to), uid) && SamePlaces(placed, Exit(placed, id, to), uid)
  {
  }

  lemma RelocateSparesOthers(layout: Layout, w: State, acc: string, x: real, y: real, b: string)
    requires layout.Positive() && acc in w.players && b != acc
    requires b in w.players ==> w.players[b].uid != w.players[acc].uid
    ensures SameRecord(w, Relocate(layout, w, acc, x, y), b)
    ensures Relocate(layout, w, acc, x, y).gateways == w.gateways
  {
    if b in w.players {
      var p := w.players[acc];
      ShiftSparesOthers(w.placed, p.uid, CellOfPlayer(layout, p), layout.CellOf(x, y), w.players[b].uid);
    }
  }

  lemma AdmitSparesOthers(layout: Layout, w: State, gw: Gateway, acc: string, x: real, y: real, b: string)
    requires layout.Positive() && b != acc
    requires b in w.players ==> w.players[b].uid != w.uidCounter
    ensures SameRecord(w, Admit(layout, w, gw, acc, x, y), b)
  {
    if b in w.players {
      ShiftSparesOthers(w.placed, w.uidCounter, None, layout.CellOf(x, y), w.players[b].uid);
    }
  }

  /** Nobody else notices a move. */
  lemma MoveSparesOthers(layout: Layout, w: State, gw: Gateway, acc: string, rawX: real, rawY: real, b: string)
    requires layout.Positive() && Inv(layout, w) && b != acc
    ensures SameRecord(w, MoveTo(layout, w, gw, acc, rawX, rawY), b)
  {
    var x, y := ClampAxis(rawX, layout.width), ClampAxis(rawY, layout.height);
    if b in w.players {
      UidsDiffer(layout, w, b, acc);
    }
    MovesApart(layout, w, gw, acc, x, y, b);
  }

  lemma MovesApart(layout: Layout, w: State, gw: Gateway, acc: string, x: real, y: real, b: string)
    requires layout.Positive() && b != acc
    requires b in w.players ==>
               w.players[b].uid < w.uidCounter && (acc in w.players ==> w.players[b].uid != w.players[acc].uid)
    ensures var entered := if acc in w.players then w else Admit(layout, w, gw, acc, x, y);
            SameRecord(w, Relocate(layout, entered, acc, x, y), b)
  {
    if acc in w.players {
      RelocateSparesOthers(layout, w, acc, x, y, b);
    } else {
      AdmitSparesOthers(layout, w, gw, acc, x, y, b);
      RelocateSparesOthers(layout, Admit(layout, w, gw, acc, x, y), acc, x, y, b);
    }
  }

  /** A move lists nobody but the account, and that only in the set of its gateway. */
  lemma MoveSparesSets(layout: Layout, w: State, gw: Gateway, acc: string, rawX: real, rawY: real, b: string,
                       g: Gateway)
    requires layout.Positive() && (b != acc || g != gw)
    ensures SameSet(w, MoveTo(layout, w, gw, acc, rawX, rawY), b, g)
  {
  }

  /** A leave over any gateway takes an online account out of every structure, and out of the set of
      that gateway; a leave of an offline one does nothing. */
  lemma LeaveOutcome(layout: Layout, w: State, gw: Gateway, acc: string)
    requires layout.Positive()
    ensures var v := Depart(layout, w, gw, acc);
            && (acc !in w.players ==> v == w)
            && (acc in w.players ==>
                  var p := w.players[acc];
                  && acc !in v.players && acc !in v.redis && p.uid !in v.uidToAccount
                  && acc !in Members(v.gateways, gw) && v.uidCounter == w.uidCounter
                  && (forall c :: layout.CellOf(p.x, p.y) == Some(c) ==> (p.uid, c) !in v.placed))
  {
  }

  lemma EvictSparesOthers(layout: Layout, w: State, gone: set<string>, b: string)
    requires layout.Positive() && Inv(layout, w) && gone <= w.players.Keys && b !in gone
    ensures SameRecord(w, Evict(layout, w, gone), b)
  {
    if b in w.players {
      forall c ensures (w.players[b].uid, c) !in Placements(layout, w.players, gone) {
        forall a | a in gone ensures w.players[a].uid != w.players[b].uid {
          UidsDiffer(layout, w, a, b);
        }
      }
    }
  }

  lemma LeaveSparesOthers(layout: Layout, w: State, gw: Gateway, acc: string, b: string)
    requires layout.Positive() && Inv(layout, w) && b != acc
    ensures SameRecord(w, Depart(layout, w, gw, acc), b)
  {
    if acc in w.players {
      EvictSparesOthers(layout, w, {acc}, b);
    }
  }

  /** A leave takes the account out of no set but the one of that gateway, and nobody else out of any. */
  lemma LeaveSparesSets(layout: Layout, w: State, gw: Gateway, acc: string, b: string, g: Gateway)
    requires layout.Positive() && (b != acc || g != gw)
    ensures SameSet(w, Depart(layout, w, gw, acc), b, g)
  {
  }

  /** After the cleanup of a gateway an account is online if it was and is not in the set of the
      gateway; then it is as it was.  The set is gone, and the other sets are as they were. */
  lemma CleanupOutcome(layout: Layout, w: State, gw: Gateway, b: string, g: Gateway)
    requires layout.Positive() && Inv(layout, w)
    ensures var v := Cleanup(layout, w, gw);
            && (b in v.players <==> b in w.players && b !in Members(w.gateways, gw))
            && (b in v.players ==> SameRecord(w, v, b))
            && (b in w.players && b !in v.players ==> b !in v.redis && w.players[b].uid !in v.uidToAccount)
            && v.uidCounter == w.uidCounter && gw !in v.gateways
            && (g != gw ==> Members(v.gateways, g) == Members(w.gateways, g))
  {
    var gone := Members(w.gateways, gw) * w.players.Keys;
    if b in w.players && b !in gone {
      EvictSparesOthers(layout, w, gone, b);
    }
  }

  /** A hit of d on an online player leaves hp - d, or, when that is not positive, full HP at the
      spawn point; the mirror follows. */
  lemma HitOutcome(layout: Layout, w: State, acc: string, d: nat)
    requires layout.Positive() && Inv(layout, w) && acc in w.players
    ensures var p, v := w.players[acc], Strike(layout, w, w.players[acc].uid, d);
            && acc in v.players && acc in v.redis && v.redis[acc] == v.players[acc].hp
            && (p.hp > d ==> v.players[acc] == p.(hp := p.hp - d) && v.placed == w.placed)
            && (p.hp <= d ==> v.players[acc] == p.(hp := DEFAULT_HP, x := SPAWN_X, y := SPAWN_Y))
  {
  }

  lemma StrikesApart(layout: Layout, w: State, uid: nat, d: nat, b: string)
    requires layout.Positive()
    requires uid in w.uidToAccount && w.uidToAccount[uid] in w.players && w.uidToAccount[uid] != b
    requires b in w.players ==> w.players[b].uid != uid
    ensures SameRecord(w, Strike(layout, w, uid, d), b)
  {
    if b in w.players {
      var p := w.players[w.uidToAccount[uid]];
      ShiftSparesOthers(w.placed, uid, CellOfPlayer(layout, p), layout.CellOf(SPAWN_X, SPAWN_Y), w.players[b].uid);
    }
  }

  /** A hit touches nobody but the player with that uid. */
  lemma HitSparesOthers(layout: Layout, w: State, uid: nat, d: nat, b: string)
    requires layout.Positive() && Inv(layout, w)
    requires b in w.players ==> w.players[b].uid != uid
    ensures SameRecord(w, Strike(layout, w, uid, d), b)
  {
    assert Inverse(w.players, w.uidToAccount);
    if uid in w.uidToAccount && w.uidToAccount[uid] in w.players {
      StrikesApart(layout, w, uid, d, b);
    }
  }

  /** A hit changes no set, and brings nobody in or out. */
  lemma HitSparesSets(layout: Layout, w: State, uid: nat, d: nat)
    requires layout.Positive()
    ensures var v := Strike(layout, w, uid, d);
            && v.gateways == w.gateways && v.uidCounter == w.uidCounter && v.uidToAccount == w.uidToAccount
            && v.players.Keys == w.players.Keys && v.bots == w.bots
  {
  }

  /** Bots are told by the mark in the middle of their account name. */
  lemma BotsAreMarked(acc: string)
    ensures IsBot(acc) <==> exists a: string, b: string :: acc == a + "BOT_STRESS" + b
  {
    if IsBot(acc) {
      var i :| 0 <= i <= |acc| && BOT_MARK <= acc[i..];
      assert acc == acc[..i] + "BOT_STRESS" + acc[i..][|BOT_MARK|..];
    }
    if a: string, b: string :| acc == a + "BOT_STRESS" + b {
      assert acc[|a|..] == "BOT_STRESS" + b;
    }
  }
}
