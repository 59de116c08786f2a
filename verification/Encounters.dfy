/** Players and monsters together: who is found, who is hit, who is told. */
module Encounters {
  import opened Wrappers
  import opened Geometry
  import opened ZoneIndex
  import opened World
  import opened WorldRuns
  import opened GameServer
  import AI = MonsterAI
  import MonsterRuns

  /** Whenever a turn calls the attack callback, the monster's target is an online player within
      the attack range plus the retargeting tolerance. */
  lemma TurnHitsOnlineTarget(sqrt: real -> real, layout: Layout, w: State, m: AI.Mon, dt: real, aoi: seq<nat>,
                             view: AI.View)
    requires IsSqrt(sqrt) && layout.Positive() && Inv(layout, w)
    requires Sees(sqrt, layout, w, m, aoi, view) && AI.TurnFires(sqrt, m, dt, view)
    ensures m.target in w.uidToAccount && w.uidToAccount[m.target] in w.players
    ensures var p := w.players[w.uidToAccount[m.target]];
            p.uid == m.target && Dist(sqrt, Position(p), m.position) <= AI.ATTACK_RANGE + AI.RETARGET_EPSILON
  {
    MonsterRuns.HitIsInRange(sqrt, m, dt, view);
  }

  /** The strike of a turn, if it fired, is on an online player in range. */
  ghost predicate StrikesInRange(sqrt: real -> real, t: TurnLog, dt: real) {
    AI.TurnFires(sqrt, t.mon, dt, t.view) ==>
      && Whereabouts(t.before, t.mon.target).Some?
      && Dist(sqrt, Whereabouts(t.before, t.mon.target).value, t.mon.position) <= AI.ATTACK_RANGE + AI.RETARGET_EPSILON
  }

  lemma TurnKeepsInv(sqrt: real -> real, layout: Layout, dt: real, t: TurnLog)
    requires IsSqrt(sqrt) && layout.Positive() && Inv(layout, t.before)
    requires Sees(sqrt, layout, t.before, t.mon, t.aoi, t.view)
    ensures Inv(layout, After(sqrt, layout, t, dt)) && StrikesInRange(sqrt, t, dt)
  {
    if AI.TurnFires(sqrt, t.mon, dt, t.view) {
      MonsterRuns.HitIsInRange(sqrt, t.mon, dt, t.view);
      StrikeKeepsInv(layout, t.before, t.mon.target, AI.DEFAULT_ATK);
    }
  }

  /** Every turn of the log saw the players before it. */
  ghost predicate AllSee(sqrt: real -> real, layout: Layout, log: seq<TurnLog>)
    requires layout.Positive()
  {
    forall i :: 0 <= i < |log| ==> Sees(sqrt, layout, log[i].before, log[i].mon, log[i].aoi, log[i].view)
  }

  lemma {:induction false} TurnsKeepInv(sqrt: real -> real, layout: Layout, dt: real, log: seq<TurnLog>, first: State,
                                        last: State)
    requires IsSqrt(sqrt) && layout.Positive() && Inv(layout, first)
    requires Chained(sqrt, layout, dt, log, first, last) && AllSee(sqrt, layout, log)
    ensures Inv(layout, last)
    decreases |log|
  {
    if log != [] {
      var init, t := log[..|log| - 1], log[|log| - 1];
      TurnsKeepInv(sqrt, layout, dt, init, first, t.before);
      TurnKeepsInv(sqrt, layout, dt, t);
    }
  }

  lemma {:induction false} ChainUpTo(sqrt: real -> real, layout: Layout, dt: real, log: seq<TurnLog>, first: State,
                                     last: State, i: nat)
    requires layout.Positive() && Chained(sqrt, layout, dt, log, first, last) && i < |log|
    ensures Chained(sqrt, layout, dt, log[..i], first, log[i].before)
    decreases |log|
  {
    if i < |log| - 1 {
      var init := log[..|log| - 1];
      assert init[..i] == log[..i];
      ChainUpTo(sqrt, layout, dt, init, first, log[|log| - 1].before, i);
    }
  }

  lemma TurnOfTick(sqrt: real -> real, layout: Layout, dt: real, log: seq<TurnLog>, first: State, last: State, i: nat)
    requires IsSqrt(sqrt) && layout.Positive() && Inv(layout, first)
    requires Chained(sqrt, layout, dt, log, first, last) && AllSee(sqrt, layout, log) && i < |log|
    ensures Inv(layout, log[i].before) && StrikesInRange(sqrt, log[i], dt)
  {
    ChainUpTo(sqrt, layout, dt, log, first, last, i);
    TurnsKeepInv(sqrt, layout, dt, log[..i], first, log[i].before);
    TurnKeepsInv(sqrt, layout, dt, log[i]);
  }

  /** Through a whole AI tick the world invariant holds before and after every turn, and every
      strike is on a player who is online and in range at that moment. */
  lemma TickKeepsInv(sqrt: real -> real, layout: Layout, dt: real, log: seq<TurnLog>, first: State, last: State)
    requires IsSqrt(sqrt) && layout.Positive() && Inv(layout, first)
    requires Chained(sqrt, layout, dt, log, first, last) && AllSee(sqrt, layout, log)
    ensures Inv(layout, last)
    ensures forall i :: 0 <= i < |log| ==> Inv(layout, log[i].before) && StrikesInRange(sqrt, log[i], dt)
  {
    TurnsKeepInv(sqrt, layout, dt, log, first, last);
    forall i | 0 <= i < |log| ensures Inv(layout, log[i].before) && StrikesInRange(sqrt, log[i], dt) {
      TurnOfTick(sqrt, layout, dt, log, first, last, i);
    }
  }

  /** On every run, an idle monster inside the map picks only online players in aggro range, and
      picks somebody if an in-map player is in range; when all online players are inside the map
      it picks somebody if and only if somebody is in range. */
  lemma AggroSearch(sqrt: real -> real, layout: Layout, w: State, m: AI.Mon, aoi: seq<nat>, view: AI.View)
    requires IsSqrt(sqrt) && layout.Positive() && Inv(layout, w) && layout.sectorSize as real >= AGGRO_RANGE
    requires m.state == AI.IDLE && layout.InMap(m.position.x, m.position.y)
    requires Sees(sqrt, layout, w, m, aoi, view)
    ensures view.candidate.Some? ==> InAggro(sqrt, w, view.candidate.value.0, m.position)
    ensures (exists a :: a in w.players && layout.InMap(w.players[a].x, w.players[a].y) &&
                         Dist(sqrt, Position(w.players[a]), m.position) < AGGRO_RANGE) ==> view.candidate.Some?
    ensures (forall a :: a in w.players ==> layout.InMap(w.players[a].x, w.players[a].y)) ==>
              (view.candidate.Some? <==>
               exists a :: a in w.players && Dist(sqrt, Position(w.players[a]), m.position) < AGGRO_RANGE)
  {
    forall a | a in w.players && layout.InMap(w.players[a].x, w.players[a].y) &&
               Dist(sqrt, Position(w.players[a]), m.position) < AGGRO_RANGE
      ensures view.candidate.Some?
    {
      AxisWithinDist(sqrt, Position(w.players[a]), m.position);
      AoiComplete(layout, w, m.position.x, m.position.y, aoi, a);
      assert InAggro(sqrt, w, w.players[a].uid, m.position);
    }
    if view.candidate.Some? {
      var a := w.uidToAccount[view.candidate.value.0];
      assert a in w.players && Dist(sqrt, Position(w.players[a]), m.position) < AGGRO_RANGE;
    }
  }

  /** The recipients of an area message: an online account is listed as often as its uid was
      found, anybody else never. */
  lemma {:induction false} RecipientsAreOnline(w: State, uids: seq<nat>, acc: string)
    requires Inverse(w.players, w.uidToAccount)
    ensures multiset(Named(w.uidToAccount, uids))[acc]
         == if acc in w.players then multiset(uids)[w.players[acc].uid] else 0
    decreases |uids|
  {
    if uids != [] {
      RecipientsAreOnline(w, uids[1..], acc);
      assert uids == [uids[0]] + uids[1..];
      var head := if uids[0] in w.uidToAccount then [w.uidToAccount[uids[0]]] else [];
      assert Named(w.uidToAccount, uids) == head + Named(w.uidToAccount, uids[1..]);
    }
  }

  /** When the sectors are exact, an unlimited area message goes to exactly the online accounts
      of the block, once each. */
  lemma AreaMessageReachesBlock(layout: Layout, w: State, x: real, y: real, aoi: seq<nat>, acc: string)
    requires layout.Positive() && Inv(layout, w) && Exact(layout, w) && layout.InMap(x, y)
    requires Answers(layout, w.placed, x, y, aoi)
    ensures multiset(Named(w.uidToAccount, aoi))[acc]
         == if acc in Scan(layout, w, layout.CellOf(x, y).value) then 1 else 0
  {
    RecipientsAreOnline(w, aoi, acc);
    AoiRefinesScan(layout, w, x, y, aoi);
    if acc in w.players {
      ScannedIff(layout, w, layout.CellOf(x, y).value, acc);
    }
  }

  lemma ScannedIff(layout: Layout, w: State, center: Cell, acc: string)
    requires layout.Positive() && Inverse(w.players, w.uidToAccount) && acc in w.players
    ensures w.players[acc].uid in Uids(w.players, Scan(layout, w, center)) <==> acc in Scan(layout, w, center)
  {
    if w.players[acc].uid in Uids(w.players, Scan(layout, w, center)) {
      var a :| a in Scan(layout, w, center) && w.players[a].uid == w.players[acc].uid;
      assert w.uidToAccount[w.players[a].uid] == a && w.uidToAccount[w.players[acc].uid] == acc;
    }
  }

  /** Every hit of the run does damage d. */
  ghost predicate HitsOf(events: seq<MonsterRuns.Event>, d: int) {
    forall i :: 0 <= i < |events| && events[i].Struck? ==> events[i].damage == d
  }

  function HitCount(events: seq<MonsterRuns.Event>): nat {
    if events == [] then 0 else (if events[0].Struck? then 1 else 0) + HitCount(events[1..])
  }

  lemma {:induction false} WoundsAreHits(events: seq<MonsterRuns.Event>, d: int)
    requires HitsOf(events, d)
    ensures MonsterRuns.Wounds(events) == HitCount(events) * d
  {
    if events != [] {
      WoundsAreHits(events[1..], d);
      if events[0].Struck? {
        MulSuccessor(HitCount(events[1..]), d);
      }
    }
  }

  function CeilDiv(h: int, d: int): int
    requires 0 < d
  {
    (h + d - 1) / d
  }

  /** The damage of an attack is at least MIN_DAMAGE.  In a fight, whatever turns and path results
      come between the attacks, a monster that is not buffed dies at exactly the ceil(hp / damage)-th
      hit and not before. */
  lemma AttacksKill(sqrt: real -> real, m: AI.Mon, atk: int, events: seq<MonsterRuns.Event>)
    requires m.state != AI.DEAD && 0 < m.hp
    requires forall i :: 0 <= i < |events| ==> !events[i].Buffed?
    requires HitsOf(events, Damage(atk, AI.DEFAULT_DEF))
    ensures var d, n := Damage(atk, AI.DEFAULT_DEF), HitCount(events);
            var after := MonsterRuns.Run(sqrt, m, events);
            && (MonsterRuns.DiesDuring(sqrt, m, events) <==> n >= CeilDiv(m.hp, d))
            && (n < CeilDiv(m.hp, d) ==>
                  && after.state != AI.DEAD && after.hp == m.hp - n * d
                  && (MonsterRuns.Step(sqrt, after, MonsterRuns.Struck(d)).state == AI.DEAD <==>
                        n + 1 == CeilDiv(m.hp, d)))
  {
    var d, n := Damage(atk, AI.DEFAULT_DEF), HitCount(events);
    MonsterRuns.DiesAfterEnoughHits(sqrt, m, events);
    WoundsAreHits(events, d);
    CeilingDivision(m.hp, d, n);
    CeilingDivision(m.hp, d, n + 1);
    MulSuccessor(n, d);
  }

  /** In plain numbers: attacks of more power than the monster's defence wear it down by the
      difference, weaker ones by one point each. */
  lemma AttackPower(sqrt: real -> real, m: AI.Mon, atk: int, events: seq<MonsterRuns.Event>)
    requires m.state != AI.DEAD && 0 < m.hp
    requires forall i :: 0 <= i < |events| ==> !events[i].Buffed?
    requires HitsOf(events, Damage(atk, AI.DEFAULT_DEF))
    ensures atk > AI.DEFAULT_DEF ==>
              (MonsterRuns.DiesDuring(sqrt, m, events) <==> HitCount(events) * (atk - AI.DEFAULT_DEF) >= m.hp)
    ensures atk <= AI.DEFAULT_DEF ==> (MonsterRuns.DiesDuring(sqrt, m, events) <==> HitCount(events) >= m.hp)
  {
    MonsterRuns.DiesAfterEnoughHits(sqrt, m, events);
    var d := if atk > AI.DEFAULT_DEF then atk - AI.DEFAULT_DEF else 1;
    assert d == Damage(atk, AI.DEFAULT_DEF);
    WoundsAreHits(events, d);
  }

  lemma {:induction false} NamedSplit(uidToAccount: map<nat, string>, a: seq<nat>, b: seq<nat>)
    ensures Named(uidToAccount, a + b) == Named(uidToAccount, a) + Named(uidToAccount, b)
    decreases |a|
  {
    if a == [] {
      assert a + b == b;
    } else {
      assert (a + b)[1..] == a[1..] + b;
      NamedSplit(uidToAccount, a[1..], b);
    }
  }

  lemma {:induction false} NamedSize(uidToAccount: map<nat, string>, uids: seq<nat>)
    ensures |Named(uidToAccount, uids)| <= |uids|
    ensures (forall u :: u in uids ==> u in uidToAccount) ==> |Named(uidToAccount, uids)| == |uids|
  {
    if uids != [] {
      NamedSize(uidToAccount, uids[1..]);
    }
  }

  /** A limited message goes to the first accounts of an unlimited one: to all of them when there are
      few, and to as many as the limit when there are more and all are known. */
  lemma LimitedRecipients(uidToAccount: map<nat, string>, uids: seq<nat>, n: nat)
    ensures var names, all := Named(uidToAccount, Prefix(uids, n)), Named(uidToAccount, uids);
            && |names| <= n && names <= all && (|uids| <= n ==> names == all)
            && ((forall u :: u in uids ==> u in uidToAccount) ==> |names| == if |uids| <= n then |uids| else n)
  {
    NamedSize(uidToAccount, Prefix(uids, n));
    if |uids| > n {
      assert uids == uids[..n] + uids[n..];
      NamedSplit(uidToAccount, uids[..n], uids[n..]);
      assert forall u :: u in uids[..n] ==> u in uids;
    }
  }

  lemma CeilingDivision(h: int, d: int, n: nat)
    requires 0 < h && 0 < d
    ensures n * d >= h <==> n >= CeilDiv(h, d)
  {
    var q, r := (h + d - 1) / d, (h + d - 1) % d;
    assert h + d - 1 == q * d + r;
    CeilingStep(h, d, n, q, r, q * d, n * d);
  }

  lemma CeilingStep(h: int, d: int, n: int, q: int, r: int, qd: int, nd: int)
    requires qd == q * d && nd == n * d
    requires h + d - 1 == qd + r && 0 <= r < d
    ensures nd >= h <==> n >= q
  {
    if n >= q {
      MulMonotone(q, n, d);
    } else {
      MulMonotone(n + 1, q, d);
      MulSuccessor(n, d);
    }
  }

  lemma MulMonotone(a: int, b: int, d: int)
    requires a <= b && 0 <= d
    ensures a * d <= b * d
  {
  }

  lemma MulSuccessor(a: int, d: int)
    ensures (a + 1) * d == a * d + d
  {
  }
}
