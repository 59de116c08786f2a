/** The players read off the log of tasks alone, one account at a time: when it is online, under which
    uid, where, how much harm it has taken, and which gateways list it.  The world of every run is
    exactly that.
 */
module PlayerLog {
  import opened Wrappers
  import opened Geometry
  import opened ZoneIndex
  import opened World
  import opened WorldRuns
  import opened WorldOutcomes

  /** An account that is online; `harm` is the damage since it entered or was last revived. */
  datatype Entry = Entry(uid: nat, x: real, y: real, harm: nat)

  function Edge(v: real, limit: int): real {
    if 0.0 <= v <= limit as real then v else if v < 0.0 then 0.0 else limit as real
  }

  /** Online since its last entry: a move brings it in or places it, a leave that names it or a
      cleanup that finds it listed takes it out, and the hit that completes DEFAULT_HP harm sends it
      to the spawn point. */
  function Find(layout: Layout, log: seq<Event>, acc: string): Option<Entry>
    decreases |log|
  {
    if log == [] then None
    else
      var init, e := log[..|log| - 1], log[|log| - 1];
      var before := Find(layout, init, acc);
      match e
      case Move(_, a, x, y) =>
        if a != acc then before
        else if before.None? then
          Some(Entry(1 + Entries(layout, init), Edge(x, layout.width), Edge(y, layout.height), 0))
        else Some(before.value.(x := Edge(x, layout.width), y := Edge(y, layout.height)))
      case Leave(_, a) => if a == acc then None else before
      case Down(g) => if Listed(layout, init, g, acc) then None else before
      case Hit(uid, damage) =>
        if before.None? || before.value.uid != uid then before
        else if before.value.harm + damage < DEFAULT_HP then Some(before.value.(harm := before.value.harm + damage))
        else Some(Entry(uid, SPAWN_X, SPAWN_Y, 0))
  }

  /** How many moves brought somebody in. */
  function Entries(layout: Layout, log: seq<Event>): nat
    decreases |log|
  {
    if log == [] then 0
    else
      var init, e := log[..|log| - 1], log[|log| - 1];
      Entries(layout, init) + if e.Move? && Find(layout, init, e.acc).None? then 1 else 0
  }

  /** The gateway lists the account it brought in, until a leave of the online account over this
      gateway, or its own cleanup. */
  predicate Listed(layout: Layout, log: seq<Event>, g: Gateway, acc: string)
    decreases |log|
  {
    log != [] &&
    var init, e := log[..|log| - 1], log[|log| - 1];
    if e == Down(g) then false
    else if e == Leave(g, acc) && Find(layout, init, acc).Some? then false
    else Listed(layout, init, g, acc) || (e.Move? && e.gw == g && e.acc == acc && Find(layout, init, acc).None?)
  }

  // ---- The world holds what the log says ----

  ghost predicate Tells(layout: Layout, log: seq<Event>, w: State, acc: string) {
    var found := Find(layout, log, acc);
    && (acc in w.players <==> found.Some?)
    && (found.Some? ==>
          var p := found.value;
          w.players[acc] == PlayerInfo(p.uid, p.x, p.y, DEFAULT_HP - p.harm, DEFAULT_ATK, DEFAULT_DEF))
  }

  ghost predicate TellsSet(layout: Layout, log: seq<Event>, w: State, g: Gateway, acc: string) {
    Listed(layout, log, g, acc) <==> acc in Members(w.gateways, g)
  }

  ghost predicate TellsAll(layout: Layout, log: seq<Event>, w: State) {
    && w.uidCounter == 1 + Entries(layout, log)
    && (forall acc :: Tells(layout, log, w, acc))
    && (forall g, acc :: TellsSet(layout, log, w, g, acc))
  }

  lemma MoverIsTold(layout: Layout, log: seq<Event>, w: State)
    requires layout.Positive() && log != [] && log[|log| - 1].Move?
    requires var init := log[..|log| - 1];
             Tells(layout, init, w, log[|log| - 1].acc) && w.uidCounter == 1 + Entries(layout, init)
    ensures var v := Step(layout, w, log[|log| - 1]);
            Tells(layout, log, v, log[|log| - 1].acc) && v.uidCounter == 1 + Entries(layout, log)
  {
    var e := log[|log| - 1];
    if e.acc in w.players {
      MoveOutcome(layout, w, e.gw, e.acc, e.x, e.y);
    } else {
      EntryOutcome(layout, w, e.gw, e.acc, e.x, e.y);
    }
  }

  lemma MoveIsTold(layout: Layout, log: seq<Event>, w: State, acc: string)
    requires layout.Positive() && Inv(layout, w) && log != [] && log[|log| - 1].Move?
    requires Tells(layout, log[..|log| - 1], w, acc) && acc != log[|log| - 1].acc
    ensures Tells(layout, log, Step(layout, w, log[|log| - 1]), acc)
  {
    var e := log[|log| - 1];
    MoveSparesOthers(layout, w, e.gw, e.acc, e.x, e.y, acc);
  }

  lemma LeaveIsTold(layout: Layout, log: seq<Event>, w: State, acc: string)
    requires layout.Positive() && Inv(layout, w) && log != [] && log[|log| - 1].Leave?
    requires Tells(layout, log[..|log| - 1], w, acc) && w.uidCounter == 1 + Entries(layout, log[..|log| - 1])
    ensures var v := Step(layout, w, log[|log| - 1]);
            Tells(layout, log, v, acc) && v.uidCounter == 1 + Entries(layout, log)
  {
    var e := log[|log| - 1];
    LeaveOutcome(layout, w, e.gw, e.acc);
    if acc != e.acc {
      LeaveSparesOthers(layout, w, e.gw, e.acc, acc);
    }
  }

  lemma DownIsTold(layout: Layout, log: seq<Event>, w: State, acc: string)
    requires layout.Positive() && Inv(layout, w) && log != [] && log[|log| - 1].Down?
    requires var init := log[..|log| - 1];
             Tells(layout, init, w, acc) && TellsSet(layout, init, w, log[|log| - 1].gw, acc)
             && w.uidCounter == 1 + Entries(layout, init)
    ensures var v := Step(layout, w, log[|log| - 1]);
            Tells(layout, log, v, acc) && v.uidCounter == 1 + Entries(layout, log)
  {
    CleanupOutcome(layout, w, log[|log| - 1].gw, acc, 0);
  }

  lemma VictimIsTold(layout: Layout, log: seq<Event>, w: State, acc: string)
    requires layout.Positive() && Inv(layout, w) && log != [] && log[|log| - 1].Hit?
    requires Tells(layout, log[..|log| - 1], w, acc)
    requires acc in w.players && w.players[acc].uid == log[|log| - 1].uid
    ensures Tells(layout, log, Step(layout, w, log[|log| - 1]), acc)
  {
    HitOutcome(layout, w, acc, log[|log| - 1].damage);
  }

  lemma HitIsTold(layout: Layout, log: seq<Event>, w: State, acc: string)
    requires layout.Positive() && Inv(layout, w) && log != [] && log[|log| - 1].Hit?
    requires Tells(layout, log[..|log| - 1], w, acc)
    requires acc in w.players ==> w.players[acc].uid != log[|log| - 1].uid
    ensures Tells(layout, log, Step(layout, w, log[|log| - 1]), acc)
  {
    HitSparesOthers(layout, w, log[|log| - 1].uid, log[|log| - 1].damage, acc);
  }

  lemma SetIsTold(layout: Layout, log: seq<Event>, w: State, g: Gateway, acc: string)
    requires layout.Positive() && Inv(layout, w) && log != []
    requires var init := log[..|log| - 1];
             TellsSet(layout, init, w, g, acc) && Tells(layout, init, w, acc)
    ensures TellsSet(layout, log, Step(layout, w, log[|log| - 1]), g, acc)
  {
    match log[|log| - 1]
    case Move(gw, a, x, y) =>
      if a != acc || g != gw {
        MoveSparesSets(layout, w, gw, a, x, y, acc, g);
      } else if acc in w.players {
        MoveOutcome(layout, w, gw, acc, x, y);
      } else {
        EntryOutcome(layout, w, gw, acc, x, y);
      }
    case Leave(gw, a) =>
      LeaveOutcome(layout, w, gw, a);
      if a != acc || g != gw {
        LeaveSparesSets(layout, w, gw, a, acc, g);
      }
    case Down(gw) => CleanupOutcome(layout, w, gw, acc, g);
    case Hit(uid, damage) => HitSparesSets(layout, w, uid, damage);
  }

  lemma StepIsTold(layout: Layout, log: seq<Event>, w: State, acc: string)
    requires layout.Positive() && Inv(layout, w) && log != [] && TellsAll(layout, log[..|log| - 1], w)
    ensures var v := Step(layout, w, log[|log| - 1]);
            Tells(layout, log, v, acc) && v.uidCounter == 1 + Entries(layout, log)
  {
    var init, e := log[..|log| - 1], log[|log| - 1];
    assert Tells(layout, init, w, acc);
    match e
    case Move(_, a, _, _) =>
      assert Tells(layout, init, w, a);
      MoverIsTold(layout, log, w);
      if acc != a {
        MoveIsTold(layout, log, w, acc);
      }
    case Leave(_, _) => LeaveIsTold(layout, log, w, acc);
    case Down(g) =>
      assert TellsSet(layout, init, w, g, acc);
      DownIsTold(layout, log, w, acc);
    case Hit(uid, damage) =>
      HitSparesSets(layout, w, uid, damage);
      if acc in w.players && w.players[acc].uid == uid {
        VictimIsTold(layout, log, w, acc);
      } else {
        HitIsTold(layout, log, w, acc);
      }
  }

  /** On every run and for every account: whether it is online, its uid, place and HP, and the
      gateways that list it are what the log says. */
  lemma {:induction false} LogTellsWorld(layout: Layout, log: seq<Event>)
    requires layout.Positive()
    ensures TellsAll(layout, log, Run(layout, Empty, log))
    decreases |log|
  {
    if log != [] {
      var init := log[..|log| - 1];
      LogTellsWorld(layout, init);
      EveryRunKeepsInv(layout, init);
      var w := Run(layout, Empty, init);
      forall acc ensures Tells(layout, log, Run(layout, Empty, log), acc) {
        StepIsTold(layout, log, w, acc);
      }
      StepIsTold(layout, log, w, "");
      forall g, acc ensures TellsSet(layout, log, Run(layout, Empty, log), g, acc) {
        assert TellsSet(layout, init, w, g, acc) && Tells(layout, init, w, acc);
        SetIsTold(layout, log, w, g, acc);
      }
    }
  }

  // ---- The same in plain words, from one moment to another ----

  function WorldAt(layout: Layout, log: seq<Event>, k: nat): State
    requires layout.Positive() && k <= |log|
  {
    Run(layout, Empty, log[..k])
  }

  /** Task j takes the account offline: a leave that names it, or the cleanup of a gateway that has it
      in its set at that moment. */
  predicate Ends(layout: Layout, log: seq<Event>, j: nat, acc: string)
    requires layout.Positive() && j < |log|
  {
    (log[j].Leave? && log[j].acc == acc) ||
    (log[j].Down? && acc in Members(WorldAt(layout, log, j).gateways, log[j].gw))
  }

  ghost predicate NothingEnds(layout: Layout, log: seq<Event>, k: int, acc: string)
    requires layout.Positive() && 0 <= k
  {
    forall j: nat :: k <= j < |log| ==> !Ends(layout, log, j, acc)
  }

  ghost predicate MovedSinceEnd(layout: Layout, log: seq<Event>, acc: string)
    requires layout.Positive()
  {
    exists k: nat :: k < |log| && log[k].Move? && log[k].acc == acc && NothingEnds(layout, log, k + 1, acc)
  }

  lemma EndsEarly(layout: Layout, log: seq<Event>, j: nat, acc: string)
    requires layout.Positive() && j < |log| - 1
    ensures Ends(layout, log[..|log| - 1], j, acc) <==> Ends(layout, log, j, acc)
  {
    assert log[..|log| - 1][..j] == log[..j];
  }

  /** One task decides: a move brings the account in, an end takes it out, any other task leaves it. */
  lemma OnlineStep(layout: Layout, log: seq<Event>, acc: string)
    requires layout.Positive() && log != []
    ensures var n := |log| - 1;
            acc in WorldAt(layout, log, |log|).players <==>
            (log[n].Move? && log[n].acc == acc) ||
            (!Ends(layout, log, n, acc) && acc in WorldAt(layout, log, n).players)
  {
    var n := |log| - 1;
    var w, e := WorldAt(layout, log, n), log[n];
    assert log[..|log|] == log;
    EveryRunKeepsInv(layout, log[..n]);
    match e
    case Move(gw, a, x, y) =>
      if a != acc {
        MoveSparesOthers(layout, w, gw, a, x, y, acc);
      } else if acc in w.players {
        MoveOutcome(layout, w, gw, acc, x, y);
      } else {
        EntryOutcome(layout, w, gw, acc, x, y);
      }
    case Leave(gw, a) =>
      LeaveOutcome(layout, w, gw, a);
      if a != acc {
        LeaveSparesOthers(layout, w, gw, a, acc);
      }
    case Down(gw) => CleanupOutcome(layout, w, gw, acc, 0);
    case Hit(uid, damage) => HitSparesSets(layout, w, uid, damage);
  }

  lemma NothingEndsStep(layout: Layout, log: seq<Event>, k: nat, acc: string)
    requires layout.Positive() && k < |log|
    ensures NothingEnds(layout, log, k, acc) <==>
            NothingEnds(layout, log[..|log| - 1], k, acc) && !Ends(layout, log, |log| - 1, acc)
  {
    var init := log[..|log| - 1];
    forall j: nat | k <= j < |log| - 1 ensures Ends(layout, init, j, acc) <==> Ends(layout, log, j, acc) {
      EndsEarly(layout, log, j, acc);
    }
    if NothingEnds(layout, init, k, acc) && !Ends(layout, log, |log| - 1, acc) {
      forall j: nat | k <= j < |log| ensures !Ends(layout, log, j, acc) {
        assert j < |log| - 1 ==> !Ends(layout, init, j, acc);
      }
    }
  }

  lemma MovedSinceEndStep(layout: Layout, log: seq<Event>, acc: string)
    requires layout.Positive() && log != []
    ensures var n := |log| - 1;
            MovedSinceEnd(layout, log, acc) <==>
            (log[n].Move? && log[n].acc == acc) || (!Ends(layout, log, n, acc) && MovedSinceEnd(layout, log[..n], acc))
  {
    var n := |log| - 1;
    var init := log[..n];
    if log[n].Move? && log[n].acc == acc {
      assert NothingEnds(layout, log, n + 1, acc);
    } else if MovedSinceEnd(layout, log, acc) {
      var k: nat :| k < |log| && log[k].Move? && log[k].acc == acc && NothingEnds(layout, log, k + 1, acc);
      NothingEndsStep(layout, log, k + 1, acc);
      assert init[k] == log[k];
    } else if MovedSinceEnd(layout, init, acc) {
      var k: nat :| k < n && init[k].Move? && init[k].acc == acc && NothingEnds(layout, init, k + 1, acc);
      NothingEndsStep(layout, log, k + 1, acc);
      assert init[k] == log[k];
    }
  }

  /** An account is online if and only if it moved after the last leave that names it and the last
      cleanup that found it in its set. */
  lemma {:induction false} OnlineIff(layout: Layout, log: seq<Event>, acc: string)
    requires layout.Positive()
    ensures acc in Run(layout, Empty, log).players <==> MovedSinceEnd(layout, log, acc)
    decreases |log|
  {
    if log != [] {
      assert log[..|log|] == log;
      OnlineIff(layout, log[..|log| - 1], acc);
      OnlineStep(layout, log, acc);
      MovedSinceEndStep(layout, log, acc);
    }
  }

  /** The damage of the hits on the player since task k. */
  function HarmSince(log: seq<Event>, k: nat, uid: nat): nat
    decreases |log|
  {
    if |log| <= k then 0
    else
      var e := log[|log| - 1];
      HarmSince(log[..|log| - 1], k, uid) + if e.Hit? && e.uid == uid then e.damage else 0
  }

  /** Where the last move since task k took the account, `from` if there is none. */
  function Seat(layout: Layout, log: seq<Event>, k: nat, acc: string, from: (real, real)): (real, real)
    decreases |log|
  {
    if |log| <= k then from
    else
      var e := log[|log| - 1];
      if e.Move? && e.acc == acc then (Edge(e.x, layout.width), Edge(e.y, layout.height))
      else Seat(layout, log[..|log| - 1], k, acc, from)
  }

  /** One task on an online account that is not taken offline by it. */
  lemma RecordStep(layout: Layout, w: State, e: Event, acc: string)
    requires layout.Positive() && Inv(layout, w) && acc in w.players
    requires e.Leave? ==> e.acc != acc
    requires e.Down? ==> acc !in Members(w.gateways, e.gw)
    ensures var p, v := w.players[acc], Step(layout, w, e);
            && acc in v.players
            && v.players[acc] ==
                 match e
                 case Move(_, a, x, y) =>
                   if a == acc then p.(x := Edge(x, layout.width), y := Edge(y, layout.height)) else p
                 case Hit(uid, damage) =>
                   if uid != p.uid then p
                   else if damage < p.hp then p.(hp := p.hp - damage)
                   else p.(hp := DEFAULT_HP, x := SPAWN_X, y := SPAWN_Y)
                 case _ => p
  {
    match e
    case Move(gw, a, x, y) =>
      if a != acc {
        MoveSparesOthers(layout, w, gw, a, x, y, acc);
      } else {
        MoveOutcome(layout, w, gw, acc, x, y);
      }
    case Leave(gw, a) => LeaveSparesOthers(layout, w, gw, a, acc);
    case Down(gw) => CleanupOutcome(layout, w, gw, acc, 0);
    case Hit(uid, damage) =>
      if w.players[acc].uid == uid {
        HitOutcome(layout, w, acc, damage);
      } else {
        HitSparesOthers(layout, w, uid, damage, acc);
      }
  }

  /** The account is online in `w` with what is left of the record `p` it had at task k. */
  ghost predicate Worn(layout: Layout, log: seq<Event>, k: nat, acc: string, p: PlayerInfo, w: State) {
    var at := Seat(layout, log, k, acc, (p.x, p.y));
    acc in w.players && w.players[acc] == p.(hp := p.hp - HarmSince(log, k, p.uid), x := at.0, y := at.1)
  }

  lemma WornStep(layout: Layout, log: seq<Event>, k: nat, acc: string, p: PlayerInfo, w: State)
    requires layout.Positive() && Inv(layout, w) && k < |log| && Worn(layout, log[..|log| - 1], k, acc, p, w)
    requires HarmSince(log, k, p.uid) < p.hp
    requires var e := log[|log| - 1];
             (e.Leave? ==> e.acc != acc) && (e.Down? ==> acc !in Members(w.gateways, e.gw))
    ensures Worn(layout, log, k, acc, p, Step(layout, w, log[|log| - 1]))
  {
    RecordStep(layout, w, log[|log| - 1], acc);
  }

  /** From any moment k of any run: as long as nothing takes an online account offline and the damage
      since then is short of its HP, it has lost exactly that damage, and it is where its last move
      took it. */
  lemma {:induction false} HpLedger(layout: Layout, log: seq<Event>, k: nat, acc: string)
    requires layout.Positive() && k <= |log| && acc in WorldAt(layout, log, k).players
    requires NothingEnds(layout, log, k, acc)
    requires var p := WorldAt(layout, log, k).players[acc]; HarmSince(log, k, p.uid) < p.hp
    ensures Worn(layout, log, k, acc, WorldAt(layout, log, k).players[acc], Run(layout, Empty, log))
    decreases |log|
  {
    if k == |log| {
      assert log[..|log|] == log;
    } else {
      var init, n := log[..|log| - 1], |log| - 1;
      var p := WorldAt(layout, log, k).players[acc];
      assert init[..k] == log[..k];
      NothingEndsStep(layout, log, k, acc);
      HpLedger(layout, init, k, acc);
      EveryRunKeepsInv(layout, init);
      WornStep(layout, log, k, acc, p, Run(layout, Empty, init));
    }
  }

  /** The hit that completes the damage revives the player: full HP, at the spawn point. */
  lemma LastHitRevives(layout: Layout, log: seq<Event>, k: nat, acc: string, damage: nat)
    requires layout.Positive() && k <= |log| && acc in WorldAt(layout, log, k).players
    requires NothingEnds(layout, log, k, acc)
    requires var p := WorldAt(layout, log, k).players[acc];
             HarmSince(log, k, p.uid) < p.hp <= HarmSince(log, k, p.uid) + damage
    ensures var p := WorldAt(layout, log, k).players[acc];
            var v := Step(layout, Run(layout, Empty, log), Hit(p.uid, damage));
            acc in v.players && v.players[acc] == p.(hp := DEFAULT_HP, x := SPAWN_X, y := SPAWN_Y)
  {
    HpLedger(layout, log, k, acc);
    EveryRunKeepsInv(layout, log);
    RecordStep(layout, Run(layout, Empty, log), Hit(WorldAt(layout, log, k).players[acc].uid, damage), acc);
  }
}
