/** The one-time login token on its way from the world server over the game server to a
    gateway: WorldServer/WorldServer.h:49-86, WorldServer/Handlers/WorldHandlers.cpp:22-61,
    GameServer/Handlers/WorldGame/WorldHandlers.cpp:50-62, GatewayServer/GatewayServer.h:53-78.
    Accounts and tokens are any types with equality.
 */
module TokenRelay {
  import opened Links
  import opened Wrappers

  const TOKEN_LIFETIME_MS := 300000

  /** What both servers keep for an account. */
  datatype Entry<T> = Entry(token: T, expire: int)

  // ---- The two stores ----

  predicate Accepts<A(==), T(==)>(pending: map<A, Entry<T>>, account: A, token: T, now: int) {
    account in pending && pending[account].expire >= now && pending[account].token == token
  }

  /** An expired entry goes whatever token is presented; a live one only with its own token. */
  function Verified<A(==), T(==)>(pending: map<A, Entry<T>>, account: A, token: T, now: int): map<A, Entry<T>> {
    if account in pending && (pending[account].expire < now || pending[account].token == token)
    then pending - {account}
    else pending
  }

  function Cleaned<A(==), T>(tokens: map<A, Entry<T>>, now: int): map<A, Entry<T>> {
    map a | a in tokens && tokens[a].expire >= now :: tokens[a]
  }

  /** The store of the world server. */
  class TokenStore<A(==), T(==)> {
    var tokens: map<A, Entry<T>>

    constructor ()
      ensures tokens == map[]
    {
      tokens := map[];
    }

    method StoreToken(account: A, token: T, now: int)
      modifies this
      ensures tokens == old(tokens)[account := Entry(token, now + TOKEN_LIFETIME_MS)]
    {
      tokens := tokens[account := Entry(token, now + TOKEN_LIFETIME_MS)];
    }

    method CleanExpired(now: int)
      modifies this
      ensures tokens == Cleaned(old(tokens), now)
    {
      var rest := tokens.Keys;
      while rest != {}
        invariant rest <= tokens.Keys <= old(tokens).Keys
        invariant forall a :: a in tokens ==> tokens[a] == old(tokens)[a]
        invariant forall a :: a in old(tokens) && a !in rest ==> (a in tokens <==> old(tokens)[a].expire >= now)
        invariant forall a :: a in rest ==> a in tokens
        decreases |rest|
      {
        var a :| a in rest;
        rest := rest - {a};
        if tokens[a].expire < now {
          tokens := tokens - {a};
        }
      }
    }

    method GetExpireTime(account: A) returns (expire: int)
      ensures expire == if account in tokens then tokens[account].expire else 0
    {
      expire := if account in tokens then tokens[account].expire else 0;
    }
  }

  /** The store of a gateway. */
  class PendingTokens<A(==), T(==)> {
    var pending: map<A, Entry<T>>

    constructor ()
      ensures pending == map[]
    {
      pending := map[];
    }

    method StorePendingToken(account: A, token: T, expire: int)
      modifies this
      ensures pending == old(pending)[account := Entry(token, expire)]
    {
      pending := pending[account := Entry(token, expire)];
    }

    method VerifyAndConsumeToken(account: A, token: T, now: int) returns (ok: bool)
      modifies this
      ensures ok <==> Accepts(old(pending), account, token, now)
      ensures pending == Verified(old(pending), account, token, now)
    {
      if account !in pending {
        return false;
      }
      var entry := pending[account];
      if entry.expire < now {
        pending := pending - {account};
        return false;
      }
      if entry.token != token {
        return false;
      }
      pending := pending - {account};
      return true;
    }
  }

  // ---- Messages and links ----

  /** `serial` numbers the tokens in the order of issue; it is not part of the message. */
  datatype Notice<A, T> = Notice(serial: nat, account: A, token: T, expire: int)

  /** Handle_WorldLoginSelectReq on a fresh token. */
  method IssueToken<A(==), T(==)>(store: TokenStore<A, T>, sessions: seq<Option<seq<Notice<A, T>>>>,
                                  serial: nat, account: A, token: T, now: int)
      returns (sent: seq<Option<seq<Notice<A, T>>>>)
    modifies store
    ensures store.tokens == old(store.tokens)[account := Entry(token, now + TOKEN_LIFETIME_MS)]
    ensures |sent| == |sessions|
    ensures forall i :: 0 <= i < |sessions| && sessions[i].Some? ==>
      sent[i] == Some(sessions[i].value + [Notice(serial, account, token, now + TOKEN_LIFETIME_MS)])
  {
    store.StoreToken(account, token, now);
    var expire := store.GetExpireTime(account);
    sent := Broadcast(sessions, Notice(serial, account, token, expire));
  }

  // ---- The relay as a state machine ----

  datatype Issue<A, T> = Issue(account: A, token: T, at: int)

  /** A connect that a gateway admitted: when, on which delivered notice, and how many notices
      had been delivered by then. */
  datatype Admission<A, T> = Admission(account: A, token: T, at: int, position: int, seen: nat)

  /** One world server, one game server and one gateway.  The notices under way are in the two
      links; `issued`, `delivered` and `admitted` are the history. */
  datatype Relay<A, T> = Relay(now: int, issued: seq<Issue<A, T>>, tokens: map<A, Entry<T>>,
                               toGame: seq<Notice<A, T>>, toGateway: seq<Notice<A, T>>,
                               delivered: seq<Notice<A, T>>, pending: map<A, Entry<T>>,
                               admitted: seq<Admission<A, T>>)

  datatype Event<A, T> =
    | LoginSelected(account: A, token: T)
    | Clean
    | LoseToGame(k: nat)
    | Forward
    | LoseToGateway(k: nat)
    | Deliver
    | Connect(account: A, token: T)
    | Wait(ms: nat)

  function Start<A, T>(now: int): Relay<A, T> {
    Relay(now, [], map[], [], [], [], map[], [])
  }

  function Without<N>(link: seq<N>, k: nat): seq<N> {
    if k < |link| then link[..k] + link[k + 1..] else link
  }

  /** The position of the last notice for the account, -1 if there is none. */
  function LastFor<A(==), T>(delivered: seq<Notice<A, T>>, account: A): (d: int)
    ensures -1 <= d < |delivered|
    ensures d >= 0 ==> delivered[d].account == account
    ensures forall e :: d < e < |delivered| ==> delivered[e].account != account
  {
    if delivered == [] then -1
    else if delivered[|delivered| - 1].account == account then |delivered| - 1
    else LastFor(delivered[..|delivered| - 1], account)
  }

  function DeliverTo<A(==), T(==)>(s: Relay<A, T>, n: Notice<A, T>): Relay<A, T> {
    s.(delivered := s.delivered + [n], pending := s.pending[n.account := Entry(n.token, n.expire)])
  }

  function ConnectTo<A(==), T(==)>(s: Relay<A, T>, account: A, token: T): Relay<A, T> {
    var after := Verified(s.pending, account, token, s.now);
    if Accepts(s.pending, account, token, s.now) then
      s.(pending := after,
         admitted := s.admitted + [Admission(account, token, s.now, LastFor(s.delivered, account), |s.delivered|)])
    else
      s.(pending := after)
  }

  function Step<A(==), T(==)>(s: Relay<A, T>, e: Event<A, T>): Relay<A, T> {
    match e
    case LoginSelected(account, token) =>
      var expire := s.now + TOKEN_LIFETIME_MS;
      s.(issued := s.issued + [Issue(account, token, s.now)],
         tokens := s.tokens[account := Entry(token, expire)],
         toGame := s.toGame + [Notice(|s.issued|, account, token, expire)])
    case Clean => s.(tokens := Cleaned(s.tokens, s.now))
    case LoseToGame(k) => s.(toGame := Without(s.toGame, k))
    case Forward =>
      if s.toGame == [] then s else s.(toGame := s.toGame[1..], toGateway := s.toGateway + [s.toGame[0]])
    case LoseToGateway(k) => s.(toGateway := Without(s.toGateway, k))
    case Deliver =>
      if s.toGateway == [] then s else DeliverTo(s.(toGateway := s.toGateway[1..]), s.toGateway[0])
    case Connect(account, token) => ConnectTo(s, account, token)
    case Wait(ms) => s.(now := s.now + ms)
  }

  function Run<A(==), T(==)>(s: Relay<A, T>, events: seq<Event<A, T>>): Relay<A, T>
    decreases |events|
  {
    if events == [] then s else Run(Step(s, events[0]), events[1..])
  }

  // ---- Notices keep the order of issue ----

  ghost predicate Increasing<A, T>(flow: seq<Notice<A, T>>) {
    forall i, j :: 0 <= i < j < |flow| ==> flow[i].serial < flow[j].serial
  }

  ghost predicate Matches<A, T>(n: Notice<A, T>, issued: seq<Issue<A, T>>) {
    n.serial < |issued| && issued[n.serial] == Issue(n.account, n.token, n.expire - TOKEN_LIFETIME_MS)
  }

  ghost predicate Logged<A, T>(flow: seq<Notice<A, T>>, issued: seq<Issue<A, T>>) {
    forall i :: 0 <= i < |flow| ==> Matches(flow[i], issued)
  }

  /** Everything delivered or under way, oldest first. */
  ghost function Flow<A, T>(s: Relay<A, T>): seq<Notice<A, T>> {
    s.delivered + s.toGateway + s.toGame
  }

  /** The notices are a subsequence of the issues. */
  ghost predicate Ordered<A, T>(s: Relay<A, T>) {
    Increasing(Flow(s)) && Logged(Flow(s), s.issued)
  }

  lemma LossKeepsOrder<A, T>(flow: seq<Notice<A, T>>, k: nat, issued: seq<Issue<A, T>>)
    requires Increasing(flow) && Logged(flow, issued)
    ensures Increasing(Without(flow, k)) && Logged(Without(flow, k), issued)
  {
  }

  lemma IssueKeepsOrder<A, T>(flow: seq<Notice<A, T>>, issued: seq<Issue<A, T>>, account: A, token: T, now: int)
    requires Increasing(flow) && Logged(flow, issued)
    ensures var n := Notice(|issued|, account, token, now + TOKEN_LIFETIME_MS);
            var more := issued + [Issue(account, token, now)];
            Increasing(flow + [n]) && Logged(flow + [n], more)
  {
    var more := issued + [Issue(account, token, now)];
    forall i | 0 <= i < |flow| ensures Matches(flow[i], more) {
      assert Matches(flow[i], issued);
    }
  }

  lemma WithoutLast<N>(front: seq<N>, link: seq<N>, k: nat)
    requires k < |link|
    ensures front + Without(link, k) == Without(front + link, |front| + k)
  {
  }

  lemma WithoutInside<N>(front: seq<N>, link: seq<N>, back: seq<N>, k: nat)
    requires k < |link|
    ensures front + Without(link, k) + back == Without(front + link + back, |front| + k)
  {
  }

  lemma LossToGameKeepsOrder<A, T>(s: Relay<A, T>, k: nat)
    requires Ordered(s) && k < |s.toGame|
    ensures Ordered(s.(toGame := Without(s.toGame, k)))
  {
    WithoutLast(s.delivered + s.toGateway, s.toGame, k);
    LossKeepsOrder(Flow(s), |s.delivered + s.toGateway| + k, s.issued);
  }

  lemma LossToGatewayKeepsOrder<A, T>(s: Relay<A, T>, k: nat)
    requires Ordered(s) && k < |s.toGateway|
    ensures Ordered(s.(toGateway := Without(s.toGateway, k)))
  {
    WithoutInside(s.delivered, s.toGateway, s.toGame, k);
    LossKeepsOrder(Flow(s), |s.delivered| + k, s.issued);
  }

  lemma MoveKeepsFlow<A, T>(s: Relay<A, T>, e: Event<A, T>)
    requires e.Forward? || e.Deliver?
    ensures Flow(Step(s, e)) == Flow(s)
  {
  }

  lemma StepKeepsOrder<A, T>(s: Relay<A, T>, e: Event<A, T>)
    requires Ordered(s)
    ensures Ordered(Step(s, e))
  {
    match e {
      case LoginSelected(account, token) =>
        IssueKeepsOrder(Flow(s), s.issued, account, token, s.now);
        assert Flow(Step(s, e)) == Flow(s) + [Notice(|s.issued|, account, token, s.now + TOKEN_LIFETIME_MS)];
      case LoseToGame(k) => if k < |s.toGame| { LossToGameKeepsOrder(s, k); }
      case LoseToGateway(k) => if k < |s.toGateway| { LossToGatewayKeepsOrder(s, k); }
      case Forward => MoveKeepsFlow(s, e);
      case Deliver => MoveKeepsFlow(s, e);
      case _ =>
    }
  }

  // ---- The gateway holds the last notice of an account until it is spent or stale ----

  ghost predicate Holds<A(!new), T>(s: Relay<A, T>) {
    forall a :: a in s.pending ==>
      var d := LastFor(s.delivered, a);
      d >= 0 && s.pending[a] == Entry(s.delivered[d].token, s.delivered[d].expire)
  }

  ghost predicate Spent<A, T>(admitted: seq<Admission<A, T>>, position: int) {
    exists i :: 0 <= i < |admitted| && admitted[i].position == position
  }

  /** Only a notice that was spent or has expired is no longer held. */
  ghost predicate Waits<A(!new), T>(s: Relay<A, T>) {
    forall a :: a !in s.pending ==>
      var d := LastFor(s.delivered, a);
      d < 0 || Spent(s.admitted, d) || s.delivered[d].expire < s.now
  }

  /** The admission took the last notice delivered by then for its account, in time. */
  ghost predicate Justified<A, T>(ad: Admission<A, T>, delivered: seq<Notice<A, T>>) {
    && ad.seen <= |delivered|
    && ad.position == LastFor(delivered[..ad.seen], ad.account) >= 0
    && delivered[ad.position].token == ad.token
    && ad.at <= delivered[ad.position].expire
  }

  ghost predicate AllJustified<A, T>(admitted: seq<Admission<A, T>>, delivered: seq<Notice<A, T>>) {
    forall i :: 0 <= i < |admitted| ==> Justified(admitted[i], delivered)
  }

  /** What is pending is newer than what was admitted. */
  ghost predicate PendingIsNewer<A, T>(s: Relay<A, T>) {
    forall i :: 0 <= i < |s.admitted| && s.admitted[i].account in s.pending ==>
      s.admitted[i].position < LastFor(s.delivered, s.admitted[i].account)
  }

  /** Every admission has a notice of its own. */
  ghost predicate OwnNotices<A, T>(admitted: seq<Admission<A, T>>) {
    forall i, j :: 0 <= i < j < |admitted| ==> admitted[i].position != admitted[j].position
  }

  ghost predicate OneTime<A, T>(s: Relay<A, T>) {
    AllJustified(s.admitted, s.delivered) && PendingIsNewer(s) && OwnNotices(s.admitted)
  }

  ghost predicate Inv<A(!new), T>(s: Relay<A, T>) {
    Ordered(s) && Holds(s) && Waits(s) && OneTime(s)
  }

  lemma LastAfter<A, T>(delivered: seq<Notice<A, T>>, n: Notice<A, T>, a: A)
    ensures LastFor(delivered + [n], a) == if n.account == a then |delivered| else LastFor(delivered, a)
  {
    assert (delivered + [n])[..|delivered|] == delivered;
  }

  lemma DeliverKeepsHolds<A(!new), T>(s: Relay<A, T>, n: Notice<A, T>)
    requires Holds(s) && Waits(s)
    ensures Holds(DeliverTo(s, n)) && Waits(DeliverTo(s, n))
  {
    forall a
      ensures LastFor(s.delivered + [n], a) == if n.account == a then |s.delivered| else LastFor(s.delivered, a)
    {
      LastAfter(s.delivered, n, a);
    }
  }

  lemma DeliverKeepsOneTime<A(!new), T>(s: Relay<A, T>, n: Notice<A, T>)
    requires Holds(s) && OneTime(s)
    ensures OneTime(DeliverTo(s, n))
  {
    var t := DeliverTo(s, n);
    forall i | 0 <= i < |s.admitted| ensures Justified(t.admitted[i], t.delivered) {
      var ad := s.admitted[i];
      assert Justified(ad, s.delivered);
      assert t.delivered[..ad.seen] == s.delivered[..ad.seen];
      assert ad.position < ad.seen;
    }
    forall i | 0 <= i < |s.admitted| && t.admitted[i].account in t.pending
      ensures t.admitted[i].position < LastFor(t.delivered, t.admitted[i].account)
    {
      assert Justified(s.admitted[i], s.delivered);
      LastAfter(s.delivered, n, s.admitted[i].account);
    }
  }

  /** A connect is admitted if and only if the last notice delivered for the account carries the
      token, has not been used and has not expired. */
  lemma AdmittedIff<A(!new), T>(s: Relay<A, T>, account: A, token: T)
    requires Inv(s)
    ensures var d := LastFor(s.delivered, account);
            (|Step(s, Connect(account, token)).admitted| == |s.admitted| + 1 <==>
              d >= 0 && s.delivered[d].token == token && !Spent(s.admitted, d) && s.now <= s.delivered[d].expire)
  {
    var d := LastFor(s.delivered, account);
    if account in s.pending {
      PendingIsUnspent(s, account);
    }
  }

  lemma PendingIsUnspent<A(!new), T>(s: Relay<A, T>, account: A)
    requires Holds(s) && OneTime(s) && account in s.pending
    ensures !Spent(s.admitted, LastFor(s.delivered, account))
  {
    var d := LastFor(s.delivered, account);
    forall i | 0 <= i < |s.admitted| ensures s.admitted[i].position != d {
      var ad := s.admitted[i];
      assert Justified(ad, s.delivered);
      assert s.delivered[..ad.seen][ad.position].account == ad.account;
    }
  }

  lemma ConnectKeepsHolds<A(!new), T>(s: Relay<A, T>, account: A, token: T)
    requires Holds(s) && Waits(s)
    ensures Holds(ConnectTo(s, account, token)) && Waits(ConnectTo(s, account, token))
  {
    var t := ConnectTo(s, account, token);
    forall a | a !in t.pending
      ensures var d := LastFor(t.delivered, a);
              d < 0 || Spent(t.admitted, d) || t.delivered[d].expire < t.now
    {
      var d := LastFor(s.delivered, a);
      if a !in s.pending {
        if Spent(s.admitted, d) {
          var i :| 0 <= i < |s.admitted| && s.admitted[i].position == d;
          assert t.admitted[i].position == d;
        }
      } else if Accepts(s.pending, account, token, s.now) {
        assert t.admitted[|s.admitted|].position == d;
      }
    }
  }

  lemma AdmitOneMore<A, T>(admitted: seq<Admission<A, T>>, ad: Admission<A, T>, delivered: seq<Notice<A, T>>)
    requires AllJustified(admitted, delivered) && Justified(ad, delivered)
    requires OwnNotices(admitted) && !Spent(admitted, ad.position)
    ensures AllJustified(admitted + [ad], delivered) && OwnNotices(admitted + [ad])
  {
    assert forall i :: 0 <= i < |admitted| ==> admitted[i].position != ad.position;
  }

  lemma ConnectKeepsOneTime<A(!new), T>(s: Relay<A, T>, account: A, token: T)
    requires Holds(s) && OneTime(s)
    ensures OneTime(ConnectTo(s, account, token))
  {
    if Accepts(s.pending, account, token, s.now) {
      var ad := Admission(account, token, s.now, LastFor(s.delivered, account), |s.delivered|);
      assert s.delivered[..|s.delivered|] == s.delivered;
      assert Justified(ad, s.delivered);
      PendingIsUnspent(s, account);
      AdmitOneMore(s.admitted, ad, s.delivered);
      assert PendingIsNewer(ConnectTo(s, account, token));
    }
  }

  lemma StepKeepsInv<A(!new), T>(s: Relay<A, T>, e: Event<A, T>)
    requires Inv(s)
    ensures Inv(Step(s, e))
  {
    StepKeepsOrder(s, e);
    match e {
      case Deliver =>
        if s.toGateway != [] {
          var r := s.(toGateway := s.toGateway[1..]);
          DeliverKeepsHolds(r, s.toGateway[0]);
          DeliverKeepsOneTime(r, s.toGateway[0]);
        }
      case Connect(account, token) =>
        ConnectKeepsHolds(s, account, token);
        ConnectKeepsOneTime(s, account, token);
      case _ =>
    }
  }

  lemma {:induction false} RunKeepsInv<A(!new), T>(s: Relay<A, T>, events: seq<Event<A, T>>)
    requires Inv(s)
    ensures Inv(Run(s, events))
    decreases |events|
  {
    if events != [] {
      StepKeepsInv(s, events[0]);
      RunKeepsInv(Step(s, events[0]), events[1..]);
    }
  }

  // ---- What every run guarantees ----

  ghost predicate DistinctTokens<A, T>(issued: seq<Issue<A, T>>) {
    forall i, j :: 0 <= i < j < |issued| ==> issued[i].token != issued[j].token
  }

  /** The admission used a token issued to its account, no more than the lifetime ago. */
  ghost predicate Rightful<A, T>(ad: Admission<A, T>, issued: seq<Issue<A, T>>) {
    exists k :: 0 <= k < |issued| && issued[k].account == ad.account && issued[k].token == ad.token
      && ad.at <= issued[k].at + TOKEN_LIFETIME_MS
  }

  /** No notice with a newer issue for the account had been delivered when it was admitted. */
  ghost predicate Newest<A, T>(ad: Admission<A, T>, s: Relay<A, T>) {
    && 0 <= ad.position < ad.seen <= |s.delivered|
    && (forall e :: 0 <= e < ad.seen && s.delivered[e].account == ad.account ==>
          s.delivered[e].serial <= s.delivered[ad.position].serial)
  }

  lemma AdmissionIsRightful<A(!new), T>(s: Relay<A, T>, i: nat)
    requires Inv(s) && i < |s.admitted|
    ensures Rightful(s.admitted[i], s.issued) && Newest(s.admitted[i], s)
  {
    var ad := s.admitted[i];
    assert Justified(ad, s.delivered);
    var n := s.delivered[ad.position];
    assert n == s.delivered[..ad.seen][ad.position] == Flow(s)[ad.position];
    assert Matches(n, s.issued);
    assert s.issued[n.serial].account == ad.account;
    forall e | 0 <= e < ad.seen && s.delivered[e].account == ad.account
      ensures s.delivered[e].serial <= n.serial
    {
      assert s.delivered[e] == s.delivered[..ad.seen][e] == Flow(s)[e];
    }
  }

  lemma AdmittedTokensDiffer<A(!new), T>(s: Relay<A, T>, i: nat, j: nat)
    requires Inv(s) && DistinctTokens(s.issued) && i < j < |s.admitted|
    ensures s.admitted[i].token != s.admitted[j].token
  {
    var a, b := s.admitted[i], s.admitted[j];
    assert Justified(a, s.delivered) && Justified(b, s.delivered);
    var m, n := Flow(s)[a.position], Flow(s)[b.position];
    assert m == s.delivered[a.position] && n == s.delivered[b.position];
    assert Matches(m, s.issued) && Matches(n, s.issued);
    assert m.serial != n.serial;
  }

  /** On every run: a connect is admitted only for the account its token was issued to, at most
      300000 ms after the issue, never after a newer token of the account was delivered, and,
      tokens being distinct, at most once per token. */
  lemma TokensAreOneTime<A(!new), T>(now: int, events: seq<Event<A, T>>)
    ensures var s := Run(Start<A, T>(now), events);
            && (forall i :: 0 <= i < |s.admitted| ==> Rightful(s.admitted[i], s.issued) && Newest(s.admitted[i], s))
            && (DistinctTokens(s.issued) ==>
                  forall i, j :: 0 <= i < j < |s.admitted| ==> s.admitted[i].token != s.admitted[j].token)
  {
    var s := Run(Start<A, T>(now), events);
    RunKeepsInv(Start<A, T>(now), events);
    forall i: nat | i < |s.admitted| ensures Rightful(s.admitted[i], s.issued) && Newest(s.admitted[i], s) {
      AdmissionIsRightful(s, i);
    }
    if DistinctTokens(s.issued) {
      forall i: nat, j: nat | i < j < |s.admitted| ensures s.admitted[i].token != s.admitted[j].token {
        AdmittedTokensDiffer(s, i, j);
      }
    }
  }

  /** On every run: a connect is admitted exactly when the last notice delivered for its account
      carries its token, was never used and is not past its expiry. */
  lemma ConnectIsAdmittedIff<A(!new), T>(now: int, events: seq<Event<A, T>>, account: A, token: T)
    ensures var s := Run(Start<A, T>(now), events);
            var d := LastFor(s.delivered, account);
            (|Step(s, Connect(account, token)).admitted| == |s.admitted| + 1 <==>
              d >= 0 && s.delivered[d].token == token && !Spent(s.admitted, d) && s.now <= s.delivered[d].expire)
  {
    RunKeepsInv(Start<A, T>(now), events);
    AdmittedIff(Run(Start<A, T>(now), events), account, token);
  }

  // ---- What is not lost arrives ----

  /** A check of a token concerns its account only; it removes an expired entry and a matching one, and
      keeps a live entry from a wrong token. */
  lemma CheckOutcome<A, T>(s: Relay<A, T>, account: A, token: T, a: A)
    ensures var pending := Step(s, Connect(account, token)).pending;
            && (a != account ==> (a in pending <==> a in s.pending) && (a in pending ==> pending[a] == s.pending[a]))
            && (account in s.pending && s.pending[account].expire < s.now ==> account !in pending)
            && (account in s.pending && s.pending[account].token == token ==> account !in pending)
            && (account in s.pending && s.pending[account].expire >= s.now && s.pending[account].token != token ==>
                  account in pending && pending[account] == s.pending[account])
  {
  }

  /** A cleaning removes an entry of the world server if and only if its time is over. */
  lemma CleanOutcome<A, T>(s: Relay<A, T>, a: A)
    ensures var tokens := Step(s, Clean).tokens;
            && (a in tokens <==> a in s.tokens && s.now <= s.tokens[a].expire)
            && (a in tokens ==> tokens[a] == s.tokens[a])
  {
  }

  /** Nothing gets lost on the links. */
  predicate Lossless<A(==), T(==)>(events: seq<Event<A, T>>) {
    forall i :: 0 <= i < |events| ==> !events[i].LoseToGame? && !events[i].LoseToGateway?
  }

  /** Every issued token has its notice, in its place, delivered or under way. */
  ghost predicate Complete<A, T>(s: Relay<A, T>) {
    |Flow(s)| == |s.issued| && forall i :: 0 <= i < |s.issued| ==>
      Flow(s)[i] == Notice(i, s.issued[i].account, s.issued[i].token, s.issued[i].at + TOKEN_LIFETIME_MS)
  }

  lemma StepKeepsComplete<A, T>(s: Relay<A, T>, e: Event<A, T>)
    requires Complete(s) && !e.LoseToGame? && !e.LoseToGateway?
    ensures Complete(Step(s, e))
  {
    match e {
      case LoginSelected(account, token) =>
        assert Flow(Step(s, e)) == Flow(s) + [Notice(|s.issued|, account, token, s.now + TOKEN_LIFETIME_MS)];
      case Forward => MoveKeepsFlow(s, e);
      case Deliver => MoveKeepsFlow(s, e);
      case _ =>
    }
  }

  lemma {:induction false} LosslessIsComplete<A, T>(s: Relay<A, T>, events: seq<Event<A, T>>)
    requires Complete(s) && Lossless(events)
    ensures Complete(Run(s, events))
    decreases |events|
  {
    if events != [] {
      StepKeepsComplete(s, events[0]);
      assert Lossless(events[1..]) by {
        forall i | 0 <= i < |events[1..]| ensures !events[1..][i].LoseToGame? && !events[1..][i].LoseToGateway? {
          assert events[1..][i] == events[i + 1];
        }
      }
      LosslessIsComplete(Step(s, events[0]), events[1..]);
    }
  }

  function Repeat<E>(e: E, n: nat): seq<E> {
    if n == 0 then [] else [e] + Repeat(e, n - 1)
  }

  lemma {:induction false} ForwardsDrain<A, T>(s: Relay<A, T>, n: nat)
    requires n == |s.toGame|
    ensures Run(s, Repeat(Forward, n)) == s.(toGame := [], toGateway := s.toGateway + s.toGame)
    decreases n
  {
    if n > 0 {
      assert Repeat<Event<A, T>>(Forward, n)[1..] == Repeat(Forward, n - 1);
      ForwardsDrain(Step(s, Forward), n - 1);
      assert s.toGame == [s.toGame[0]] + s.toGame[1..];
      assert s.toGateway + [s.toGame[0]] + s.toGame[1..] == s.toGateway + s.toGame;
    } else {
      assert s.toGateway + s.toGame == s.toGateway;
    }
  }

  lemma {:induction false} DeliversDrain<A, T>(s: Relay<A, T>, n: nat)
    requires n == |s.toGateway|
    ensures var t := Run(s, Repeat(Deliver, n));
            && t.delivered == s.delivered + s.toGateway && t.toGateway == [] && t.toGame == s.toGame
            && t.now == s.now && t.issued == s.issued && t.admitted == s.admitted
    decreases n
  {
    if n > 0 {
      assert Repeat<Event<A, T>>(Deliver, n)[1..] == Repeat(Deliver, n - 1);
      DeliversDrain(Step(s, Deliver), n - 1);
      assert s.delivered + [s.toGateway[0]] + s.toGateway[1..] == s.delivered + s.toGateway;
    }
  }

  lemma {:induction false} RunSplit<A, T>(s: Relay<A, T>, a: seq<Event<A, T>>, b: seq<Event<A, T>>)
    ensures Run(s, a + b) == Run(Run(s, a), b)
    decreases |a|
  {
    if a == [] {
      assert a + b == b;
    } else {
      assert (a + b)[1..] == a[1..] + b;
      RunSplit(Step(s, a[0]), a[1..], b);
    }
  }

  /** The messages under way arrive. */
  function Settle<A, T>(s: Relay<A, T>): seq<Event<A, T>> {
    Repeat(Forward, |s.toGame|) + Repeat(Deliver, |s.toGateway| + |s.toGame|)
  }

  lemma SettleDelivers<A, T>(s: Relay<A, T>)
    ensures var t := Run(s, Settle(s));
            && t.delivered == Flow(s) && t.now == s.now && t.issued == s.issued && t.admitted == s.admitted
  {
    RunSplit(s, Repeat(Forward, |s.toGame|), Repeat(Deliver, |s.toGateway| + |s.toGame|));
    ForwardsDrain(s, |s.toGame|);
    DeliversDrain(Run(s, Repeat(Forward, |s.toGame|)), |s.toGateway| + |s.toGame|);
    assert s.delivered + (s.toGateway + s.toGame) == Flow(s);
  }

  lemma AdmittedPositions<A(!new), T>(s: Relay<A, T>, position: nat)
    requires Inv(s) && |s.delivered| <= position
    ensures !Spent(s.admitted, position)
  {
    forall i | 0 <= i < |s.admitted| ensures s.admitted[i].position != position {
      assert Justified(s.admitted[i], s.delivered);
    }
  }

  /** A login adds its notice at the end of the flow, and no admission has used it yet. */
  lemma LoginJoinsFlow<A(!new), T>(s: Relay<A, T>, account: A, token: T)
    requires Inv(s)
    ensures var t, d := Step(s, LoginSelected(account, token)), |Flow(s)|;
            && Flow(t) == Flow(s) + [Notice(|s.issued|, account, token, s.now + TOKEN_LIFETIME_MS)]
            && LastFor(Flow(t), account) == d && !Spent(t.admitted, d)
  {
    LastAfter(Flow(s), Notice(|s.issued|, account, token, s.now + TOKEN_LIFETIME_MS), account);
    AdmittedPositions(s, |Flow(s)|);
  }

  lemma LastDeliveredIsAdmitted<A(!new), T>(t: Relay<A, T>, account: A, token: T, d: nat)
    requires Inv(t) && LastFor(t.delivered, account) == d && !Spent(t.admitted, d)
    requires t.delivered[d].token == token && t.now <= t.delivered[d].expire
    ensures |Step(t, Connect(account, token)).admitted| == |t.admitted| + 1
  {
    AdmittedIff(t, account, token);
  }

  /** After any run, a fresh login gets in: once its notice and those before it have arrived, a connect
      with the token is admitted. */
  lemma FreshTokenIsAdmitted<A(!new), T>(now: int, events: seq<Event<A, T>>, account: A, token: T)
    ensures var s := Step(Run(Start<A, T>(now), events), LoginSelected(account, token));
            var t := Run(s, Settle(s));
            |Step(t, Connect(account, token)).admitted| == |t.admitted| + 1
  {
    var s0 := Run(Start<A, T>(now), events);
    RunKeepsInv(Start<A, T>(now), events);
    LoginJoinsFlow(s0, account, token);
    var s := Step(s0, LoginSelected(account, token));
    StepKeepsInv(s0, LoginSelected(account, token));
    RunKeepsInv(s, Settle(s));
    SettleDelivers(s);
    LastDeliveredIsAdmitted(Run(s, Settle(s)), account, token, |Flow(s0)|);
  }

  /** Without losses, once everything under way has arrived, the gateway has been told of every issued
      token, in the order of issue. */
  lemma EveryTokenArrives<A, T>(now: int, events: seq<Event<A, T>>)
    requires Lossless(events)
    ensures var s := Run(Start<A, T>(now), events);
            var t := Run(s, Settle(s));
            |t.delivered| == |s.issued| && forall i :: 0 <= i < |s.issued| ==>
              t.delivered[i] == Notice(i, s.issued[i].account, s.issued[i].token, s.issued[i].at + TOKEN_LIFETIME_MS)
  {
    LosslessIsComplete(Start<A, T>(now), events);
    SettleDelivers(Run(Start<A, T>(now), events));
  }
}
