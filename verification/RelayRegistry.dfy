/**
 * Which socket speaks for which device, and what becomes of the requests sent over it
 * (relay-reference/server.js). Connections, devices and requests are known by their numbers.
 */
module RelayRegistry {
  import opened Bytes

  datatype Phase = Hello | Auth | Open | Closed

  datatype Outcome = Answered | TimedOut | SendFailed | Disconnected

  /** One socket. `pending` holds what each outstanding request expects back. */
  datatype Conn = Conn(phase: Phase, candidate: Option<nat>, record: Option<nat>, pending: map<nat, nat>)

  /** `registered` is each device record's live connection; `settled` counts how often each request was. */
  datatype State = State(conns: map<nat, Conn>, registered: map<nat, nat>,
                         asked: multiset<nat>, settled: multiset<nat>, outcomes: map<nat, Outcome>)

  const START: State := State(map[], map[], multiset{}, multiset{}, map[])

  function Removed<K, V>(m: map<K, V>, k: K): (r: map<K, V>)
    ensures r.Keys == m.Keys - {k} && forall j :: j in r ==> r[j] == m[j]
  {
    m - {k}
  }

  /** settle: the first to call it wins, and the request is no longer pending. */
  function Settled(s: State, c: nat, req: nat, o: Outcome): State
    requires c in s.conns
  {
    if req !in s.conns[c].pending then s
    else s.(conns := s.conns[c := s.conns[c].(pending := Removed(s.conns[c].pending, req))],
            settled := s.settled + multiset{req}, outcomes := s.outcomes[req := o])
  }

  function Each(reqs: set<nat>, o: Outcome): map<nat, Outcome> {
    map r | r in reqs :: o
  }

  /** settleAll. */
  function AllSettled(s: State, c: nat, o: Outcome): State
    requires c in s.conns
  {
    var reqs := s.conns[c].pending.Keys;
    s.(conns := s.conns[c := s.conns[c].(pending := map[])], settled := s.settled + multiset(reqs),
       outcomes := s.outcomes + Each(reqs, o))
  }

  function Accept(s: State, c: nat): State {
    if c in s.conns then s else s.(conns := s.conns[c := Conn(Hello, None, None, map[])])
  }

  /** onHello: an unknown device is challenged like a known one. */
  function OnHello(s: State, provisioned: set<nat>, c: nat, dev: nat, acceptable: bool): State {
    if c !in s.conns || s.conns[c].phase != Hello || !acceptable then s
    else s.(conns := s.conns[c := s.conns[c].(phase := Auth, candidate := if dev in provisioned then Some(dev) else None)])
  }

  /** onAuth: the registry is repointed before the old socket is told to go. */
  function OnAuth(s: State, c: nat, proofOk: bool): State {
    if c !in s.conns || s.conns[c].phase != Auth || !proofOk || s.conns[c].candidate.None? then s
    else
      var d := s.conns[c].candidate.value;
      var t := s.(conns := s.conns[c := s.conns[c].(phase := Open, record := Some(d))], registered := s.registered[d := c]);
      if d in s.registered && s.registered[d] != c && s.registered[d] in t.conns
      then AllSettled(t, s.registered[d], Disconnected) else t
  }

  /** request, over the device's live connection; ids are never reused. */
  function Request(s: State, d: nat, req: nat, wanted: nat, sent: bool): State {
    if d !in s.registered || s.registered[d] !in s.conns || req in s.asked then s
    else
      var c := s.registered[d];
      var t := s.(asked := s.asked + multiset{req},
                  conns := s.conns[c := s.conns[c].(pending := s.conns[c].pending[req := wanted])]);
      if sent then t else Settled(t, c, req, SendFailed)
  }

  /** onAppFrame, for a result frame. */
  function OnReply(s: State, c: nat, req: nat, kind: nat): State {
    if c !in s.conns || s.conns[c].phase != Open || req !in s.conns[c].pending || s.conns[c].pending[req] != kind then s
    else Settled(s, c, req, Answered)
  }

  function OnTimer(s: State, c: nat, req: nat): State {
    if c !in s.conns then s else Settled(s, c, req, TimedOut)
  }

  function OnClose(s: State, c: nat): State {
    if c !in s.conns then s
    else
      var t := AllSettled(s.(conns := s.conns[c := s.conns[c].(phase := Closed)]), c, Disconnected);
      var rec := s.conns[c].record;
      if rec.Some? && rec.value in s.registered && s.registered[rec.value] == c
      then t.(registered := Removed(t.registered, rec.value)) else t
  }

  datatype Event =
    | Arrive(c: nat)
    | HelloFrame(c: nat, dev: nat, acceptable: bool)
    | AuthFrame(c: nat, proofOk: bool)
    | Send(d: nat, req: nat, wanted: nat, sent: bool)
    | Reply(c: nat, req: nat, kind: nat)
    | Timer(c: nat, req: nat)
    | SocketClosed(c: nat)

  function Step(s: State, provisioned: set<nat>, e: Event): State {
    match e
    case Arrive(c) => Accept(s, c)
    case HelloFrame(c, dev, acceptable) => OnHello(s, provisioned, c, dev, acceptable)
    case AuthFrame(c, proofOk) => OnAuth(s, c, proofOk)
    case Send(d, req, x, sent) => Request(s, d, req, x, sent)
    case Reply(c, req, kind) => OnReply(s, c, req, kind)
    case Timer(c, req) => OnTimer(s, c, req)
    case SocketClosed(c) => OnClose(s, c)
  }

  // What every run keeps

  /** A registered connection exists, is open, and belongs to that record. */
  ghost predicate Registry(s: State) {
    forall d :: d in s.registered ==>
      var c := s.registered[d];
      c in s.conns && s.conns[c].phase == Open && s.conns[c].record == Some(d)
  }

  /** Only a registered connection has anything outstanding. */
  ghost predicate OnlyLive(s: State) {
    forall c, r :: c in s.conns && r in s.conns[c].pending ==>
      s.conns[c].record.Some? && s.conns[c].record.value in s.registered && s.registered[s.conns[c].record.value] == c
  }

  ghost predicate PendingAt(s: State, c: nat, r: nat) {
    c in s.conns && r in s.conns[c].pending
  }

  /** Every request ever made is outstanding on one connection, or has been settled once. */
  ghost predicate Account(s: State) {
    && (forall r :: s.asked[r] <= 1)
    && (forall c, r :: PendingAt(s, c, r) ==> s.asked[r] == 1 && s.settled[r] == 0)
    && (forall c, d, r :: PendingAt(s, c, r) && PendingAt(s, d, r) ==> c == d)
    && (forall r :: s.asked[r] == 1 && s.settled[r] == 0 ==> exists c :: PendingAt(s, c, r))
    && (forall r :: s.settled[r] <= s.asked[r])
  }

  ghost predicate Inv(s: State) {
    Registry(s) && OnlyLive(s) && Account(s)
  }

  lemma SettledKeeps(s: State, c: nat, req: nat, o: Outcome)
    requires Inv(s) && c in s.conns
    ensures Inv(Settled(s, c, req, o))
  {
    var t := Settled(s, c, req, o);
    if req in s.conns[c].pending {
      assert PendingAt(s, c, req);
      forall r | t.asked[r] == 1 && t.settled[r] == 0
        ensures exists k :: PendingAt(t, k, r)
      {
        var k :| PendingAt(s, k, r);
        assert PendingAt(t, k, r);
      }
      forall k, r | PendingAt(t, k, r)
        ensures PendingAt(s, k, r) && r != req
      {
        assert PendingAt(s, k, r);
      }
    }
  }

  /** The account after every outstanding request of one connection has been settled. */
  lemma AllSettledKeepsAccount(s: State, c: nat, o: Outcome)
    requires Account(s) && c in s.conns
    ensures Account(AllSettled(s, c, o))
  {
    var t := AllSettled(s, c, o);
    var reqs := s.conns[c].pending.Keys;
    assert forall r :: r in reqs ==> PendingAt(s, c, r);
    forall r | t.asked[r] == 1 && t.settled[r] == 0
      ensures exists k :: PendingAt(t, k, r)
    {
      assert r !in reqs;
      var k :| PendingAt(s, k, r);
      assert PendingAt(t, k, r);
    }
    forall k, r | PendingAt(t, k, r)
      ensures PendingAt(s, k, r) && r !in reqs
    {
      assert PendingAt(s, k, r);
    }
  }

  /** Changing a connection in any way but its outstanding requests leaves the account alone. */
  lemma AccountSame(s: State, t: State)
    requires Account(s) && t.asked == s.asked && t.settled == s.settled
    requires forall c, r :: PendingAt(t, c, r) <==> PendingAt(s, c, r)
    ensures Account(t)
  {
    forall r | t.asked[r] == 1 && t.settled[r] == 0
      ensures exists c :: PendingAt(t, c, r)
    {
      var c :| PendingAt(s, c, r);
      assert PendingAt(t, c, r);
    }
  }

  lemma AcceptKeeps(s: State, c: nat)
    requires Inv(s)
    ensures Inv(Accept(s, c))
  {
    AccountSame(s, Accept(s, c));
  }

  lemma HelloKeeps(s: State, provisioned: set<nat>, c: nat, dev: nat, acceptable: bool)
    requires Inv(s)
    ensures Inv(OnHello(s, provisioned, c, dev, acceptable))
  {
    AccountSame(s, OnHello(s, provisioned, c, dev, acceptable));
  }

  predicate Proves(s: State, c: nat, proofOk: bool) {
    c in s.conns && s.conns[c].phase == Auth && proofOk && s.conns[c].candidate.Some?
  }

  lemma AuthKeepsAccount(s: State, c: nat, proofOk: bool)
    requires Account(s) && Proves(s, c, proofOk)
    ensures Account(OnAuth(s, c, proofOk))
  {
    hide Account;
    var d := s.conns[c].candidate.value;
    var t := s.(conns := s.conns[c := s.conns[c].(phase := Open, record := Some(d))], registered := s.registered[d := c]);
    AccountSame(s, t);
    if d in s.registered && s.registered[d] in t.conns {
      AllSettledKeepsAccount(t, s.registered[d], Disconnected);
    }
  }

  /** What authentication changes, connection by connection. */
  lemma AuthEffect(s: State, c: nat, proofOk: bool)
    requires Proves(s, c, proofOk)
    ensures var t, d := OnAuth(s, c, proofOk), s.conns[c].candidate.value;
            && t.registered == s.registered[d := c] && t.conns.Keys == s.conns.Keys
            && t.conns[c].phase == Open && t.conns[c].record == Some(d) && t.conns[c].pending == s.conns[c].pending
            && (forall k :: k in s.conns && k != c ==> t.conns[k].phase == s.conns[k].phase && t.conns[k].record == s.conns[k].record
                                                       && (t.conns[k].pending == s.conns[k].pending || t.conns[k].pending == map[]))
            && (d in s.registered && s.registered[d] in s.conns && s.registered[d] != c ==> t.conns[s.registered[d]].pending == map[])
  {
  }

  lemma AuthKeepsRegistry(s: State, c: nat, proofOk: bool)
    requires Registry(s) && OnlyLive(s) && Proves(s, c, proofOk)
    ensures Registry(OnAuth(s, c, proofOk)) && OnlyLive(OnAuth(s, c, proofOk))
  {
    hide OnAuth;
    AuthEffect(s, c, proofOk);
    var t, d := OnAuth(s, c, proofOk), s.conns[c].candidate.value;
    forall k, r | k in t.conns && r in t.conns[k].pending
      ensures t.conns[k].record.Some? && t.conns[k].record.value in t.registered && t.registered[t.conns[k].record.value] == k
    {
      assert k in s.conns && r in s.conns[k].pending;
    }
  }

  /** The new connection of a device takes over whole: registered, and the old one left with nothing. */
  lemma AuthKeeps(s: State, c: nat, proofOk: bool)
    requires Inv(s)
    ensures Inv(OnAuth(s, c, proofOk))
  {
    hide Account, Registry, OnlyLive;
    if Proves(s, c, proofOk) {
      AuthKeepsAccount(s, c, proofOk);
      AuthKeepsRegistry(s, c, proofOk);
    }
  }

  lemma RequestKeeps(s: State, d: nat, req: nat, wanted: nat, sent: bool)
    requires Inv(s)
    ensures Inv(Request(s, d, req, wanted, sent))
  {
    if d in s.registered && s.registered[d] in s.conns && req !in s.asked {
      var c := s.registered[d];
      var t := s.(asked := s.asked + multiset{req},
                  conns := s.conns[c := s.conns[c].(pending := s.conns[c].pending[req := wanted])]);
      assert forall k, r :: PendingAt(t, k, r) <==> PendingAt(s, k, r) || (k == c && r == req);
      assert forall k :: !PendingAt(s, k, req);
      forall r | t.asked[r] == 1 && t.settled[r] == 0
        ensures exists k :: PendingAt(t, k, r)
      {
        if r == req {
          assert PendingAt(t, c, r);
        } else {
          var k :| PendingAt(s, k, r);
          assert PendingAt(t, k, r);
        }
      }
      assert Inv(t);
      SettledKeeps(t, c, req, SendFailed);
    }
  }

  lemma CloseKeepsAccount(s: State, c: nat)
    requires Account(s) && c in s.conns
    ensures Account(OnClose(s, c))
  {
    hide Account;
    var u := s.(conns := s.conns[c := s.conns[c].(phase := Closed)]);
    AccountSame(s, u);
    AllSettledKeepsAccount(u, c, Disconnected);
    AccountSame(AllSettled(u, c, Disconnected), OnClose(s, c));
  }

  lemma CloseEffect(s: State, c: nat)
    requires c in s.conns
    ensures var t := OnClose(s, c);
            && t.conns == s.conns[c := s.conns[c].(phase := Closed, pending := map[])]
            && (forall d :: d in t.registered <==> d in s.registered && !(s.registered[d] == c && s.conns[c].record == Some(d)))
            && (forall d :: d in t.registered ==> t.registered[d] == s.registered[d])
  {
  }

  lemma CloseKeepsRegistry(s: State, c: nat)
    requires Registry(s) && OnlyLive(s) && c in s.conns
    ensures Registry(OnClose(s, c)) && OnlyLive(OnClose(s, c))
  {
    hide OnClose;
    CloseEffect(s, c);
    var t := OnClose(s, c);
    forall k, r | k in t.conns && r in t.conns[k].pending
      ensures t.conns[k].record.Some? && t.conns[k].record.value in t.registered && t.registered[t.conns[k].record.value] == k
    {
      assert k in s.conns && r in s.conns[k].pending;
    }
  }

  lemma CloseKeeps(s: State, c: nat)
    requires Inv(s)
    ensures Inv(OnClose(s, c))
  {
    hide Account, Registry, OnlyLive;
    if c in s.conns {
      CloseKeepsAccount(s, c);
      CloseKeepsRegistry(s, c);
    }
  }

  lemma StepKeeps(s: State, provisioned: set<nat>, e: Event)
    requires Inv(s)
    ensures Inv(Step(s, provisioned, e))
  {
    hide Inv, Accept, OnHello, OnAuth, Request, OnClose, Settled;
    match e
    case Arrive(c) => AcceptKeeps(s, c);
    case HelloFrame(c, dev, acceptable) => HelloKeeps(s, provisioned, c, dev, acceptable);
    case AuthFrame(c, proofOk) => AuthKeeps(s, c, proofOk);
    case Send(d, req, x, sent) => RequestKeeps(s, d, req, x, sent);
    case Reply(c, req, kind) =>
      if c in s.conns {
        SettledKeeps(s, c, req, Answered);
      }
    case Timer(c, req) =>
      if c in s.conns {
        SettledKeeps(s, c, req, TimedOut);
      }
    case SocketClosed(c) => CloseKeeps(s, c);
  }

  function RunOf(s: State, provisioned: set<nat>, events: seq<Event>): State
    decreases |events|
  {
    if events == [] then s else RunOf(Step(s, provisioned, events[0]), provisioned, events[1..])
  }

  lemma {:induction false} RunKeeps(s: State, provisioned: set<nat>, events: seq<Event>)
    requires Inv(s)
    ensures Inv(RunOf(s, provisioned, events))
    decreases |events|
  {
    hide Inv, Step;
    if events != [] {
      StepKeeps(s, provisioned, events[0]);
      RunKeeps(Step(s, provisioned, events[0]), provisioned, events[1..]);
    }
  }

  /**
   * In every run of the relay: a registered connection is open and is its device's; and each
   * request is settled at most once, exactly once as soon as nothing is outstanding for it.
   */
  lemma EveryRun(provisioned: set<nat>, events: seq<Event>, d: nat, r: nat)
    ensures var s := RunOf(START, provisioned, events);
            && (d in s.registered ==> s.registered[d] in s.conns && s.conns[s.registered[d]].phase == Open
                                      && s.conns[s.registered[d]].record == Some(d))
            && s.settled[r] <= s.asked[r] <= 1
            && (r in s.asked ==> (s.settled[r] == 1 <==> forall c :: !PendingAt(s, c, r)))
  {
    RunKeeps(START, provisioned, events);
    var s := RunOf(START, provisioned, events);
    assert Registry(s) && Account(s);
  }

  /** What replaces a device's connection: its own close, or another socket proving to be the device. */
  predicate Replaces(s: State, e: Event, d: nat) {
    || (e.SocketClosed? && d in s.registered && s.registered[d] == e.c)
    || (e.AuthFrame? && e.c in s.conns && s.conns[e.c].candidate == Some(d))
  }

  /** A superseded socket closing late, or anything else, leaves its replacement registered. */
  lemma ReplacementStays(s: State, provisioned: set<nat>, e: Event, d: nat)
    requires Inv(s) && d in s.registered && !Replaces(s, e, d)
    ensures var t := Step(s, provisioned, e);
            d in t.registered && t.registered[d] == s.registered[d]
  {
    hide Account, OnlyLive;
  }

  /** Taking over settles what the old socket still owed, and registers the new one. */
  lemma Supersedes(s: State, c: nat)
    requires Inv(s) && c in s.conns && s.conns[c].phase == Auth && s.conns[c].candidate.Some?
    ensures var d := s.conns[c].candidate.value;
            var t := OnAuth(s, c, true);
            && d in t.registered && t.registered[d] == c
            && (d in s.registered ==> var previous := s.registered[d];
                  previous != c && (forall r :: PendingAt(s, previous, r) ==> !PendingAt(t, previous, r) && t.settled[r] == 1)
                  && OnClose(t, previous).registered == t.registered)
  {
    var d := s.conns[c].candidate.value;
    if d in s.registered {
      var o := s.registered[d];
      var t := OnAuth(s, c, true);
      forall r | PendingAt(s, o, r)
        ensures t.settled[r] == 1 && !PendingAt(t, o, r)
      {
        assert s.settled[r] == 0;
      }
    }
  }

  // How each request is settled

  /** This event settles this request, and so: for each kind of event, exactly which requests, and as what. */
  ghost predicate SettledBy(s: State, e: Event, r: nat, o: Outcome) {
    match e
    case Reply(c, req, kind) =>
      r == req && PendingAt(s, c, r) && s.conns[c].phase == Open && s.conns[c].pending[r] == kind && o == Answered
    case Timer(c, req) => r == req && PendingAt(s, c, r) && o == TimedOut
    case Send(d, req, wanted, sent) => r == req && !sent && d in s.registered && s.registered[d] in s.conns && r !in s.asked && o == SendFailed
    case AuthFrame(c, proofOk) =>
      && proofOk && c in s.conns && s.conns[c].phase == Auth && s.conns[c].candidate.Some? && o == Disconnected
      && s.conns[c].candidate.value in s.registered && PendingAt(s, s.registered[s.conns[c].candidate.value], r)
    case SocketClosed(c) => PendingAt(s, c, r) && o == Disconnected
    case _ => false
  }

  lemma SettledOne(s: State, c: nat, req: nat, o: Outcome, r: nat)
    requires c in s.conns
    ensures var t := Settled(s, c, req, o);
            if r == req && PendingAt(s, c, r)
            then t.settled[r] == s.settled[r] + 1 && r in t.outcomes && t.outcomes[r] == o
            else t.settled[r] == s.settled[r] && (r in t.outcomes <==> r in s.outcomes) && (r in s.outcomes ==> t.outcomes[r] == s.outcomes[r])
  {
  }

  lemma SettledEach(s: State, c: nat, o: Outcome, r: nat)
    requires c in s.conns
    ensures var t := AllSettled(s, c, o);
            if PendingAt(s, c, r)
            then t.settled[r] == s.settled[r] + 1 && r in t.outcomes && t.outcomes[r] == o
            else t.settled[r] == s.settled[r] && (r in t.outcomes <==> r in s.outcomes) && (r in s.outcomes ==> t.outcomes[r] == s.outcomes[r])
  {
  }

  /**
   * A request is settled by the answer it waits for, on the connection it went out on, while that is
   * open; by its own timer; by a send that fails; and by the end of its connection, closed or
   * superseded; as that, and by nothing else.
   */
  lemma SettledExactly(s: State, provisioned: set<nat>, e: Event, r: nat)
    requires Inv(s)
    ensures var t := Step(s, provisioned, e);
            if exists o :: SettledBy(s, e, r, o)
            then t.settled[r] == s.settled[r] + 1 && r in t.outcomes && SettledBy(s, e, r, t.outcomes[r])
            else t.settled[r] == s.settled[r] && (r in t.outcomes <==> r in s.outcomes) && (r in s.outcomes ==> t.outcomes[r] == s.outcomes[r])
  {
    hide Account, AllSettled, Settled;
    var o := if e.Reply? then Answered else if e.Timer? then TimedOut else if e.Send? then SendFailed else Disconnected;
    assert (exists p :: SettledBy(s, e, r, p)) <==> SettledBy(s, e, r, o);
    match e
    case Reply(c, req, kind) =>
      if c in s.conns {
        SettledOne(s, c, req, o, r);
      }
    case Timer(c, req) =>
      if c in s.conns {
        SettledOne(s, c, req, o, r);
      }
    case Send(d, req, wanted, sent) =>
      if d in s.registered && req !in s.asked {
        var c := s.registered[d];
        SettledOne(s.(asked := s.asked + multiset{req},
                      conns := s.conns[c := s.conns[c].(pending := s.conns[c].pending[req := wanted])]), c, req, o, r);
      }
    case AuthFrame(c, proofOk) =>
      if Proves(s, c, proofOk) {
        var d := s.conns[c].candidate.value;
        var t := s.(conns := s.conns[c := s.conns[c].(phase := Open, record := Some(d))], registered := s.registered[d := c]);
        if d in s.registered {
          SettledEach(t, s.registered[d], o, r);
        }
      }
    case SocketClosed(c) =>
      if c in s.conns {
        SettledEach(s.(conns := s.conns[c := s.conns[c].(phase := Closed)]), c, o, r);
      }
    case _ =>
  }

  /** A request that goes out waits for its answer on its device's live connection, and only there. */
  lemma WaitsThere(s: State, d: nat, req: nat, wanted: nat)
    requires Inv(s) && d in s.registered && req !in s.asked
    ensures var t := Request(s, d, req, wanted, true);
            && PendingAt(t, s.registered[d], req) && t.conns[s.registered[d]].pending[req] == wanted && t.asked == s.asked + multiset{req}
            && forall c, r :: PendingAt(t, c, r) <==> PendingAt(s, c, r) || (c == s.registered[d] && r == req)
  {
  }

  // Who gets registered

  /** A socket begins with nothing; a good hello is challenged whether the device is known or not. */
  lemma ComesIn(s: State, provisioned: set<nat>, c: nat, dev: nat, acceptable: bool)
    ensures var t := Accept(s, c);
            t == s.(conns := t.conns) && t.conns == if c in s.conns then s.conns else s.conns[c := Conn(Hello, None, None, map[])]
    ensures var t := OnHello(s, provisioned, c, dev, acceptable);
            && t == s.(conns := t.conns) && t.conns.Keys == s.conns.Keys
            && (forall k :: k in s.conns && k != c ==> t.conns[k] == s.conns[k])
            && (c in s.conns && s.conns[c].phase == Hello && acceptable ==>
                  && t.conns[c].phase == Auth && t.conns[c].record == s.conns[c].record && t.conns[c].pending == s.conns[c].pending
                  && (dev in provisioned ==> t.conns[c].candidate == Some(dev))
                  && (dev !in provisioned ==> t.conns[c].candidate == None))
            && (c in s.conns && !(s.conns[c].phase == Hello && acceptable) ==> t.conns[c] == s.conns[c])
  {
  }

  /** What past events account for: every candidate by its hello, every registration by a right proof as well. */
  ghost predicate Earned(s: State, provisioned: set<nat>, past: seq<Event>) {
    && (forall c :: c in s.conns && s.conns[c].candidate.Some? ==>
          s.conns[c].candidate.value in provisioned && HelloFrame(c, s.conns[c].candidate.value, true) in past)
    && (forall d :: d in s.registered ==>
          && d in provisioned && HelloFrame(s.registered[d], d, true) in past && AuthFrame(s.registered[d], true) in past)
  }

  lemma EarnedStep(s: State, provisioned: set<nat>, past: seq<Event>, e: Event)
    requires Inv(s) && Earned(s, provisioned, past)
    ensures Earned(Step(s, provisioned, e), provisioned, past + [e])
  {
    hide Account, AllSettled, Settled, Registry, OnlyLive;
    CandidatesStay(s, provisioned, e);
  }

  /** Only a hello changes whom a socket claims to be, and only a proof or a close whom it is. */
  lemma CandidatesStay(s: State, provisioned: set<nat>, e: Event)
    ensures var t := Step(s, provisioned, e);
            && (forall c :: c in t.conns && !(c in s.conns && t.conns[c].candidate == s.conns[c].candidate) && t.conns[c].candidate.Some? ==>
                  e == HelloFrame(c, t.conns[c].candidate.value, true) && t.conns[c].candidate.value in provisioned)
            && (forall d :: d in t.registered && !(d in s.registered && t.registered[d] == s.registered[d]) ==>
                  e == AuthFrame(t.registered[d], true) && t.registered[d] in s.conns && s.conns[t.registered[d]].candidate == Some(d))
  {
    hide Accept, OnHello, OnAuth, Request, OnReply, OnTimer, OnClose;
    match e
    case Arrive(c) => ComesIn(s, provisioned, c, 0, false);
    case HelloFrame(c, dev, acceptable) => ComesIn(s, provisioned, c, dev, acceptable);
    case AuthFrame(c, proofOk) => AuthWho(s, c, proofOk);
    case Send(d, req, wanted, sent) => RequestWho(s, d, req, wanted, sent);
    case Reply(c, req, kind) => AnswerWho(s, c, req, kind);
    case Timer(c, req) => AnswerWho(s, c, req, 0);
    case SocketClosed(c) =>
      if c in s.conns {
        CloseEffect(s, c);
      } else {
        NoSuchClose(s, c);
      }
  }

  lemma NoSuchClose(s: State, c: nat)
    requires c !in s.conns
    ensures OnClose(s, c) == s
  {
  }

  predicate SameWho(s: State, t: State) {
    t.registered == s.registered && t.conns.Keys == s.conns.Keys && forall c :: c in s.conns ==> t.conns[c].candidate == s.conns[c].candidate
  }

  lemma SettledWho(s: State, c: nat, req: nat, o: Outcome)
    requires c in s.conns
    ensures SameWho(s, Settled(s, c, req, o)) && SameWho(s, AllSettled(s, c, o))
  {
  }

  lemma AuthWho(s: State, c: nat, proofOk: bool)
    ensures var t := OnAuth(s, c, proofOk);
            if Proves(s, c, proofOk)
            then t.registered == s.registered[s.conns[c].candidate.value := c] && SameWho(s, t.(registered := s.registered)) && proofOk
            else t == s
  {
    hide Settled, AllSettled;
    if Proves(s, c, proofOk) {
      var d := s.conns[c].candidate.value;
      var t := s.(conns := s.conns[c := s.conns[c].(phase := Open, record := Some(d))], registered := s.registered[d := c]);
      if d in s.registered && s.registered[d] in t.conns {
        SettledWho(t, s.registered[d], 0, Disconnected);
      }
    }
  }

  lemma RequestWho(s: State, d: nat, req: nat, wanted: nat, sent: bool)
    ensures SameWho(s, Request(s, d, req, wanted, sent))
  {
    hide Settled;
    if d in s.registered && s.registered[d] in s.conns {
      var c := s.registered[d];
      SettledWho(s.(asked := s.asked + multiset{req},
                    conns := s.conns[c := s.conns[c].(pending := s.conns[c].pending[req := wanted])]), c, req, SendFailed);
    }
  }

  lemma AnswerWho(s: State, c: nat, req: nat, kind: nat)
    ensures SameWho(s, OnReply(s, c, req, kind)) && SameWho(s, OnTimer(s, c, req))
  {
    hide Settled;
    if c in s.conns {
      SettledWho(s, c, req, Answered);
      SettledWho(s, c, req, TimedOut);
    }
  }

  lemma {:induction false} EarnedRun(s: State, provisioned: set<nat>, past: seq<Event>, events: seq<Event>)
    requires Inv(s) && Earned(s, provisioned, past)
    ensures Earned(RunOf(s, provisioned, events), provisioned, past + events)
    decreases |events|
  {
    hide Inv, Earned, Step;
    if events == [] {
      assert past + events == past;
    } else {
      StepKeeps(s, provisioned, events[0]);
      EarnedStep(s, provisioned, past, events[0]);
      EarnedRun(Step(s, provisioned, events[0]), provisioned, past + [events[0]], events[1..]);
      assert past + [events[0]] + events[1..] == past + events;
    }
  }

  /** In every run, whoever is registered as a device is provisioned, said it was that device, and proved it. */
  lemma RegisteredEarnedIt(provisioned: set<nat>, events: seq<Event>, d: nat)
    ensures var s := RunOf(START, provisioned, events);
            d in s.registered ==>
              && d in provisioned && HelloFrame(s.registered[d], d, true) in events && AuthFrame(s.registered[d], true) in events
  {
    EarnedRun(START, provisioned, [], events);
    assert [] + events == events;
  }

  lemma EachAmong(m: map<nat, Outcome>, reqs: set<nat>, r: nat, o: Outcome)
    requires r in reqs
    ensures m[r := o] + Each(reqs - {r}, o) == m + Each(reqs, o)
  {
  }

  lemma CountAmong(m: multiset<nat>, reqs: set<nat>, r: nat)
    requires r in reqs
    ensures m + multiset{r} + multiset(reqs - {r}) == m + multiset(reqs)
  {
    assert reqs == (reqs - {r}) + {r};
  }

  /** Settling one request first makes no difference to settling them all. */
  lemma SettledAmongAll(s: State, c: nat, r: nat, o: Outcome)
    requires c in s.conns && r in s.conns[c].pending
    ensures var t := Settled(s, c, r, o);
            c in t.conns && t.conns[c].pending.Keys == s.conns[c].pending.Keys - {r} && AllSettled(t, c, o) == AllSettled(s, c, o)
  {
    hide Each;
    var reqs := s.conns[c].pending.Keys;
    EachAmong(s.outcomes, reqs, r, o);
    CountAmong(s.settled, reqs, r);
    var t := Settled(s, c, r, o);
    assert t.conns[c].pending.Keys == reqs - {r};
    assert t.conns[c := t.conns[c].(pending := map[])] == s.conns[c := s.conns[c].(pending := map[])];
  }

  lemma NoneLeft(s: State, c: nat, o: Outcome)
    requires c in s.conns && s.conns[c].pending.Keys == {}
    ensures AllSettled(s, c, o) == s
  {
    assert s.conns[c].pending == map[];
    assert s.conns[c := s.conns[c].(pending := map[])] == s.conns;
    assert s.outcomes + Each({}, o) == s.outcomes;
  }

  // The code

  /** The relay's connections and records, changed as sockets and timers call in. */
  class Relay {
    var conns: map<nat, Conn>
    var registered: map<nat, nat>
    var asked: multiset<nat>
    var settled: multiset<nat>
    var outcomes: map<nat, Outcome>

    ghost function Now(): State
      reads this
    {
      State(conns, registered, asked, settled, outcomes)
    }

    constructor ()
      ensures Now() == START
    {
      conns, registered, asked, settled, outcomes := map[], map[], multiset{}, multiset{}, map[];
    }

    method Settle(c: nat, req: nat, o: Outcome)
      requires c in conns
      modifies this`conns, this`settled, this`outcomes
      ensures Now() == Settled(old(Now()), c, req, o)
    {
      if req !in conns[c].pending {
        return;
      }
      conns := conns[c := conns[c].(pending := Removed(conns[c].pending, req))];
      settled := settled + multiset{req};
      outcomes := outcomes[req := o];
    }

    /** settleAll: every outstanding request of one connection, in whatever order the map gives them. */
    method SettleAll(c: nat, o: Outcome)
      requires c in conns
      modifies this`conns, this`settled, this`outcomes
      ensures Now() == AllSettled(old(Now()), c, o)
    {
      hide AllSettled, Settled;
      while conns[c].pending.Keys != {}
        invariant c in conns && AllSettled(Now(), c, o) == AllSettled(old(Now()), c, o)
        decreases conns[c].pending.Keys
      {
        var r :| r in conns[c].pending.Keys;
        SettledAmongAll(Now(), c, r, o);
        Settle(c, r, o);
      }
      NoneLeft(Now(), c, o);
    }

    method Authenticate(c: nat, proofOk: bool)
      modifies this`conns, this`registered, this`settled, this`outcomes
      ensures Now() == OnAuth(old(Now()), c, proofOk)
    {
      if c !in conns || conns[c].phase != Auth || !proofOk || conns[c].candidate.None? {
        return;
      }
      var d := conns[c].candidate.value;
      conns := conns[c := conns[c].(phase := Open, record := Some(d))];
      var previous := if d in registered then Some(registered[d]) else None;
      registered := registered[d := c];
      if previous.Some? && previous.value != c && previous.value in conns {
        SettleAll(previous.value, Disconnected);
      }
    }

    method SendRequest(d: nat, req: nat, kind: nat, sent: bool)
      modifies this`conns, this`asked, this`settled, this`outcomes
      ensures Now() == Request(old(Now()), d, req, kind, sent)
    {
      if d !in registered || registered[d] !in conns || req in asked {
        return;
      }
      var c := registered[d];
      asked := asked + multiset{req};
      conns := conns[c := conns[c].(pending := conns[c].pending[req := kind])];
      if !sent {
        Settle(c, req, SendFailed);
      }
    }

    method ReplyFrame(c: nat, req: nat, kind: nat)
      modifies this`conns, this`settled, this`outcomes
      ensures Now() == OnReply(old(Now()), c, req, kind)
    {
      if c !in conns || conns[c].phase != Open || req !in conns[c].pending {
        return;
      }
      if kind == conns[c].pending[req] {
        Settle(c, req, Answered);
      }
    }

    method CloseSocket(c: nat)
      modifies this`conns, this`registered, this`settled, this`outcomes
      ensures Now() == OnClose(old(Now()), c)
    {
      if c !in conns {
        return;
      }
      var rec := conns[c].record;
      conns := conns[c := conns[c].(phase := Closed)];
      SettleAll(c, Disconnected);
      if rec.Some? && rec.value in registered && registered[rec.value] == c {
        registered := Removed(registered, rec.value);
      }
    }
  }
}
