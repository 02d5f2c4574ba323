/**
 * The device's side of a relay connection: one command slot, plug operations that outlive the
 * frame that asked for them, and connections that come and go (firmware/src/proto/proto.c).
 *
 * Frames arrive already parsed. A request id is written together with the connection it came on,
 * so that an answer on the wrong connection would show.
 */
module RelaySession {
  import opened Bytes
  import P = PlugDriver

  datatype ReqId = ReqId(conn: nat, n: nat)

  datatype Kind =
    | Nothing | Wake | Status | Probe | Scan | OtaBegin
    | PlugScan | PlugSet | PlugStatus | PlugFwCheck | PlugFwUpdate

  /** A command and everything it names. */
  datatype What =
    | WakeOf(mac: nat, repeat: nat)
    | ScanHosts
    | ScanPlugs
    | SetPlug(mac: nat, ip: nat, channel: nat, verb: P.Verb, offMs: nat)
    | ReadPlug(mac: nat, ip: nat, channel: nat)
    | CheckFw(mac: nat, ip: nat)
    | UpdateFw(mac: nat, ip: nat)

  datatype Ask = Ask(req: ReqId, what: What)

  datatype Verdict = Bad | NoLink | Busy | Done | PlugSaid(o: P.Outcome)

  /** A command frame: what it asks, and what reading it and checking the network found. */
  datatype Frame = Frame(n: nat, what: What, wellFormed: bool, linkUp: bool, local: bool)

  datatype Link = Down | Ready | Failed

  /** The one command slot, and the fields its parameters wait in. */
  datatype Slot = Slot(kind: Kind, req: ReqId, mac: nat, repeat: nat, ip: nat, channel: nat, verb: P.Verb, offMs: nat)

  /** The plug operation in progress: whose it is, and what the driver was started with. */
  datatype Owner = Owner(owned: bool, req: ReqId, kind: Kind, started: What)

  /** The probe in progress, likewise. */
  datatype Watch = Watch(running: bool, owned: bool, req: ReqId, heard: bool)

  datatype Answer = Answer(ask: Ask, verdict: Verdict)

  /** What has been asked and answered on the current connection, and how. */
  datatype Ledger =
    Ledger(conn: nat, asked: multiset<Ask>, told: multiset<Ask>, said: seq<Answer>, probesTold: multiset<ReqId>)

  datatype Sess = Sess(link: Link, slot: Slot, sweeping: bool, plug: Owner, watch: Watch, drv: P.Drv, ledger: Ledger)

  const NOBODY: ReqId := ReqId(0, 0)

  const START: Sess :=
    Sess(Down, Slot(Nothing, NOBODY, 0, 0, 0, 0, P.On, 0), false, Owner(false, NOBODY, Nothing, ScanPlugs),
         Watch(false, false, NOBODY, false), P.REST, Ledger(0, multiset{}, multiset{}, [], multiset{}))

  function KindOf(w: What): Kind {
    match w
    case WakeOf(_, _) => Wake
    case ScanHosts => Scan
    case ScanPlugs => PlugScan
    case SetPlug(_, _, _, _, _) => PlugSet
    case ReadPlug(_, _, _) => PlugStatus
    case CheckFw(_, _) => PlugFwCheck
    case UpdateFw(_, _) => PlugFwUpdate
  }

  predicate NeedsDriver(k: Kind) {
    k == PlugSet || k == PlugStatus || k == PlugFwCheck || k == PlugFwUpdate
  }

  predicate IsPlug(k: Kind) {
    k == PlugScan || NeedsDriver(k)
  }

  /** A result frame goes out; lost without trace if the connection is not there. */
  function Tell(s: Sess, ask: Ask, v: Verdict): Sess {
    if s.link == Ready
    then s.(ledger := s.ledger.(told := s.ledger.told + multiset{ask}, said := s.ledger.said + [Answer(ask, v)])) else s
  }

  /** Reading the slot back into the command it holds. */
  function Held(q: Slot): Ask {
    Ask(q.req,
        match q.kind
        case Wake => WakeOf(q.mac, q.repeat)
        case Scan => ScanHosts
        case PlugSet => SetPlug(q.mac, q.ip, q.channel, q.verb, q.offMs)
        case PlugStatus => ReadPlug(q.mac, q.ip, q.channel)
        case PlugFwCheck => CheckFw(q.mac, q.ip)
        case PlugFwUpdate => UpdateFw(q.mac, q.ip)
        case _ => ScanPlugs)
  }

  /** queue, and the parameters that are written once it has said yes. */
  function Queued(q: Slot, req: ReqId, w: What): Slot {
    var r := q.(kind := KindOf(w), req := req);
    match w
    case WakeOf(mac, repeat) => r.(mac := mac, repeat := repeat)
    case ScanHosts => r
    case ScanPlugs => r
    case SetPlug(mac, ip, channel, verb, offMs) => r.(mac := mac, ip := ip, channel := channel, verb := verb, offMs := offMs)
    case ReadPlug(mac, ip, channel) => r.(mac := mac, ip := ip, channel := channel)
    case CheckFw(mac, ip) => r.(mac := mac, ip := ip)
    case UpdateFw(mac, ip) => r.(mac := mac, ip := ip)
  }

  /** Whether the slot, and for plug commands the driver, will take a command now. */
  predicate Free(s: Sess, k: Kind) {
    s.slot.kind == Nothing && (IsPlug(k) ==> !s.plug.owned && s.drv.phase == P.Idle)
  }

  /** Why a frame is refused on sight; None if only the slot can refuse it. */
  function Objection(f: Frame): Option<Verdict> {
    var k := KindOf(f.what);
    if k == Scan || k == PlugScan then None
    else if !f.wellFormed then Some(Bad)
    else if !f.linkUp then Some(NoLink)
    else if IsPlug(k) && !f.local then Some(Bad)
    else None
  }

  /** on_text, for the seven commands that are answered once. */
  function Command(s: Sess, f: Frame): Sess {
    if s.link != Ready then s
    else
      var ask := Ask(ReqId(s.ledger.conn, f.n), f.what);
      var t := s.(ledger := s.ledger.(asked := s.ledger.asked + multiset{ask}));
      if Objection(f).Some? then Tell(t, ask, Objection(f).value)
      else if !Free(t, KindOf(f.what)) then Tell(t, ask, Busy)
      else t.(slot := Queued(t.slot, ask.req, f.what))
  }

  /** `status`, `probe` and `ota_offer` share the slot; a full one turns them away. */
  function Other(s: Sess, k: Kind, n: nat): Sess {
    if s.link != Ready || s.slot.kind != Nothing then s
    else s.(slot := s.slot.(kind := k, req := ReqId(s.ledger.conn, n)))
  }

  /** plug_done: the driver's completion, if it calls anyone. */
  function PlugDone(s: Sess, o: P.Outcome): Sess {
    if !s.plug.owned || s.link != Ready then s
    else Tell(s.(plug := s.plug.(owned := false)), Ask(s.plug.req, s.plug.started), PlugSaid(o))
  }

  function JobOf(w: What): P.Job {
    match w
    case SetPlug(_, _, _, verb, offMs) => P.SetJob(verb, offMs)
    case CheckFw(_, _) => P.FwCheckJob
    case UpdateFw(_, _) => P.FwUpdateJob
    case _ => P.StatusJob
  }

  /** The plug branch of run_pending: take ownership, start the driver, answer busy if it refuses. */
  function RunPlug(s: Sess, p: P.Pass): Sess {
    var ask := Held(s.slot);
    var mine := s.(plug := Owner(true, ask.req, s.slot.kind, ask.what));
    var (d, o, started) := P.Start(s.drv, JobOf(ask.what), s.slot.ip, p);
    var t := mine.(drv := d);
    if !started then Tell(t.(plug := t.plug.(owned := false)), ask, Busy)
    else if o.Some? then PlugDone(t, o.value)
    else t
  }

  /** The probe branch: ownership is taken before the start is known to have worked. */
  function RunProbe(s: Sess): Sess {
    var mine := s.(watch := s.watch.(req := s.slot.req, owned := true));
    if s.watch.running then
      var t := mine.(watch := mine.watch.(owned := false));
      t.(ledger := t.ledger.(probesTold := t.ledger.probesTold + multiset{s.slot.req}))
    else mine.(watch := mine.watch.(running := true, heard := true))
  }

  function Emptied(s: Sess): Sess {
    s.(slot := s.slot.(kind := Nothing))
  }

  /** run_pending. A sweep only begins here: it pumps the network, so frames and closes come in meanwhile. */
  function RunPending(s: Sess, p: P.Pass): Sess {
    if s.link != Ready || s.sweeping then s
    else if s.slot.kind == Scan || s.slot.kind == PlugScan then s.(sweeping := true)
    else if s.slot.kind == Wake then Emptied(Tell(s, Held(s.slot), Done))
    else if NeedsDriver(s.slot.kind) then Emptied(RunPlug(s, p))
    else if s.slot.kind == Probe then Emptied(RunProbe(s))
    else Emptied(s)
  }

  /** The sweep is over: its answer, addressed by what the slot holds now. */
  function SweepDone(s: Sess): Sess {
    if !s.sweeping then s
    else Emptied(Tell(s.(sweeping := false), Held(s.slot), Done))
  }

  /** A probe ends, up or timed out. */
  function ProbeEnds(s: Sess): Sess {
    if !s.watch.running || s.sweeping then s
    else
      var t := s.(watch := s.watch.(running := false));
      if !s.watch.heard || !s.watch.owned || s.link != Ready then t
      else t.(watch := t.watch.(owned := false),
              ledger := t.ledger.(probesTold := t.ledger.probesTold + multiset{s.watch.req}))
  }

  /** on_close. */
  function Closed(s: Sess): Sess {
    s.(link := Down, slot := s.slot.(kind := Nothing),
       watch := if s.watch.owned then Watch(false, false, s.watch.req, false) else s.watch,
       drv := if s.plug.owned then P.Cancel(s.drv) else s.drv,
       plug := s.plug.(owned := false))
  }

  /**
   * rw_plug_task on the main loop. Its search for an address pumps the network too; `dropped` means
   * that the connection closed in the middle of it, and the driver hears of that if it works for us.
   */
  function PlugTask(s: Sess, p: P.Pass): Sess {
    if s.sweeping then s
    else if s.link != Down && P.DroppedIn(s.drv, p) then
      Closed(s).(drv := P.Task(s.drv, if s.plug.owned then p else P.NotDropped(p)).0)
    else
      var (d, o) := P.Task(s.drv, P.NotDropped(p));
      var t := s.(drv := d);
      if o.Some? && s.drv.cb then PlugDone(t, o.value) else t
  }

  /** hello_ack on a new connection; a sweep holds the main loop, which is what connects. */
  function Connected(s: Sess): Sess {
    if s.link != Down || s.sweeping then s
    else s.(link := Ready, ledger := Ledger(s.ledger.conn + 1, multiset{}, multiset{}, [], multiset{}))
  }

  datatype Event =
    | Connect
    | Text(f: Frame)
    | Aside(kind: Kind, n: nat)   // status, probe or ota_offer
    | Pending(p: P.Pass)
    | SweepEnd
    | PlugPass(p: P.Pass)         // with a close inside it, if it says so
    | ProbeEnd
    | Reject                      // authentication withdrawn: the socket is closing
    | Close

  function Step(s: Sess, e: Event): Sess {
    match e
    case Connect => Connected(s)
    case Text(f) => Command(s, f)
    case Aside(k, n) => if k == Status || k == Probe || k == OtaBegin then Other(s, k, n) else s
    case Pending(p) => RunPending(s, p)
    case SweepEnd => SweepDone(s)
    case PlugPass(p) => PlugTask(s, p)
    case ProbeEnd => ProbeEnds(s)
    case Reject => if s.link == Ready then s.(link := Failed) else s
    case Close => if s.link == Down then s else Closed(s)
  }

  // Every command is answered once, here, with its own parameters

  /** The kinds that owe an answer. */
  predicate Owed(k: Kind) {
    k == Wake || k == Scan || IsPlug(k)
  }

  /** Commands taken and not yet answered: in the slot, or with the driver. */
  function InFlight(s: Sess): multiset<Ask> {
    (if Owed(s.slot.kind) then multiset{Held(s.slot)} else multiset{})
    + (if s.plug.owned then multiset{Ask(s.plug.req, s.plug.started)} else multiset{})
  }

  ghost predicate Inv(s: Sess) {
    && (s.link == Ready ==> s.ledger.asked == s.ledger.told + InFlight(s))
    && (s.link == Ready ==> forall a :: a in s.ledger.asked ==> a.req.conn == s.ledger.conn)
    && (s.link == Ready && s.plug.owned ==> s.drv.phase != P.Idle && s.drv.cb && !IsPlug(s.slot.kind))
    && (s.link == Ready && IsPlug(s.slot.kind) ==> s.drv.phase == P.Idle && !s.plug.owned)
    && (s.link == Ready && s.sweeping ==> s.slot.kind == Scan || s.slot.kind == PlugScan)
    && (s.link == Down ==> s.slot.kind == Nothing && !s.plug.owned)
    && (s.link == Ready && s.plug.owned ==> DoneFor(s.drv.op, s.plug.started))
    && P.WellFormed(s.drv)
  }

  /** The driver is at what this command names: its kind of operation and no other, with its parameters. */
  predicate DoneFor(op: P.Op, w: What) {
    match w
    case SetPlug(_, _, _, verb, offMs) =>
      !op.isStatus && !op.isFwCheck && !op.isFwUpdate && op.verb == verb && op.offMs == offMs
    case ReadPlug(_, _, _) => op.isStatus && !op.isFwCheck && !op.isFwUpdate
    case CheckFw(_, _) => !op.isStatus && op.isFwCheck && !op.isFwUpdate
    case UpdateFw(_, _) => !op.isStatus && !op.isFwCheck && op.isFwUpdate
    case _ => false
  }

  /** The address a command gives for its plug. */
  function AddressOf(w: What): nat {
    match w
    case SetPlug(_, ip, _, _, _) => ip
    case ReadPlug(_, ip, _) => ip
    case CheckFw(_, ip) => ip
    case UpdateFw(_, ip) => ip
    case _ => 0
  }

  /** What a frame named is what the slot gives back. */
  lemma HeldIsQueued(q: Slot, req: ReqId, w: What)
    ensures Held(Queued(q, req, w)) == Ask(req, w) && Queued(q, req, w).kind == KindOf(w)
  {
  }

  function Received(s: Sess, ask: Ask): Sess {
    s.(ledger := s.ledger.(asked := s.ledger.asked + multiset{ask}))
  }

  lemma RefusalKeeps(s: Sess, ask: Ask, v: Verdict)
    requires Inv(s) && s.link == Ready && ask.req.conn == s.ledger.conn
    ensures Inv(Tell(Received(s, ask), ask, v))
  {
    hide P.WellFormed, Held;
  }

  lemma AcceptanceKeeps(s: Sess, ask: Ask)
    requires Inv(s) && s.link == Ready && ask.req.conn == s.ledger.conn && Free(s, KindOf(ask.what))
    ensures Inv(Received(s, ask).(slot := Queued(s.slot, ask.req, ask.what)))
  {
    hide P.WellFormed, Held, Queued;
    HeldIsQueued(s.slot, ask.req, ask.what);
  }

  lemma CommandKeeps(s: Sess, f: Frame)
    requires Inv(s)
    ensures Inv(Command(s, f))
  {
    hide Inv, Tell, Queued, Objection;
    if s.link == Ready {
      var ask := Ask(ReqId(s.ledger.conn, f.n), f.what);
      RefusalKeeps(s, ask, Busy);
      if Objection(f).Some? {
        RefusalKeeps(s, ask, Objection(f).value);
      } else if Free(s, KindOf(f.what)) {
        AcceptanceKeeps(s, ask);
      }
    }
  }

  lemma RunPlugKeeps(s: Sess, p: P.Pass)
    requires Inv(s) && s.link == Ready && !s.sweeping && NeedsDriver(s.slot.kind)
    ensures Inv(Emptied(RunPlug(s, p)))
    ensures P.Start(s.drv, JobOf(Held(s.slot).what), s.slot.ip, p).2
    ensures var (d, what) := (RunPlug(s, p).drv, Held(s.slot).what);
            && DoneFor(d.op, what) && |d.requests| == |s.drv.requests| + 1
            && d.requests[|s.drv.requests|] == P.Request(P.Probe, false, AddressOf(what), p.send)
  {
    hide P.Start, P.WellFormed;
    P.StartedOrEnded(s.drv, JobOf(Held(s.slot).what), s.slot.ip, p);
    P.StartOnJob(s.drv, JobOf(Held(s.slot).what), s.slot.ip, p);
  }

  lemma PlugTaskKeeps(s: Sess, p: P.Pass)
    requires Inv(s)
    ensures Inv(PlugTask(s, p))
  {
    hide Inv, Closed, P.Task, P.NotDropped, P.DroppedIn;
    var q := P.NotDropped(p);
    if !s.sweeping {
      if s.link != Down && P.DroppedIn(s.drv, p) {
        ClosedInsideKeeps(s, if s.plug.owned then p else q);
      } else {
        PassKeeps(s, q);
      }
    }
  }

  lemma ClosedInsideKeeps(s: Sess, p: P.Pass)
    requires Inv(s)
    ensures Inv(Closed(s).(drv := P.Task(s.drv, p).0))
  {
    hide P.Task, P.WellFormed, P.Cancel;
    if s.drv.phase == P.Idle {
      P.IdleRests(s.drv, p);
    } else {
      P.EveryOperationEnds(s.drv, p);
    }
  }

  lemma PassKeeps(s: Sess, p: P.Pass)
    requires Inv(s) && !s.sweeping && !P.DroppedIn(s.drv, p)
    ensures var (d, o) := P.Task(s.drv, p);
            var t := s.(drv := d);
            Inv(if o.Some? && s.drv.cb then PlugDone(t, o.value) else t)
  {
    hide P.Task, P.WellFormed, P.DroppedIn;
    P.TaskKeepsCaller(s.drv, p);
    if s.drv.phase == P.Idle {
      P.IdleRests(s.drv, p);
    } else {
      P.EveryOperationEnds(s.drv, p);
    }
  }

  lemma ClosedKeeps(s: Sess)
    requires Inv(s)
    ensures Inv(Closed(s))
  {
  }

  /** The answer to what the slot holds, and the slot empty again. */
  lemma AnswerKeeps(s: Sess, v: Verdict)
    requires Inv(s) && s.link == Ready && Owed(s.slot.kind)
    ensures Inv(Emptied(Tell(s.(sweeping := false), Held(s.slot), v)))
  {
    hide P.WellFormed, Held;
  }

  /** Commands that are not counted come and go without touching the account. */
  lemma UncountedKeeps(s: Sess, q: Slot)
    requires Inv(s) && !Owed(s.slot.kind) && !Owed(q.kind) && (s.link == Ready ==> !s.sweeping)
    requires s.link == Down ==> q.kind == Nothing
    ensures Inv(s.(slot := q))
  {
    hide P.WellFormed, Held;
    assert InFlight(s.(slot := q)) == InFlight(s);
  }

  lemma ProbeKeeps(s: Sess)
    requires Inv(s) && s.link == Ready
    ensures var t := RunProbe(s);
            Inv(t) && t.slot == s.slot && t.link == s.link && t.sweeping == s.sweeping
  {
    hide P.WellFormed, Held;
    assert InFlight(RunProbe(s)) == InFlight(s);
  }

  lemma PendingKeeps(s: Sess, p: P.Pass)
    requires Inv(s)
    ensures Inv(RunPending(s, p))
  {
    hide P.WellFormed, RunPlug, Held, RunProbe, Tell;
    if s.link == Ready && !s.sweeping {
      if NeedsDriver(s.slot.kind) {
        RunPlugKeeps(s, p);
      } else if s.slot.kind == Wake {
        AnswerKeeps(s, Done);
        assert s.(sweeping := false) == s;
      } else if s.slot.kind == Probe {
        ProbeKeeps(s);
        UncountedKeeps(RunProbe(s), s.slot.(kind := Nothing));
      } else if !Owed(s.slot.kind) {
        UncountedKeeps(s, s.slot.(kind := Nothing));
      } else {
        SweepBegins(s);
      }
    }
  }

  lemma SweepBegins(s: Sess)
    requires Inv(s) && s.link == Ready && (s.slot.kind == Scan || s.slot.kind == PlugScan)
    ensures Inv(s.(sweeping := true))
  {
    hide P.WellFormed, Held;
  }

  lemma SweepDoneKeeps(s: Sess)
    requires Inv(s)
    ensures Inv(SweepDone(s))
  {
    hide P.WellFormed, Held;
    if s.sweeping && s.link == Ready {
      AnswerKeeps(s, Done);
    }
  }

  lemma AsideKeeps(s: Sess, k: Kind, n: nat)
    requires Inv(s) && (k == Status || k == Probe || k == OtaBegin)
    ensures Inv(Other(s, k, n))
  {
    hide P.WellFormed, Held;
    if s.link == Ready && s.slot.kind == Nothing {
      UncountedKeeps(s, s.slot.(kind := k, req := ReqId(s.ledger.conn, n)));
    }
  }

  lemma ConnectedKeeps(s: Sess)
    requires Inv(s)
    ensures Inv(Connected(s))
  {
    hide P.WellFormed, Held;
  }

  lemma ProbeEndsKeeps(s: Sess)
    requires Inv(s)
    ensures Inv(ProbeEnds(s))
  {
    hide P.WellFormed, Held;
    assert InFlight(ProbeEnds(s)) == InFlight(s);
  }

  lemma RejectKeeps(s: Sess)
    requires Inv(s) && s.link == Ready
    ensures Inv(s.(link := Failed))
  {
    hide P.WellFormed, Held;
  }

  /** Every event keeps the account balanced. */
  lemma StepKeeps(s: Sess, e: Event)
    requires Inv(s)
    ensures Inv(Step(s, e))
  {
    hide Inv, RunPending, PlugTask, Command, Closed, SweepDone, Other, Connected, ProbeEnds;
    if e.Text? {
      CommandKeeps(s, e.f);
    } else if e.PlugPass? {
      PlugTaskKeeps(s, e.p);
    } else if e.Close? {
      ClosedKeeps(s);
    } else if e.Pending? {
      PendingKeeps(s, e.p);
    } else if e.SweepEnd? {
      SweepDoneKeeps(s);
    } else if e.Aside? {
      if e.kind == Status || e.kind == Probe || e.kind == OtaBegin {
        AsideKeeps(s, e.kind, e.n);
      }
    } else if e.Connect? {
      ConnectedKeeps(s);
    } else if e.ProbeEnd? {
      ProbeEndsKeeps(s);
    } else if s.link == Ready {
      RejectKeeps(s);
    }
  }

  function RunOf(s: Sess, events: seq<Event>): Sess
    decreases |events|
  {
    if events == [] then s else RunOf(Step(s, events[0]), events[1..])
  }

  lemma {:induction false} RunKeeps(s: Sess, events: seq<Event>)
    requires Inv(s)
    ensures Inv(RunOf(s, events))
    decreases |events|
  {
    hide Step, Inv;
    if events != [] {
      StepKeeps(s, events[0]);
      RunKeeps(Step(s, events[0]), events[1..]);
    }
  }

  /**
   * In every run, on the connection that is up: each command received has been answered once or
   * is still in flight, never both and never twice; every answer names the request, the
   * connection and the parameters of the frame it answers; and a plug command that reaches the
   * front of the queue finds the driver at rest, so it is never refused there.
   */
  lemma OneAnswerEach(events: seq<Event>, ask: Ask, p: P.Pass)
    ensures var s := RunOf(START, events);
            s.link == Ready ==>
              && s.ledger.told[ask] + InFlight(s)[ask] == s.ledger.asked[ask]
              && (ask in s.ledger.told ==> ask in s.ledger.asked && ask.req.conn == s.ledger.conn)
              && (!s.sweeping && NeedsDriver(s.slot.kind) ==>
                    s.drv.phase == P.Idle && P.Start(s.drv, JobOf(Held(s.slot).what), s.slot.ip, p).2)
              && (s.plug.owned ==> DoneFor(s.drv.op, s.plug.started))
  {
    hide P.Start;
    RunKeeps(START, events);
    var s := RunOf(START, events);
    if s.link == Ready {
      assert s.ledger.asked[ask] == (s.ledger.told + InFlight(s))[ask];
      if !s.sweeping && NeedsDriver(s.slot.kind) {
        RunPlugKeeps(s, p);
      }
    }
  }

  /** A command in the slot leaves it at the next turn of the main loop: answered, handed on, or being swept for. */
  lemma SlotMoves(s: Sess, p: P.Pass)
    requires Inv(s) && s.link == Ready && !s.sweeping
    ensures var t := RunPending(s, p);
            if s.slot.kind == Scan || s.slot.kind == PlugScan
            then t.sweeping && var u := SweepDone(t); u.ledger.told == s.ledger.told + multiset{Held(s.slot)} && u.slot.kind == Nothing
            else t.slot.kind == Nothing
                 && (s.slot.kind == Wake ==> t.ledger.told == s.ledger.told + multiset{Held(s.slot)})
                 && (NeedsDriver(s.slot.kind) ==> Held(s.slot) in InFlight(t) + t.ledger.told)
  {
    hide P.Start, P.WellFormed;
    if NeedsDriver(s.slot.kind) {
      P.StartedOrEnded(s.drv, JobOf(Held(s.slot).what), s.slot.ip, p);
    }
  }

  /** A plug command that is handed on is handed on as it is: its kind, its parameters, its address. */
  lemma HandedOn(s: Sess, p: P.Pass)
    requires Inv(s) && s.link == Ready && !s.sweeping && NeedsDriver(s.slot.kind)
    ensures var (t, what) := (RunPending(s, p), Held(s.slot).what);
            && DoneFor(t.drv.op, what) && t.slot.kind == Nothing && |t.drv.requests| == |s.drv.requests| + 1
            && t.drv.requests[|s.drv.requests|] == P.Request(P.Probe, false, AddressOf(what), p.send)
            && (t.plug.owned ==> Ask(t.plug.req, t.plug.started) == Held(s.slot))
  {
    hide P.Start, P.WellFormed, Held;
    RunPlugKeeps(s, p);
  }

  /**
   * The connection's own events. A new one starts its own account; a rejected one is only waiting to
   * be closed; a closed one empties the slot, takes its probe with it, and leaves the driver to
   * itself, which goes on only with a cycle that is past asking who is there.
   */
  lemma ComesAndGoes(s: Sess)
    ensures var t := Step(s, Connect);
            if s.link == Down && !s.sweeping
            then t == s.(link := Ready, ledger := t.ledger) && t.ledger.conn == s.ledger.conn + 1
                 && t.ledger.asked == t.ledger.told == multiset{} && t.ledger.said == [] && t.ledger.probesTold == multiset{}
            else t == s
    ensures Step(s, Reject) == if s.link == Ready then s.(link := Failed) else s
    ensures var t := Step(s, Close);
            if s.link == Down then t == s
            else
              && t.link == Down && t.slot == s.slot.(kind := Nothing) && t.sweeping == s.sweeping && t.ledger == s.ledger
              && !t.plug.owned && (if s.watch.owned then !t.watch.running && !t.watch.owned && !t.watch.heard else t.watch == s.watch)
              && (!s.plug.owned ==> t.drv == s.drv)
              && (s.plug.owned ==>
                    var cycling := s.drv.op.verb == P.Cycle && !s.drv.op.isStatus && s.drv.phase != P.Idle && s.drv.phase != P.Probe;
                    t.drv == s.drv.(cb := false, phase := if cycling then s.drv.phase else P.Idle))
  {
  }

  /** The commands that share the slot without being counted, and the end of a probe. */
  lemma SharesTheSlot(s: Sess, k: Kind, n: nat)
    ensures Step(s, Aside(k, n)) ==
            if (k == Status || k == Probe || k == OtaBegin) && s.link == Ready && s.slot.kind == Nothing
            then s.(slot := s.slot.(kind := k, req := ReqId(s.ledger.conn, n))) else s
    ensures var t := Step(s, ProbeEnd);
            if !s.watch.running || s.sweeping then t == s
            else
              var told := s.watch.heard && s.watch.owned && s.link == Ready;
              && t == s.(watch := t.watch, ledger := t.ledger) && !t.watch.running && t.watch.req == s.watch.req
              && (t.watch.owned <==> s.watch.owned && !told) && t.watch.heard == s.watch.heard
              && t.ledger == s.ledger.(probesTold := t.ledger.probesTold)
              && t.ledger.probesTold == s.ledger.probesTold + if told then multiset{s.watch.req} else multiset{}
  {
  }

  // What the answers are

  /** The answer a frame gets at once, if any: a fault in it first, then the network, then whatever holds the slot. */
  lemma FrameAnswered(s: Sess, f: Frame)
    requires s.link == Ready
    ensures var (t, ask) := (Command(s, f), Ask(ReqId(s.ledger.conn, f.n), f.what));
            var sweep := f.what.ScanHosts? || f.what.ScanPlugs?;
            var plug := !f.what.WakeOf? && !sweep;
            var bad := !sweep && (!f.wellFormed || (f.linkUp && plug && !f.local));
            var noLink := !sweep && f.wellFormed && !f.linkUp;
            var free := s.slot.kind == Nothing && (f.what.WakeOf? || f.what.ScanHosts? || (!s.plug.owned && s.drv.phase == P.Idle));
            && (bad ==> t.ledger.said == s.ledger.said + [Answer(ask, Bad)])
            && (noLink ==> t.ledger.said == s.ledger.said + [Answer(ask, NoLink)])
            && (!bad && !noLink && !free ==> t.ledger.said == s.ledger.said + [Answer(ask, Busy)])
            && (!bad && !noLink && free ==> t.ledger.said == s.ledger.said && Owed(t.slot.kind) && Held(t.slot) == ask)
            && (bad || noLink || !free ==> t.slot == s.slot)
  {
    hide Held, Queued;
    HeldIsQueued(s.slot, ReqId(s.ledger.conn, f.n), f.what);
  }

  /**
   * Everything else that is answered: a wake and a sweep with success, in their turn; a plug command
   * with the outcome of the operation it started, when that ends; and nothing by any other event.
   */
  lemma AnsweredWith(s: Sess, e: Event)
    requires Inv(s) && s.link == Ready && !e.Text? && !e.Connect?
    ensures var more := if e.Pending? && !s.sweeping && s.slot.kind == Wake then [Answer(Held(s.slot), Done)]
                        else if e.Pending? && !s.sweeping && NeedsDriver(s.slot.kind) then
                          var o := P.Start(s.drv, JobOf(Held(s.slot).what), s.slot.ip, e.p).1;
                          if o.Some? then [Answer(Held(s.slot), PlugSaid(o.value))] else []
                        else if e.SweepEnd? && s.sweeping then [Answer(Held(s.slot), Done)]
                        else if e.PlugPass? && !s.sweeping && s.plug.owned && !P.DroppedIn(s.drv, e.p) then
                          var o := P.Task(s.drv, P.NotDropped(e.p)).1;
                          if o.Some? then [Answer(Ask(s.plug.req, s.plug.started), PlugSaid(o.value))] else []
                        else [];
            Step(s, e).ledger.said == s.ledger.said + more
  {
    hide P.Start, P.Task, Held, P.WellFormed, P.DroppedIn, P.NotDropped, P.Cancel;
    assert s.ledger.said + [] == s.ledger.said;
    if e.Pending? && !s.sweeping && NeedsDriver(s.slot.kind) {
      P.StartedOrEnded(s.drv, JobOf(Held(s.slot).what), s.slot.ip, e.p);
    }
  }

  // Every command is answered in the end

  predicate InSlot(s: Sess, ask: Ask) {
    Owed(s.slot.kind) && Held(s.slot) == ask
  }

  predicate WithDriver(s: Sess, ask: Ask) {
    s.plug.owned && Ask(s.plug.req, s.plug.started) == ask
  }

  lemma WhereInFlight(s: Sess, ask: Ask)
    ensures ask in InFlight(s) <==> InSlot(s, ask) || WithDriver(s, ask)
  {
  }

  /** The connection goes on. */
  predicate GoesOn(e: Event) {
    !e.Close? && !e.Reject? && !e.Connect? && !ClosesInside(e)
  }

  predicate ClosesInside(e: Event) {
    e.PlugPass? && e.p.resolve.Swept? && e.p.resolve.dropped
  }

  /** The main loop has come round to whatever holds this command, and something came of it. */
  predicate Moves(s: Sess, ask: Ask, e: Event) {
    if WithDriver(s, ask) then e.PlugPass? && !s.sweeping && P.Effective(s.drv, P.Go(e.p))
    else if s.sweeping then e.SweepEnd?
    else e.Pending?
  }

  /** How many such moves its answer can still take. */
  function Work(s: Sess, ask: Ask): nat {
    if WithDriver(s, ask) then P.Budget(s.drv) else if s.sweeping then 1 else 40
  }

  /** What one event does for a command in flight: it is answered, or has no more to wait for than before. */
  ghost predicate Nearer(s: Sess, t: Sess, ask: Ask, moved: bool) {
    && t.link == Ready && s.ledger.told <= t.ledger.told
    && (s.ledger.told[ask] < t.ledger.told[ask]
        || ((InSlot(t, ask) || WithDriver(t, ask)) && Work(t, ask) + (if moved then 1 else 0) <= Work(s, ask)))
  }

  lemma DriverMoves(s: Sess, p: P.Pass, ask: Ask)
    requires Inv(s) && s.link == Ready && (InSlot(s, ask) || WithDriver(s, ask)) && !ClosesInside(PlugPass(p))
    ensures Nearer(s, PlugTask(s, p), ask, Moves(s, ask, PlugPass(p)))
  {
    hide P.Task, P.WellFormed, P.Budget, P.Effective, Held;
    P.TaskKeepsCaller(s.drv, p);
    if s.drv.phase == P.Idle {
      P.IdleRests(s.drv, p);
    } else {
      P.EveryOperationEnds(s.drv, p);
    }
  }

  lemma PlugStarted(s: Sess, p: P.Pass, ask: Ask)
    requires Inv(s) && s.link == Ready && !s.sweeping && NeedsDriver(s.slot.kind)
    requires InSlot(s, ask) || WithDriver(s, ask)
    ensures Nearer(s, Emptied(RunPlug(s, p)), ask, Moves(s, ask, Pending(p)))
  {
    hide P.Start, P.WellFormed, P.Budget;
    var (d, o, started) := P.Start(s.drv, JobOf(Held(s.slot).what), s.slot.ip, p);
    P.StartedOrEnded(s.drv, JobOf(Held(s.slot).what), s.slot.ip, p);
    P.BudgetBounded(d);
  }

  lemma SlotNearer(s: Sess, p: P.Pass, ask: Ask)
    requires Inv(s) && s.link == Ready && (InSlot(s, ask) || WithDriver(s, ask))
    ensures Nearer(s, RunPending(s, p), ask, Moves(s, ask, Pending(p)))
  {
    hide RunPlug, RunProbe, P.WellFormed, P.Budget, P.Effective, Held;
    if !s.sweeping && NeedsDriver(s.slot.kind) {
      PlugStarted(s, p, ask);
    } else if !s.sweeping && s.slot.kind == Probe {
      ProbeAside(s);
    }
  }

  lemma ProbeAside(s: Sess)
    ensures var t := RunProbe(s);
            && t.link == s.link && t.slot == s.slot && t.sweeping == s.sweeping && t.plug == s.plug && t.drv == s.drv
            && t.ledger.told == s.ledger.told
  {
  }

  lemma CommandNearer(s: Sess, f: Frame, ask: Ask)
    requires Inv(s) && s.link == Ready && (InSlot(s, ask) || WithDriver(s, ask))
    ensures Nearer(s, Command(s, f), ask, false)
  {
    hide P.WellFormed, P.Budget, Objection, Queued, Inv;
  }

  lemma SweepNearer(s: Sess, ask: Ask)
    requires Inv(s) && s.link == Ready && (InSlot(s, ask) || WithDriver(s, ask))
    ensures Nearer(s, SweepDone(s), ask, Moves(s, ask, SweepEnd))
  {
    hide P.WellFormed, P.Budget, P.Effective;
  }

  lemma AsideNearer(s: Sess, k: Kind, n: nat, ask: Ask)
    requires Inv(s) && s.link == Ready && (InSlot(s, ask) || WithDriver(s, ask))
    ensures Nearer(s, Other(s, k, n), ask, false) && Nearer(s, ProbeEnds(s), ask, false) && Nearer(s, s, ask, false)
  {
    hide P.WellFormed, P.Budget, P.Effective, Inv;
  }

  lemma StepNearer(s: Sess, e: Event, ask: Ask)
    requires Inv(s) && s.link == Ready && GoesOn(e) && (InSlot(s, ask) || WithDriver(s, ask))
    ensures Nearer(s, Step(s, e), ask, Moves(s, ask, e))
  {
    hide RunPending, PlugTask, Command, SweepDone, Other, ProbeEnds, Inv, Nearer, InSlot, WithDriver;
    if e.Pending? {
      SlotNearer(s, e.p, ask);
    } else if e.PlugPass? {
      DriverMoves(s, e.p, ask);
    } else if e.Text? {
      CommandNearer(s, e.f, ask);
    } else if e.SweepEnd? {
      SweepNearer(s, ask);
    } else {
      AsideNearer(s, if e.Aside? then e.kind else Nothing, if e.Aside? then e.n else 0, ask);
    }
  }

  function MovesMade(s: Sess, ask: Ask, events: seq<Event>): nat
    decreases |events|
  {
    if events == [] then 0
    else (if Moves(s, ask, events[0]) then 1 else 0) + MovesMade(Step(s, events[0]), ask, events[1..])
  }

  lemma {:induction false} ToldStays(s: Sess, events: seq<Event>)
    requires Inv(s) && s.link == Ready && forall e :: e in events ==> GoesOn(e)
    ensures s.ledger.told <= RunOf(s, events).ledger.told
    decreases |events|
  {
    hide Inv, Step, GoesOn;
    if events != [] {
      assert events[0] in events;
      StepKeeps(s, events[0]);
      StepTold(s, events[0]);
      ToldStays(Step(s, events[0]), events[1..]);
    }
  }

  lemma PendingTold(s: Sess, p: P.Pass)
    requires s.link == Ready
    ensures RunPending(s, p).link == Ready && s.ledger.told <= RunPending(s, p).ledger.told
  {
    hide P.Start, Held;
  }

  lemma StepTold(s: Sess, e: Event)
    requires s.link == Ready && GoesOn(e)
    ensures Step(s, e).link == Ready && s.ledger.told <= Step(s, e).ledger.told
  {
    hide P.Task, RunPending, Objection, Queued, Held, Free;
    if e.Pending? {
      PendingTold(s, e.p);
    }
  }

  /**
   * While its connection goes on, a command that was taken is answered: the moves the main loop
   * makes for it before its answer are fewer than the work it stands for, at most 40 from the
   * slot and the driver's remaining budget once it is there.
   */
  lemma {:induction false} AnsweredInTheEnd(s: Sess, events: seq<Event>, ask: Ask)
    requires Inv(s) && s.link == Ready && ask in InFlight(s) && forall e :: e in events ==> GoesOn(e)
    requires MovesMade(s, ask, events) >= Work(s, ask)
    ensures s.ledger.told[ask] < RunOf(s, events).ledger.told[ask]
    decreases |events|
  {
    hide Inv, Step, GoesOn, Moves, InSlot, WithDriver;
    WhereInFlight(s, ask);
    WorkPositive(s, ask);
    assert events[0] in events;
    var t := Step(s, events[0]);
    StepKeeps(s, events[0]);
    StepNearer(s, events[0], ask);
    if s.ledger.told[ask] < t.ledger.told[ask] {
      ToldStays(t, events[1..]);
    } else {
      WhereInFlight(t, ask);
      AnsweredInTheEnd(t, events[1..], ask);
    }
  }

  lemma WorkPositive(s: Sess, ask: Ask)
    requires Inv(s) && s.link == Ready && (InSlot(s, ask) || WithDriver(s, ask))
    ensures Work(s, ask) > 0
  {
    P.BudgetBounded(s.drv);
  }

  // The command that is not answered once

  /** This probe is neither waiting nor the one whose end would be reported. */
  predicate Forgotten(s: Sess, a: ReqId) {
    !(s.watch.owned && s.watch.req == a) && !(s.slot.kind == Probe && s.slot.req == a)
  }

  /** A second probe takes the first one's ownership and gives it up again when it cannot start. */
  lemma SecondProbeSilencesFirst(s: Sess, p: P.Pass, first: ReqId)
    requires s.link == Ready && !s.sweeping && s.slot.kind == Probe
    requires s.watch.running && s.watch.owned && s.watch.heard && s.watch.req == first && s.slot.req != first
    ensures ProbeEnds(s).ledger.probesTold[first] == s.ledger.probesTold[first] + 1
    ensures Forgotten(RunPending(s, p), first)
    ensures RunPending(s, p).ledger.probesTold[first] == s.ledger.probesTold[first]
  {
  }

  lemma ForgottenStep(s: Sess, e: Event, a: ReqId)
    requires Forgotten(s, a) && !(e.Aside? && ReqId(s.ledger.conn, e.n) == a) && !e.Connect?
    ensures Forgotten(Step(s, e), a) && Step(s, e).ledger.probesTold[a] <= s.ledger.probesTold[a]
    ensures Step(s, e).ledger.conn == s.ledger.conn
  {
    hide P.Task, P.Start, P.Cancel, Held, Queued, Objection, RunPending;
    if e.Pending? {
      ForgottenPending(s, e.p, a);
    } else if e.Text? {
      HeldIsQueued(s.slot, ReqId(s.ledger.conn, e.f.n), e.f.what);
    }
  }

  lemma ForgottenPending(s: Sess, p: P.Pass, a: ReqId)
    requires Forgotten(s, a)
    ensures var t := RunPending(s, p);
            Forgotten(t, a) && t.ledger.probesTold[a] <= s.ledger.probesTold[a] && t.ledger.conn == s.ledger.conn
  {
    hide P.Task, P.Start, P.Cancel, Held;
  }

  /** Once forgotten, a probe is not answered by anything that happens on its connection. */
  lemma {:induction false} ForgottenForGood(s: Sess, events: seq<Event>, a: ReqId)
    requires Forgotten(s, a)
    requires forall e :: e in events ==> !e.Connect? && !(e.Aside? && ReqId(s.ledger.conn, e.n) == a)
    ensures RunOf(s, events).ledger.probesTold[a] <= s.ledger.probesTold[a]
    decreases |events|
  {
    hide Step, Forgotten;
    if events != [] {
      assert events[0] in events;
      ForgottenStep(s, events[0], a);
      ForgottenForGood(Step(s, events[0]), events[1..], a);
    }
  }

  // When a probe is answered

  /** Events that neither end the connection or the probe nor begin a connection. */
  predicate Within(e: Event) {
    !e.Close? && !e.Reject? && !e.Connect? && !ClosesInside(e) && !e.ProbeEnd?
  }

  /** This turn of the main loop runs a queued probe. */
  predicate RunsProbe(s: Sess, e: Event) {
    e.Pending? && s.link == Ready && !s.sweeping && s.slot.kind == Probe
  }

  /** The queued probes that the main loop runs in the course of these events. */
  function ProbesRun(s: Sess, events: seq<Event>): seq<ReqId>
    decreases |events|
  {
    if events == [] then []
    else (if RunsProbe(s, events[0]) then [s.slot.req] else []) + ProbesRun(Step(s, events[0]), events[1..])
  }

  /** A probe is running on a live connection; whoever owns it, its callback is registered. */
  predicate Probing(s: Sess) {
    s.link == Ready && s.watch.running && s.watch.heard
  }

  lemma ProbingStep(s: Sess, e: Event)
    requires Probing(s) && Within(e)
    ensures var t := Step(s, e);
            && Probing(t)
            && (if RunsProbe(s, e)
                then !t.watch.owned && t.ledger.probesTold == s.ledger.probesTold + multiset{s.slot.req}
                else t.watch == s.watch && t.ledger.probesTold == s.ledger.probesTold)
  {
    hide P.Task, P.Start, P.Cancel, Held, Queued, Objection, RunPending, Free;
    if e.Pending? {
      ProbingPending(s, e.p);
    }
  }

  lemma ProbingPending(s: Sess, p: P.Pass)
    requires Probing(s)
    ensures var t := RunPending(s, p);
            && Probing(t)
            && (if RunsProbe(s, Pending(p))
                then !t.watch.owned && t.ledger.probesTold == s.ledger.probesTold + multiset{s.slot.req}
                else t.watch == s.watch && t.ledger.probesTold == s.ledger.probesTold)
  {
    hide P.Task, P.Start, P.Cancel, Held;
  }

  lemma {:induction false} ProbingRun(s: Sess, events: seq<Event>)
    requires Probing(s) && forall e :: e in events ==> Within(e)
    ensures var (t, runs) := (RunOf(s, events), ProbesRun(s, events));
            && Probing(t) && t.ledger.probesTold == s.ledger.probesTold + multiset(runs)
            && (if runs == [] then t.watch == s.watch else !t.watch.owned)
    decreases |events|
  {
    hide Step, Within, Probing, RunsProbe;
    if events != [] {
      assert events[0] in events;
      var t := Step(s, events[0]);
      ProbingStep(s, events[0]);
      ProbingRun(t, events[1..]);
      Accumulates(s, events);
    }
  }

  lemma Accumulates(s: Sess, events: seq<Event>)
    requires events != []
    ensures var rest := ProbesRun(Step(s, events[0]), events[1..]);
            if RunsProbe(s, events[0])
            then ProbesRun(s, events) == [s.slot.req] + rest
                 && multiset(ProbesRun(s, events)) == multiset{s.slot.req} + multiset(rest)
            else ProbesRun(s, events) == rest
  {
    hide Step, RunsProbe;
  }

  /**
   * From the turn a probe starts running to the pass in which it ends, on a connection that stays
   * up: every other probe run in between is answered, once, when it is run, and the end of the
   * first is answered exactly when there was none. So it is answered if and only if no turn of
   * the main loop ran another queued probe while it was running.
   */
  lemma ProbeAnsweredExactly(s: Sess, p: P.Pass, events: seq<Event>)
    requires RunsProbe(s, Pending(p)) && !s.watch.running && forall e :: e in events ==> Within(e)
    requires !RunOf(RunPending(s, p), events).sweeping
    ensures var (a, began) := (s.slot.req, RunPending(s, p));
            var (others, ended) := (ProbesRun(began, events), Step(RunOf(began, events), ProbeEnd));
            && began.watch == Watch(true, true, a, true) && began.ledger == s.ledger
            && ended.ledger.probesTold ==
               s.ledger.probesTold + multiset(others) + (if others == [] then multiset{a} else multiset{})
            && (a !in others ==> (ended.ledger.probesTold[a] == s.ledger.probesTold[a] + 1 <==> others == []))
            && (a !in others && others != [] ==> ended.ledger.probesTold[a] == s.ledger.probesTold[a])
  {
    hide Step, RunOf, ProbesRun, P.Task, P.Start, Held, Within;
    var began := RunPending(s, p);
    assert Probing(began);
    ProbingRun(began, events);
    EndTells(RunOf(began, events));
  }

  lemma EndTells(s: Sess)
    requires Probing(s) && !s.sweeping
    ensures Step(s, ProbeEnd).ledger.probesTold ==
            s.ledger.probesTold + if s.watch.owned then multiset{s.watch.req} else multiset{}
  {
  }

  // The code

  /** The file-scope session and the driver it commands. */
  class Session {
    const driver: P.Driver
    var link: Link
    var slot: Slot
    var sweeping: bool
    var plug: Owner
    var watch: Watch
    var ledger: Ledger

    ghost function Now(): Sess
      reads this, driver
    {
      Sess(link, slot, sweeping, plug, watch, driver.Now(), ledger)
    }

    constructor ()
      ensures Now() == START && fresh(driver)
    {
      driver := new P.Driver();
      link, slot, sweeping, plug, watch, ledger :=
        START.link, START.slot, START.sweeping, START.plug, START.watch, START.ledger;
    }

    /** A result frame, written to whatever connection there is. */
    method Send(ask: Ask, v: Verdict)
      modifies this`ledger
      ensures Now() == Tell(old(Now()), ask, v)
    {
      if link == Ready {
        ledger := ledger.(told := ledger.told + multiset{ask}, said := ledger.said + [Answer(ask, v)]);
      }
    }

    /** queue: refuses while anything holds the slot. */
    method Enqueue(k: Kind, req: ReqId) returns (ok: bool)
      modifies this`slot
      ensures ok == (old(slot).kind == Nothing)
      ensures slot == if ok then old(slot).(kind := k, req := req) else old(slot)
    {
      if slot.kind != Nothing {
        return false;
      }
      slot := slot.(kind := k, req := req);
      ok := true;
    }

    /** on_text for a command frame; the parameters are stored once the slot is ours. */
    method OnCommand(f: Frame)
      modifies this`slot, this`ledger
      ensures Now() == Command(old(Now()), f)
    {
      if link != Ready {
        return;
      }
      var req := ReqId(ledger.conn, f.n);
      var ask := Ask(req, f.what);
      ledger := ledger.(asked := ledger.asked + multiset{ask});
      var objection := Objection(f);
      if objection.Some? {
        Send(ask, objection.value);
        return;
      }
      var k := KindOf(f.what);
      if IsPlug(k) && (plug.owned || driver.phase != P.Idle) {
        Send(ask, Busy);
        return;
      }
      var ok := Enqueue(k, req);
      if !ok {
        Send(ask, Busy);
        return;
      }
      match f.what
      case WakeOf(mac, repeat) => slot := slot.(mac := mac, repeat := repeat);
      case ScanHosts =>
      case ScanPlugs =>
      case SetPlug(mac, ip, channel, verb, offMs) =>
        slot := slot.(mac := mac, ip := ip, channel := channel, verb := verb, offMs := offMs);
      case ReadPlug(mac, ip, channel) => slot := slot.(mac := mac, ip := ip, channel := channel);
      case CheckFw(mac, ip) => slot := slot.(mac := mac, ip := ip);
      case UpdateFw(mac, ip) => slot := slot.(mac := mac, ip := ip);
    }

    method OnPlugDone(o: P.Outcome)
      modifies this`plug, this`ledger
      ensures Now() == PlugDone(old(Now()), o)
    {
      if !plug.owned || link != Ready {
        return;
      }
      plug := plug.(owned := false);
      Send(Ask(plug.req, plug.started), PlugSaid(o));
    }

    method StartPlug(p: P.Pass)
      modifies this`plug, this`ledger, driver
      ensures Now() == RunPlug(old(Now()), p)
    {
      hide P.Start;
      var ask := Held(slot);
      plug := Owner(true, ask.req, slot.kind, ask.what);
      var o, started := driver.Begin(JobOf(ask.what), slot.ip, p);
      if !started {
        plug := plug.(owned := false);
        Send(ask, Busy);
      } else if o.Some? {
        OnPlugDone(o.value);
      }
    }

    method StartProbe()
      modifies this`watch, this`ledger
      ensures Now() == RunProbe(old(Now()))
    {
      watch := watch.(req := slot.req, owned := true);
      if watch.running {
        watch := watch.(owned := false);
        ledger := ledger.(probesTold := ledger.probesTold + multiset{slot.req});
      } else {
        watch := watch.(running := true, heard := true);
      }
    }

    /** run_pending, up to the start of a sweep. */
    method RunSlot(p: P.Pass)
      modifies this, driver
      ensures Now() == RunPending(old(Now()), p)
    {
      hide P.Start, RunPlug;
      if link != Ready || sweeping {
        return;
      }
      if slot.kind == Scan || slot.kind == PlugScan {
        sweeping := true;
        return;
      }
      if slot.kind == Wake {
        Send(Held(slot), Done);
      } else if NeedsDriver(slot.kind) {
        StartPlug(p);
      } else if slot.kind == Probe {
        StartProbe();
      }
      slot := slot.(kind := Nothing);
    }

    /** What run_scan and run_plug_scan do once the sweep returns. */
    method FinishSweep()
      modifies this
      ensures Now() == SweepDone(old(Now()))
    {
      if !sweeping {
        return;
      }
      sweeping := false;
      Send(Held(slot), Done);
      slot := slot.(kind := Nothing);
    }

    /** rw_plug_task; a close inside its address search comes through on_close. */
    method RunPlugTask(p: P.Pass)
      modifies this, driver
      ensures Now() == PlugTask(old(Now()), p)
    {
      hide P.Task, P.Cancel;
      if sweeping {
        return;
      }
      var heard := driver.cb;
      if link != Down && P.Searches(driver.phase, driver.at.resolvedOnce, p) && p.resolve.dropped {
        var _ := driver.RunTask(if plug.owned then p else P.NotDropped(p));
        EndSession();
        return;
      }
      var o := driver.RunTask(P.NotDropped(p));
      if o.Some? && heard {
        OnPlugDone(o.value);
      }
    }

    /** What on_close does to the session itself. */
    method EndSession()
      modifies this
      ensures Now() == Closed(old(Now())).(drv := old(driver.Now()))
    {
      slot := slot.(kind := Nothing);
      if watch.owned {
        watch := Watch(false, false, watch.req, false);
      }
      plug := plug.(owned := false);
      link := Down;
    }

    method OnClose()
      modifies this, driver
      ensures Now() == Closed(old(Now()))
    {
      hide P.Cancel;
      if plug.owned {
        driver.CancelOp();
      }
      EndSession();
    }
  }
}
