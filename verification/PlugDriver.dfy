/**
 * The plug driver: one operation at a time against a smart plug on the local network, with a cycle
 * (off, wait, on) that must not be left half done (firmware/src/plug/plug.c).
 *
 * What the network does is an input of every step: whether an exchange is over and what came
 * back, whether a request could be sent, what a search for the plug's address found.
 */
module PlugDriver {
  import opened Bytes

  const RETRY_MAX: nat := 3
  const RETRY_GAP_MS: nat := 1000

  datatype Phase = Idle | Probe | Act | Waiting | Act2 | Verify | Wifi | FwInfo | FwLatest | FwUpdate

  datatype Verb = On | Off | Cycle

  datatype Err = Unreachable | Unsupported | Internal

  datatype Presence = Unknown | Mute | Absent

  datatype Outcome = Outcome(ok: bool, err: Option<Err>, on: bool, presence: Presence)

  // What the network did

  datatype SendResult = Sent | NoSocket | NoRoom

  /** A finished exchange: silence, an answer that is not a 200, or a body and what it parses as. */
  datatype Reply =
    | NoReply
    | Refused
    | Page(id: Option<Ident>, setAnswer: Option<Option<bool>>, status: Option<bool>, version: bool, report: bool)

  datatype Ident = Ident(macMatches: bool, gen1: bool)

  /**
   * What the search for the plug's address found. A sweep pumps the network, so the caller can be
   * `dropped` in the middle of it; anything else that comes in meanwhile is as if it had come before.
   */
  datatype Resolve = FromCache(ip: nat) | Swept(found: Option<nat>, dropped: bool) | SweepFailed

  /** One pass of the main loop. `reply` is None while the exchange is still going on. */
  datatype Pass = Pass(now: nat, reply: Option<Reply>, send: SendResult, resolve: Resolve)

  /** One request, and whether it could be sent. */
  datatype Request = Request(leg: Phase, on: bool, ip: nat, result: SendResult)

  /** What was asked for. */
  datatype Op = Op(isStatus: bool, isFwCheck: bool, isFwUpdate: bool, verb: Verb, offMs: nat)

  /** What is known of the plug: its address, its generation, and how that was learned. */
  datatype Target = Target(ip: nat, gen1: bool, addrConfirmed: bool, macSeen: bool, sweepRan: bool, resolvedOnce: bool)

  datatype Drv = Drv(phase: Phase, op: Op, at: Target, waitUntil: nat, afterWait: Phase, retries: nat,
                     cb: bool, stOn: bool, requests: seq<Request>)

  const REST: Drv :=
    Drv(Idle, Op(false, false, false, On, 0), Target(0, false, false, false, false, false), 0, Idle, 0, false, false, [])

  /** The verdict that goes with a failure, as far as the search for the plug earned one. */
  function PresenceOf(d: Drv, ok: bool, err: Option<Err>): Presence {
    if !ok && err == Some(Unreachable) then
      if d.at.macSeen then Mute else if d.at.sweepRan then Absent else Unknown
    else Unknown
  }

  /** finish: the operation is over; the caller hears of it if it is still there. */
  function Finish(d: Drv, ok: bool, err: Option<Err>, on: bool): (Drv, Option<Outcome>) {
    (d.(phase := Idle), Some(Outcome(ok, err, on, PresenceOf(d, ok, err))))
  }

  /** Whether a set request on this leg asks for power. */
  predicate AsksOn(d: Drv, leg: Phase) {
    leg == Act2 || (leg == Act && !d.op.isStatus && d.op.verb == On)
  }

  function SendRequest(d: Drv, leg: Phase, s: SendResult): (Drv, Option<Err>) {
    var asked := d.(requests := d.requests + [Request(leg, AsksOn(d, leg), d.at.ip, s)]);
    match s
    case Sent => (asked.(phase := leg), None)
    case NoSocket => (asked, Some(Unreachable))
    case NoRoom => (asked, Some(Internal))
  }

  predicate PastTheCut(d: Drv, leg: Phase) {
    d.op.verb == Cycle && !d.op.isStatus && (leg == Act2 || leg == Verify)
  }

  /** schedule_retry, when the budget allows. */
  function Retry(d: Drv, leg: Phase, now: nat): Drv {
    d.(retries := d.retries + 1, waitUntil := now + RETRY_GAP_MS, afterWait := leg, phase := Waiting)
  }

  /** A leg that failed: another try where power hangs on it, an ended operation otherwise. */
  function Missed(d: Drv, leg: Phase, now: nat, err: Err): (Drv, Option<Outcome>) {
    if PastTheCut(d, leg) && d.retries < RETRY_MAX then (Retry(d, leg, now), None)
    else Finish(d, false, Some(err), false)
  }

  function RunLeg(d: Drv, leg: Phase, p: Pass): (Drv, Option<Outcome>) {
    var (asked, err) := SendRequest(d, leg, p.send);
    if err.None? then (asked, None) else Missed(asked, leg, p.now, err.value)
  }

  /** rw_plug_cancel. */
  function Cancel(d: Drv): Drv {
    if !d.op.isStatus && d.op.verb == Cycle && d.phase != Idle && d.phase != Probe then d.(cb := false)
    else d.(phase := Idle, cb := false)
  }

  function ResolveByMac(d: Drv, r: Resolve): (Drv, bool) {
    match r
    case FromCache(ip) => (d.(at := d.at.(ip := ip)), true)
    case Swept(found, dropped) =>
      var e := if dropped then Cancel(d) else d;
      if found.Some? then (e.(at := e.at.(sweepRan := true, macSeen := true, ip := found.value)), true)
      else (e.(at := e.at.(sweepRan := true)), false)
    case SweepFailed => (d.(at := d.at.(sweepRan := false)), false)
  }

  /** Whether an exchange came back from the plug that was named. */
  predicate Recognised(r: Reply) {
    r.Page? && r.id.Some? && r.id.value.macMatches
  }

  /** probe_done. */
  function ProbeDone(d: Drv, r: Reply, p: Pass): (Drv, Option<Outcome>) {
    var identified := r.Page? && r.id.Some?;
    if Recognised(r) then
      var known := d.(at := d.at.(gen1 := r.id.value.gen1, addrConfirmed := true, macSeen := true));
      RunLeg(known, if d.op.isFwCheck then FwInfo else if d.op.isFwUpdate then FwUpdate else Act, p)
    else
      var (found, moved) := if d.at.resolvedOnce then (d, false) else ResolveByMac(d.(at := d.at.(resolvedOnce := true)), p.resolve);
      if moved then RunLeg(found, Probe, p)
      else Finish(found, false, Some(if found.at.addrConfirmed && identified then Unsupported else Unreachable), false)
  }

  /** Why an exchange that ended without a readable 200 failed. */
  function Why(r: Reply): Err
    requires !r.Page?
  {
    if r.NoReply? then Unreachable else Unsupported
  }

  function ActDone(d: Drv, leg: Phase, r: Reply, p: Pass): (Drv, Option<Outcome>) {
    if !r.Page? then Missed(d, leg, p.now, Why(r))
    else if d.op.isStatus || leg == Verify then
      if r.status.None? then Missed(d, leg, p.now, Unsupported)
      else if d.op.isStatus && !d.at.gen1 && leg != Verify then
        var (asked, err) := SendRequest(d.(stOn := r.status.value), Wifi, p.send);
        if err.None? then (asked, None) else Finish(asked, true, None, r.status.value)
      else Finish(d, true, None, r.status.value)
    else if r.setAnswer.None? then Missed(d, leg, p.now, Unsupported)
    else if d.op.verb == Cycle && leg == Act then
      (d.(waitUntil := p.now + d.op.offMs, afterWait := Act2, phase := Waiting), None)
    else if r.setAnswer.value.Some? then Finish(d, true, None, r.setAnswer.value.value)
    else RunLeg(d, Verify, p)
  }

  function FwDone(d: Drv, r: Reply, p: Pass): (Drv, Option<Outcome>) {
    if !r.Page? then Finish(d, false, Some(Why(r)), false)
    else if d.phase == FwUpdate then Finish(d, true, None, false)
    else if d.phase == FwInfo && !d.at.gen1 then
      if !r.version then Finish(d, false, Some(Unsupported), false) else RunLeg(d, FwLatest, p)
    else if !r.report then Finish(d, false, Some(Unsupported), false)
    else Finish(d, true, None, false)
  }

  /** rw_plug_task: the driver after one pass, and the outcome if the operation ended in it. */
  function Task(d: Drv, p: Pass): (Drv, Option<Outcome>) {
    if d.phase == Idle then (d, None)
    else if d.phase == Waiting then
      if p.now >= d.waitUntil then RunLeg(d, d.afterWait, p) else (d, None)
    else if p.reply.None? then (d, None)
    else if d.phase == Probe then ProbeDone(d, p.reply.value, p)
    else if d.phase == Wifi then Finish(d, true, None, d.stOn)
    else if d.phase == FwInfo || d.phase == FwLatest || d.phase == FwUpdate then FwDone(d, p.reply.value, p)
    else ActDone(d, d.phase, p.reply.value, p)
  }

  /** This pass sweeps for the plug's address. */
  predicate Searches(phase: Phase, resolvedOnce: bool, p: Pass) {
    phase == Probe && !resolvedOnce && p.reply.Some? && !Recognised(p.reply.value) && p.resolve.Swept?
  }

  /** In this pass the caller goes away during the sweep. */
  predicate DroppedIn(d: Drv, p: Pass) {
    Searches(d.phase, d.at.resolvedOnce, p) && p.resolve.dropped
  }

  /** The same pass with the caller staying. */
  function NotDropped(p: Pass): (q: Pass)
    ensures forall d :: !DroppedIn(d, q)
  {
    if p.resolve.Swept? then p.(resolve := p.resolve.(dropped := false)) else p
  }

  datatype Job = SetJob(verb: Verb, offMs: nat) | StatusJob | FwCheckJob | FwUpdateJob

  /** The four start calls: refused while busy, otherwise a probe goes out at once. */
  function Start(d: Drv, job: Job, ip: nat, p: Pass): (Drv, Option<Outcome>, bool) {
    if d.phase != Idle then (d, None, false)
    else
      var op := match job
                case SetJob(verb, offMs) => Op(false, false, false, verb, offMs)
                case StatusJob => Op(true, false, false, On, 0)
                case FwCheckJob => Op(false, true, false, On, 0)
                case FwUpdateJob => Op(false, false, true, On, 0);
      var ready := Drv(Idle, op, Target(ip, false, false, false, false, false), 0, Idle, 0, true, false, d.requests);
      var (e, o) := RunLeg(ready, Probe, p);
      (e, o, true)
  }

  // After the cut: whatever the network does

  datatype Event = Go(p: Pass) | Drop

  function Step(d: Drv, e: Event): (Drv, Option<Outcome>) {
    match e
    case Go(p) => Task(d, p)
    case Drop => (Cancel(d), None)
  }

  /** The off has been answered and accepted, and the dwell is running. */
  predicate JustCut(d: Drv) {
    d.op.verb == Cycle && !d.op.isStatus && d.phase == Waiting && d.afterWait == Act2 && d.retries == 0
  }

  /** Power is off and the driver owes an on, or the reading that confirms it. */
  predicate Owes(d: Drv) {
    && d.op.verb == Cycle && !d.op.isStatus && d.retries <= RETRY_MAX
    && (d.phase == Act2 || d.phase == Verify || (d.phase == Waiting && (d.afterWait == Act2 || d.afterWait == Verify)))
  }

  /** The leg in hand or waiting to be run. */
  function Leg(d: Drv): Phase {
    if d.phase == Waiting then d.afterWait else d.phase
  }

  /** In this step the plug's own answer accepted the on. */
  predicate AcceptsOn(d: Drv, e: Event) {
    e.Go? && d.phase == Act2 && e.p.reply.Some? && e.p.reply.value.Page? && e.p.reply.value.setAnswer.Some?
  }

  /** In this step a try of the restore, or of its confirming read, came to nothing. */
  predicate Misses(d: Drv, e: Event) {
    e.Go? &&
    if d.phase == Waiting then e.p.now >= d.waitUntil && e.p.send != Sent
    else e.p.reply.Some? &&
         var r := e.p.reply.value;
         || !r.Page?
         || (d.phase == Verify && r.status.None?)
         || (d.phase == Act2 && r.setAnswer.None?)
         || (d.phase == Act2 && r.setAnswer == Some(None) && e.p.send != Sent)
  }

  /** Something happens in this step: not a cancel, a wait, or an exchange still going on. */
  predicate Effective(d: Drv, e: Event) {
    e.Go? && if d.phase == Waiting then e.p.now >= d.waitUntil else e.p.reply.Some?
  }

  /** How much is left to do at most. */
  function Rank(d: Drv): nat {
    if !Owes(d) then 0
    else 8 * (RETRY_MAX - d.retries) + 1 + (if Leg(d) == Act2 then 2 else 0) + (if d.phase == Waiting then 1 else 0)
  }

  /** What a step of an owed restore may come to. */
  ghost predicate OwedOutcome(d: Drv, e: Event, t: Drv, o: Option<Outcome>) {
    if o.None? then
      && Owes(t) && t.retries == d.retries + (if Misses(d, e) then 1 else 0)
      && (if Effective(d, e) then Rank(t) < Rank(d) else t == if e.Go? then d else d.(cb := false))
      && (Leg(t) == Verify ==> Leg(d) == Verify || AcceptsOn(d, e))
    else
      && t.phase == Idle && Effective(d, e)
      && (if o.value.ok then !Misses(d, e) && (Leg(d) == Verify || AcceptsOn(d, e))
          else Misses(d, e) && d.retries == RETRY_MAX)
  }

  lemma MissedOwed(d: Drv, leg: Phase, now: nat, err: Err)
    requires d.op.verb == Cycle && !d.op.isStatus && (leg == Act2 || leg == Verify) && d.retries <= RETRY_MAX
    ensures var (t, o) := Missed(d, leg, now, err);
            if d.retries < RETRY_MAX then o.None? && Owes(t) && t.retries == d.retries + 1 && Leg(t) == leg
            else o.Some? && !o.value.ok && t.phase == Idle
  {
  }

  lemma RunLegOwed(d: Drv, leg: Phase, p: Pass)
    requires d.op.verb == Cycle && !d.op.isStatus && (leg == Act2 || leg == Verify) && d.retries <= RETRY_MAX
    ensures var (t, o) := RunLeg(d, leg, p);
            if p.send == Sent then o.None? && Owes(t) && t.retries == d.retries && t.phase == leg
            else if d.retries < RETRY_MAX then o.None? && Owes(t) && t.retries == d.retries + 1 && Leg(t) == leg
            else o.Some? && !o.value.ok && t.phase == Idle
  {
    hide Missed;
    var (asked, err) := SendRequest(d, leg, p.send);
    if err.Some? {
      MissedOwed(asked, leg, p.now, err.value);
    }
  }

  lemma RankMissed(d: Drv, t: Drv)
    requires Owes(d) && Owes(t) && t.retries == d.retries + 1
    ensures Rank(t) < Rank(d)
  {
  }

  lemma RankAdvances(d: Drv, t: Drv)
    requires Owes(d) && Owes(t) && t.retries == d.retries && t.phase != Waiting
    requires (d.phase == Waiting && Leg(t) == Leg(d)) || (Leg(d) == Act2 && Leg(t) == Verify)
    ensures Rank(t) < Rank(d)
  {
  }

  lemma VerifyDoneOwed(d: Drv, p: Pass)
    requires Owes(d) && d.phase == Verify && p.reply.Some?
    ensures OwedOutcome(d, Go(p), ActDone(d, Verify, p.reply.value, p).0, ActDone(d, Verify, p.reply.value, p).1)
  {
    hide Missed, RunLeg, Rank;
    var r := p.reply.value;
    var (t, o) := ActDone(d, Verify, r, p);
    if !r.Page? || r.status.None? {
      MissedOwed(d, Verify, p.now, if r.Page? then Unsupported else Why(r));
      if o.None? {
        RankMissed(d, t);
      }
    }
  }

  lemma Act2MissedOwed(d: Drv, p: Pass)
    requires Owes(d) && d.phase == Act2 && p.reply.Some? && (!p.reply.value.Page? || p.reply.value.setAnswer.None?)
    ensures OwedOutcome(d, Go(p), ActDone(d, Act2, p.reply.value, p).0, ActDone(d, Act2, p.reply.value, p).1)
  {
    hide Missed, RunLeg, Rank;
    var r := p.reply.value;
    var (t, o) := ActDone(d, Act2, r, p);
    MissedOwed(d, Act2, p.now, if r.Page? then Unsupported else Why(r));
    if o.None? {
      RankMissed(d, t);
    }
  }

  lemma Act2AcceptedOwed(d: Drv, p: Pass)
    requires Owes(d) && d.phase == Act2 && p.reply.Some? && p.reply.value.Page? && p.reply.value.setAnswer.Some?
    ensures OwedOutcome(d, Go(p), ActDone(d, Act2, p.reply.value, p).0, ActDone(d, Act2, p.reply.value, p).1)
  {
    hide Missed, RunLeg, Rank;
    var r := p.reply.value;
    var (t, o) := ActDone(d, Act2, r, p);
    if r.setAnswer.value.None? {
      RunLegOwed(d, Verify, p);
      assert (t, o) == RunLeg(d, Verify, p);
      if p.send == Sent {
        RankAdvances(d, t);
      } else if o.None? {
        RankMissed(d, t);
      }
    }
  }

  lemma WaitDoneOwed(d: Drv, p: Pass)
    requires Owes(d) && d.phase == Waiting && p.now >= d.waitUntil
    ensures OwedOutcome(d, Go(p), RunLeg(d, d.afterWait, p).0, RunLeg(d, d.afterWait, p).1)
  {
    hide RunLeg, Rank;
    var (t, o) := RunLeg(d, d.afterWait, p);
    RunLegOwed(d, d.afterWait, p);
    if p.send == Sent {
      RankAdvances(d, t);
    } else if o.None? {
      RankMissed(d, t);
    }
  }

  /**
   * One step of an owed restore. It stays owed with less left to do, or it ends: with success
   * only if the on is accepted now or was before, and with failure only if the budget is spent.
   */
  lemma OwedStep(d: Drv, e: Event)
    requires Owes(d)
    ensures OwedOutcome(d, e, Step(d, e).0, Step(d, e).1)
  {
    hide RunLeg, ActDone, OwedOutcome;
    if !Effective(d, e) {
      NothingOwed(d, e);
    } else if d.phase == Waiting {
      WaitDoneOwed(d, e.p);
    } else if d.phase == Act2 {
      if e.p.reply.value.Page? && e.p.reply.value.setAnswer.Some? {
        Act2AcceptedOwed(d, e.p);
      } else {
        Act2MissedOwed(d, e.p);
      }
    } else {
      VerifyDoneOwed(d, e.p);
    }
  }

  lemma NothingHappens(d: Drv, e: Event)
    requires Owes(d) && !Effective(d, e)
    ensures Step(d, e).0 == (if e.Go? then d else d.(cb := false)) && Step(d, e).1.None?
  {
    hide RunLeg, ActDone, FwDone, ProbeDone, Finish;
  }

  lemma NothingOwed(d: Drv, e: Event)
    requires Owes(d) && !Effective(d, e)
    ensures OwedOutcome(d, e, Step(d, e).0, Step(d, e).1)
  {
    hide Step, Rank;
    NothingHappens(d, e);
  }

  // Whole runs

  ghost predicate Run(trace: seq<Drv>, events: seq<Event>, ends: seq<Option<Outcome>>) {
    && |trace| == |events| + 1 && |ends| == |events|
    && forall i :: 0 <= i < |events| ==> Happens(trace[i], events[i], trace[i + 1], ends[i])
  }

  ghost predicate Happens(d: Drv, e: Event, t: Drv, o: Option<Outcome>) {
    Step(d, e) == (t, o)
  }

  function MissCount(trace: seq<Drv>, events: seq<Event>, k: nat): nat
    requires k <= |events| < |trace|
  {
    if k == 0 then 0 else MissCount(trace, events, k - 1) + if Misses(trace[k - 1], events[k - 1]) then 1 else 0
  }

  function EffectiveCount(trace: seq<Drv>, events: seq<Event>, k: nat): nat
    requires k <= |events| < |trace|
  {
    if k == 0 then 0 else EffectiveCount(trace, events, k - 1) + if Effective(trace[k - 1], events[k - 1]) then 1 else 0
  }

  ghost predicate OnAccepted(trace: seq<Drv>, events: seq<Event>, k: nat)
    requires k <= |events| < |trace|
  {
    exists i :: 0 <= i < k && AcceptsOn(trace[i], events[i])
  }

  lemma {:induction false} OwedRun(trace: seq<Drv>, events: seq<Event>, ends: seq<Option<Outcome>>, k: nat)
    requires Run(trace, events, ends) && JustCut(trace[0]) && k <= |events|
    requires forall i :: 0 <= i < k ==> ends[i].None?
    ensures Owes(trace[k]) && trace[k].retries == MissCount(trace, events, k)
    ensures Rank(trace[k]) + EffectiveCount(trace, events, k) <= 28
    ensures Leg(trace[k]) == Verify ==> OnAccepted(trace, events, k)
    decreases k
  {
    hide Step, Misses, AcceptsOn, Effective;
    if k > 0 {
      OwedRun(trace, events, ends, k - 1);
      assert Happens(trace[k - 1], events[k - 1], trace[k - 1 + 1], ends[k - 1]);
      OwedStep(trace[k - 1], events[k - 1]);
    }
  }

  /**
   * A cycle whose off was accepted, under every sequence of timeouts, refused sends, bad answers
   * and cancels. It ends after at most 28 passes in which anything happened; if it reports
   * success, the plug accepted the on; if it gives up, a first try and all three retries failed.
   */
  lemma RestoreIsPursued(trace: seq<Drv>, events: seq<Event>, ends: seq<Option<Outcome>>, k: nat)
    requires Run(trace, events, ends) && JustCut(trace[0]) && k < |events|
    requires forall i :: 0 <= i < k ==> ends[i].None?
    ensures EffectiveCount(trace, events, k + 1) <= 28
    ensures ends[k].Some? ==> trace[k + 1].phase == Idle
    ensures ends[k].Some? && ends[k].value.ok ==> OnAccepted(trace, events, k + 1)
    ensures ends[k].Some? && !ends[k].value.ok ==> MissCount(trace, events, k + 1) == 1 + RETRY_MAX
    ensures ends[k].None? ==> Owes(trace[k + 1])
  {
    hide Step, Misses, AcceptsOn, Effective;
    OwedRun(trace, events, ends, k);
    assert Happens(trace[k], events[k], trace[k + 1], ends[k]);
    OwedStep(trace[k], events[k]);
    assert Rank(trace[k]) >= 1;
    if ends[k].Some? && ends[k].value.ok && Leg(trace[k]) == Verify {
      var i :| 0 <= i < k && AcceptsOn(trace[i], events[i]);
      assert 0 <= i < k + 1;
    }
  }

  /** The off being accepted starts the dwell, and the on is asked for at its end and not before. */
  lemma CutThenOn(d: Drv, p: Pass, later: Pass)
    requires d.phase == Act && d.op.verb == Cycle && !d.op.isStatus && d.retries == 0
    requires p.reply.Some? && p.reply.value.Page? && p.reply.value.setAnswer.Some?
    ensures var cut := Task(d, p).0;
            && JustCut(cut) && cut.requests == d.requests
            && var t := Task(cut, later).0;
               t.requests == if later.now < p.now + d.op.offMs then d.requests
                             else d.requests + [Request(Act2, true, d.at.ip, later.send)]
  {
    hide ProbeDone, FwDone;
  }

  function EndOf(d: Drv, events: seq<Event>): Drv
    decreases |events|
  {
    if events == [] then d else EndOf(Step(d, events[0]).0, events[1..])
  }

  function WithoutDrops(events: seq<Event>): seq<Event> {
    if events == [] then [] else (if events[0].Drop? then [] else [events[0]]) + WithoutDrops(events[1..])
  }

  function Unheard(d: Drv): Drv {
    d.(cb := false)
  }

  lemma UnheardMissed(d: Drv, leg: Phase, now: nat, err: Err)
    ensures Missed(Unheard(d), leg, now, err) == (Unheard(Missed(d, leg, now, err).0), Missed(d, leg, now, err).1)
  {
  }

  lemma UnheardRunLeg(d: Drv, leg: Phase, p: Pass)
    ensures RunLeg(Unheard(d), leg, p) == (Unheard(RunLeg(d, leg, p).0), RunLeg(d, leg, p).1)
  {
    hide Missed;
    var (asked, err) := SendRequest(d, leg, p.send);
    assert SendRequest(Unheard(d), leg, p.send) == (Unheard(asked), err);
    if err.Some? {
      UnheardMissed(asked, leg, p.now, err.value);
    }
  }

  /** Nobody listening changes nothing the driver does. */
  lemma UnheardTask(d: Drv, p: Pass)
    requires Owes(d) || d.phase == Idle
    ensures Task(Unheard(d), p) == (Unheard(Task(d, p).0), Task(d, p).1)
  {
    hide Missed, RunLeg, ProbeDone, FwDone;
    if d.phase == Waiting {
      UnheardRunLeg(d, d.afterWait, p);
    } else if d.phase != Idle && p.reply.Some? {
      var r := p.reply.value;
      UnheardRunLeg(d, Verify, p);
      UnheardMissed(d, d.phase, p.now, if r.Page? then Unsupported else Why(r));
    }
  }

  lemma {:induction false} UnheardRun(d: Drv, events: seq<Event>)
    requires Owes(d) || d.phase == Idle
    ensures Unheard(EndOf(d, events)) == EndOf(Unheard(d), events)
    decreases |events|
  {
    hide Task;
    if events != [] {
      OwedOrIdle(d, events[0]);
      if events[0].Go? {
        UnheardTask(d, events[0].p);
      }
      UnheardRun(Step(d, events[0]).0, events[1..]);
    }
  }

  lemma OwedOrIdle(d: Drv, e: Event)
    requires Owes(d) || d.phase == Idle
    ensures var t := Step(d, e).0;
            (Owes(t) || t.phase == Idle) && (e.Drop? ==> t == Unheard(d))
  {
    if Owes(d) {
      OwedStep(d, e);
    }
  }

  /**
   * A cancelled restore is the same restore: the same requests at the same passes, the same
   * retries, the same end.
   */
  lemma {:induction false} CancelledOrNot(d: Drv, events: seq<Event>)
    requires Owes(d) || d.phase == Idle
    ensures Unheard(EndOf(d, events)) == Unheard(EndOf(d, WithoutDrops(events)))
    decreases |events|
  {
    hide Step;
    if events != [] {
      var t, rest := Step(d, events[0]).0, events[1..];
      OwedOrIdle(d, events[0]);
      CancelledOrNot(t, rest);
      if events[0].Drop? {
        UnheardRun(d, WithoutDrops(rest));
        UnheardRun(t, WithoutDrops(rest));
        assert WithoutDrops(events) == WithoutDrops(rest);
      } else {
        assert WithoutDrops(events)[1..] == WithoutDrops(rest);
      }
    }
  }

  /**
   * The theorem starts at the accepted off for a reason. Once the off of a cycle has been sent, the
   * pass in which its exchange ends starts the dwell, and so the pursuit of the on, exactly when a
   * 200 came back whose body reads as an answer to a set request. On silence, on any other status
   * and on a body that does not read, the plug may have obeyed all the same, and the operation
   * ends there and then with nothing further asked for.
   */
  lemma RestoreOwedExactly(d: Drv, p: Pass)
    requires WellFormed(d) && d.phase == Act && d.op.verb == Cycle && !d.op.isStatus && p.reply.Some?
    ensures var (t, o) := Task(d, p);
            && (JustCut(t) <==> p.reply.value.Page? && p.reply.value.setAnswer.Some?)
            && t.requests == d.requests
            && (!JustCut(t) ==> t.phase == Idle && o.Some? && !o.value.ok
                                && o.value.err == Some(if p.reply.value.Page? then Unsupported else Why(p.reply.value)))
            && (JustCut(t) ==> o.None? && t.waitUntil == p.now + d.op.offMs)
  {
    var r := p.reply.value;
    assert Task(d, p) == ActDone(d, Act, r, p);
    if r.Page? && r.setAnswer.Some? {
      assert d.retries == 0;
    } else {
      NotPastTheCut(d, Act, p.now, if r.Page? then Unsupported else Why(r));
    }
  }

  /** And what has ended stays ended: no continuation of it ever asks for anything again. */
  lemma {:induction false} EndedAsksNothing(d: Drv, events: seq<Event>)
    requires d.phase == Idle
    ensures EndOf(d, events).phase == Idle && EndOf(d, events).requests == d.requests
    decreases |events|
  {
    if events != [] {
      assert Step(d, events[0]).0.phase == Idle && Step(d, events[0]).0.requests == d.requests;
      EndedAsksNothing(Step(d, events[0]).0, events[1..]);
    }
  }

  // What is asked of the plug, and what is reported of it

  /** The operation in hand is this job: exactly what it names, and no other kind. */
  predicate Names(op: Op, job: Job) {
    match job
    case SetJob(verb, offMs) => !op.isStatus && !op.isFwCheck && !op.isFwUpdate && op.verb == verb && op.offMs == offMs
    case StatusJob => op.isStatus && !op.isFwCheck && !op.isFwUpdate
    case FwCheckJob => !op.isStatus && op.isFwCheck && !op.isFwUpdate
    case FwUpdateJob => !op.isStatus && !op.isFwCheck && op.isFwUpdate
  }

  /**
   * A request this job may make: the identity and state reads switch nothing; a set switches on for
   * `on` and off for `off` and for the first half of a cycle, whose second half switches on; a
   * check reads about firmware, and only an update installs any.
   */
  predicate Asks(job: Job, r: Request) {
    match r.leg
    case Probe => !r.on
    case Act => (job.SetJob? && (r.on <==> job.verb == On)) || (job.StatusJob? && !r.on)
    case Act2 => job.SetJob? && job.verb == Cycle && r.on
    case Verify => job.SetJob? && !r.on
    case Wifi => job.StatusJob? && !r.on
    case FwInfo => job.FwCheckJob? && !r.on
    case FwLatest => job.FwCheckJob? && !r.on
    case FwUpdate => job.FwUpdateJob? && !r.on
    case _ => false
  }

  /** A leg this job has. */
  predicate HasLeg(job: Job, leg: Phase) {
    match leg
    case Probe => true
    case Act => job.SetJob? || job.StatusJob?
    case Act2 => job.SetJob? && job.verb == Cycle
    case Verify => job.SetJob?
    case Wifi => job.StatusJob?
    case FwInfo => job.FwCheckJob?
    case FwLatest => job.FwCheckJob?
    case FwUpdate => job.FwUpdateJob?
    case _ => false
  }

  /** At work on this job, or done with it, having asked for nothing that is not part of it. */
  predicate OnJob(d: Drv, job: Job, before: nat) {
    && Names(d.op, job)
    && (d.phase == Idle || (d.phase == Waiting && HasLeg(job, d.afterWait)) || HasLeg(job, d.phase))
    && (d.phase == Waiting ==> d.afterWait != Probe && d.afterWait != Act)
    && before <= |d.requests| && forall i :: before <= i < |d.requests| ==> Asks(job, d.requests[i])
  }

  lemma LegOnJob(d: Drv, leg: Phase, p: Pass, job: Job, before: nat)
    requires OnJob(d, job, before) && HasLeg(job, leg)
    ensures OnJob(RunLeg(d, leg, p).0, job, before)
  {
    hide Missed, OnJob;
    var (asked, err) := SendRequest(d, leg, p.send);
    SendOnJob(d, leg, p.send, job, before);
    if err.Some? {
      MissedOnJob(asked, leg, p.now, err.value, job, before);
    }
  }

  lemma SendOnJob(d: Drv, leg: Phase, s: SendResult, job: Job, before: nat)
    requires OnJob(d, job, before) && HasLeg(job, leg)
    ensures OnJob(SendRequest(d, leg, s).0, job, before)
  {
    var asked := SendRequest(d, leg, s).0;
    assert Asks(job, Request(leg, AsksOn(d, leg), d.at.ip, s));
    assert asked.requests[|d.requests|] == Request(leg, AsksOn(d, leg), d.at.ip, s);
  }

  lemma MissedOnJob(d: Drv, leg: Phase, now: nat, err: Err, job: Job, before: nat)
    requires OnJob(d, job, before) && HasLeg(job, leg)
    ensures OnJob(Missed(d, leg, now, err).0, job, before)
  {
  }

  lemma FinishOnJob(d: Drv, ok: bool, err: Option<Err>, on: bool, job: Job, before: nat)
    requires OnJob(d, job, before)
    ensures OnJob(Finish(d, ok, err, on).0, job, before)
  {
  }

  lemma CancelOnJob(d: Drv, job: Job, before: nat)
    requires OnJob(d, job, before)
    ensures OnJob(Cancel(d), job, before)
  {
  }

  lemma ProbeOnJob(d: Drv, r: Reply, p: Pass, job: Job, before: nat)
    requires OnJob(d, job, before) && d.phase == Probe
    ensures OnJob(ProbeDone(d, r, p).0, job, before)
  {
    hide RunLeg, Finish, ResolveByMac, OnJob;
    OnJobMeans(d, job, before);
    if Recognised(r) {
      var known := d.(at := d.at.(gen1 := r.id.value.gen1, addrConfirmed := true, macSeen := true));
      TargetOnJob(d, known.at, job, before);
      LegOnJob(known, if d.op.isFwCheck then FwInfo else if d.op.isFwUpdate then FwUpdate else Act, p, job, before);
    } else {
      var asked := d.(at := d.at.(resolvedOnce := true));
      TargetOnJob(d, asked.at, job, before);
      ResolveOnJob(asked, p.resolve, job, before);
      var (found, moved) :=
        if d.at.resolvedOnce then (d, false) else ResolveByMac(d.(at := d.at.(resolvedOnce := true)), p.resolve);
      LegOnJob(found, Probe, p, job, before);
      FinishOnJob(found, false, Some(Unsupported), false, job, before);
      FinishOnJob(found, false, Some(Unreachable), false, job, before);
    }
  }

  lemma TargetOnJob(d: Drv, at: Target, job: Job, before: nat)
    requires OnJob(d, job, before)
    ensures OnJob(d.(at := at), job, before)
  {
  }

  lemma ResolveOnJob(d: Drv, r: Resolve, job: Job, before: nat)
    requires OnJob(d, job, before)
    ensures OnJob(ResolveByMac(d, r).0, job, before)
  {
    hide Cancel, OnJob;
    CancelOnJob(d, job, before);
    var at := ResolveByMac(d, r).0.at;
    TargetOnJob(d, at, job, before);
    TargetOnJob(Cancel(d), at, job, before);
    CancelKeepsTarget(d);
  }

  lemma CancelKeepsTarget(d: Drv)
    ensures Cancel(d).at == d.at
  {
  }

  lemma ActOnJob(d: Drv, r: Reply, p: Pass, job: Job, before: nat)
    requires OnJob(d, job, before) && (d.phase == Act || d.phase == Act2 || d.phase == Verify)
    ensures OnJob(ActDone(d, d.phase, r, p).0, job, before)
  {
    hide RunLeg, Finish, Missed, OnJob;
    OnJobMeans(d, job, before);
    MissedOnJob(d, d.phase, p.now, Unsupported, job, before);
    if !r.Page? {
      MissedOnJob(d, d.phase, p.now, Why(r), job, before);
    } else if d.op.isStatus || d.phase == Verify {
      if r.status.Some? {
        FinishOnJob(d, true, None, r.status.value, job, before);
        if d.op.isStatus {
          WifiOnJob(d, r.status.value, p, job, before);
        }
      }
    } else if r.setAnswer.Some? {
      WaitOnJob(d, p.now, job, before);
      LegOnJobIf(d, Verify, p, job, before);
      if r.setAnswer.value.Some? {
        FinishOnJob(d, true, None, r.setAnswer.value.value, job, before);
      }
    }
  }

  lemma OnJobMeans(d: Drv, job: Job, before: nat)
    requires OnJob(d, job, before)
    ensures Names(d.op, job) && (d.phase == Idle || d.phase == Waiting || HasLeg(job, d.phase))
  {
  }

  lemma LegOnJobIf(d: Drv, leg: Phase, p: Pass, job: Job, before: nat)
    requires OnJob(d, job, before)
    ensures HasLeg(job, leg) ==> OnJob(RunLeg(d, leg, p).0, job, before)
  {
    hide RunLeg, OnJob;
    if HasLeg(job, leg) {
      LegOnJob(d, leg, p, job, before);
    }
  }

  lemma WaitOnJob(d: Drv, now: nat, job: Job, before: nat)
    requires OnJob(d, job, before)
    ensures HasLeg(job, Act2) ==> OnJob(d.(waitUntil := now + d.op.offMs, afterWait := Act2, phase := Waiting), job, before)
  {
  }

  lemma WifiOnJob(d: Drv, on: bool, p: Pass, job: Job, before: nat)
    requires OnJob(d, job, before) && d.op.isStatus
    ensures var (asked, err) := SendRequest(d.(stOn := on), Wifi, p.send);
            OnJob(asked, job, before) && OnJob(Finish(asked, true, None, on).0, job, before)
  {
  }

  lemma FwOnJob(d: Drv, r: Reply, p: Pass, job: Job, before: nat)
    requires OnJob(d, job, before) && (d.phase == FwInfo || d.phase == FwLatest || d.phase == FwUpdate)
    ensures OnJob(FwDone(d, r, p).0, job, before)
  {
    hide RunLeg, Finish;
    LegOnJobIf(d, FwLatest, p, job, before);
    FinishOnJob(d, false, Some(Unsupported), false, job, before);
    FinishOnJob(d, false, Some(Unreachable), false, job, before);
    FinishOnJob(d, true, None, false, job, before);
  }

  lemma TaskOnJob(d: Drv, p: Pass, job: Job, before: nat)
    requires OnJob(d, job, before)
    ensures OnJob(Task(d, p).0, job, before)
  {
    hide RunLeg, ProbeDone, ActDone, FwDone, Finish;
    if d.phase == Waiting {
      LegOnJob(d, d.afterWait, p, job, before);
    } else if d.phase != Idle && p.reply.Some? {
      var r := p.reply.value;
      if d.phase == Probe {
        ProbeOnJob(d, r, p, job, before);
      } else if d.phase == Wifi {
        FinishOnJob(d, true, None, d.stOn, job, before);
      } else if d.phase == FwInfo || d.phase == FwLatest || d.phase == FwUpdate {
        FwOnJob(d, r, p, job, before);
      } else {
        ActOnJob(d, r, p, job, before);
      }
    }
  }

  lemma {:induction false} RunOnJob(d: Drv, events: seq<Event>, job: Job, before: nat)
    requires OnJob(d, job, before)
    ensures OnJob(EndOf(d, events), job, before)
    decreases |events|
  {
    hide Task, OnJob, Cancel;
    if events != [] {
      if events[0].Go? {
        TaskOnJob(d, events[0].p, job, before);
      } else {
        CancelOnJob(d, job, before);
      }
      RunOnJob(Step(d, events[0]).0, events[1..], job, before);
    }
  }

  lemma StartOnJob(d: Drv, job: Job, ip: nat, p: Pass)
    requires d.phase == Idle
    ensures var t := Start(d, job, ip, p).0;
            OnJob(t, job, |d.requests|) && |t.requests| == |d.requests| + 1
            && t.requests[|d.requests|] == Request(Probe, false, ip, p.send)
  {
  }

  /**
   * From its start to its end, and however the network and the caller behave, an operation asks
   * the plug for nothing but what its job says; and the first thing it does is ask who is there,
   * at the address it was given.
   */
  lemma OnlyWhatWasAsked(d: Drv, job: Job, ip: nat, p: Pass, events: seq<Event>)
    requires d.phase == Idle
    ensures var (t, n) := (EndOf(Start(d, job, ip, p).0, events), |d.requests|);
            && Names(t.op, job) && n < |t.requests| && t.requests[n] == Request(Probe, false, ip, p.send)
            && forall i :: n <= i < |t.requests| ==> Asks(job, t.requests[i])
  {
    hide Start, Names, Asks;
    StartOnJob(d, job, ip, p);
    var t := Start(d, job, ip, p).0;
    RunOnJob(t, events, job, |d.requests|);
    RequestsGrow(t, events);
  }

  lemma {:induction false} RequestsGrow(d: Drv, events: seq<Event>)
    ensures d.requests <= EndOf(d, events).requests
    decreases |events|
  {
    hide Task;
    if events != [] {
      if events[0].Go? {
        TaskAsksMore(d, events[0].p);
      }
      RequestsGrow(Step(d, events[0]).0, events[1..]);
    }
  }

  lemma TaskAsksMore(d: Drv, p: Pass)
    ensures d.requests <= Task(d, p).0.requests
  {
    hide RunLeg, ProbeDone, ActDone, FwDone;
    if d.phase == Waiting {
      LegAsksMore(d, d.afterWait, p);
    } else if d.phase != Idle && p.reply.Some? {
      ReplyAsksMore(d, p.reply.value, p);
    }
  }

  lemma ReplyAsksMore(d: Drv, r: Reply, p: Pass)
    ensures d.requests <= ProbeDone(d, r, p).0.requests
    ensures d.requests <= ActDone(d, d.phase, r, p).0.requests && d.requests <= FwDone(d, r, p).0.requests
  {
    hide RunLeg, Missed, ResolveByMac;
    LegAsksMore(d, Verify, p);
    LegAsksMore(d, FwLatest, p);
    MissAsksNothing(d, d.phase, p.now, if r.Page? then Unsupported else Why(r));
    if Recognised(r) {
      var known := d.(at := d.at.(gen1 := r.id.value.gen1, addrConfirmed := true, macSeen := true));
      LegAsksMore(known, if d.op.isFwCheck then FwInfo else if d.op.isFwUpdate then FwUpdate else Act, p);
    } else if !d.at.resolvedOnce {
      var asked := d.(at := d.at.(resolvedOnce := true));
      ResolveAsksNothing(asked, p.resolve);
      LegAsksMore(ResolveByMac(asked, p.resolve).0, Probe, p);
    }
  }

  lemma LegAsksMore(d: Drv, leg: Phase, p: Pass)
    ensures d.requests <= RunLeg(d, leg, p).0.requests
  {
    MissedAsksNothing(d, leg, p);
  }

  lemma MissAsksNothing(d: Drv, leg: Phase, now: nat, err: Err)
    ensures Missed(d, leg, now, err).0.requests == d.requests
  {
  }

  lemma ResolveAsksNothing(d: Drv, r: Resolve)
    ensures ResolveByMac(d, r).0.requests == d.requests
  {
  }

  /**
   * What an operation learns of its plug, pass by pass. An answer from the plug itself tells its
   * generation and confirms the address; the first answer that is not from it, or silence, leads to
   * one search, and only a sweep can see the plug or fail to.
   */
  lemma TargetLearns(d: Drv, p: Pass)
    ensures var at := Task(d, p).0.at;
            var heard := d.phase == Probe && p.reply.Some?;
            var itself := heard && p.reply.value.Page? && p.reply.value.id.Some? && p.reply.value.id.value.macMatches;
            var looks := heard && !itself && !d.at.resolvedOnce;
            && (at.resolvedOnce <==> d.at.resolvedOnce || looks)
            && (at.addrConfirmed <==> d.at.addrConfirmed || itself)
            && (at.gen1 <==> if itself then p.reply.value.id.value.gen1 else d.at.gen1)
            && (at.macSeen <==> d.at.macSeen || itself || (looks && p.resolve.Swept? && p.resolve.found.Some?))
            && (at.sweepRan <==> if looks && !p.resolve.FromCache? then p.resolve.Swept? else d.at.sweepRan)
            && at.ip == if looks && p.resolve.FromCache? then p.resolve.ip
                        else if looks && p.resolve.Swept? && p.resolve.found.Some? then p.resolve.found.value else d.at.ip
  {
    hide Task, ResolveByMac;
    ResolveLearns(d.(at := d.at.(resolvedOnce := true)), p.resolve);
    if d.phase == Probe && p.reply.Some? {
      ProbeLearns(d, p.reply.value, p);
      TaskIsProbe(d, p);
    } else {
      OthersLearnNothing(d, p);
    }
  }

  lemma TaskIsProbe(d: Drv, p: Pass)
    requires d.phase == Probe && p.reply.Some?
    ensures Task(d, p) == ProbeDone(d, p.reply.value, p)
  {
    hide ProbeDone;
  }

  lemma OthersLearnNothing(d: Drv, p: Pass)
    requires d.phase != Probe || p.reply.None?
    ensures Task(d, p).0.at == d.at
  {
    hide RunLeg, Missed, ProbeDone, ActDone, FwDone;
    if d.phase == Waiting {
      LegKeepsTarget(d, d.afterWait, p, Internal);
    } else if d.phase != Idle && p.reply.Some? {
      AnswerKeepsTarget(d, p.reply.value, p);
    }
  }

  lemma ResolveLearns(d: Drv, r: Resolve)
    ensures var at := ResolveByMac(d, r).0.at;
            && at == d.at.(macSeen := d.at.macSeen || (r.Swept? && r.found.Some?),
                           sweepRan := if r.FromCache? then d.at.sweepRan else r.Swept?,
                           ip := if r.FromCache? then r.ip else if r.Swept? && r.found.Some? then r.found.value else d.at.ip)
  {
  }

  lemma LegKeepsTarget(d: Drv, leg: Phase, p: Pass, err: Err)
    ensures RunLeg(d, leg, p).0.at == d.at && Missed(d, leg, p.now, err).0.at == d.at
  {
  }

  lemma AnswerKeepsTarget(d: Drv, r: Reply, p: Pass)
    ensures ActDone(d, d.phase, r, p).0.at == d.at && FwDone(d, r, p).0.at == d.at
  {
    hide RunLeg, Missed;
    LegKeepsTarget(d, d.phase, p, if r.Page? then Unsupported else Why(r));
    LegKeepsTarget(d, Verify, p, Internal);
    LegKeepsTarget(d, FwLatest, p, Internal);
  }

  lemma ProbeLearns(d: Drv, r: Reply, p: Pass)
    ensures ProbeDone(d, r, p).0.at ==
            if Recognised(r) then d.at.(gen1 := r.id.value.gen1, addrConfirmed := true, macSeen := true)
            else if d.at.resolvedOnce then d.at
            else ResolveByMac(d.(at := d.at.(resolvedOnce := true)), p.resolve).0.at
  {
    hide RunLeg, Missed, ResolveByMac;
    if Recognised(r) {
      var known := d.(at := d.at.(gen1 := r.id.value.gen1, addrConfirmed := true, macSeen := true));
      LegKeepsTarget(known, if d.op.isFwCheck then FwInfo else if d.op.isFwUpdate then FwUpdate else Act, p, Internal);
    } else if !d.at.resolvedOnce {
      LegKeepsTarget(ResolveByMac(d.(at := d.at.(resolvedOnce := true)), p.resolve).0, Probe, p, Internal);
    }
  }

  /**
   * What each pass asks, and nothing else: the leg whose wait is over; the leg a recognised plug is
   * probed for; one more probe at the address a search found; the Wi-Fi reading after a Gen2 status;
   * the reading that confirms a set whose answer does not tell; the check after a Gen2 version.
   */
  function Next(d: Drv, p: Pass): Option<Phase> {
    if d.phase == Waiting then if p.now >= d.waitUntil then Some(d.afterWait) else None
    else if d.phase == Idle || p.reply.None? then None
    else
      var r := p.reply.value;
      match d.phase
      case Probe =>
        if r.Page? && r.id.Some? && r.id.value.macMatches then
          Some(if d.op.isFwCheck then FwInfo else if d.op.isFwUpdate then FwUpdate else Act)
        else if !d.at.resolvedOnce && (p.resolve.FromCache? || (p.resolve.Swept? && p.resolve.found.Some?)) then Some(Probe)
        else None
      case Act =>
        if d.op.isStatus then if r.Page? && r.status.Some? && !d.at.gen1 then Some(Wifi) else None
        else if r.Page? && r.setAnswer == Some(None) && d.op.verb != Cycle then Some(Verify) else None
      case Act2 =>
        if d.op.isStatus then if r.Page? && r.status.Some? && !d.at.gen1 then Some(Wifi) else None
        else if r.Page? && r.setAnswer == Some(None) then Some(Verify) else None
      case FwInfo => if r.Page? && r.version && !d.at.gen1 then Some(FwLatest) else None
      case _ => None
  }

  lemma AsksExactly(d: Drv, p: Pass)
    ensures var (t, leg) := (Task(d, p).0, Next(d, p));
            t.requests == d.requests + match leg
                                       case None => []
                                       case Some(l) => [Request(l, AsksOn(d, l), t.at.ip, p.send)]
    ensures Next(d, p).Some? && p.send == Sent ==> Task(d, p).0.phase == Next(d, p).value && Task(d, p).1.None?
  {
    hide RunLeg, Missed, ProbeDone, ActDone, FwDone;
    assert d.requests + [] == d.requests;
    if d.phase == Waiting {
      LegAsks(d, d.afterWait, p);
    } else if d.phase != Idle && p.reply.Some? {
      var r := p.reply.value;
      if d.phase == Probe {
        ProbeAsks(d, r, p);
      } else if d.phase == FwInfo || d.phase == FwLatest || d.phase == FwUpdate {
        FwAsks(d, r, p);
      } else if d.phase != Wifi {
        ActAsks(d, r, p);
      }
    }
  }

  lemma LegAsks(d: Drv, leg: Phase, p: Pass)
    ensures var (t, o) := RunLeg(d, leg, p);
            && t.requests == d.requests + [Request(leg, AsksOn(d, leg), d.at.ip, p.send)] && t.at == d.at
            && (p.send == Sent ==> t.phase == leg && o.None?)
  {
  }

  lemma ProbeAsks(d: Drv, r: Reply, p: Pass)
    requires d.phase == Probe && p.reply == Some(r)
    ensures var ((t, o), leg) := (ProbeDone(d, r, p), Next(d, p));
            && t.requests == d.requests + (match leg case None => [] case Some(l) => [Request(l, AsksOn(d, l), t.at.ip, p.send)])
            && (leg.Some? && p.send == Sent ==> t.phase == leg.value && o.None?)
  {
    hide RunLeg, ResolveByMac;
    assert d.requests + [] == d.requests;
    if Recognised(r) {
      var known := d.(at := d.at.(gen1 := r.id.value.gen1, addrConfirmed := true, macSeen := true));
      LegAsks(known, if d.op.isFwCheck then FwInfo else if d.op.isFwUpdate then FwUpdate else Act, p);
    } else if !d.at.resolvedOnce {
      var asked := d.(at := d.at.(resolvedOnce := true));
      ResolveAsksNothing(asked, p.resolve);
      ResolveMoves(asked, p.resolve);
      LegAsks(ResolveByMac(asked, p.resolve).0, Probe, p);
    }
  }

  lemma ResolveMoves(d: Drv, r: Resolve)
    ensures ResolveByMac(d, r).1 <==> r.FromCache? || (r.Swept? && r.found.Some?)
    ensures ResolveByMac(d, r).0.op == d.op
  {
  }

  lemma ActAsks(d: Drv, r: Reply, p: Pass)
    requires (d.phase == Act || d.phase == Act2 || d.phase == Verify) && p.reply == Some(r)
    ensures var ((t, o), leg) := (ActDone(d, d.phase, r, p), Next(d, p));
            && t.requests == d.requests + (match leg case None => [] case Some(l) => [Request(l, AsksOn(d, l), t.at.ip, p.send)])
            && (leg.Some? && p.send == Sent ==> t.phase == leg.value && o.None?)
  {
    hide RunLeg, Missed;
    assert d.requests + [] == d.requests;
    LegAsks(d, Verify, p);
    MissAsksNothing(d, d.phase, p.now, if r.Page? then Unsupported else Why(r));
  }

  lemma FwAsks(d: Drv, r: Reply, p: Pass)
    requires (d.phase == FwInfo || d.phase == FwLatest || d.phase == FwUpdate) && p.reply == Some(r)
    ensures var ((t, o), leg) := (FwDone(d, r, p), Next(d, p));
            && t.requests == d.requests + (match leg case None => [] case Some(l) => [Request(l, AsksOn(d, l), t.at.ip, p.send)])
            && (leg.Some? && p.send == Sent ==> t.phase == leg.value && o.None?)
  {
    hide RunLeg;
    assert d.requests + [] == d.requests;
    LegAsks(d, FwLatest, p);
  }

  /** A try of the restore that came to nothing is made again a second later, as long as the budget lasts. */
  lemma TriedAgainInASecond(d: Drv, p: Pass)
    requires Owes(d) && Misses(d, Go(p)) && d.retries < RETRY_MAX
    ensures var t := Task(d, p).0;
            t.phase == Waiting && t.waitUntil == p.now + 1000 && t.retries == d.retries + 1
            && t.afterWait == if AcceptsOn(d, Go(p)) then Verify else Leg(d)
  {
    hide ProbeDone, FwDone;
  }

  /** How a report is put together: a failure says why, and how far the plug was seen. */
  predicate Reports(o: Outcome, at: Target) {
    && (o.ok <==> o.err.None?)
    && (o.presence == Mute <==> o.err == Some(Unreachable) && at.macSeen)
    && (o.presence == Absent <==> o.err == Some(Unreachable) && !at.macSeen && at.sweepRan)
  }

  lemma FinishReports(d: Drv, ok: bool, err: Option<Err>, on: bool)
    requires ok <==> err.None?
    ensures var (t, o) := Finish(d, ok, err, on);
            o.Some? && o.value.ok == ok && o.value.err == err && o.value.on == on && Reports(o.value, t.at)
  {
  }

  lemma MissReports(d: Drv, leg: Phase, now: nat, err: Err)
    ensures var (t, o) := Missed(d, leg, now, err);
            o.Some? ==> !o.value.ok && o.value.err == Some(err) && Reports(o.value, t.at)
  {
    hide Finish;
    FinishReports(d, false, Some(err), false);
  }

  lemma LegReports(d: Drv, leg: Phase, p: Pass)
    ensures var (t, o) := RunLeg(d, leg, p);
            && (o.Some? ==> !o.value.ok && Reports(o.value, t.at)
                            && o.value.err == Some(if p.send == NoRoom then Internal else Unreachable) && p.send != Sent)
            && t.stOn == d.stOn && (t.phase == Wifi ==> leg == Wifi || d.phase == Wifi)
  {
    MissReports(SendRequest(d, leg, p.send).0, leg, p.now, if p.send == NoRoom then Internal else Unreachable);
  }

  /**
   * A success reports the state of the answer it ended with: the answer to the set itself, or the
   * reading after it, or the reading that was asked for. Its failure says why.
   */
  ghost predicate EndsAs(d: Drv, p: Pass, o: Outcome) {
    && p.reply.Some?
    && match d.phase
       case Act => p.reply.value.Page? && if d.op.isStatus then p.reply.value.status == Some(o.on) else p.reply.value.setAnswer == Some(Some(o.on))
       case Act2 => p.reply.value.Page? && if d.op.isStatus then p.reply.value.status == Some(o.on) else p.reply.value.setAnswer == Some(Some(o.on))
       case Verify => p.reply.value.Page? && p.reply.value.status == Some(o.on)
       case Wifi => o.on == d.stOn
       case FwInfo => p.reply.value.Page? && p.reply.value.report && !o.on
       case FwLatest => p.reply.value.Page? && p.reply.value.report && !o.on
       case FwUpdate => p.reply.value.Page? && !o.on
       case _ => false
  }

  /** The pass brings the answer an operation is after, unless one more request is due and goes out. */
  predicate Succeeds(d: Drv, p: Pass) {
    && p.reply.Some?
    && var r := p.reply.value;
       match d.phase
       case Act =>
         r.Page? && if d.op.isStatus then r.status.Some? else r.setAnswer.Some? && r.setAnswer.value.Some? && d.op.verb != Cycle
       case Act2 => r.Page? && if d.op.isStatus then r.status.Some? else r.setAnswer.Some? && r.setAnswer.value.Some?
       case Verify => r.Page? && r.status.Some?
       case Wifi => true
       case FwInfo => r.Page? && r.report && d.at.gen1
       case FwLatest => r.Page? && r.report
       case FwUpdate => r.Page?
       case _ => false
  }

  /** The failure that goes with a pass: of the next request, if one was due, and otherwise of the answer. */
  function WhyFailed(d: Drv, p: Pass): Err {
    if Next(d, p).Some? then if p.send == NoRoom then Internal else Unreachable
    else if p.reply == Some(NoReply) then Unreachable
    else if d.phase == Probe then
      if d.at.addrConfirmed && p.reply.Some? && p.reply.value.Page? && p.reply.value.id.Some? then Unsupported else Unreachable
    else Unsupported
  }

  lemma OutcomeSays(d: Drv, p: Pass)
    requires d.phase != Idle
    ensures var (t, o) := Task(d, p);
            && (o.Some? ==> Reports(o.value, t.at) && if o.value.ok then EndsAs(d, p, o.value) else o.value.err == Some(WhyFailed(d, p)))
            && (o.Some? && o.value.ok <==> Succeeds(d, p) && (Next(d, p).Some? ==> p.send != Sent))
  {
    hide RunLeg, Missed, Finish, Reports, ProbeDone, ActDone, FwDone;
    if d.phase == Waiting {
      LegReports(d, d.afterWait, p);
    } else if p.reply.Some? {
      var r := p.reply.value;
      if d.phase == Probe {
        ProbeSays(d, r, p);
      } else if d.phase == Wifi {
        FinishReports(d, true, None, d.stOn);
      } else if d.phase == FwInfo || d.phase == FwLatest || d.phase == FwUpdate {
        FwSays(d, r, p);
      } else {
        ActSays(d, r, p);
      }
    }
  }

  lemma ProbeSays(d: Drv, r: Reply, p: Pass)
    requires d.phase == Probe && p.reply == Some(r)
    ensures var (t, o) := ProbeDone(d, r, p);
            o.Some? ==> !o.value.ok && Reports(o.value, t.at) && o.value.err == Some(WhyFailed(d, p))
  {
    hide RunLeg, Finish, Reports, ResolveByMac;
    if Recognised(r) {
      var known := d.(at := d.at.(gen1 := r.id.value.gen1, addrConfirmed := true, macSeen := true));
      LegReports(known, if d.op.isFwCheck then FwInfo else if d.op.isFwUpdate then FwUpdate else Act, p);
    } else {
      var asked := d.(at := d.at.(resolvedOnce := true));
      var (found, moved) := if d.at.resolvedOnce then (d, false) else ResolveByMac(asked, p.resolve);
      ResolveMoves(asked, p.resolve);
      ResolveLearns(asked, p.resolve);
      LegReports(found, Probe, p);
      FinishReports(found, false, Some(Unsupported), false);
      FinishReports(found, false, Some(Unreachable), false);
    }
  }

  lemma ActSays(d: Drv, r: Reply, p: Pass)
    requires p.reply == Some(r) && (d.phase == Act || d.phase == Act2 || d.phase == Verify)
    ensures var (t, o) := ActDone(d, d.phase, r, p);
            && (o.Some? ==> Reports(o.value, t.at) && if o.value.ok then EndsAs(d, p, o.value) else o.value.err == Some(WhyFailed(d, p)))
            && (o.Some? && o.value.ok <==> Succeeds(d, p) && (Next(d, p).Some? ==> p.send != Sent))
  {
    hide RunLeg, Missed, Finish, Reports;
    MissReports(d, d.phase, p.now, if r.Page? then Unsupported else Why(r));
    LegReports(d, Verify, p);
    if r.Page? && r.status.Some? {
      FinishReports(d, true, None, r.status.value);
      var (asked, err) := SendRequest(d.(stOn := r.status.value), Wifi, p.send);
      FinishReports(asked, true, None, r.status.value);
    }
    if r.Page? && r.setAnswer.Some? && r.setAnswer.value.Some? {
      FinishReports(d, true, None, r.setAnswer.value.value);
    }
  }

  lemma FwSays(d: Drv, r: Reply, p: Pass)
    requires p.reply == Some(r) && (d.phase == FwInfo || d.phase == FwLatest || d.phase == FwUpdate)
    ensures var (t, o) := FwDone(d, r, p);
            && (o.Some? ==> Reports(o.value, t.at) && if o.value.ok then EndsAs(d, p, o.value) else o.value.err == Some(WhyFailed(d, p)))
            && (o.Some? && o.value.ok <==> Succeeds(d, p) && (Next(d, p).Some? ==> p.send != Sent))
  {
    hide RunLeg, Missed, Finish, Reports;
    LegReports(d, FwLatest, p);
    FinishReports(d, false, Some(if r.Page? then Unsupported else Why(r)), false);
    FinishReports(d, false, Some(Unsupported), false);
    FinishReports(d, true, None, false);
  }

  /** Still probing, and the address not confirmed. */
  predicate Unconfirmed(d: Drv) {
    WellFormed(d) && (d.phase == Probe ==> !d.at.addrConfirmed)
  }

  lemma {:induction false} RunUnconfirmed(d: Drv, events: seq<Event>)
    requires Unconfirmed(d)
    ensures Unconfirmed(EndOf(d, events))
    decreases |events|
  {
    hide Task, Unconfirmed, Cancel;
    if events != [] {
      if events[0].Go? {
        TaskUnconfirmed(d, events[0].p);
      } else {
        CancelUnconfirmed(d);
      }
      RunUnconfirmed(Step(d, events[0]).0, events[1..]);
    }
  }

  lemma CancelUnconfirmed(d: Drv)
    requires Unconfirmed(d)
    ensures Unconfirmed(Cancel(d))
  {
  }

  lemma TaskUnconfirmed(d: Drv, p: Pass)
    requires Unconfirmed(d)
    ensures Unconfirmed(Task(d, p).0)
  {
    hide Task;
    if d.phase == Idle {
      IdleRests(d, p);
    } else {
      EveryOperationEnds(d, p);
      TargetLearns(d, p);
      ProbesAgain(d, p);
    }
  }

  /** Nothing but an unanswered probe leads to a probe. */
  lemma ProbesAgain(d: Drv, p: Pass)
    requires WellFormed(d)
    ensures Task(d, p).0.phase == Probe ==> d.phase == Probe && !(p.reply.Some? && Recognised(p.reply.value))
  {
    hide RunLeg, ProbeDone, ActDone, FwDone, Finish, Recognised;
    FinishEnds(d, true, None, d.stOn);
    if d.phase == Waiting {
      LegLeadsTo(d, d.afterWait, p);
    } else if p.reply.Some? {
      var r := p.reply.value;
      if d.phase == Probe {
        if Recognised(r) {
          RecognisedMovesOn(d, r, p);
        }
      } else {
        AnsweredMovesOn(d, r, p);
      }
    }
  }

  lemma RecognisedMovesOn(d: Drv, r: Reply, p: Pass)
    requires Recognised(r)
    ensures ProbeDone(d, r, p).0.phase != Probe
  {
    hide RunLeg;
    var known := d.(at := d.at.(gen1 := r.id.value.gen1, addrConfirmed := true, macSeen := true));
    LegLeadsTo(known, if d.op.isFwCheck then FwInfo else if d.op.isFwUpdate then FwUpdate else Act, p);
  }

  lemma AnsweredMovesOn(d: Drv, r: Reply, p: Pass)
    requires d.phase != Probe
    ensures ActDone(d, d.phase, r, p).0.phase != Probe && FwDone(d, r, p).0.phase != Probe
  {
    hide RunLeg, Missed;
    LegLeadsTo(d, Verify, p);
    LegLeadsTo(d, FwLatest, p);
    MissedElsewhere(d, d.phase, p.now, if r.Page? then Unsupported else Why(r));
  }

  lemma LegLeadsTo(d: Drv, leg: Phase, p: Pass)
    ensures var t := RunLeg(d, leg, p).0;
            t.phase == leg || t.phase == Waiting || t.phase == Idle
  {
  }

  /**
   * A stranger at an address known to be the plug's is said to be reported as unsupported. It never
   * is: the address is only ever confirmed by the answer that ends the probing, so in every run a
   * probe that fails fails as unreachable, or as internal when there was no room to ask again.
   */
  lemma ProbeNeverUnsupported(d: Drv, job: Job, ip: nat, p: Pass, events: seq<Event>, q: Pass)
    requires d.phase == Idle
    ensures var t := EndOf(Start(d, job, ip, p).0, events);
            var o := Task(t, q).1;
            t.phase == Probe && o.Some? ==> !o.value.ok && o.value.err != Some(Unsupported)
  {
    hide Task, WellFormed;
    StartedOrEnded(d, job, ip, p);
    var s := Start(d, job, ip, p).0;
    assert !s.at.addrConfirmed;
    RunUnconfirmed(s, events);
    var t := EndOf(s, events);
    if t.phase == Probe {
      OutcomeSays(t, q);
    }
  }

  /** What a status read on the way to the Wi-Fi read found is kept until it is reported. */
  lemma StatusKept(d: Drv, p: Pass)
    requires d.phase != Idle && (d.phase == Waiting ==> d.afterWait != Wifi) && Task(d, p).0.phase == Wifi
    ensures var t := Task(d, p).0;
            if d.phase == Wifi then t.stOn == d.stOn && p.reply.None?
            else d.op.isStatus && p.reply.Some? && p.reply.value.Page? && p.reply.value.status == Some(t.stOn)
  {
    hide RunLeg, Missed;
    if d.phase == Waiting {
      LegReports(d, d.afterWait, p);
    } else if p.reply.Some? {
      StatusKeptBy(d, p.reply.value, p);
    }
  }

  lemma StatusKeptBy(d: Drv, r: Reply, p: Pass)
    requires d.phase != Wifi
    ensures ProbeDone(d, r, p).0.phase != Wifi && FwDone(d, r, p).0.phase != Wifi
    ensures var t := ActDone(d, d.phase, r, p).0;
            t.phase == Wifi ==> d.op.isStatus && r.Page? && r.status == Some(t.stOn)
  {
    hide ActDone, FwDone, ProbeDone;
    ProbeElsewhere(d, r, p);
    FwElsewhere(d, r, p);
    StatusToWifi(d, r, p);
  }

  lemma StatusToWifi(d: Drv, r: Reply, p: Pass)
    requires d.phase != Wifi
    ensures var t := ActDone(d, d.phase, r, p).0;
            t.phase == Wifi ==> d.op.isStatus && r.Page? && r.status == Some(t.stOn)
  {
    hide RunLeg, Missed;
    LegReports(d, Verify, p);
    MissedElsewhere(d, d.phase, p.now, if r.Page? then Unsupported else Why(r));
  }

  lemma FwElsewhere(d: Drv, r: Reply, p: Pass)
    requires d.phase != Wifi
    ensures FwDone(d, r, p).0.phase != Wifi
  {
    hide RunLeg;
    LegReports(d, FwLatest, p);
  }

  lemma ProbeElsewhere(d: Drv, r: Reply, p: Pass)
    requires d.phase != Wifi
    ensures ProbeDone(d, r, p).0.phase != Wifi
  {
    hide RunLeg, ResolveByMac;
    if Recognised(r) {
      var known := d.(at := d.at.(gen1 := r.id.value.gen1, addrConfirmed := true, macSeen := true));
      LegReports(known, if d.op.isFwCheck then FwInfo else if d.op.isFwUpdate then FwUpdate else Act, p);
    } else if !d.at.resolvedOnce {
      var asked := d.(at := d.at.(resolvedOnce := true));
      ResolveElsewhere(asked, p.resolve);
      LegReports(ResolveByMac(asked, p.resolve).0, Probe, p);
    }
  }

  lemma MissedElsewhere(d: Drv, leg: Phase, now: nat, err: Err)
    ensures Missed(d, leg, now, err).0.phase == Waiting || Missed(d, leg, now, err).0.phase == Idle
  {
  }

  lemma ResolveElsewhere(d: Drv, r: Resolve)
    requires d.phase != Wifi
    ensures ResolveByMac(d, r).0.phase != Wifi
  {
  }

  // A cancel before the cut

  /** Between passes a cancel ends every operation that is not past the cut of a cycle, at once. */
  lemma CancelStops(d: Drv, events: seq<Event>)
    requires d.phase == Probe || d.op.isStatus || d.op.verb != Cycle
    ensures var t := EndOf(Cancel(d), events);
            t.phase == Idle && t.requests == d.requests
  {
    EndedAsksNothing(Cancel(d), events);
  }

  /**
   * Inside a pass, while the address is searched for, it ends the operation exactly when the search
   * finds nothing or no probe can be sent. Otherwise the operation starts over without a caller:
   * the phase the cancel cleared is set again by the probe.
   */
  lemma CancelInSearchExactly(d: Drv, p: Pass)
    requires DroppedIn(d, p)
    ensures var t := Task(d, p).0;
            && !t.cb && t.op == d.op
            && (t.phase == Idle <==> p.resolve.found.None? || p.send != Sent)
            && (t.phase != Idle ==> t.phase == Probe && t.requests == d.requests + [Request(Probe, false, p.resolve.found.value, Sent)])
  {
    hide Finish, RunLeg;
    var asked := d.(at := d.at.(resolvedOnce := true));
    var found := ResolveByMac(asked, p.resolve).0;
    assert Task(d, p) == ProbeDone(d, p.reply.value, p);
    FinishEnds(found, false, Some(Unreachable), false);
    FinishEnds(found, false, Some(Unsupported), false);
    ProbeGoesOut(found, p);
  }

  lemma ProbeGoesOut(d: Drv, p: Pass)
    ensures var t := RunLeg(d, Probe, p).0;
            && t.cb == d.cb && t.op == d.op && t.at == d.at && t.requests == d.requests + [Request(Probe, false, d.at.ip, p.send)]
            && t.phase == if p.send == Sent then Probe else Idle
  {
  }

  lemma FinishEnds(d: Drv, ok: bool, err: Option<Err>, on: bool)
    ensures Finish(d, ok, err, on).0 == d.(phase := Idle)
  {
  }

  /** And then, when the plug answers, the cancelled command is given: the off of a cycle, say. */
  lemma CancelledActsAnyway(d: Drv, p: Pass, later: Pass)
    requires DroppedIn(d, p) && p.resolve.found.Some? && p.send == Sent && !d.op.isFwCheck && !d.op.isFwUpdate
    requires later.reply.Some? && Recognised(later.reply.value)
    ensures var t := Task(d, p).0;
            Task(t, later).0.requests == t.requests + [Request(Act, AsksOn(d, Act), p.resolve.found.value, later.send)]
  {
    hide Missed;
    CancelInSearchExactly(d, p);
    var t := Task(d, p).0;
    var asked := d.(at := d.at.(resolvedOnce := true));
    assert Task(d, p) == ProbeDone(d, p.reply.value, p) == RunLeg(ResolveByMac(asked, p.resolve).0, Probe, p);
    assert t.at.ip == p.resolve.found.value;
    var r := later.reply.value;
    var known := t.(at := t.at.(gen1 := r.id.value.gen1, addrConfirmed := true, macSeen := true));
    assert Task(t, later) == RunLeg(known, Act, later);
    MissedAsksNothing(known, Act, later);
  }

  lemma MissedAsksNothing(d: Drv, leg: Phase, p: Pass)
    ensures RunLeg(d, leg, p).0.requests == d.requests + [Request(leg, AsksOn(d, leg), d.at.ip, p.send)]
  {
  }

  // Every operation ends

  predicate WellFormed(d: Drv) {
    && (d.phase != Idle ==> d.retries <= RETRY_MAX)
    && (d.phase == Probe || d.phase == Act ==> d.retries == 0)
    && (d.phase == Waiting || d.phase == Act2 ==> Owes(d))
    && (d.phase == Verify && d.op.verb == Cycle ==> !d.op.isStatus)
    && (d.phase == Wifi ==> d.op.isStatus)
  }

  /** How many more passes can make a difference, at most. */
  function Budget(d: Drv): nat {
    match d.phase
    case Idle => 0
    case Probe => 31 + (if d.at.resolvedOnce then 0 else 1)
    case Act => 30
    case Waiting => Rank(d)
    case Act2 => Rank(d)
    case Verify => if Owes(d) then Rank(d) else 1
    case Wifi => 1
    case FwInfo => 2
    case FwLatest => 1
    case FwUpdate => 1
  }

  lemma BudgetBounded(d: Drv)
    requires WellFormed(d)
    ensures Budget(d) <= 32 && (d.phase != Idle ==> Budget(d) > 0)
  {
  }

  lemma LegStarts(d: Drv, leg: Phase, p: Pass)
    requires leg != Idle && leg != Waiting && !PastTheCut(d, leg)
    ensures var (t, o) := RunLeg(d, leg, p);
            && (o.Some? <==> t.phase == Idle) && (t.phase == leg || t.phase == Idle)
            && t.op == d.op && t.at == d.at && t.retries == d.retries
  {
  }

  lemma NotPastTheCut(d: Drv, leg: Phase, now: nat, err: Err)
    requires !PastTheCut(d, leg)
    ensures Missed(d, leg, now, err).0.phase == Idle && Missed(d, leg, now, err).1.Some?
  {
  }

  /** Each pass in which something happens uses up some of the budget, whatever the operation. */
  lemma EveryOperationEnds(d: Drv, p: Pass)
    requires WellFormed(d) && d.phase != Idle
    ensures var (t, o) := Task(d, p);
            && WellFormed(t)
            && (o.Some? <==> t.phase == Idle)
            && (if Effective(d, Go(p)) then Budget(t) < Budget(d) else t == d)
  {
    hide Missed, RunLeg, ResolveByMac;
    if Owes(d) {
      OwedStep(d, Go(p));
    } else if Effective(d, Go(p)) {
      EndsOtherwise(d, p);
    }
  }

  lemma EndsOtherwise(d: Drv, p: Pass)
    requires WellFormed(d) && d.phase != Idle && !Owes(d) && p.reply.Some?
    ensures var (t, o) := Task(d, p);
            WellFormed(t) && (o.Some? <==> t.phase == Idle) && Budget(t) < Budget(d)
  {
    hide Missed, RunLeg, ResolveByMac, ProbeDone, ActDone, FwDone;
    var r := p.reply.value;
    if d.phase == Probe {
      ProbeEnds(d, r, p);
    } else if d.phase == Act || d.phase == Verify {
      ActEnds(d, r, p);
    } else if d.phase != Wifi {
      FwEnds(d, r, p);
    }
  }

  lemma ProbeEnds(d: Drv, r: Reply, p: Pass)
    requires WellFormed(d) && d.phase == Probe
    ensures var (t, o) := ProbeDone(d, r, p);
            WellFormed(t) && (o.Some? <==> t.phase == Idle) && Budget(t) < Budget(d)
  {
    hide RunLeg, ResolveByMac;
    if Recognised(r) {
      var known := d.(at := d.at.(gen1 := r.id.value.gen1, addrConfirmed := true, macSeen := true));
      LegStarts(known, if d.op.isFwCheck then FwInfo else if d.op.isFwUpdate then FwUpdate else Act, p);
    } else if !d.at.resolvedOnce {
      var asked := d.(at := d.at.(resolvedOnce := true));
      ResolveKeeps(asked, p.resolve);
      LegStarts(ResolveByMac(asked, p.resolve).0, Probe, p);
    }
  }

  lemma ResolveKeeps(d: Drv, r: Resolve)
    ensures var t := ResolveByMac(d, r).0;
            t.op == d.op && t.retries == d.retries && t.at.resolvedOnce == d.at.resolvedOnce
  {
  }

  lemma ActEnds(d: Drv, r: Reply, p: Pass)
    requires WellFormed(d) && !Owes(d) && (d.phase == Act || d.phase == Verify)
    ensures var (t, o) := ActDone(d, d.phase, r, p);
            WellFormed(t) && (o.Some? <==> t.phase == Idle) && Budget(t) < Budget(d)
  {
    hide Missed, RunLeg;
    NotPastTheCut(d, d.phase, p.now, if r.Page? then Unsupported else Why(r));
    if r.Page? && r.setAnswer == Some(None) && !d.op.isStatus && d.phase == Act && d.op.verb != Cycle {
      LegStarts(d, Verify, p);
    }
  }

  lemma FwEnds(d: Drv, r: Reply, p: Pass)
    requires WellFormed(d) && (d.phase == FwInfo || d.phase == FwLatest || d.phase == FwUpdate)
    ensures var (t, o) := FwDone(d, r, p);
            WellFormed(t) && (o.Some? <==> t.phase == Idle) && Budget(t) < Budget(d)
  {
    hide Missed, RunLeg;
    LegStarts(d, FwLatest, p);
  }

  lemma LegKeepsCaller(d: Drv, leg: Phase, p: Pass, now: nat, err: Err)
    ensures RunLeg(d, leg, p).0.cb == d.cb && Missed(d, leg, now, err).0.cb == d.cb
    ensures RunLeg(d, leg, p).0.op == d.op && Missed(d, leg, now, err).0.op == d.op
  {
  }

  lemma TaskKeepsCaller(d: Drv, p: Pass)
    ensures Task(d, p).0.cb == (d.cb && !DroppedIn(d, p)) && Task(d, p).0.op == d.op
  {
    hide RunLeg, Missed, ProbeDone, ActDone, FwDone;
    if d.phase == Waiting {
      LegKeepsCaller(d, d.afterWait, p, p.now, Internal);
    } else if d.phase != Idle && p.reply.Some? {
      ReplyKeepsCaller(d, p.reply.value, p);
    }
  }

  lemma ReplyKeepsCaller(d: Drv, r: Reply, p: Pass)
    ensures ActDone(d, d.phase, r, p).0.cb == d.cb && FwDone(d, r, p).0.cb == d.cb
    ensures ActDone(d, d.phase, r, p).0.op == FwDone(d, r, p).0.op == ProbeDone(d, r, p).0.op == d.op
    ensures ProbeDone(d, r, p).0.cb == (d.cb && (Recognised(r) || d.at.resolvedOnce || !p.resolve.Swept? || !p.resolve.dropped))
  {
    hide RunLeg, Missed, ResolveByMac;
    LegKeepsCaller(d, d.phase, p, p.now, if r.Page? then Unsupported else Why(r));
    LegKeepsCaller(d, Verify, p, p.now, Internal);
    LegKeepsCaller(d, FwLatest, p, p.now, Internal);
    if Recognised(r) {
      var known := d.(at := d.at.(gen1 := r.id.value.gen1, addrConfirmed := true, macSeen := true));
      LegKeepsCaller(known, if d.op.isFwCheck then FwInfo else if d.op.isFwUpdate then FwUpdate else Act, p, p.now, Internal);
    } else if !d.at.resolvedOnce {
      var asked := d.(at := d.at.(resolvedOnce := true));
      ResolveKeepsCaller(asked, p.resolve);
      LegKeepsCaller(ResolveByMac(asked, p.resolve).0, Probe, p, p.now, Internal);
    }
  }

  lemma IdleRests(d: Drv, p: Pass)
    requires d.phase == Idle
    ensures Task(d, p) == (d, None)
  {
  }

  lemma ResolveKeepsCaller(d: Drv, r: Resolve)
    ensures ResolveByMac(d, r).0.cb == (d.cb && !(r.Swept? && r.dropped)) && ResolveByMac(d, r).0.op == d.op
  {
  }

  /** A started operation has been asked for on behalf of its caller, who has heard the end if it is idle again. */
  lemma StartedOrEnded(d: Drv, job: Job, ip: nat, p: Pass)
    requires d.phase == Idle
    ensures var (t, o, started) := Start(d, job, ip, p);
            started && t.cb && WellFormed(t) && (o.Some? <==> t.phase == Idle)
  {
  }

  // The code

  /** The file-scope driver. */
  class Driver {
    var phase: Phase
    var op: Op
    var at: Target
    var waitUntil: nat
    var afterWait: Phase
    var retries: nat
    var cb: bool
    var stOn: bool
    var requests: seq<Request>

    ghost function Now(): Drv
      reads this
    {
      Drv(phase, op, at, waitUntil, afterWait, retries, cb, stOn, requests)
    }

    constructor ()
      ensures Now() == REST
    {
      phase, op, at := REST.phase, REST.op, REST.at;
      waitUntil, afterWait, retries, cb, stOn, requests := 0, Idle, 0, false, false, [];
    }

    method FinishOp(ok: bool, err: Option<Err>, on: bool) returns (o: Option<Outcome>)
      modifies this`phase
      ensures (Now(), o) == Finish(old(Now()), ok, err, on)
    {
      phase := Idle;
      var presence := Unknown;
      if !ok && err == Some(Unreachable) {
        presence := if at.macSeen then Mute else if at.sweepRan then Absent else Unknown;
      }
      o := Some(Outcome(ok, err, on, presence));
    }

    method Send(leg: Phase, s: SendResult) returns (err: Option<Err>)
      modifies this`phase, this`requests
      ensures (Now(), err) == SendRequest(old(Now()), leg, s)
    {
      var on := leg == Act2 || (leg == Act && !op.isStatus && op.verb == On);
      requests := requests + [Request(leg, on, at.ip, s)];
      if s == NoRoom {
        return Some(Internal);
      }
      if s == NoSocket {
        return Some(Unreachable);
      }
      phase := leg;
      err := None;
    }

    method ScheduleRetry(leg: Phase, now: nat) returns (again: bool)
      modifies this
      ensures again == (old(retries) < RETRY_MAX)
      ensures Now() == if again then Retry(old(Now()), leg, now) else old(Now())
    {
      if retries >= RETRY_MAX {
        return false;
      }
      retries := retries + 1;
      waitUntil := now + RETRY_GAP_MS;
      afterWait := leg;
      phase := Waiting;
      again := true;
    }

    method Fail(leg: Phase, now: nat, err: Err) returns (o: Option<Outcome>)
      modifies this
      ensures (Now(), o) == Missed(old(Now()), leg, now, err)
    {
      if op.verb == Cycle && !op.isStatus && (leg == Act2 || leg == Verify) {
        var again := ScheduleRetry(leg, now);
        if again {
          return None;
        }
      }
      o := FinishOp(false, Some(err), false);
    }

    method StartLeg(leg: Phase, p: Pass) returns (o: Option<Outcome>)
      modifies this
      ensures (Now(), o) == RunLeg(old(Now()), leg, p)
    {
      hide Missed;
      var err := Send(leg, p.send);
      if err.None? {
        return None;
      }
      o := Fail(leg, p.now, err.value);
    }

    method ResolveAddress(r: Resolve) returns (found: bool)
      modifies this
      ensures (Now(), found) == ResolveByMac(old(Now()), r)
    {
      match r
      case FromCache(ip) =>
        at := at.(ip := ip);
        found := true;
      case Swept(hit, dropped) =>
        if dropped {
          CancelOp();
        }
        at := at.(sweepRan := true);
        found := hit.Some?;
        if hit.Some? {
          at := at.(macSeen := true, ip := hit.value);
        }
      case SweepFailed =>
        at := at.(sweepRan := false);
        found := false;
    }

    method OnProbeDone(r: Reply, p: Pass) returns (o: Option<Outcome>)
      modifies this
      ensures (Now(), o) == ProbeDone(old(Now()), r, p)
    {
      hide RunLeg;
      var identified := r.Page? && r.id.Some?;
      if Recognised(r) {
        at := at.(gen1 := r.id.value.gen1, addrConfirmed := true, macSeen := true);
        o := StartLeg(if op.isFwCheck then FwInfo else if op.isFwUpdate then FwUpdate else Act, p);
        return;
      }
      if !at.resolvedOnce {
        at := at.(resolvedOnce := true);
        var found := ResolveAddress(p.resolve);
        if found {
          o := StartLeg(Probe, p);
          return;
        }
      }
      o := FinishOp(false, Some(if at.addrConfirmed && identified then Unsupported else Unreachable), false);
    }

    method OnActDone(leg: Phase, r: Reply, p: Pass) returns (o: Option<Outcome>)
      modifies this
      ensures (Now(), o) == ActDone(old(Now()), leg, r, p)
    {
      hide RunLeg, Missed;
      if !r.Page? {
        o := Fail(leg, p.now, Why(r));
        return;
      }
      if op.isStatus || leg == Verify {
        if r.status.None? {
          o := Fail(leg, p.now, Unsupported);
          return;
        }
        if op.isStatus && !at.gen1 && leg != Verify {
          stOn := r.status.value;
          var err := Send(Wifi, p.send);
          if err.None? {
            return None;
          }
        }
        o := FinishOp(true, None, r.status.value);
        return;
      }
      if r.setAnswer.None? {
        o := Fail(leg, p.now, Unsupported);
        return;
      }
      if op.verb == Cycle && leg == Act {
        waitUntil := p.now + op.offMs;
        afterWait := Act2;
        phase := Waiting;
        return None;
      }
      if r.setAnswer.value.Some? {
        o := FinishOp(true, None, r.setAnswer.value.value);
      } else {
        o := StartLeg(Verify, p);
      }
    }

    method OnFwDone(r: Reply, p: Pass) returns (o: Option<Outcome>)
      modifies this
      ensures (Now(), o) == FwDone(old(Now()), r, p)
    {
      hide RunLeg;
      if !r.Page? {
        o := FinishOp(false, Some(Why(r)), false);
      } else if phase == FwUpdate {
        o := FinishOp(true, None, false);
      } else if phase == FwInfo && !at.gen1 {
        if !r.version {
          o := FinishOp(false, Some(Unsupported), false);
        } else {
          o := StartLeg(FwLatest, p);
        }
      } else if !r.report {
        o := FinishOp(false, Some(Unsupported), false);
      } else {
        o := FinishOp(true, None, false);
      }
    }

    /** rw_plug_task. */
    method RunTask(p: Pass) returns (o: Option<Outcome>)
      modifies this
      ensures (Now(), o) == Task(old(Now()), p)
    {
      hide RunLeg, ProbeDone, ActDone, FwDone;
      if phase == Idle {
        return None;
      }
      if phase == Waiting {
        if p.now >= waitUntil {
          o := StartLeg(afterWait, p);
        } else {
          o := None;
        }
      } else if p.reply.None? {
        o := None;
      } else if phase == Probe {
        o := OnProbeDone(p.reply.value, p);
      } else if phase == Wifi {
        o := FinishOp(true, None, stOn);
      } else if phase == FwInfo || phase == FwLatest || phase == FwUpdate {
        o := OnFwDone(p.reply.value, p);
      } else {
        o := OnActDone(phase, p.reply.value, p);
      }
    }

    /** rw_plug_cancel. */
    method CancelOp()
      modifies this
      ensures Now() == Cancel(old(Now()))
    {
      if !op.isStatus && op.verb == Cycle && phase != Idle && phase != Probe {
        cb := false;
        return;
      }
      phase := Idle;
      cb := false;
    }

    method Begin(job: Job, ip: nat, p: Pass) returns (o: Option<Outcome>, started: bool)
      modifies this
      ensures (Now(), o, started) == Start(old(Now()), job, ip, p)
    {
      hide RunLeg;
      if phase != Idle {
        return None, false;
      }
      op := match job
            case SetJob(verb, offMs) => Op(false, false, false, verb, offMs)
            case StatusJob => Op(true, false, false, On, 0)
            case FwCheckJob => Op(false, true, false, On, 0)
            case FwUpdateJob => Op(false, false, true, On, 0);
      at := Target(ip, false, false, false, false, false);
      waitUntil, afterWait, retries, cb, stOn := 0, Idle, 0, true, false;
      o := StartLeg(Probe, p);
      started := true;
    }
  }
}
