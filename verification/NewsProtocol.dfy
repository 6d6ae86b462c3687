/**
 The news publication protocol as a state machine: one worker per publication (its lock is exclusive), each transaction
 one step, crashes between any two steps, ticks, operators, a clock, and the real channel.
 */
module NewsProtocol {
  import opened Text
  import opened Requests
  import opened NewsReceipts
  import opened NewsSending

  /** Requests with what the bot answered to each. */
  type Log = seq<Request<Reply>>

  datatype Pc = Idle | Loaded(copy: Pub) | Began | Answered(reply: Reply)

  datatype Move =
    | Discard | Load(settled: bool) | FailUpload | FailPreparation(invalid: bool) | Start(check: Check)
    | Send(reply: Reply, published: bool) | Record | Crash
    | Recover | Expire | PrepareText(ready: bool) | Resolve(wasSent: bool, noted: bool)

  datatype Action =
    | Act(pub: nat, move: Move)
    | Clock(to: int)
    | Select(pub: nat, target: nat, happened: int, expiresAt: int, date: int)

  datatype Sys = Sys(desk: Desk, workers: map<nat, Pc>, logs: map<nat, Log>, now: int, dailyLimit: nat) {
    function Worker(p: nat): Pc { if p in workers then workers[p] else Idle }
    function LogOf(p: nat): Log { if p in logs then logs[p] else [] }
  }

  /** One publication with its worker and its requests. */
  datatype Local = Local(desk: Desk, pc: Pc, log: Log)

  function VerdictOf(reply: Reply): Verdict {
    if reply.Refuses() then Refused else if reply.Delivered? then Confirmed else Verdict.Unknown
  }

  // ---------------------------------------------------------------- steps

  /** A worker takes up a ready publication that is not out of date; a fill only when it is due. */
  function LoadStep(l: Local, p: nat, settled: bool, now: int): Option<Local>
    requires p in l.desk.pubs
  {
    var pub := l.desk.pubs[p];
    if pub.status != Ready || Expired(pub, now) || (pub.fill.Some? && !FillReady(l.desk, p, settled, now)) then None
    else Some(l.(pc := Loaded(pub)))
  }

  /** A worker blocks a ready publication that is out of date. */
  function DiscardStep(l: Local, p: nat, now: int): Option<Local>
    requires p in l.desk.pubs
  {
    var pub := l.desk.pubs[p];
    if pub.status == Ready && Expired(pub, now) then Some(l.(desk := WithPub(l.desk, p, pub.(status := Blocked))))
    else None
  }

  function WorkerStep(l: Local, p: nat, move: Move, now: int, dailyLimit: nat): Option<Local>
    requires p in l.desk.pubs
  {
    match (l.pc, move)
    case (_, Crash) => Some(l.(pc := Idle))
    case (Idle, Discard) => DiscardStep(l, p, now)
    case (Idle, Load(settled)) => LoadStep(l, p, settled, now)
    case (Loaded(copy), FailUpload) => Some(l.(desk := UploadFailed(l.desk, p, copy, now), pc := Idle))
    case (Loaded(_), FailPreparation(invalid)) => Some(l.(desk := NotStarted(l.desk, p, invalid, now), pc := Idle))
    case (Loaded(_), Start(check)) =>
      if check.now != now || check.dailyLimit != dailyLimit then None
      else Some(l.(desk := Begin(l.desk, p, check), pc := if Decide(l.desk, p, check) == Going then Began else Idle))
    case (Began, Send(reply, published)) =>
      var request := Request(reply, VerdictOf(reply), published);
      if request.Truthful() then Some(l.(pc := Answered(reply), log := l.log + [request])) else None
    case (Answered(reply), Record) => Some(l.(desk := Recorded(l.desk, p, reply, now), pc := Idle))
    case _ => None
  }

  function WithPub(desk: Desk, p: nat, pub: Pub): Desk {
    desk.(pubs := desk.pubs[p := pub])
  }

  /** Recovery and expiry come with a tick at any time; the operator resolves truthfully, when no worker is at it. */
  ghost function OutsideStep(l: Local, p: nat, move: Move, now: int): Option<Local>
    requires p in l.desk.pubs
  {
    var pub := l.desk.pubs[p];
    match move
    case Recover => Some(l.(desk := WithPub(l.desk, p, NewsSending.Recover(pub, now))))
    case Expire => Some(l.(desk := WithPub(l.desk, p, NewsSending.Expire(pub, now))))
    case PrepareText(ready) =>
      if pub.status != Preparing then None
      else Some(l.(desk := WithPub(l.desk, p, pub.(status := if ready then Ready else Blocked))))
    case Resolve(wasSent, noted) =>
      if l.pc != Idle || p !in l.desk.deliveries || wasSent != (exists r <- l.log :: r.published) then None
      else
        (match NewsSending.Resolve(l.desk, p, wasSent, noted, now)
         case Err(_) => None
         case Ok(desk) => Some(l.(desk := desk, log := if wasSent then l.log else Cleared(l.log))))
    case _ => None
  }

  ghost function LocalStep(l: Local, p: nat, move: Move, now: int, dailyLimit: nat): Option<Local>
    requires p in l.desk.pubs
  {
    if move.Recover? || move.Expire? || move.PrepareText? || move.Resolve? then OutsideStep(l, p, move, now)
    else WorkerStep(l, p, move, now, dailyLimit)
  }

  ghost function Step(sys: Sys, action: Action): Option<Sys> {
    match action
    case Act(p, move) =>
      if p !in sys.desk.pubs then None
      else
        (match LocalStep(Local(sys.desk, sys.Worker(p), sys.LogOf(p)), p, move, sys.now, sys.dailyLimit)
         case None => None
         case Some(l) => Some(sys.(desk := l.desk, workers := sys.workers[p := l.pc], logs := sys.logs[p := l.log])))
    case Clock(to) => if to < sys.now then None else Some(sys.(now := to))
    case Select(p, target, happened, expiresAt, date) =>
      Some(sys.(desk := NewsSending.Select(sys.desk, p, target, happened, expiresAt, date, sys.dailyLimit)))
  }

  ghost function Run(sys: Sys, actions: seq<Action>): Option<Sys>
    decreases |actions|
  {
    if actions == [] then Some(sys)
    else
      match Step(sys, actions[0])
      case None => None
      case Some(sys') => Run(sys', actions[1..])
  }

  // ---------------------------------------------------------------- the invariant

  ghost predicate GoodPc(pub: Pub, pc: Pc, log: Log, now: int) {
    match pc
    case Idle => true
    case Loaded(_) => pub.status == Ready || (pub.status == Blocked && Expired(pub, now))
    case Began => (pub.status == Sending || pub.status == Uncertain) && AllSettled(log)
    case Answered(reply) =>
      (pub.status == Sending || pub.status == Uncertain) && log != [] && log[|log| - 1].verdict == VerdictOf(reply)
  }

  /** What holds of one publication. */
  ghost predicate Good(pub: Pub, started: bool, pc: Pc, log: Log, now: int) {
    && (forall r <- log :: r.Truthful()) && SettledButLast(log)
    && (forall r <- log :: r.verdict == Refused ==> r.content.Refuses())
    && (!pub.status.Released() ==> AllSettled(log))
    && (pub.status == Sent ==> log != [] && log[|log| - 1].published)
    && (pub.status.Released() || log != [] ==> started)
    && (pub.fill.Some? ==> pub.slotDate == None)
    && GoodPc(pub, pc, log, now)
  }

  ghost predicate AllGood(sys: Sys) {
    && (forall p <- sys.desk.pubs ::
        Good(sys.desk.pubs[p], p in sys.desk.deliveries, sys.Worker(p), sys.LogOf(p), sys.now))
    && (forall p :: p in sys.workers || p in sys.logs || p in sys.desk.deliveries ==> p in sys.desk.pubs)
  }

  /** The regular publications of a day that may be in the channel. */
  function DayReleased(pubs: map<nat, Pub>, target: nat, date: int): set<nat> {
    set p | p in pubs && pubs[p].target == target && pubs[p].slotDate == Some(date) && pubs[p].fill.None?
      && pubs[p].status.Released()
  }

  ghost predicate DaysKept(pubs: map<nat, Pub>, dailyLimit: nat) {
    forall target, date :: |DayReleased(pubs, target, date)| <= dailyLimit
  }

  /** Both belong to one run, and the first is older. */
  ghost predicate Older(pubs: map<nat, Pub>, x: nat, y: nat) {
    x in pubs && y in pubs && SameRun(pubs, x, y) && Before(pubs, x, y)
  }

  /** Done for good: in the channel for certain, or blocked and with no worker that still holds it as ready. */
  ghost predicate Over(sys: Sys, p: nat)
    requires p in sys.desk.pubs
  {
    !sys.desk.pubs[p].status.Open() && !sys.Worker(p).Loaded?
  }

  /** Publications of a run expire together, and whatever is older than a started one is over. */
  ghost predicate InOrder(sys: Sys) {
    && (forall x, y :: x in sys.desk.pubs && y in sys.desk.pubs && SameRun(sys.desk.pubs, x, y) ==>
          sys.desk.pubs[x].expiresAt == sys.desk.pubs[y].expiresAt)
    && (forall x, y :: x in sys.desk.pubs && y in sys.desk.deliveries && Older(sys.desk.pubs, x, y) ==> Over(sys, x))
  }

  ghost predicate Invariant(sys: Sys) {
    AllGood(sys) && DaysKept(sys.desk.pubs, sys.dailyLimit) && InOrder(sys)
  }

  /** Before anything was sent: every publication is still being prepared, and those of a run expire together. */
  ghost predicate Fresh(sys: Sys) {
    && sys.workers == map[] && sys.logs == map[] && sys.desk.deliveries == map[]
    && (forall p <- sys.desk.pubs ::
        sys.desk.pubs[p].status == Preparing && (sys.desk.pubs[p].fill.Some? ==> sys.desk.pubs[p].slotDate == None))
    && (forall x, y :: x in sys.desk.pubs && y in sys.desk.pubs && SameRun(sys.desk.pubs, x, y) ==>
          sys.desk.pubs[x].expiresAt == sys.desk.pubs[y].expiresAt)
  }

  lemma FreshIsGood(sys: Sys)
    requires Fresh(sys)
    ensures Invariant(sys)
  {
    forall target, date ensures DayReleased(sys.desk.pubs, target, date) == {} {}
  }

  // ---------------------------------------------------------------- steps of one publication

  /** What a step may do to the row of its publication. */
  ghost predicate Row(l: Local, l': Local, p: nat)
    requires p in l.desk.pubs
  {
    && p in l'.desk.pubs && l'.desk.pubs == l.desk.pubs[p := l'.desk.pubs[p]]
    && l'.desk.deliveries.Keys == l.desk.deliveries.Keys + (if p in l'.desk.deliveries then {p} else {})
    && var a, b := l.desk.pubs[p], l'.desk.pubs[p];
       b.target == a.target && b.fill == a.fill && b.happened == a.happened && b.expiresAt == a.expiresAt
  }

  ghost predicate Fine(l: Local, p: nat, now: int) {
    p in l.desk.pubs && Good(l.desk.pubs[p], p in l.desk.deliveries, l.pc, l.log, now)
  }

  /** Nothing that was not released becomes released, except by a start that was decided. */
  ghost predicate Quiet(l: Local, l': Local, p: nat)
    requires p in l.desk.pubs && p in l'.desk.pubs
  {
    && (l'.desk.pubs[p].status.Released() ==> l.desk.pubs[p].status.Released())
    && l'.desk.pubs[p].slotDate == l.desk.pubs[p].slotDate
    && (p in l'.desk.deliveries <==> p in l.desk.deliveries)
  }

  /** What is over stays over; what is not started does not get loaded unless it is ready. */
  ghost predicate Stays(l: Local, l': Local, p: nat)
    requires p in l.desk.pubs && p in l'.desk.pubs
  {
    !l.desk.pubs[p].status.Open() && !l.pc.Loaded? ==> !l'.desk.pubs[p].status.Open() && !l'.pc.Loaded?
  }

  lemma RecordedFine(l: Local, p: nat, now: int)
    requires Fine(l, p, now) && l.pc.Answered?
    ensures var l' := l.(desk := Recorded(l.desk, p, l.pc.reply, now), pc := Idle);
      Fine(l', p, now) && Row(l, l', p) && Quiet(l, l', p) && Stays(l, l', p)
  {
    var l' := l.(desk := Recorded(l.desk, p, l.pc.reply, now), pc := Idle);
    assert l'.desk.pubs == l.desk.pubs[p := l'.desk.pubs[p]];
    assert l.log[|l.log| - 1] in l.log;
    if l.pc.reply.Refuses() { LastSettles(l.log); }
  }

  lemma WorkerFine(l: Local, p: nat, move: Move, now: int, dailyLimit: nat)
    requires Fine(l, p, now) && WorkerStep(l, p, move, now, dailyLimit).Some?
    ensures var l' := WorkerStep(l, p, move, now, dailyLimit).value;
      && Fine(l', p, now) && Row(l, l', p) && Stays(l, l', p)
      && (Quiet(l, l', p) || (move.Start? && l.pc.Loaded? && Decide(l.desk, p, move.check) == Going))
  {
    hide AllSettled, SettledButLast, FillReady, DayHasSlot, Recorded;
    var l' := WorkerStep(l, p, move, now, dailyLimit).value;
    if l.pc.Answered? && move.Record? {
      RecordedFine(l, p, now);
    } else if l.pc.Began? && move.Send? {
      SentFine(l, p, move.reply, move.published, now);
    } else {
      assert l'.desk.pubs == l.desk.pubs[p := l'.desk.pubs[p]];
    }
  }

  lemma SentFine(l: Local, p: nat, reply: Reply, published: bool, now: int)
    requires Fine(l, p, now) && l.pc.Began? && Request(reply, VerdictOf(reply), published).Truthful()
    ensures var l' := l.(pc := Answered(reply), log := l.log + [Request(reply, VerdictOf(reply), published)]);
      Fine(l', p, now) && Row(l, l', p) && Quiet(l, l', p) && Stays(l, l', p)
  {
    var log := l.log + [Request(reply, VerdictOf(reply), published)];
    assert l.desk.pubs == l.desk.pubs[p := l.desk.pubs[p]];
    forall k | 0 <= k < |log| - 1 ensures log[k] in l.log { assert log[k] == l.log[k]; }
  }

  lemma OutsideFine(l: Local, p: nat, move: Move, now: int)
    requires Fine(l, p, now) && OutsideStep(l, p, move, now).Some?
    ensures var l' := OutsideStep(l, p, move, now).value;
      Fine(l', p, now) && Row(l, l', p) && Quiet(l, l', p) && Stays(l, l', p)
  {
    hide AllSettled, SettledButLast;
    var l' := OutsideStep(l, p, move, now).value;
    assert l'.desk.pubs == l.desk.pubs[p := l'.desk.pubs[p]];
    if move.Resolve? {
      if move.wasSent {
        PublishedIsLast(l.log);
      } else {
        ClearedSettled(l.log);
        SettledIsSettledButLast(Cleared(l.log));
        forall r | r in Cleared(l.log) ensures r.Truthful() {
          var k :| 0 <= k < |l.log| && Cleared(l.log)[k] == r;
        }
      }
    }
  }

  lemma SettledIsSettledButLast<T>(log: seq<Request<T>>)
    requires AllSettled(log)
    ensures SettledButLast(log)
  {
  }

  // ---------------------------------------------------------------- steps of the system

  /** A step of one publication with its effect on the whole. */
  ghost predicate Moves(sys: Sys, p: nat, l': Local) {
    var l := Local(sys.desk, sys.Worker(p), sys.LogOf(p));
    p in sys.desk.pubs && Fine(l', p, sys.now) && Row(l, l', p) && Stays(l, l', p)
  }

  function With(sys: Sys, p: nat, l: Local): Sys {
    sys.(desk := l.desk, workers := sys.workers[p := l.pc], logs := sys.logs[p := l.log])
  }

  lemma OthersGood(sys: Sys, p: nat, l': Local)
    requires AllGood(sys) && Moves(sys, p, l')
    ensures AllGood(With(sys, p, l'))
  {
    hide Good;
    var sys' := With(sys, p, l');
    forall x | x in sys'.desk.pubs && x != p
      ensures x in sys.desk.pubs && sys'.desk.pubs[x] == sys.desk.pubs[x]
      ensures sys'.Worker(x) == sys.Worker(x) && sys'.LogOf(x) == sys.LogOf(x)
      ensures x in sys'.desk.deliveries <==> x in sys.desk.deliveries
    {
    }
  }

  lemma QuietKeepsDays(pubs: map<nat, Pub>, p: nat, pub: Pub, dailyLimit: nat)
    requires DaysKept(pubs, dailyLimit) && p in pubs
    requires pub.status.Released() ==> pubs[p].status.Released()
    requires pub.slotDate == pubs[p].slotDate && pub.target == pubs[p].target && pub.fill == pubs[p].fill
    ensures DaysKept(pubs[p := pub], dailyLimit)
  {
    var pubs' := pubs[p := pub];
    forall target, date ensures |DayReleased(pubs', target, date)| <= |DayReleased(pubs, target, date)| {
      SubsetSize(DayReleased(pubs', target, date), DayReleased(pubs, target, date));
    }
  }

  lemma SubsetSize(a: set<nat>, b: set<nat>)
    requires a <= b
    ensures |a| <= |b|
  {
    assert b == a + (b - a);
  }

  /** A decided start takes a slot that was counted as free. */
  lemma StartKeepsDays(pubs: map<nat, Pub>, p: nat, pub: Pub, date: int, dailyLimit: nat)
    requires DaysKept(pubs, dailyLimit) && p in pubs && DayHasSlot(pubs, p, pubs[p], date, dailyLimit)
    requires pub.target == pubs[p].target && pub.fill == pubs[p].fill && pub.slotDate == OnDay(pubs[p], date).slotDate
    ensures DaysKept(pubs[p := pub], dailyLimit)
  {
    var pubs' := pubs[p := pub];
    forall target, d ensures |DayReleased(pubs', target, d)| <= dailyLimit {
      var now := DayReleased(pubs', target, d);
      if p in now {
        assert target == pub.target && d == date;
        SubsetSize(now - {p}, Slots(pubs, target, date, p));
        assert |now| == |now - {p}| + 1;
      } else {
        SubsetSize(now, DayReleased(pubs, target, d));
      }
    }
  }

  lemma RunsStay(sys: Sys, p: nat, l': Local)
    requires Moves(sys, p, l')
    ensures var pubs, pubs' := sys.desk.pubs, With(sys, p, l').desk.pubs;
      && pubs'.Keys == pubs.Keys
      && (forall x, y :: x in pubs && y in pubs ==> SameRun(pubs', x, y) == SameRun(pubs, x, y))
      && (forall x, y :: x in pubs && y in pubs ==> Before(pubs', x, y) == Before(pubs, x, y))
      && (forall x :: x in pubs ==> pubs'[x].expiresAt == pubs[x].expiresAt)
  {
    hide Good;
  }

  /** A step that does not start anything new keeps the order. */
  lemma QuietKeepsOrder(sys: Sys, p: nat, l': Local)
    requires InOrder(sys) && Moves(sys, p, l') && (p in l'.desk.deliveries <==> p in sys.desk.deliveries)
    ensures InOrder(With(sys, p, l'))
  {
    var sys' := With(sys, p, l');
    RunsStay(sys, p, l');
    hide SameRun, NewsSending.Before, Decide, Good;
    forall x, y | x in sys'.desk.pubs && y in sys'.desk.deliveries && Older(sys'.desk.pubs, x, y)
      ensures Over(sys', x) {
      assert Older(sys.desk.pubs, x, y) && Over(sys, x);
    }
  }

  /** A started fill was the oldest open one of its run: all older ones are over. */
  lemma OlderAreOver(sys: Sys, p: nat, c: Check, x: nat)
    requires AllGood(sys) && InOrder(sys) && p in sys.desk.pubs && Decide(sys.desk, p, c) == Going && c.now == sys.now
    requires Older(sys.desk.pubs, x, p)
    ensures Over(sys, x)
  {
    assert !sys.desk.pubs[x].status.Open();
    assert Good(sys.desk.pubs[x], x in sys.desk.deliveries, sys.Worker(x), sys.LogOf(x), sys.now);
    assert sys.desk.pubs[x].expiresAt == sys.desk.pubs[p].expiresAt;
  }

  lemma StartKeepsOrder(sys: Sys, p: nat, l': Local, c: Check)
    requires AllGood(sys) && InOrder(sys) && Moves(sys, p, l')
    requires Decide(sys.desk, p, c) == Going && c.now == sys.now && !l'.pc.Loaded?
    ensures InOrder(With(sys, p, l'))
  {
    var sys' := With(sys, p, l');
    RunsStay(sys, p, l');
    hide SameRun, NewsSending.Before, Decide, Good;
    forall x, y | x in sys'.desk.pubs && y in sys'.desk.deliveries && Older(sys'.desk.pubs, x, y)
      ensures Over(sys', x) {
      assert Older(sys.desk.pubs, x, y);
      if y == p { OlderAreOver(sys, p, c, x); }
    }
  }

  lemma ActKeeps(sys: Sys, p: nat, move: Move)
    requires Invariant(sys) && p in sys.desk.pubs && Step(sys, Act(p, move)).Some?
    ensures Invariant(Step(sys, Act(p, move)).value)
  {
    hide InOrder, DaysKept, DayHasSlot, FillReady, Good;
    var l := Local(sys.desk, sys.Worker(p), sys.LogOf(p));
    var l' := LocalStep(l, p, move, sys.now, sys.dailyLimit).value;
    assert Fine(l, p, sys.now);
    if move.Recover? || move.Expire? || move.PrepareText? || move.Resolve? {
      OutsideFine(l, p, move, sys.now);
    } else {
      WorkerFine(l, p, move, sys.now, sys.dailyLimit);
    }
    OthersGood(sys, p, l');
    if Quiet(l, l', p) {
      hide LocalStep, WorkerStep, OutsideStep;
      QuietKeepsDays(sys.desk.pubs, p, l'.desk.pubs[p], sys.dailyLimit);
      QuietKeepsOrder(sys, p, l');
    } else {
      StartKeepsDays(sys.desk.pubs, p, l'.desk.pubs[p], move.check.date, sys.dailyLimit);
      StartKeepsOrder(sys, p, l', move.check);
    }
  }

  lemma SelectKeeps(sys: Sys, p: nat, target: nat, happened: int, expiresAt: int, date: int)
    requires Invariant(sys)
    ensures Invariant(Step(sys, Select(p, target, happened, expiresAt, date)).value)
  {
    var sys' := Step(sys, Select(p, target, happened, expiresAt, date)).value;
    hide DayHasSlot;
    if sys'.desk != sys.desk {
      var pub := sys'.desk.pubs[p];
      assert sys'.desk == WithPub(sys.desk, p, pub) && p !in sys.desk.pubs;
      assert pub.status == Preparing && pub.fill.None?;
      hide NewsSending.Select;
      NewIsGood(pub, sys.now);
      JoinKeepsGood(sys, p, pub);
      JoinKeepsDays(sys.desk.pubs, p, pub, sys.dailyLimit);
      JoinKeepsOrder(sys, p, pub);
    }
  }

  lemma NewIsGood(pub: Pub, now: int)
    requires pub.status == Preparing && pub.fill.None?
    ensures Good(pub, false, Idle, [], now)
  {
  }

  lemma JoinKeepsGood(sys: Sys, p: nat, pub: Pub)
    requires AllGood(sys) && p !in sys.desk.pubs && Good(pub, false, Idle, [], sys.now)
    ensures AllGood(sys.(desk := WithPub(sys.desk, p, pub)))
  {
    hide Good;
  }

  lemma JoinKeepsDays(pubs: map<nat, Pub>, p: nat, pub: Pub, dailyLimit: nat)
    requires DaysKept(pubs, dailyLimit) && p !in pubs && pub.status == Preparing
    ensures DaysKept(pubs[p := pub], dailyLimit)
  {
    var pubs' := pubs[p := pub];
    forall t, d ensures DayReleased(pubs', t, d) == DayReleased(pubs, t, d) {}
  }

  lemma JoinKeepsOrder(sys: Sys, p: nat, pub: Pub)
    requires AllGood(sys) && InOrder(sys) && p !in sys.desk.pubs && pub.fill.None?
    ensures InOrder(sys.(desk := WithPub(sys.desk, p, pub)))
  {
    hide Good;
    var sys' := sys.(desk := WithPub(sys.desk, p, pub));
    forall x, y | x in sys'.desk.pubs && y in sys'.desk.pubs && SameRun(sys'.desk.pubs, x, y)
      ensures x in sys.desk.pubs && y in sys.desk.pubs && SameRun(sys.desk.pubs, x, y)
      ensures Before(sys'.desk.pubs, x, y) == Before(sys.desk.pubs, x, y)
    {
    }
  }

  lemma ClockKeeps(sys: Sys, to: int)
    requires Invariant(sys) && sys.now <= to
    ensures Invariant(sys.(now := to))
  {
    var sys' := sys.(now := to);
    hide DaysKept, Good;
    forall p | p in sys.desk.pubs
      ensures Good(sys.desk.pubs[p], p in sys.desk.deliveries, sys.Worker(p), sys.LogOf(p), to) {
      GoodLater(sys.desk.pubs[p], p in sys.desk.deliveries, sys.Worker(p), sys.LogOf(p), sys.now, to);
    }
    assert forall p :: sys'.Worker(p) == sys.Worker(p) && sys'.LogOf(p) == sys.LogOf(p);
    ClockKeepsOrder(sys, to);
    hide InOrder;
  }

  lemma GoodLater(pub: Pub, started: bool, pc: Pc, log: Log, now: int, to: int)
    requires Good(pub, started, pc, log, now) && now <= to
    ensures Good(pub, started, pc, log, to)
  {
  }

  lemma ClockKeepsOrder(sys: Sys, to: int)
    requires InOrder(sys)
    ensures InOrder(sys.(now := to))
  {
    hide SameRun, NewsSending.Before;
    assert forall x :: x in sys.desk.pubs ==> (Over(sys.(now := to), x) <==> Over(sys, x));
  }

  /** Every step of every run keeps the invariant. */
  lemma StepKeeps(sys: Sys, action: Action)
    requires Invariant(sys) && Step(sys, action).Some?
    ensures Invariant(Step(sys, action).value)
  {
    hide Invariant, LocalStep, NewsSending.Select;
    match action
    case Act(p, move) => ActKeeps(sys, p, move);
    case Clock(to) => ClockKeeps(sys, to);
    case Select(p, target, happened, expiresAt, date) => SelectKeeps(sys, p, target, happened, expiresAt, date);
  }

  lemma {:induction false} RunKeeps(sys: Sys, actions: seq<Action>)
    requires Invariant(sys) && Run(sys, actions).Some?
    ensures Invariant(Run(sys, actions).value)
    decreases |actions|
  {
    hide Step;
    if actions != [] {
      StepKeeps(sys, actions[0]);
      RunKeeps(Step(sys, actions[0]).value, actions[1..]);
    }
  }

  ghost predicate Reachable(sys: Sys) {
    exists start, actions :: Fresh(start) && Run(start, actions) == Some(sys)
  }

  lemma ReachableKeeps(sys: Sys)
    requires Reachable(sys)
    ensures Invariant(sys)
  {
    var start, actions :| Fresh(start) && Run(start, actions) == Some(sys);
    FreshIsGood(start);
    RunKeeps(start, actions);
  }

  // ---------------------------------------------------------------- a delivery is a walk

  datatype Timed = Timed(move: Move, at: int)

  /** The state after some moves of a worker, if each was possible at its time. */
  function Walk(l: Local, p: nat, steps: seq<Timed>, dailyLimit: nat): Option<Local>
    requires p in l.desk.pubs
    decreases |steps|
  {
    if steps == [] then Some(l)
    else
      match WorkerStep(l, p, steps[0].move, steps[0].at, dailyLimit)
      case None => None
      case Some(l') => if p in l'.desk.pubs then Walk(l', p, steps[1..], dailyLimit) else None
  }

  lemma WalkStep(l: Local, p: nat, steps: seq<Timed>, dailyLimit: nat, l': Local)
    requires p in l.desk.pubs && steps != [] && p in l'.desk.pubs
    requires WorkerStep(l, p, steps[0].move, steps[0].at, dailyLimit) == Some(l')
    ensures Walk(l, p, steps, dailyLimit) == Walk(l', p, steps[1..], dailyLimit)
  {
  }

  /** The moves of a delivery; one whose reply cannot be recorded ends like a crash. */
  function StepsOf(desk: Desk, p: nat, c: Circumstances, published: bool): seq<Timed>
    requires p in desk.pubs
  {
    var pub, load := desk.pubs[p], Timed(Load(c.settled), c.now);
    if pub.status != Ready || !c.allowed || (pub.nextAttempt.Some? && pub.nextAttempt.value > c.now) then []
    else if Expired(pub, c.now) then [Timed(Discard, c.now)]
    else if pub.fill.Some? && !FillReady(desk, p, c.settled, c.now) then []
    else if pub.uploadMedia && c.uploadFails then [load, Timed(FailUpload, c.now)]
    else if c.failure.Some? then [load, Timed(FailPreparation(c.failure.value), c.now)]
    else if Decide(desk, p, c.check) != Going then [load, Timed(Start(c.check), c.check.now)]
    else [load, Timed(Start(c.check), c.check.now), Timed(Send(c.reply, published), c.check.now),
          Timed(if c.recordFails then Crash else Record, c.recordedAt)]
  }

  lemma ShortWalk(l: Local, p: nat, a: Timed, b: Timed, dailyLimit: nat, l1: Local, l2: Local)
    requires p in l.desk.pubs && p in l1.desk.pubs && p in l2.desk.pubs
    requires WorkerStep(l, p, a.move, a.at, dailyLimit) == Some(l1)
      && WorkerStep(l1, p, b.move, b.at, dailyLimit) == Some(l2)
    ensures Walk(l, p, [a, b], dailyLimit) == Some(l2)
    ensures forall more :: Walk(l, p, [a, b] + more, dailyLimit) == Walk(l2, p, more, dailyLimit)
  {
    hide WorkerStep;
    forall more ensures Walk(l, p, [a, b] + more, dailyLimit) == Walk(l2, p, more, dailyLimit) {
      assert ([a, b] + more)[1..] == [b] + more && ([b] + more)[1..] == more;
      WalkStep(l, p, [a, b] + more, dailyLimit, l1);
      WalkStep(l1, p, [b] + more, dailyLimit, l2);
    }
    assert [a, b] + [] == [a, b];
  }

  /** Asking and recording, from the started transaction on. */
  lemma AskedWalk(desk: Desk, p: nat, c: Circumstances, log: Log, published: bool, dailyLimit: nat)
    requires p in desk.pubs && Decide(desk, p, c.check) == Going
    requires Request(c.reply, VerdictOf(c.reply), published).Truthful()
    ensures Walk(Local(Begin(desk, p, c.check), Began, log), p,
                 [Timed(Send(c.reply, published), c.check.now),
                  Timed(if c.recordFails then Crash else Record, c.recordedAt)], dailyLimit)
      == Some(Local(if c.recordFails then Begin(desk, p, c.check)
                    else Recorded(Begin(desk, p, c.check), p, c.reply, c.recordedAt),
                    Idle, log + [Request(c.reply, VerdictOf(c.reply), published)]))
  {
    hide FillReady, DayHasSlot;
    var begun := Begin(desk, p, c.check);
    var log' := log + [Request(c.reply, VerdictOf(c.reply), published)];
    var end := if c.recordFails then begun else Recorded(begun, p, c.reply, c.recordedAt);
    ShortWalk(Local(begun, Began, log), p, Timed(Send(c.reply, published), c.check.now),
              Timed(if c.recordFails then Crash else Record, c.recordedAt), dailyLimit,
              Local(begun, Answered(c.reply), log'), Local(end, Idle, log'));
  }

  /** Nothing, or a discarded publication. */
  lemma HeldWalk(desk: Desk, p: nat, c: Circumstances, log: Log, published: bool, dailyLimit: nat)
    requires p in desk.pubs && |StepsOf(desk, p, c, published)| < 2
    ensures Walk(Local(desk, Idle, log), p, StepsOf(desk, p, c, published), dailyLimit)
      == Some(Local(Outcome(desk, p, c), Idle, log))
    ensures !Sends(desk, p, c)
  {
    hide FillReady, DayHasSlot;
    var l, steps := Local(desk, Idle, log), StepsOf(desk, p, c, published);
    if steps != [] {
      assert steps[1..] == [];
      WalkStep(l, p, steps, dailyLimit, Local(Outcome(desk, p, c), Idle, log));
    }
  }

  /** Where a loaded delivery stands after its second move: started, or at its end. */
  function SecondState(desk: Desk, p: nat, c: Circumstances, log: Log): Local
    requires p in desk.pubs
  {
    if Sends(desk, p, c) then Local(Begin(desk, p, c.check), Began, log) else Local(Outcome(desk, p, c), Idle, log)
  }

  lemma LoadedWalk(desk: Desk, p: nat, c: Circumstances, log: Log, published: bool, dailyLimit: nat)
    requires p in desk.pubs && c.check.dailyLimit == dailyLimit
    requires |StepsOf(desk, p, c, published)| >= 2
    ensures var steps, l, l2 := StepsOf(desk, p, c, published), Local(desk, Idle, log), SecondState(desk, p, c, log);
      && p in l2.desk.pubs && (Sends(desk, p, c) <==> |steps| == 4) && (|steps| == 2 || |steps| == 4)
      && Walk(l, p, [steps[0], steps[1]], dailyLimit) == Some(l2)
      && forall more :: Walk(l, p, [steps[0], steps[1]] + more, dailyLimit) == Walk(l2, p, more, dailyLimit)
  {
    hide FillReady, DayHasSlot, Walk;
    var steps := StepsOf(desk, p, c, published);
    ShortWalk(Local(desk, Idle, log), p, steps[0], steps[1], dailyLimit, Local(desk, Loaded(desk.pubs[p]), log),
              SecondState(desk, p, c, log));
  }

  /**
   Every delivery, whether it is stopped, begins or not, and is recorded or not, is a walk of its worker from idle to
   idle that ends in the rows the delivery leaves. What was not released becomes released only by a request that was
   not refused.
   */
  lemma DeliveryIsAWalk(desk: Desk, p: nat, c: Circumstances, log: Log, published: bool, dailyLimit: nat)
    requires p in desk.pubs && c.check.dailyLimit == dailyLimit && c.now <= c.check.now <= c.recordedAt
    requires Request(c.reply, VerdictOf(c.reply), published).Truthful()
    ensures Walk(Local(desk, Idle, log), p, StepsOf(desk, p, c, published), dailyLimit)
      == Some(Local(Outcome(desk, p, c), Idle,
                    if Sends(desk, p, c) then log + [Request(c.reply, VerdictOf(c.reply), published)] else log))
    ensures var steps := StepsOf(desk, p, c, published); forall i, j ::
      0 <= i < j < |steps| ==> steps[i].at <= steps[j].at
    ensures !desk.pubs[p].status.Released() && Outcome(desk, p, c).pubs[p].status.Released() ==>
      Sends(desk, p, c) && (c.recordFails || !c.reply.Refuses())
  {
    var steps := StepsOf(desk, p, c, published);
    InTime(desk, p, c, published);
    if Sends(desk, p, c) { EndsAsAnswered(desk, p, c); } else { NotSentNotReleased(desk, p, c); }
    if |steps| < 2 {
      HeldWalk(desk, p, c, log, published, dailyLimit);
    } else {
      LoadedWalk(desk, p, c, log, published, dailyLimit);
      if |steps| == 4 {
        AskedWalk(desk, p, c, log, published, dailyLimit);
        assert steps == [steps[0], steps[1]] + [steps[2], steps[3]];
      } else {
        assert steps == [steps[0], steps[1]];
      }
    }
  }

  lemma InTime(desk: Desk, p: nat, c: Circumstances, published: bool)
    requires p in desk.pubs && c.now <= c.check.now <= c.recordedAt
    ensures var steps := StepsOf(desk, p, c, published); forall i, j ::
      0 <= i < j < |steps| ==> steps[i].at <= steps[j].at
    ensures var steps := StepsOf(desk, p, c, published); |steps| == 4 ==>
      && steps[2] == Timed(Send(c.reply, published), c.check.now)
      && steps[3] == Timed(if c.recordFails then Crash else Record, c.recordedAt)
  {
    hide FillReady, DayHasSlot;
  }

  // ---------------------------------------------------------------- the promises

  /** What may be in the channel is marked as sending, uncertain or sent. */
  lemma MaybePublishedIsMarked(sys: Sys, p: nat)
    requires Reachable(sys) && p in sys.desk.pubs && exists r <- sys.LogOf(p) :: !r.Settled()
    ensures sys.desk.pubs[p].status.Released()
  {
    ReachableKeeps(sys);
    assert Good(sys.desk.pubs[p], p in sys.desk.deliveries, sys.Worker(p), sys.LogOf(p), sys.now);
  }

  /** At most one post: a request is made only when every earlier one was refused or found absent. */
  lemma NewsAtMostOnce(sys: Sys, p: nat, reply: Reply, published: bool)
    requires Reachable(sys) && Step(sys, Act(p, Send(reply, published))).Some?
    ensures forall r <- sys.LogOf(p) :: (r.verdict == Refused || r.verdict == Absent) && !r.published
  {
    ReachableKeeps(sys);
    assert Good(sys.desk.pubs[p], p in sys.desk.deliveries, sys.Worker(p), sys.LogOf(p), sys.now);
  }

  /**
   Where an earlier request was not found absent by an operator, Telegram had denied it explicitly, with a code below
   500.
   */
  lemma OnlyDeniedIsRepeated(sys: Sys, p: nat, reply: Reply, published: bool, r: Request<Reply>,
                             reader: Reader, status: int, body: Option<Json>, expected: nat, remoteMedia: bool)
    requires Reachable(sys) && Step(sys, Act(p, Send(reply, published))).Some? && r in sys.LogOf(p)
    requires r.content == ParseReceipt(reader, status, body, expected, remoteMedia)
    ensures r.verdict == Absent || (status < 500 && Denies(body) && ErrorCode(status, body.value).Some?
                                    && ErrorCode(status, body.value).value < 500)
  {
    ReachableKeeps(sys);
    NewsAtMostOnce(sys, p, reply, published);
    assert Good(sys.desk.pubs[p], p in sys.desk.deliveries, sys.Worker(p), sys.LogOf(p), sys.now);
    hide Step, Reachable, Invariant, ParseReceipt;
    if r.verdict == Refused { RefusedExactly(reader, status, body, expected, remoteMedia); }
  }

  lemma AtMostOnePost(sys: Sys, p: nat, i: nat, j: nat)
    requires Reachable(sys) && p in sys.desk.pubs && i < |sys.LogOf(p)| && j < |sys.LogOf(p)|
    requires sys.LogOf(p)[i].published && sys.LogOf(p)[j].published
    ensures i == j
  {
    ReachableKeeps(sys);
    assert Good(sys.desk.pubs[p], p in sys.desk.deliveries, sys.Worker(p), sys.LogOf(p), sys.now);
    assert sys.LogOf(p)[i] in sys.LogOf(p) && sys.LogOf(p)[j] in sys.LogOf(p);
  }

  /** The daily cap: on no day does a channel get more regular posts than the limit, even counting doubtful ones. */
  lemma DailyCap(sys: Sys, target: nat, date: int)
    requires Reachable(sys)
    ensures |DayReleased(sys.desk.pubs, target, date)| <= sys.dailyLimit
    ensures forall p <- sys.desk.pubs :: sys.desk.pubs[p].fill.Some? ==> sys.desk.pubs[p].slotDate == None
  {
    ReachableKeeps(sys);
    forall p | p in sys.desk.pubs && sys.desk.pubs[p].fill.Some? ensures sys.desk.pubs[p].slotDate == None {
      assert Good(sys.desk.pubs[p], p in sys.desk.deliveries, sys.Worker(p), sys.LogOf(p), sys.now);
    }
  }

  /** A publication is about to be sent. */
  ghost predicate Starts(sys: Sys, p: nat, c: Check) {
    p in sys.desk.pubs && sys.Worker(p).Loaded? && c.now == sys.now && Decide(sys.desk, p, c) == Going
  }

  /**
   When a publication of a fill is released, every other one ever started is older and over, no other is sending or
   uncertain, and the last recorded post of the run is at least the gap in the past.
   */
  lemma FillReleasedInOrder(sys: Sys, p: nat, c: Check, q: nat)
    requires Reachable(sys) && Starts(sys, p, c)
    requires q in sys.desk.pubs && q != p && SameRun(sys.desk.pubs, q, p)
    ensures q in sys.desk.deliveries ==> Before(sys.desk.pubs, q, p) && !sys.desk.pubs[q].status.Open()
    ensures sys.desk.pubs[q].status != Sending && sys.desk.pubs[q].status != Uncertain
    ensures q in sys.desk.deliveries && sys.desk.deliveries[q].sentAt.Some? ==>
      c.now - sys.desk.deliveries[q].sentAt.value >= FILL_GAP
  {
    ReachableKeeps(sys);
    assert Good(sys.desk.pubs[q], q in sys.desk.deliveries, sys.Worker(q), sys.LogOf(q), sys.now);
    OneIsOlder(sys.desk.pubs, p, q);
    OlderIsOver(sys, p, q);
  }

  lemma OneIsOlder(pubs: map<nat, Pub>, p: nat, q: nat)
    requires p in pubs && q in pubs && SameRun(pubs, p, q)
    ensures p == q || (Older(pubs, p, q) && !Before(pubs, q, p)) || (Older(pubs, q, p) && Before(pubs, q, p))
  {
  }

  lemma OlderIsOver(sys: Sys, x: nat, y: nat)
    requires InOrder(sys) && x in sys.desk.pubs
    ensures Older(sys.desk.pubs, x, y) && y in sys.desk.deliveries ==> Over(sys, x)
  {
  }

  /** At most one publication of a fill is sending or uncertain at a time. */
  lemma OneDoubtPerFill(sys: Sys, p: nat, q: nat)
    requires Reachable(sys) && p in sys.desk.pubs && q in sys.desk.pubs && SameRun(sys.desk.pubs, p, q)
    requires sys.desk.pubs[p].status == Sending || sys.desk.pubs[p].status == Uncertain
    requires sys.desk.pubs[q].status == Sending || sys.desk.pubs[q].status == Uncertain
    ensures p == q
  {
    ReachableKeeps(sys);
    assert Good(sys.desk.pubs[p], p in sys.desk.deliveries, sys.Worker(p), sys.LogOf(p), sys.now);
    assert Good(sys.desk.pubs[q], q in sys.desk.deliveries, sys.Worker(q), sys.LogOf(q), sys.now);
    OneIsOlder(sys.desk.pubs, p, q);
    OlderIsOver(sys, p, q);
    OlderIsOver(sys, q, p);
  }
}
