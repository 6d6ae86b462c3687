/**
 News publications: the transactions of sending, recovery and resolution on their rows, the daily cap and the
 release of a historical fill, as functions and as the store that performs them.
 */
module NewsSending {
  import opened Text
  import opened NewsReceipts

  datatype Status = Preparing | Ready | Sending | Sent | Uncertain | Blocked {
    /** May be in the channel. */
    predicate Released() { Sending? || Sent? || Uncertain? }
    predicate Active() { Preparing? || Ready? || Released() }
    predicate Open() { !(Sent? || Blocked?) }
  }

  /** A publication; `happened` is the time of its earliest evidence, `expiresAt` that of its event or fill. */
  datatype Pub = Pub(
    status: Status, target: nat, fill: Option<nat>, happened: int, expiresAt: int,
    slotDate: Option<int>, lease: Option<int>, nextAttempt: Option<int>, mediaAttempts: nat, uploadMedia: bool)

  datatype Delivery = Delivery(attempts: nat, sentAt: Option<int>, ids: seq<int>)

  datatype Desk = Desk(pubs: map<nat, Pub>, deliveries: map<nat, Delivery>)

  const LEASE := 300
  const RETRY_PAUSE := 300
  const FILL_GAP := 30
  const UPLOAD_ATTEMPTS := 3

  // ---------------------------------------------------------------- the daily cap

  /** The publications that take a slot of the day, other than `but`. */
  function Slots(pubs: map<nat, Pub>, target: nat, date: int, but: nat): set<nat> {
    set p | p in pubs && p != but && pubs[p].target == target && pubs[p].slotDate == Some(date)
      && pubs[p].status.Active()
  }

  /** Whether the day has a slot for a publication; a fill never needs one. */
  predicate DayHasSlot(pubs: map<nat, Pub>, p: nat, pub: Pub, date: int, dailyLimit: nat) {
    pub.fill.None? ==> |Slots(pubs, pub.target, date, p)| < dailyLimit
  }

  function OnDay(pub: Pub, date: int): Pub {
    if pub.fill.Some? then pub else pub.(slotDate := Some(date))
  }

  // ---------------------------------------------------------------- the release of a fill

  predicate Before(pubs: map<nat, Pub>, a: nat, b: nat)
    requires a in pubs && b in pubs
  {
    pubs[a].happened < pubs[b].happened || (pubs[a].happened == pubs[b].happened && a < b)
  }

  predicate SameRun(pubs: map<nat, Pub>, a: nat, b: nat)
    requires a in pubs && b in pubs
  {
    pubs[a].fill.Some? && pubs[a].fill == pubs[b].fill
  }

  /**
   The run is settled (chosen in full, or nothing left to choose), no text of it is still being prepared, the
   publication is the oldest of it that is open, and the last recorded post of it is far enough in the past.
   */
  predicate FillReady(desk: Desk, p: nat, settled: bool, now: int)
    requires p in desk.pubs
  {
    && settled
    && (forall x <- desk.pubs :: SameRun(desk.pubs, x, p) ==> desk.pubs[x].status != Preparing)
    && desk.pubs[p].status.Open()
    && (forall x <- desk.pubs ::
        SameRun(desk.pubs, x, p) && desk.pubs[x].status.Open() && x != p ==> Before(desk.pubs, p, x))
    && (forall x <- desk.pubs :: SameRun(desk.pubs, x, p) && x in desk.deliveries && desk.deliveries[x].sentAt.Some? ==>
          now - desk.deliveries[x].sentAt.value >= FILL_GAP)
  }

  // ---------------------------------------------------------------- transactions

  /** What the checks before sending see; `date` is the local date of `now`. */
  datatype Check = Check(now: int, date: int, dailyLimit: nat, allowed: bool, sameChat: bool, intact: bool,
                         settled: bool)

  datatype Start = Away | Outdated | Going

  function Expired(pub: Pub, now: int): bool {
    pub.expiresAt <= now
  }

  /** The decision of the transaction that starts a send. */
  function Decide(desk: Desk, p: nat, c: Check): Start
    requires p in desk.pubs
  {
    var pub := desk.pubs[p];
    if pub.status != Ready || !c.allowed || !c.sameChat then Away
    else if Expired(pub, c.now) || !c.intact then Outdated
    else if pub.fill.Some? && !FillReady(desk, p, c.settled, c.now) then Away
    else if !DayHasSlot(desk.pubs, p, pub, c.date, c.dailyLimit) then Away
    else Going
  }

  function Attempt(desk: Desk, p: nat): Delivery {
    if p in desk.deliveries then desk.deliveries[p].(attempts := desk.deliveries[p].attempts + 1)
    else Delivery(1, None, [])
  }

  function Begin(desk: Desk, p: nat, c: Check): Desk
    requires p in desk.pubs
  {
    match Decide(desk, p, c)
    case Away => desk
    case Outdated => desk.(pubs := desk.pubs[p := desk.pubs[p].(status := Blocked)])
    case Going =>
      Desk(desk.pubs[p := OnDay(desk.pubs[p], c.date).(status := Sending, lease := Some(c.now + LEASE))],
           desk.deliveries[p := Attempt(desk, p)])
  }

  /** Ends a send that is still marked as sending. */
  function Finish(desk: Desk, p: nat, status: Status, nextAttempt: Option<int>, upload: bool): Desk
    requires p in desk.pubs
  {
    var pub := desk.pubs[p];
    if pub.status != Sending then desk
    else
      desk.(pubs := desk.pubs[p := pub.(status := status, uploadMedia := pub.uploadMedia || upload, lease := None,
                                        nextAttempt := nextAttempt)])
  }

  function Complete(desk: Desk, p: nat, ids: seq<int>, now: int): Desk
    requires p in desk.pubs
  {
    Desk(desk.pubs[p := desk.pubs[p].(status := Sent, lease := None)],
         if p in desk.deliveries then desk.deliveries[p := desk.deliveries[p].(sentAt := Some(now), ids := ids)]
         else desk.deliveries)
  }

  /** What is recorded for a reply. */
  function Recorded(desk: Desk, p: nat, reply: Reply, now: int): Desk
    requires p in desk.pubs
  {
    match reply
    case RemoteMediaRejected => Finish(desk, p, Ready, None, true)
    case RateLimited(seconds) => Finish(desk, p, Ready, Some(now + seconds), false)
    case Rejected => Finish(desk, p, Blocked, None, false)
    case Unknown => Finish(desk, p, Uncertain, None, false)
    case Delivered(ids) => Complete(desk, p, ids, now)
  }

  /** A media file could not be fetched; the row is written from the worker's own copy of it. */
  function UploadFailed(desk: Desk, p: nat, copy: Pub, now: int): Desk
    requires p in desk.pubs
  {
    var attempts := copy.mediaAttempts + 1;
    desk.(pubs := desk.pubs[p := desk.pubs[p].(mediaAttempts := attempts,
                                               status := if attempts >= UPLOAD_ATTEMPTS then Blocked else Ready,
      nextAttempt := Some(now + RETRY_PAUSE))])
  }

  /** Anything else went wrong before the request, or after it: only a ready publication is touched. */
  function NotStarted(desk: Desk, p: nat, invalid: bool, now: int): Desk
    requires p in desk.pubs
  {
    var pub := desk.pubs[p];
    if pub.status != Ready then desk
    else desk.(pubs := desk.pubs[p := pub.(status := if invalid then Blocked else Ready,
                                           nextAttempt := Some(now + RETRY_PAUSE))])
  }

  /** A send whose lease ran out is of unknown outcome. */
  function Recover(pub: Pub, now: int): Pub {
    if pub.status == Sending && pub.lease.Some? && pub.lease.value <= now then pub.(status := Uncertain, lease := None)
    else pub
  }

  function Expire(pub: Pub, now: int): Pub {
    if Expired(pub, now) && (pub.status == Ready || pub.status == Preparing) then pub.(status := Blocked, lease := None)
    else pub
  }

  datatype Objection = NoNote | NotUncertain | NoMessageIds

  /** The operator's verdict on a send of unknown outcome. */
  function Resolve(desk: Desk, p: nat, wasSent: bool, noted: bool, now: int): Result<Desk, Objection>
    requires p in desk.pubs && p in desk.deliveries
  {
    var row := desk.deliveries[p];
    if !noted then Err(NoNote)
    else if desk.pubs[p].status != Uncertain then Err(NotUncertain)
    else if wasSent && row.ids == [] then Err(NoMessageIds)
    else
      Ok(Desk(desk.pubs[p := desk.pubs[p].(status := if wasSent then Sent else Ready, nextAttempt := None)],
              if wasSent && row.sentAt.None? then desk.deliveries[p := row.(sentAt := Some(now))] else desk.deliveries))
  }

  /** A regular publication joins the day, if the day has a slot. */
  function Select(desk: Desk, p: nat, target: nat, happened: int, expiresAt: int, date: int, dailyLimit: nat): Desk {
    var pub := Pub(Preparing, target, None, happened, expiresAt, None, None, None, 0, false);
    if p in desk.pubs || !DayHasSlot(desk.pubs, p, pub, date, dailyLimit) then desk
    else desk.(pubs := desk.pubs[p := OnDay(pub, date)])
  }

  // ---------------------------------------------------------------- one delivery from start to end

  /** What a worker meets. The early checks are made on what it first loads, the others in the starting transaction. */
  datatype Circumstances = Circumstances(
    now: int, allowed: bool, settled: bool, uploadFails: bool, failure: Option<bool>, check: Check,
    reply: Reply, recordedAt: int, recordFails: bool)

  predicate GoesOn(desk: Desk, p: nat, c: Circumstances)
    requires p in desk.pubs
  {
    var pub := desk.pubs[p];
    && pub.status == Ready && c.allowed && (pub.nextAttempt.Some? ==> pub.nextAttempt.value <= c.now)
    && !Expired(pub, c.now) && (pub.fill.Some? ==> FillReady(desk, p, c.settled, c.now))
    && !(pub.uploadMedia && c.uploadFails) && c.failure.None?
  }

  /** Whether a request is made. */
  predicate Sends(desk: Desk, p: nat, c: Circumstances)
    requires p in desk.pubs
  {
    GoesOn(desk, p, c) && Decide(desk, p, c.check) == Going
  }

  /** What is left when the delivery does not get as far as the starting transaction. */
  function Stopped(desk: Desk, p: nat, c: Circumstances): Desk
    requires p in desk.pubs
  {
    var pub := desk.pubs[p];
    if pub.status != Ready || !c.allowed || (pub.nextAttempt.Some? && pub.nextAttempt.value > c.now) then desk
    else if Expired(pub, c.now) then desk.(pubs := desk.pubs[p := pub.(status := Blocked)])
    else if pub.fill.Some? && !FillReady(desk, p, c.settled, c.now) then desk
    else if pub.uploadMedia && c.uploadFails then UploadFailed(desk, p, pub, c.now)
    else if c.failure.Some? then NotStarted(desk, p, c.failure.value, c.now)
    else desk
  }

  function Outcome(desk: Desk, p: nat, c: Circumstances): Desk
    requires p in desk.pubs
  {
    if !GoesOn(desk, p, c) then Stopped(desk, p, c)
    else if Decide(desk, p, c.check) != Going || c.recordFails then Begin(desk, p, c.check)
    else Recorded(Begin(desk, p, c.check), p, c.reply, c.recordedAt)
  }

  /** A delivery that asked the bot ends as the reply says, or, if that cannot be recorded, as still sending. */
  lemma EndsAsAnswered(desk: Desk, p: nat, c: Circumstances)
    requires p in desk.pubs && Sends(desk, p, c)
    ensures Outcome(desk, p, c).pubs[p].status
      == if c.recordFails then Sending
         else match c.reply
           case Delivered(_) => Sent
           case Unknown => Uncertain
           case Rejected => Blocked
           case _ => Ready
  {
  }

  /** A delivery that did not ask the bot leaves nothing that may be in the channel. */
  lemma NotSentNotReleased(desk: Desk, p: nat, c: Circumstances)
    requires p in desk.pubs && !Sends(desk, p, c)
    ensures Outcome(desk, p, c).pubs[p].status.Released() ==> desk.pubs[p].status.Released()
    ensures Outcome(desk, p, c).deliveries == desk.deliveries
  {
  }

  // ---------------------------------------------------------------- the store

  class Office {
    var pubs: map<nat, Pub>
    var deliveries: map<nat, Delivery>

    function Rows(): Desk
      reads this
    {
      Desk(pubs, deliveries)
    }

    /** Counts the other publications of the day and dates this one; a fill is left undated. */
    method ReserveDay(p: nat, pub: Pub, date: int, dailyLimit: nat) returns (dated: Option<Pub>)
      ensures dated == if DayHasSlot(pubs, p, pub, date, dailyLimit) then Some(OnDay(pub, date)) else None
    {
      if pub.fill.Some? {
        return Some(pub);
      }
      var used := set x | x in pubs && x != p && pubs[x].target == pub.target && pubs[x].slotDate == Some(date)
        && pubs[x].status.Active();
      assert used == Slots(pubs, pub.target, date, p);
      if |used| >= dailyLimit {
        return None;
      }
      return Some(pub.(slotDate := Some(date)));
    }

    /** The transaction right before the request. */
    method StartSend(p: nat, c: Check) returns (started: bool)
      requires p in pubs
      modifies this
      ensures Rows() == Begin(old(Rows()), p, c)
      ensures started <==> Decide(old(Rows()), p, c) == Going
    {
      var pub := pubs[p];
      if pub.status != Ready || !c.allowed || !c.sameChat {
        return false;
      }
      if Expired(pub, c.now) || !c.intact {
        pubs := pubs[p := pub.(status := Blocked)];
        return false;
      }
      if pub.fill.Some? && !FillReady(Rows(), p, c.settled, c.now) {
        return false;
      }
      var dated := ReserveDay(p, pub, c.date, c.dailyLimit);
      if dated.None? {
        return false;
      }
      pubs := pubs[p := dated.value.(status := Sending, lease := Some(c.now + LEASE))];
      var row := if p in deliveries then deliveries[p] else Delivery(0, None, []);
      deliveries := deliveries[p := row.(attempts := row.attempts + 1)];
      return true;
    }

    method FinishSend(p: nat, status: Status, nextAttempt: Option<int>, upload: bool)
      requires p in pubs
      modifies this`pubs
      ensures Rows() == Finish(old(Rows()), p, status, nextAttempt, upload)
    {
      var pub := pubs[p];
      if pub.status != Sending {
        return;
      }
      pub := pub.(status := status);
      pub := pub.(uploadMedia := pub.uploadMedia || upload);
      pub := pub.(lease := None, nextAttempt := nextAttempt);
      pubs := pubs[p := pub];
    }

    method RecordReply(p: nat, reply: Reply, now: int)
      requires p in pubs
      modifies this
      ensures Rows() == Recorded(old(Rows()), p, reply, now)
    {
      match reply
      case RemoteMediaRejected => FinishSend(p, Ready, None, true);
      case RateLimited(seconds) => FinishSend(p, Ready, Some(now + seconds), false);
      case Rejected => FinishSend(p, Blocked, None, false);
      case Unknown => FinishSend(p, Uncertain, None, false);
      case Delivered(ids) =>
        pubs := pubs[p := pubs[p].(status := Sent, lease := None)];
        if p in deliveries {
          deliveries := deliveries[p := deliveries[p].(sentAt := Some(now), ids := ids)];
        }
    }

    /** The whole delivery under the publication's lock. */
    method DeliverLocked(p: nat, c: Circumstances) returns (asked: bool)
      requires p in pubs
      modifies this
      ensures Rows() == Outcome(old(Rows()), p, c)
      ensures asked <==> Sends(old(Rows()), p, c)
    {
      hide FillReady, DayHasSlot;
      var pub := pubs[p];
      if pub.status != Ready || !c.allowed {
        return false;
      }
      if pub.nextAttempt.Some? && pub.nextAttempt.value > c.now {
        return false;
      }
      if Expired(pub, c.now) {
        pubs := pubs[p := pub.(status := Blocked)];
        return false;
      }
      if pub.fill.Some? && !FillReady(Rows(), p, c.settled, c.now) {
        return false;
      }
      if pub.uploadMedia && c.uploadFails {
        var attempts := pub.mediaAttempts + 1;
        pubs := pubs[p := pub.(mediaAttempts := attempts,
                               status := if attempts >= UPLOAD_ATTEMPTS then Blocked else Ready,
          nextAttempt := Some(c.now + RETRY_PAUSE))];
        return false;
      }
      if c.failure.Some? {
        pubs := pubs[p := pub.(status := if c.failure.value then Blocked else Ready,
                               nextAttempt := Some(c.now + RETRY_PAUSE))];
        return false;
      }
      var started := StartSend(p, c.check);
      if !started {
        return false;
      }
      if !c.recordFails {
        RecordReply(p, c.reply, c.recordedAt);
      }
      return true;
    }

    method ResolveSend(p: nat, wasSent: bool, noted: bool, now: int) returns (refused: Option<Objection>)
      requires p in pubs && p in deliveries
      modifies this
      ensures match refused
        case Some(e) => Resolve(old(Rows()), p, wasSent, noted, now) == Err(e) && Rows() == old(Rows())
        case None => Resolve(old(Rows()), p, wasSent, noted, now) == Ok(Rows())
    {
      if !noted {
        return Some(NoNote);
      }
      var pub, row := pubs[p], deliveries[p];
      if pub.status != Uncertain {
        return Some(NotUncertain);
      }
      if wasSent && row.ids == [] {
        return Some(NoMessageIds);
      }
      if wasSent && row.sentAt.None? {
        deliveries := deliveries[p := row.(sentAt := Some(now))];
      }
      pubs := pubs[p := pub.(status := if wasSent then Sent else Ready, nextAttempt := None)];
      return None;
    }

    /** The two bulk updates of a tick: sends without a receipt become uncertain, what is out of date is blocked. */
    method Tick(now: int)
      modifies this`pubs
      ensures pubs == map p | p in old(pubs) :: Expire(Recover(old(pubs)[p], now), now)
    {
      pubs := map p | p in pubs :: Recover(pubs[p], now);
      pubs := map p | p in pubs :: Expire(pubs[p], now);
    }
  }
}
