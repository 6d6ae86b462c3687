/** When a news publication is sent, and what each delivery, tick and decision leaves behind. */
module NewsOutcomes {
  import opened Text
  import opened NewsReceipts
  import opened NewsSending

  // ---------------------------------------------------------------- when it is sent

  /**
   The turn of a publication of a fill: the run is settled, none of its texts is being prepared, all its other open
   publications are later, and its last recorded post is at least 30 seconds old.
   */
  ghost predicate ItsTurn(desk: Desk, p: nat, settled: bool, now: int)
    requires p in desk.pubs
  {
    && settled
    && forall x <- desk.pubs :: desk.pubs[x].fill == desk.pubs[p].fill ==>
         && desk.pubs[x].status != Preparing
         && (x != p && desk.pubs[x].status != Sent && desk.pubs[x].status != Blocked ==>
               desk.pubs[p].happened < desk.pubs[x].happened
                 || (desk.pubs[p].happened == desk.pubs[x].happened && p < x))
         && (x in desk.deliveries && desk.deliveries[x].sentAt.Some? ==> desk.deliveries[x].sentAt.value + 30 <= now)
  }

  /** Fewer others than the limit take a slot of the channel's day: all but blocked ones do. */
  ghost predicate FreeDay(desk: Desk, p: nat, date: int, dailyLimit: nat)
    requires p in desk.pubs
  {
    |set x | x in desk.pubs && x != p && desk.pubs[x].target == desk.pubs[p].target
       && desk.pubs[x].slotDate == Some(date) && desk.pubs[x].status != Blocked| < dailyLimit
  }

  /** Nothing stops the delivery before the starting transaction. */
  ghost predicate Reaches(desk: Desk, p: nat, c: Circumstances)
    requires p in desk.pubs
  {
    var pub := desk.pubs[p];
    && pub.status == Ready && c.allowed && (pub.nextAttempt.Some? ==> pub.nextAttempt.value <= c.now)
    && c.now < pub.expiresAt && (pub.fill.Some? ==> ItsTurn(desk, p, c.settled, c.now))
    && (pub.uploadMedia ==> !c.uploadFails) && c.failure.None?
  }

  /** The starting transaction finds nothing against the send. */
  ghost predicate Starts(desk: Desk, p: nat, c: Check)
    requires p in desk.pubs
  {
    var pub := desk.pubs[p];
    && pub.status == Ready && c.allowed && c.sameChat && c.intact && c.now < pub.expiresAt
    && (if pub.fill.Some? then ItsTurn(desk, p, c.settled, c.now) else FreeDay(desk, p, c.date, c.dailyLimit))
  }

  lemma TurnExactly(desk: Desk, p: nat, settled: bool, now: int)
    requires p in desk.pubs && desk.pubs[p].fill.Some? && desk.pubs[p].status == Ready
    ensures FillReady(desk, p, settled, now) <==> ItsTurn(desk, p, settled, now)
  {
  }

  lemma DayExactly(desk: Desk, p: nat, date: int, dailyLimit: nat)
    requires p in desk.pubs && desk.pubs[p].fill.None?
    ensures DayHasSlot(desk.pubs, p, desk.pubs[p], date, dailyLimit) <==> FreeDay(desk, p, date, dailyLimit)
  {
    assert Slots(desk.pubs, desk.pubs[p].target, date, p)
      == set x | x in desk.pubs && x != p && desk.pubs[x].target == desk.pubs[p].target
           && desk.pubs[x].slotDate == Some(date) && desk.pubs[x].status != Blocked;
  }

  lemma StartsExactly(desk: Desk, p: nat, c: Check)
    requires p in desk.pubs
    ensures Decide(desk, p, c) == Going <==> Starts(desk, p, c)
  {
    hide ItsTurn, FillReady, FreeDay, DayHasSlot;
    var pub := desk.pubs[p];
    if pub.status == Ready && pub.fill.Some? {
      TurnExactly(desk, p, c.settled, c.now);
      FillNeedsNoSlot(desk, p, c.date, c.dailyLimit);
    }
    if pub.fill.None? { DayExactly(desk, p, c.date, c.dailyLimit); }
  }

  lemma FillNeedsNoSlot(desk: Desk, p: nat, date: int, dailyLimit: nat)
    requires p in desk.pubs && desk.pubs[p].fill.Some?
    ensures DayHasSlot(desk.pubs, p, desk.pubs[p], date, dailyLimit)
  {
  }

  /** Telegram is asked exactly when nothing stops the delivery, neither before the starting transaction nor in it. */
  lemma AsksExactly(desk: Desk, p: nat, c: Circumstances)
    requires p in desk.pubs
    ensures Sends(desk, p, c) <==> Reaches(desk, p, c) && Starts(desk, p, c.check)
    ensures GoesOn(desk, p, c) <==> Reaches(desk, p, c)
  {
    hide ItsTurn, FillReady, FreeDay, DayHasSlot, Decide, Starts;
    StartsExactly(desk, p, c.check);
    if desk.pubs[p].status == Ready && desk.pubs[p].fill.Some? { TurnExactly(desk, p, c.settled, c.now); }
  }

  // ---------------------------------------------------------------- what is left

  /** Only this publication's rows differ, and of those only the named parts may. */
  ghost predicate OnlyOf(desk: Desk, desk': Desk, p: nat)
    requires p in desk.pubs
  {
    && desk'.pubs.Keys == desk.pubs.Keys && (forall x <- desk.pubs :: x != p ==> desk'.pubs[x] == desk.pubs[x])
    && desk'.deliveries.Keys <= desk.deliveries.Keys + {p} && desk.deliveries.Keys <= desk'.deliveries.Keys
    && (forall x <- desk.deliveries :: x != p ==> desk'.deliveries[x] == desk.deliveries[x])
    && var a, b := desk.pubs[p], desk'.pubs[p];
       b.target == a.target && b.fill == a.fill && b.happened == a.happened && b.expiresAt == a.expiresAt
  }

  /** How a recorded reply leaves a publication that was being sent. */
  ghost predicate AnsweredAs(pub: Pub, pub': Pub, reply: Reply, at: int) {
    match reply
    case RemoteMediaRejected => pub' == pub.(status := Ready, uploadMedia := true, nextAttempt := None, lease := None)
    case RateLimited(seconds) => pub' == pub.(status := Ready, nextAttempt := Some(at + seconds), lease := None)
    case Rejected => pub' == pub.(status := Blocked, nextAttempt := None, lease := None)
    case Unknown => pub' == pub.(status := Uncertain, nextAttempt := None, lease := None)
    case Delivered(_) => pub' == pub.(status := Sent, lease := None)
  }

  ghost predicate ReceiptAs(row: Delivery, row': Delivery, reply: Reply, at: int) {
    row' == if reply.Delivered? then row.(sentAt := Some(at), ids := reply.ids) else row
  }

  lemma BegunLeaves(desk: Desk, p: nat, c: Check)
    requires p in desk.pubs && Decide(desk, p, c) == Going
    ensures var desk', pub := Begin(desk, p, c), desk.pubs[p];
      && OnlyOf(desk, desk', p) && p in desk'.deliveries
      && desk'.pubs[p] == Underway(pub, c)
      && desk'.deliveries[p] == Counted(desk, p)
  {
    hide FillReady, DayHasSlot;
  }

  lemma RecordedLeaves(desk: Desk, p: nat, reply: Reply, at: int)
    requires p in desk.pubs && desk.pubs[p].status == Sending && p in desk.deliveries
    ensures var desk' := Recorded(desk, p, reply, at);
      && OnlyOf(desk, desk', p) && p in desk'.deliveries
      && AnsweredAs(desk.pubs[p], desk'.pubs[p], reply, at)
      && ReceiptAs(desk.deliveries[p], desk'.deliveries[p], reply, at)
  {
  }

  /** A publication being sent: leased for five minutes and, unless it belongs to a fill, dated. */
  function Underway(pub: Pub, c: Check): Pub {
    pub.(status := Sending, lease := Some(c.now + 300),
         slotDate := if pub.fill.Some? then pub.slotDate else Some(c.date))
  }

  /** One attempt more. */
  function Counted(desk: Desk, p: nat): Delivery {
    if p in desk.deliveries then desk.deliveries[p].(attempts := desk.deliveries[p].attempts + 1)
    else Delivery(1, None, [])
  }

  /**
   A publication that was asked for counts one attempt more and, unless it belongs to a fill, takes the day of the
   send. It is left as the reply says, or, if that could not be recorded, as sending under a lease of five minutes.
   */
  lemma AskedLeaves(desk: Desk, p: nat, c: Circumstances)
    requires p in desk.pubs && Sends(desk, p, c)
    ensures var desk', going, row := Outcome(desk, p, c), Underway(desk.pubs[p], c.check), Counted(desk, p);
      && OnlyOf(desk, desk', p) && p in desk'.deliveries
      && (c.recordFails ==> desk'.pubs[p] == going && desk'.deliveries[p] == row)
      && (!c.recordFails ==> AnsweredAs(going, desk'.pubs[p], c.reply, c.recordedAt))
      && (!c.recordFails ==> ReceiptAs(row, desk'.deliveries[p], c.reply, c.recordedAt))
  {
    hide FillReady, DayHasSlot, Recorded, Begin, AnsweredAs, ReceiptAs, OnDay;
    BegunLeaves(desk, p, c.check);
    RecordedLeaves(Begin(desk, p, c.check), p, c.reply, c.recordedAt);
  }

  /**
   A publication that was not asked for: one out of date is blocked, before the start or in it; a download that fails
   blocks the third time and otherwise puts it off by five minutes; a preparation that fails blocks if the data is
   invalid and otherwise puts it off. Anything else leaves all as it was.
   */
  lemma NotAskedLeaves(desk: Desk, p: nat, c: Circumstances)
    requires p in desk.pubs && !Sends(desk, p, c)
    ensures var desk', pub := Outcome(desk, p, c), desk.pubs[p];
      var passes := pub.status == Ready && c.allowed && (pub.nextAttempt.Some? ==> pub.nextAttempt.value <= c.now);
      var due := pub.fill.Some? ==> ItsTurn(desk, p, c.settled, c.now);
      desk' == if !passes then desk
        else if pub.expiresAt <= c.now then desk.(pubs := desk.pubs[p := pub.(status := Blocked)])
        else if !due then desk
        else if pub.uploadMedia && c.uploadFails then
          desk.(pubs := desk.pubs[p := pub.(mediaAttempts := pub.mediaAttempts + 1, nextAttempt := Some(c.now + 300),
            status := if pub.mediaAttempts + 1 >= 3 then Blocked else Ready)])
        else if c.failure.Some? then
          desk.(pubs := desk.pubs[p := pub.(nextAttempt := Some(c.now + 300),
                                            status := if c.failure.value then Blocked else Ready)])
        else if c.check.allowed && c.check.sameChat && (pub.expiresAt <= c.check.now || !c.check.intact) then
          desk.(pubs := desk.pubs[p := pub.(status := Blocked)])
        else desk
  {
    hide ItsTurn, FillReady, DayHasSlot;
    AsksExactly(desk, p, c);
    if desk.pubs[p].status == Ready && desk.pubs[p].fill.Some? { TurnExactly(desk, p, c.settled, c.now); }
  }

  /** A limit of Telegram's puts a publication off by exactly the pause it asked for. */
  lemma RateLimitPutsOff(desk: Desk, p: nat, c: Circumstances, reader: Reader, status: int, body: Option<Json>,
                         expected: nat,
                         remoteMedia: bool, pause: int)
    requires p in desk.pubs && Sends(desk, p, c) && !c.recordFails
    requires c.reply == ParseReceipt(reader, status, body, expected, remoteMedia)
    requires DeniesWith(status, body, 429) && AsksPause(reader, body.value, pause) && 1 <= pause <= 86400
    ensures Outcome(desk, p, c).pubs[p].status == Ready
    ensures Outcome(desk, p, c).pubs[p].nextAttempt == Some(c.recordedAt + pause)
  {
    RefusalsExactly(reader, status, body, expected, remoteMedia);
    AskedLeaves(desk, p, c);
    hide ParseReceipt, Outcome, Sends, AsksPause, DeniesWith;
  }

  // ---------------------------------------------------------------- ticks and operators

  /**
   A tick puts a send without a receipt in question once its lease ran out, and blocks what is out of date before it was
   sent; everything else stays.
   */
  lemma TickExactly(pub: Pub, now: int)
    ensures Expire(Recover(pub, now), now)
      == if pub.status == Sending && pub.lease.Some? && pub.lease.value <= now then
        pub.(status := Uncertain, lease := None)
         else if pub.expiresAt <= now && (pub.status == Ready || pub.status == Preparing) then
           pub.(status := Blocked, lease := None)
         else pub
  {
  }

  /** An operator's decision needs a note, an uncertain send and, for a post that was found, its message ids. */
  lemma ResolvedExactly(desk: Desk, p: nat, wasSent: bool, noted: bool, now: int)
    requires p in desk.pubs && p in desk.deliveries
    ensures Resolve(desk, p, wasSent, noted, now).Ok? <==>
      noted && desk.pubs[p].status == Uncertain && (wasSent ==> desk.deliveries[p].ids != [])
    ensures Resolve(desk, p, wasSent, noted, now).Ok? ==>
      var desk' := Resolve(desk, p, wasSent, noted, now).value;
      && OnlyOf(desk, desk', p)
      && desk'.pubs[p] == desk.pubs[p].(status := if wasSent then Sent else Ready, nextAttempt := None)
      && p in desk'.deliveries && desk'.deliveries[p].ids == desk.deliveries[p].ids
      && desk'.deliveries[p].sentAt
           == (if wasSent && desk.deliveries[p].sentAt.None? then Some(now) else desk.deliveries[p].sentAt)
  {
  }

  /** A regular publication is created, dated and to be prepared, exactly when the channel's day has a slot. */
  lemma SelectedExactly(desk: Desk, p: nat, target: nat, happened: int, expiresAt: int, date: int, dailyLimit: nat)
    requires p !in desk.pubs
    ensures var others := set x | x in desk.pubs && desk.pubs[x].target == target && desk.pubs[x].slotDate == Some(date)
                                    && desk.pubs[x].status != Blocked;
      Select(desk, p, target, happened, expiresAt, date, dailyLimit)
        == if |others| >= dailyLimit then desk
           else desk.(pubs := desk.pubs[p := Pub(Preparing, target, None, happened, expiresAt, Some(date), None, None,
                                                 0, false)])
  {
    assert Slots(desk.pubs, target, date, p)
      == set x | x in desk.pubs && desk.pubs[x].target == target && desk.pubs[x].slotDate == Some(date)
                   && desk.pubs[x].status != Blocked;
  }
}
