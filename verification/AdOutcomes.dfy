/** When the delivery task asks Telegram, and what it leaves behind, in terms of what it found. */
module AdOutcomes {
  import opened Text
  import opened AdDelivery
  import opened AdMoves
  import opened AdPreparation
  import opened AdWorker
  import Formatting

  /** The delivery may go on: no placement, a reserved one, or a released one for which the campaign has a post left. */
  ghost predicate Free(db: Db, d: nat)
    requires Consistent(db)
  {
    d in db.placements ==> db.placements[d].status == Reserved || (db.placements[d].status == Released && !Lost(db, d))
  }

  /** There is a message to send: a frozen one, or a new one that is not too long with its advertisement. */
  ghost predicate HasMessage(db: Db, d: nat, message: Option<string>)
    requires Consistent(db) && d in db.deliveries
  {
    || db.deliveries[d].text != ""
    || (message.Some? && !exists c <- db.campaigns :: Advertises(db, d, c) && TooLong(db, c, message.value))
  }

  /** A prepared delivery is pending as before and its placement, if any, is reserved. */
  ghost predicate Ready(db: Db, db': Db, d: nat) {
    && d in db.deliveries && d in db'.deliveries && db'.targets == db.targets
    && db'.deliveries[d].target == db.deliveries[d].target
    && db'.deliveries[d].status == Pending && db'.deliveries[d].attempts == db.deliveries[d].attempts
    && (d in db'.placements ==> db'.placements[d].status == Reserved)
  }

  lemma FreshReady(db: Db, d: nat, post: string, url: string)
    requires Sane(db) && Consistent(db) && d in db.deliveries && post != "" && db.deliveries[d].text == ""
    requires db.deliveries[d].status == Pending
    ensures PrepareDelivery(db, d, post, url).Ok? <==> Free(db, d) && HasMessage(db, d, Some(post))
    ensures PrepareDelivery(db, d, post, url).Ok? ==> Ready(db, PrepareDelivery(db, d, post, url).value, d)
  {
    PreparedExactly(db, d, post, url);
    if PrepareDelivery(db, d, post, url).Ok? { AnyPlacement(db, d, post, url); }
    hide PrepareDelivery, Sane, Consistent, Advertises, TooLong, Lost, Formatting.Message, Formatting.Appended;
  }

  /** A placement made by preparing is reserved. */
  lemma AnyPlacement(db: Db, d: nat, post: string, url: string)
    requires Consistent(db) && d in db.deliveries && d !in db.placements && db.deliveries[d].text == ""
    requires PrepareDelivery(db, d, post, url).Ok?
    ensures var db' := PrepareDelivery(db, d, post, url).value; d in db'.placements ==>
      db'.placements[d].status == Reserved
  {
    hide Consistent, Advertiser, Formatting.Message, Formatting.Appended, Utf16Length;
  }

  lemma FrozenReady(db: Db, d: nat, post: string, url: string)
    requires Consistent(db) && d in db.deliveries && db.deliveries[d].text != "" && db.deliveries[d].status == Pending
    requires !Unconfirmed(db, d) && (d in db.placements ==> db.placements[d].status != PlacementStatus.Sent)
    ensures PrepareDelivery(db, d, post, url).Ok? <==> Free(db, d)
    ensures PrepareDelivery(db, d, post, url).Ok? ==> Ready(db, PrepareDelivery(db, d, post, url).value, d)
  {
    PreparedAgain(db, d, post, url);
    hide PrepareDelivery, Consistent, Lost;
  }

  lemma PreparedReady(db: Db, d: nat, post: string, url: string)
    requires Sane(db) && Consistent(db) && d in db.deliveries && post != "" && db.deliveries[d].status == Pending
    requires !Unconfirmed(db, d) && PrepareDelivery(db, d, post, url).Ok?
    requires Ready(db, PrepareDelivery(db, d, post, url).value, d)
    ensures var db' := IncrementAttempts(PrepareDelivery(db, d, post, url).value, d);
      && Sane(db') && Consistent(db') && db'.targets == db.targets
      && d in db'.deliveries && db'.deliveries[d].target == db.deliveries[d].target
      && db'.deliveries[d].status == Pending && db'.deliveries[d].attempts == db.deliveries[d].attempts + 1
      && (d in db'.placements ==> db'.placements[d].status == Reserved)
  {
    PrepareSane(db, d, post, url);
    var db' := PrepareDelivery(db, d, post, url).value;
    hide PrepareDelivery;
    MinorSane(db', d, "", 0);
    SaneIsConsistent(IncrementAttempts(db', d));
    hide Sane, Consistent;
  }

  lemma ReadyExactly(db: Db, d: nat, c: Circumstances)
    requires Sane(db) && Consistent(db) && d in db.deliveries && (c.message.Some? ==> c.message.value != "")
    requires db.deliveries[d].status == Pending && !Unconfirmed(db, d)
    ensures Readied(db, d, c).Some? <==> Free(db, d) && HasMessage(db, d, c.message)
    ensures Readied(db, d, c).Some? ==>
      var db' := Readied(db, d, c).value;
      && Sane(db') && Consistent(db') && db'.targets == db.targets
      && d in db'.deliveries && db'.deliveries[d].target == db.deliveries[d].target
      && db'.deliveries[d].status == Pending && db'.deliveries[d].attempts == db.deliveries[d].attempts + 1
      && (d in db'.placements ==> db'.placements[d].status == Reserved)
  {
    SaneAt(db, d);
    hide Sane, Consistent, PrepareDelivery, Lost, Advertises, TooLong, Free, IncrementAttempts, Ready;
    var row, post := db.deliveries[d], PostOf(db, d, c);
    if post != "" {
      if row.text == "" { FreshReady(db, d, post, c.sourceUrl); } else { FrozenReady(db, d, post, c.sourceUrl); }
      if PrepareDelivery(db, d, post, c.sourceUrl).Ok? { PreparedReady(db, d, post, c.sourceUrl); }
    }
  }

  /**
   Telegram is asked exactly when the delivery is pending, its placement is free, it is due, its target is switched on
   and takes quota posts, the event is fresh, there is a message, and the bot is configured.
   */
  lemma AsksExactly(db: Db, d: nat, c: Circumstances)
    requires Sane(db) && d in db.deliveries && (c.message.Some? ==> c.message.value != "")
    ensures Consistent(db) && db.deliveries[d].target in db.targets
    ensures var row, target := db.deliveries[d], db.targets[db.deliveries[d].target];
      CallsBot(db, d, c) <==>
        && row.status == Pending && Free(db, d)
        && (row.retryAt.Some? ==> row.retryAt.value <= c.now)
        && target.enabled && target.quota && !c.stale
        && HasMessage(db, d, c.message) && c.configured
  {
    SaneIsConsistent(db);
    SaneAt(db, d);
    hide Sane, Consistent, Readied, HasMessage, Lost;
    if db.deliveries[d].status == Pending && !Unconfirmed(db, d) { ReadyExactly(db, d, c); }
  }

  // ---------------------------------------------------------------- what is left

  /** The delivery failed with an error, and its placement, if any, is given back. */
  ghost predicate FailedWith(db: Db, d: nat, error: string) {
    && d in db.deliveries && db.deliveries[d].status == Failed && db.deliveries[d].error == error
    && db.deliveries[d].retryAt == None
    && (d in db.placements ==> db.placements[d].status == Released)
  }

  /** Both statuses wait for the operator. */
  ghost predicate InQuestion(db: Db, d: nat, error: string) {
    && d in db.deliveries && db.deliveries[d].status == DeliveryStatus.Uncertain && db.deliveries[d].retryAt == None
    && db.deliveries[d].error == error
    && (d in db.placements ==> db.placements[d].status == PlacementStatus.Uncertain)
  }

  /** The delivery waits for its next attempt and keeps its place. */
  ghost predicate WaitsUntil(db: Db, d: nat, at: nat, error: string) {
    && d in db.deliveries && db.deliveries[d].status == Pending && db.deliveries[d].retryAt == Some(at)
    && db.deliveries[d].error == error
    && (d in db.placements ==> db.placements[d].status == Reserved)
  }

  ghost predicate SentAs(db: Db, d: nat, id: string) {
    && d in db.deliveries && db.deliveries[d].status == DeliveryStatus.Sent && db.deliveries[d].messageId == id
    && db.deliveries[d].retryAt == None && db.deliveries[d].error == ""
    && (d in db.placements ==> db.placements[d].status == PlacementStatus.Sent)
  }

  /** What each answer leaves of a delivery that was asked for. */
  ghost predicate AnsweredBy(db: Db, d: nat, c: Circumstances) {
    match c.answer
    case Accepted(id) => SentAs(db, d, id)
    case ChatRefused => FailedWith(db, d, c.error)
    case AuthRefused => FailedWith(db, d, c.error)
    case RateLimited => if c.mayRetry then WaitsUntil(db, d, c.retryAt, c.error) else FailedWith(db, d, c.error)
    case Unavailable =>
      if d in db.placements then InQuestion(db, d, "Результат отправки неизвестен. Проверьте канал перед повтором.")
      else if c.mayRetry then WaitsUntil(db, d, c.retryAt, c.error)
      else FailedWith(db, d, c.error)
    case BadResponse =>
      if d in db.placements then InQuestion(db, d, "Telegram не подтвердил отправку. Проверьте канал.")
      else FailedWith(db, d, c.error)
  }

  /** Only the status, the error, the time and the message id of a delivery change. */
  ghost predicate SameRow(db: Db, db': Db, d: nat) {
    && d in db.deliveries && d in db'.deliveries
    && db'.deliveries[d].attempts == db.deliveries[d].attempts && db'.deliveries[d].target == db.deliveries[d].target
    && db'.deliveries[d].text == db.deliveries[d].text && db'.deliveries[d].entities == db.deliveries[d].entities
    && (d in db'.placements <==> d in db.placements)
  }

  lemma FailedLeaves(db: Db, d: nat, error: string)
    requires d in db.deliveries && db.deliveries[d].status != DeliveryStatus.Sent
    requires d in db.placements ==> db.placements[d].status != PlacementStatus.Sent
    ensures FailedWith(MarkFailed(db, d, error), d, error) && SameRow(db, MarkFailed(db, d, error), d)
  {
  }

  lemma RefusedLeaves(db: Db, d: nat, error: string)
    requires Consistent(db) && d in db.deliveries && db.deliveries[d].status != DeliveryStatus.Sent
    requires d in db.placements ==> db.placements[d].status != PlacementStatus.Sent
    ensures var db', t := MarkPermanentChatFailure(db, d, error), db.deliveries[d].target;
      && FailedWith(db', d, error) && SameRow(db, db', d)
      && (!db.targets[t].channel ==> t in db'.targets && !db'.targets[t].enabled)
  {
    FailedLeaves(db, d, error);
    hide MarkFailed, FailedWith, SameRow;
    TargetsOfFailed(db, d, error);
    FailedElsewhere(MarkFailed(db, d, error), MarkPermanentChatFailure(db, d, error), db, d, error);
  }

  lemma TargetsOfFailed(db: Db, d: nat, error: string)
    requires d in db.deliveries
    ensures MarkFailed(db, d, error).targets == db.targets
  {
  }

  lemma FailedElsewhere(failed: Db, db': Db, db: Db, d: nat, error: string)
    requires FailedWith(failed, d, error) && SameRow(db, failed, d)
    requires db'.deliveries == failed.deliveries && db'.placements == failed.placements
    ensures FailedWith(db', d, error) && SameRow(db, db', d)
  {
  }

  lemma DoubtLeaves(db: Db, d: nat, error: string)
    requires d in db.deliveries && db.deliveries[d].status != DeliveryStatus.Sent
      && db.deliveries[d].status != DeliveryStatus.Uncertain
    requires d in db.placements ==> db.placements[d].status.Held()
    ensures InQuestion(MarkUncertain(db, d, error), d, error) && SameRow(db, MarkUncertain(db, d, error), d)
  {
  }

  lemma RetryLeaves(db: Db, d: nat, error: string, at: nat)
    requires d in db.deliveries && db.deliveries[d].status == Pending
    requires d in db.placements ==> db.placements[d].status == Sending
    ensures var db' := ScheduleRetry(RetryReserved(db, d), d, error, at);
      WaitsUntil(db', d, at, error) && SameRow(db, db', d)
  {
  }

  lemma SentLeaves(db: Db, d: nat, id: string)
    requires Consistent(db) && d in db.deliveries && db.deliveries[d].status != DeliveryStatus.Sent
    ensures SentAs(MarkSent(db, d, id), d, id) && SameRow(db, MarkSent(db, d, id), d)
  {
    hide Published;
  }

  lemma AnswerLeaves(db: Db, d: nat, c: Circumstances)
    requires Consistent(db) && d in db.deliveries && db.deliveries[d].status == Pending
    requires d in db.placements ==> db.placements[d].status == Sending
    ensures var db' := AfterAnswer(db, d, c);
      && AnsweredBy(db', d, c) && SameRow(db, db', d)
      && (c.answer == ChatRefused && !db.targets[db.deliveries[d].target].channel ==>
            db.deliveries[d].target in db'.targets && !db'.targets[db.deliveries[d].target].enabled)
  {
    hide Consistent, FailedWith, InQuestion, WaitsUntil, SentAs, SameRow, MarkFailed, MarkPermanentChatFailure,
    MarkSent;
    hide MarkUncertain, ScheduleRetry, RetryReserved;
    FailedLeaves(db, d, c.error);
    RetryLeaves(db, d, c.error, c.retryAt);
    SamePlaced(db, AfterAnswer(db, d, c), d);
    match c.answer
    case Accepted(id) => SentLeaves(db, d, id);
    case ChatRefused => RefusedLeaves(db, d, c.error);
    case Unavailable => DoubtLeaves(db, d, TEMPORARY_DOUBT);
    case BadResponse => DoubtLeaves(db, d, RESPONSE_DOUBT);
    case _ =>
  }

  lemma SamePlaced(db: Db, db': Db, d: nat)
    ensures SameRow(db, db', d) ==> d in db'.deliveries && (d in db'.placements <==> d in db.placements)
    ensures SameRow(db, db', d) ==> d in db.deliveries && db'.deliveries[d].attempts == db.deliveries[d].attempts
  {
  }

  /**
   A delivery that was asked for has one attempt more and is left as the answer says: sent, failed, waiting for a retry,
   or, when an advertisement may have been published, in question. A private chat that refused is switched off.
   */
  lemma AskedLeaves(db: Db, d: nat, c: Circumstances)
    requires Sane(db) && Consistent(db) && d in db.deliveries && (c.message.Some? ==> c.message.value != "")
    requires CallsBot(db, d, c)
    ensures var db', row := Leaves(db, d, c), db.deliveries[d];
      && AnsweredBy(db', d, c) && db'.deliveries[d].attempts == row.attempts + 1
      && (c.answer == ChatRefused && !db.targets[row.target].channel ==>
            row.target in db'.targets && !db'.targets[row.target].enabled)
  {
    ReadyExactly(db, d, c);
    var ready := Readied(db, d, c).value;
    var begun := BeginSend(ready, d);
    BeginSendSane(ready, d);
    SaneIsConsistent(begun);
    BegunRow(ready, d);
    hide Sane, Readied, Consistent, BeginSend;
    AnswerLeaves(begun, d, c);
    SamePlaced(begun, AfterAnswer(begun, d, c), d);
    hide AnsweredBy, AfterAnswer, SameRow;
  }

  lemma BegunRow(db: Db, d: nat)
    requires d in db.deliveries && (d in db.placements ==> db.placements[d].status == Reserved)
    ensures MaySend(db, d)
    ensures var db' := BeginSend(db, d);
      && db'.deliveries == db.deliveries && db'.targets == db.targets
      && (d in db'.placements ==> db'.placements[d].status == Sending)
  {
  }

  /**
   A delivery that was not asked for: what is over or not due is untouched, an unconfirmed attempt is put in question,
   and what cannot be sent fails; a placement that could not be taken again stays released.
   */
  lemma NotAskedLeaves(db: Db, d: nat, c: Circumstances)
    requires Sane(db) && Consistent(db) && d in db.deliveries && (c.message.Some? ==> c.message.value != "")
    requires !CallsBot(db, d, c) && db.deliveries[d].target in db.targets
    ensures var db', row, target := Leaves(db, d, c), db.deliveries[d], db.targets[db.deliveries[d].target];
      if Unconfirmed(db, d) && row.status != DeliveryStatus.Uncertain then
        InQuestion(db', d, "Предыдущая попытка не подтверждена. Проверьте канал.")
      else if row.status != Pending then db' == db
      else if row.retryAt.Some? && row.retryAt.value > c.now then db' == db
      else if !target.enabled || !target.quota then FailedWith(db', d, "Delivery target is disabled.")
      else if c.stale then FailedWith(db', d, "Событие старше 30 минут.")
      else FailedWith(db', d, c.error)
  {
    SaneAt(db, d);
    hide Sane, Consistent, Readied, FailedWith, InQuestion, MarkFailed, MarkUncertain, SameRow;
    var row := db.deliveries[d];
    if Unconfirmed(db, d) && row.status != DeliveryStatus.Uncertain {
      DoubtLeaves(db, d, UNCONFIRMED);
    } else if row.status == Pending {
      FailedLeaves(db, d, "Delivery target is disabled.");
      FailedLeaves(db, d, "Событие старше 30 минут.");
      if !Unconfirmed(db, d) && OuterObstacle(db, d, c) == None { UnsentLeaves(db, d, c); }
    }
  }

  /** What is due but cannot be prepared or sent fails. */
  lemma UnsentLeaves(db: Db, d: nat, c: Circumstances)
    requires Sane(db) && Consistent(db) && d in db.deliveries && (c.message.Some? ==> c.message.value != "")
    requires db.deliveries[d].status == Pending && !Unconfirmed(db, d) && db.deliveries[d].target in db.targets
    requires OuterObstacle(db, d, c) == None && !CallsBot(db, d, c)
    ensures FailedWith(Leaves(db, d, c), d, c.error)
  {
    SaneAt(db, d);
    hide Sane, Consistent, Readied, FailedWith, MarkFailed, SameRow;
    FailedLeaves(db, d, c.error);
    ReadyExactly(db, d, c);
    if Readied(db, d, c).Some? {
      BegunRow(Readied(db, d, c).value, d);
      FailedLeaves(Readied(db, d, c).value, d, c.error);
    }
  }

  /** What the task reports for each answer. */
  lemma ReportedWhenAsked(db: Db, d: nat, c: Circumstances)
    requires Sane(db) && Consistent(db) && d in db.deliveries && (c.message.Some? ==> c.message.value != "")
    requires CallsBot(db, d, c)
    ensures var advertised := d in Leaves(db, d, c).placements;
      Expected(db, d, c) == match c.answer
        case Accepted(_) => Completed
        case ChatRefused => Unsuccessful
        case AuthRefused => Unsuccessful
        case RateLimited => if c.mayRetry then Retrying else Unsuccessful
        case Unavailable => if advertised then InDoubt else if c.mayRetry then Retrying else Unsuccessful
        case BadResponse => if advertised then InDoubt else Unsuccessful
  {
    ReadyExactly(db, d, c);
    var ready := Readied(db, d, c).value;
    var begun := BeginSend(ready, d);
    BeginSendSane(ready, d);
    SaneIsConsistent(begun);
    BegunRow(ready, d);
    hide Sane, Readied, Consistent, BeginSend;
    AnswerLeaves(begun, d, c);
    SamePlaced(begun, AfterAnswer(begun, d, c), d);
    hide AnsweredBy, AfterAnswer, SameRow;
  }

  /** What the task reports when nothing was asked. */
  lemma ReportedWhenNot(db: Db, d: nat, c: Circumstances)
    requires Sane(db) && Consistent(db) && d in db.deliveries && (c.message.Some? ==> c.message.value != "")
    requires !CallsBot(db, d, c) && db.deliveries[d].target in db.targets
    ensures var row, target := db.deliveries[d], db.targets[db.deliveries[d].target];
      Expected(db, d, c)
        == if row.status == DeliveryStatus.Sent then AlreadySent
           else if row.status == DeliveryStatus.Uncertain || Unconfirmed(db, d) then InDoubt
           else if row.status == Failed then PermanentlyFailed
           else if row.retryAt.Some? && c.now < row.retryAt.value then RetryScheduled
           else if !(target.enabled && target.quota) then Disabled
           else if c.stale then Stale
           else Unsuccessful
  {
    if db.deliveries[d].status == Pending && !Unconfirmed(db, d) {
      ReadyExactly(db, d, c);
      if Readied(db, d, c).Some? { BegunRow(Readied(db, d, c).value, d); }
    }
    hide Sane, Consistent, Readied;
  }
}
