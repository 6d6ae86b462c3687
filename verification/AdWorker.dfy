/** The delivery task, run to its end under the lock: its order of steps is a walk of the protocol. */
module AdWorker {
  import opened Text
  import opened AdDelivery
  import opened AdStore
  import opened AdMoves
  import opened Formatting
  import opened Requests

  datatype Outcome =
    | AlreadySent | InDoubt | PermanentlyFailed | RetryScheduled | Disabled | Stale | Unsuccessful | Retrying
      | Completed

  /** What the task meets outside the database; `published` is what really happened to the request. */
  datatype Circumstances = Circumstances(
    now: nat, stale: bool, message: Option<string>, sourceUrl: string, configured: bool,
    answer: Answer, published: bool, mayRetry: bool, retryAt: nat, error: string)

  // ---------------------------------------------------------------- what the task should answer

  /** How the checks on the delivery itself end. */
  function StatusObstacle(db: Db, d: nat): Option<Outcome>
    requires d in db.deliveries
  {
    var status := db.deliveries[d].status;
    if status == DeliveryStatus.Sent then Some(AlreadySent)
    else if status == DeliveryStatus.Uncertain || Unconfirmed(db, d) then Some(InDoubt)
    else if status == Failed then Some(PermanentlyFailed)
    else None
  }

  /** A scheduled retry that is not due, a target switched off, an event too old. */
  function OuterObstacle(db: Db, d: nat, c: Circumstances): Option<Outcome>
    requires d in db.deliveries && db.deliveries[d].target in db.targets
  {
    var row := db.deliveries[d];
    var target := db.targets[row.target];
    if row.retryAt.Some? && row.retryAt.value > c.now then Some(RetryScheduled)
    else if !target.enabled || !target.quota then Some(Disabled)
    else if c.stale then Some(Stale)
    else None
  }

  /** The text handed to the preparation, empty if there is none. */
  function PostOf(db: Db, d: nat, c: Circumstances): string
    requires d in db.deliveries
  {
    if db.deliveries[d].text != "" then db.deliveries[d].text else if c.message.Some? then c.message.value else ""
  }

  /** The outcome after an answer; an advertised delivery is never retried when in doubt. */
  function AnswerOutcome(advertised: bool, c: Circumstances): Outcome {
    match c.answer
    case Accepted(_) => Completed
    case RateLimited => if c.mayRetry then Retrying else Unsuccessful
    case Unavailable => if advertised then InDoubt else if c.mayRetry then Retrying else Unsuccessful
    case BadResponse => if advertised then InDoubt else Unsuccessful
    case _ => Unsuccessful
  }

  /** The rows once the message is prepared and counted. */
  ghost function Readied(db: Db, d: nat, c: Circumstances): Option<Db>
    requires Consistent(db) && d in db.deliveries
  {
    if PostOf(db, d, c) == "" then None
    else
      match PrepareDelivery(db, d, PostOf(db, d, c), c.sourceUrl)
      case Err(_) => None
      case Ok(db') => Some(IncrementAttempts(db', d))
  }

  /** Whether the bot is called. */
  ghost predicate CallsBot(db: Db, d: nat, c: Circumstances)
    requires Consistent(db) && d in db.deliveries
  {
    && StatusObstacle(db, d).None? && OuterObstacle(db, d, c).None?
    && Readied(db, d, c).Some? && c.configured && MaySend(Readied(db, d, c).value, d)
  }

  ghost function Expected(db: Db, d: nat, c: Circumstances): Outcome
    requires Consistent(db) && d in db.deliveries
  {
    if StatusObstacle(db, d).Some? then StatusObstacle(db, d).value
    else if OuterObstacle(db, d, c).Some? then OuterObstacle(db, d, c).value
    else
      match Readied(db, d, c)
      case None => Unsuccessful
      case Some(db') =>
        if !c.configured then Unsuccessful
        else if !MaySend(db', d) then InDoubt
        else AnswerOutcome(HasAdvertising(db', d), c)
  }

  // ---------------------------------------------------------------- what the task should leave

  const TEMPORARY_DOUBT := "Результат отправки неизвестен. Проверьте канал перед повтором."
  const RESPONSE_DOUBT := "Telegram не подтвердил отправку. Проверьте канал."

  function AfterTemporary(db: Db, d: nat, c: Circumstances): Db
    requires d in db.deliveries
  {
    if c.mayRetry then ScheduleRetry(RetryReserved(db, d), d, c.error, c.retryAt) else MarkFailed(db, d, c.error)
  }

  /** The rows once an answer is recorded. */
  ghost function AfterAnswer(db: Db, d: nat, c: Circumstances): Db
    requires Consistent(db) && d in db.deliveries
  {
    match c.answer
    case Accepted(id) => MarkSent(db, d, id)
    case ChatRefused => MarkPermanentChatFailure(db, d, c.error)
    case AuthRefused => MarkFailed(db, d, c.error)
    case RateLimited => AfterTemporary(db, d, c)
    case Unavailable =>
      if HasAdvertising(db, d) then MarkUncertain(db, d, TEMPORARY_DOUBT) else AfterTemporary(db, d, c)
    case BadResponse => if HasAdvertising(db, d) then MarkUncertain(db, d, RESPONSE_DOUBT)
                        else MarkFailed(db, d, c.error)
  }

  /** The rows when a check on the delivery itself, or an outer one, ends the task. */
  function AfterStatus(db: Db, d: nat): Db
    requires d in db.deliveries
  {
    var status := db.deliveries[d].status;
    if status != DeliveryStatus.Sent && status != DeliveryStatus.Uncertain && Unconfirmed(db, d) then
      MarkUncertain(db, d, UNCONFIRMED)
    else db
  }

  function AfterObstacle(db: Db, d: nat, obstacle: Outcome): Db
    requires d in db.deliveries
  {
    if obstacle == Disabled then MarkFailed(db, d, "Delivery target is disabled.")
    else if obstacle == Stale then MarkFailed(db, d, "Событие старше 30 минут.")
    else db
  }

  /** The rows that the whole task leaves. */
  ghost function Leaves(db: Db, d: nat, c: Circumstances): Db
    requires Consistent(db) && d in db.deliveries
  {
    if StatusObstacle(db, d).Some? then AfterStatus(db, d)
    else if OuterObstacle(db, d, c).Some? then AfterObstacle(db, d, OuterObstacle(db, d, c).value)
    else
      match Readied(db, d, c)
      case None => MarkFailed(db, d, c.error)
      case Some(db') =>
        if d in db'.deliveries then AfterReady(db', d, c) else db'
  }

  /** The rows once a prepared message went out, or did not. */
  ghost function AfterReady(db: Db, d: nat, c: Circumstances): Db
    requires d in db.deliveries
  {
    if !c.configured then MarkFailed(db, d, c.error)
    else
      var begun := BeginSend(db, d);
      if MaySend(db, d) && Consistent(begun) && d in begun.deliveries then AfterAnswer(begun, d, c) else begun
  }

  // ---------------------------------------------------------------- walks

  /** The state after some moves of one delivery, if each was possible. */
  ghost function Walk(l: Local, d: nat, moves: seq<Move>): Option<Local>
    decreases |moves|
  {
    if moves == [] then Some(l)
    else
      match Walk(l, d, moves[..|moves| - 1])
      case None => None
      case Some(l') =>
        if Consistent(l'.db) && d in l'.db.deliveries then LocalStep(l', d, moves[|moves| - 1]) else None
  }

  lemma WalkStep(l: Local, d: nat, moves: seq<Move>)
    requires moves != []
    requires var before := Walk(l, d, moves[..|moves| - 1]);
      before.Some? && Consistent(before.value.db) && d in before.value.db.deliveries
    ensures Walk(l, d, moves) == LocalStep(Walk(l, d, moves[..|moves| - 1]).value, d, moves[|moves| - 1])
  {
    hide LocalStep;
  }

  /** Moves that a worker makes of its own accord. */
  predicate Own(move: Move) {
    !(move.Crash? || move.Resolve? || move.Claim? || move.Restore?)
  }

  lemma Extend(start: Local, d: nat, moves: seq<Move>, l: Local, move: Move, l': Local)
    requires Walk(start, d, moves) == Some(l) && Fine(l, d) && Consistent(l.db) && Own(move)
    requires WorkerStep(l, d, move) == Some(l')
    ensures Walk(start, d, moves + [move]) == Some(l') && Fine(l', d) && Consistent(l'.db)
  {
    assert (moves + [move])[..|moves|] == moves;
    KeepsWorker(l, d, move);
    hide WorkerStep, Walk;
    SaneIsConsistent(l'.db);
    assert Walk(start, d, moves + [move]) == LocalStep(l, d, move) by { WalkStep(start, d, moves + [move]); }
  }

  lemma FineHere(l: Local, d: nat)
    requires Fine(l, d)
    ensures d in l.db.deliveries && l.db.deliveries[d].target in l.db.targets
    ensures d in l.db.placements ==> l.db.placements[d].campaign in l.db.campaigns
  {
    SaneIsConsistent(l.db);
  }

  // ---------------------------------------------------------------- the steps that the task takes

  lemma CheckSteps(l: Local, d: nat, pc: Pc)
    requires Consistent(l.db) && d in l.db.deliveries
    ensures WorkerStep(l.(pc := Idle), d, Load) == Some(l.(pc := Loaded(l.db.deliveries[d].status)))
    ensures pc.Loaded? ==> WorkerStep(l.(pc := pc), d, Check) == Some(l.(pc := AfterCheck(l.db, d, pc.status)))
    ensures WorkerStep(l.(pc := Pc.Doubtful), d, Move.Doubt(UNCONFIRMED))
      == Some(l.(db := MarkUncertain(l.db, d, UNCONFIRMED), pc := Idle))
  {
    hide MarkUncertain, Unconfirmed;
  }

  lemma RetryStep(l: Local, d: nat, retry: bool, error: string)
    requires Consistent(l.db) && d in l.db.deliveries && l.pc.Answered?
    requires l.pc.answer == RateLimited || (l.pc.answer == Unavailable && d !in l.db.placements)
    ensures WorkerStep(l, d, Handle(retry, error)) == Some(AdMoves.RetryOrFail(l, d, retry))
  {
    hide RetryReserved;
  }

  lemma RescheduleStep(l: Local, d: nat, error: string, at: nat)
    requires Consistent(l.db) && d in l.db.deliveries && l.pc == Rescheduling
    ensures WorkerStep(l, d, Reschedule(error, at)) == Some(l.(db := ScheduleRetry(l.db, d, error, at), pc := Idle))
  {
    hide ScheduleRetry;
  }

  lemma RetryWalk(start: Local, d: nat, moves: seq<Move>, l: Local, error: string, at: nat)
    requires Walk(start, d, moves) == Some(l) && Fine(l, d) && Consistent(l.db) && l.pc.Answered?
    requires l.pc.answer == RateLimited || (l.pc.answer == Unavailable && d !in l.db.placements)
    ensures var l' := l.(db := ScheduleRetry(RetryReserved(l.db, d), d, error, at), pc := Idle);
      Walk(start, d, moves + [Handle(true, error)] + [Reschedule(error, at)]) == Some(l') && Fine(l', d)
        && Consistent(l'.db)
  {
    hide Fine, Walk, Consistent, RetryReserved, ScheduleRetry, WorkerStep;
    var middle := l.(db := RetryReserved(l.db, d), pc := Rescheduling);
    FineHere(l, d);
    RetryStep(l, d, true, error);
    Extend(start, d, moves, l, Handle(true, error), middle);
    FineHere(middle, d);
    RescheduleStep(middle, d, error, at);
    Extend(start, d, moves + [Handle(true, error)], middle, Reschedule(error, at),
           middle.(db := ScheduleRetry(middle.db, d, error, at), pc := Idle));
  }

  lemma SettleStep(l: Local, d: nat, error: string)
    requires Consistent(l.db) && d in l.db.deliveries && l.pc.Answered?
      && (l.pc.answer.Accepted? || l.pc.answer.ChatRefused?)
    ensures WorkerStep(l, d, Handle(false, error))
      == Some(l.(db := if l.pc.answer.Accepted? then MarkSent(l.db, d, l.pc.answer.messageId)
                       else MarkPermanentChatFailure(l.db, d, error), pc := Idle))
  {
    hide MarkSent, MarkPermanentChatFailure;
  }

  // ---------------------------------------------------------------- the task

  class DeliveryTask {
    const store: Store
    const delivery: nat
    ghost var start: Local
    ghost var moves: seq<Move>
    ghost var log: seq<Request<Advert>>

    /** The worker stands at `pc` after the moves made so far, all its own. */
    ghost predicate At(pc: Pc)
      reads this, store
    {
      var l := Local(store.Rows(), pc, log);
      Walk(start, delivery, moves) == Some(l) && (forall move <- moves :: Own(move)) && Fine(l, delivery)
        && Consistent(l.db)
    }

    constructor (store: Store, delivery: nat, ghost log: seq<Request<Advert>>)
      requires Fine(Local(store.Rows(), Idle, log), delivery)
      ensures this.store == store && this.delivery == delivery
      ensures start == Local(store.Rows(), Idle, log) && this.log == log && moves == [] && At(Idle)
    {
      this.store, this.delivery := store, delivery;
      this.start, this.log, this.moves := Local(store.Rows(), Idle, log), log, [];
      SaneIsConsistent(store.Rows());
    }

    /** Records a move that leaves the rows as they are. */
    ghost method Note(pc: Pc, move: Move, pc': Pc)
      requires At(pc) && Own(move)
      requires delivery in store.deliveries
      requires WorkerStep(Local(store.Rows(), pc, log), delivery, move) == Some(Local(store.Rows(), pc', log))
      modifies this`moves
      ensures At(pc') && moves == old(moves) + [move]
    {
      hide Fine, Walk, Consistent, WorkerStep;
      Extend(start, delivery, moves, Local(store.Rows(), pc, log), move, Local(store.Rows(), pc', log));
      moves := moves + [move];
    }

    /** Marks the delivery failed and ends. */
    method GiveUp(error: string)
      requires At(Failing)
      modifies this`moves, store
      ensures At(Idle) && moves == old(moves) + [Fail(error)]
      ensures store.Rows() == AdDelivery.MarkFailed(old(store.Rows()), delivery, error)
    {
      hide Fine, Walk, Consistent, AdDelivery.MarkFailed;
      ghost var l := Local(store.Rows(), Failing, log);
      FineHere(l, delivery);
      store.MarkFailed(delivery, error);
      Extend(start, delivery, moves, l, Fail(error), Local(store.Rows(), Idle, log));
      moves := moves + [Fail(error)];
    }

    /** Marks the delivery uncertain and ends. */
    method Doubt(error: string)
      requires At(Pc.Doubtful)
      modifies this`moves, store
      ensures At(Idle) && moves == old(moves) + [Move.Doubt(error)]
      ensures store.Rows() == AdDelivery.MarkUncertain(old(store.Rows()), delivery, error)
    {
      hide Fine, Walk, Consistent, AdDelivery.MarkUncertain;
      ghost var l := Local(store.Rows(), Pc.Doubtful, log);
      FineHere(l, delivery);
      store.MarkUncertain(delivery, error);
      Extend(start, delivery, moves, l, Move.Doubt(error), Local(store.Rows(), Idle, log));
      moves := moves + [Move.Doubt(error)];
    }

    /** After a temporary error: schedules a retry, or fails when none is left. */
    method RetryOrFail(c: Circumstances) returns (outcome: Outcome)
      requires At(Answered(c.answer))
        && (c.answer == RateLimited || (c.answer == Unavailable && delivery !in store.placements))
      modifies this`moves, store
      ensures At(Idle) && |moves| > |old(moves)| && outcome == if c.mayRetry then Retrying else Unsuccessful
      ensures store.Rows() == AfterTemporary(old(store.Rows()), delivery, c)
    {
      hide Fine, Walk, Consistent, RetryReserved, ScheduleRetry, WorkerStep;
      ghost var l := Local(store.Rows(), Answered(c.answer), log);
      FineHere(l, delivery);
      if c.mayRetry {
        RetryWalk(start, delivery, moves, l, c.error, c.retryAt);
        store.MarkRetryScheduled(delivery, c.error, c.retryAt);
        moves := moves + [Handle(true, c.error)] + [Reschedule(c.error, c.retryAt)];
        return Retrying;
      }
      RetryStep(l, delivery, false, c.error);
      Note(Answered(c.answer), Handle(false, c.error), Failing);
      GiveUp(c.error);
      return Unsuccessful;
    }

    /** Records an answer in one transaction. */
    method Settle(c: Circumstances)
      requires At(Answered(c.answer)) && (c.answer.Accepted? || c.answer.ChatRefused?)
      modifies this`moves, store
      ensures At(Idle) && |moves| > |old(moves)|
      ensures store.Rows() == AfterAnswer(old(store.Rows()), delivery, c)
    {
      hide Fine, Walk, Consistent, WorkerStep, AdDelivery.MarkSent, AdDelivery.MarkPermanentChatFailure;
      ghost var l := Local(store.Rows(), Answered(c.answer), log);
      FineHere(l, delivery);
      SettleStep(l, delivery, c.error);
      if c.answer.Accepted? {
        store.MarkSent(delivery, c.answer.messageId);
      } else {
        store.MarkPermanentChatFailure(delivery, c.error);
      }
      Extend(start, delivery, moves, l, Handle(false, c.error), Local(store.Rows(), Idle, log));
      moves := moves + [Handle(false, c.error)];
    }

    /** Records that an answer leaves doubt, for an advertised delivery, or means failure. */
    method DoubtOrFail(c: Circumstances, doubt: string) returns (outcome: Outcome)
      requires At(Answered(c.answer))
        && (c.answer.AuthRefused? || c.answer.BadResponse? || (c.answer.Unavailable? && delivery in store.placements))
      modifies this`moves, store
      ensures At(Idle) && |moves| > |old(moves)|
      ensures outcome == if !c.answer.AuthRefused? && delivery in old(store.placements) then InDoubt else Unsuccessful
      ensures store.Rows() == if outcome == InDoubt then AdDelivery.MarkUncertain(old(store.Rows()), delivery, doubt)
        else AdDelivery.MarkFailed(old(store.Rows()), delivery, c.error)
    {
      hide Fine, Walk, Consistent;
      FineHere(Local(store.Rows(), Answered(c.answer), log), delivery);
      if !c.answer.AuthRefused? && delivery in store.placements {
        Note(Answered(c.answer), Handle(false, c.error), Pc.Doubtful);
        Doubt(doubt);
        return InDoubt;
      }
      Note(Answered(c.answer), Handle(false, c.error), Failing);
      GiveUp(c.error);
      return Unsuccessful;
    }

    /** What is recorded for each answer of the bot. */
    method Record(c: Circumstances) returns (outcome: Outcome)
      requires At(Answered(c.answer))
      modifies this`moves, store
      ensures At(Idle) && |moves| > |old(moves)| && outcome == AnswerOutcome(delivery in old(store.placements), c)
      ensures store.Rows() == AfterAnswer(old(store.Rows()), delivery, c)
    {
      hide Fine, Walk, Consistent;
      match c.answer
      case Accepted(_) =>
        Settle(c);
        return Completed;
      case ChatRefused =>
        Settle(c);
        return Unsuccessful;
      case RateLimited => outcome := RetryOrFail(c);
      case Unavailable =>
        if delivery in store.placements {
          outcome := DoubtOrFail(c, TEMPORARY_DOUBT);
        } else {
          outcome := RetryOrFail(c);
        }
      case BadResponse => outcome := DoubtOrFail(c, RESPONSE_DOUBT);
      case AuthRefused => outcome := DoubtOrFail(c, "");
    }

    /** The checks on the delivery itself; `None` means that it goes on with its rows unchanged. */
    method CheckStatus() returns (outcome: Option<Outcome>)
      requires At(Idle) && delivery in store.deliveries
      modifies this`moves, store
      ensures outcome == StatusObstacle(old(store.Rows()), delivery) && |moves| > |old(moves)|
      ensures if outcome.Some? then At(Idle) else At(Checked) && store.Rows() == old(store.Rows())
      ensures store.Rows() == AfterStatus(old(store.Rows()), delivery)
    {
      hide Fine, Walk, Consistent, AdDelivery.MarkUncertain, WorkerStep;
      var status := store.deliveries[delivery].status;
      CheckSteps(Local(store.Rows(), Idle, log), delivery, Loaded(status));
      Note(Idle, Load, Loaded(status));
      if status == DeliveryStatus.Sent {
        Note(Loaded(status), Check, Idle);
        return Some(AlreadySent);
      }
      if status == DeliveryStatus.Uncertain {
        Note(Loaded(status), Check, Idle);
        return Some(InDoubt);
      }
      if Unconfirmed(store.Rows(), delivery) { Note(Loaded(status), Check, Pc.Doubtful); }
      ghost var before := Local(store.Rows(), Pc.Doubtful, log);
      var unconfirmed := store.UnconfirmedSend(delivery);
      if unconfirmed {
        Extend(start, delivery, moves, before, Move.Doubt(UNCONFIRMED), Local(store.Rows(), Idle, log));
        moves := moves + [Move.Doubt(UNCONFIRMED)];
        return Some(InDoubt);
      }
      if status == Failed {
        Note(Loaded(status), Check, Idle);
        return Some(PermanentlyFailed);
      }
      Note(Loaded(status), Check, Checked);
      return None;
    }

    /** A scheduled retry that is not due, a target switched off, and an event too old. */
    method CheckCircumstances(c: Circumstances) returns (outcome: Option<Outcome>)
      requires At(Checked) && delivery in store.deliveries && store.deliveries[delivery].target in store.targets
      modifies this`moves, store
      ensures outcome == OuterObstacle(old(store.Rows()), delivery, c) && |moves| >= |old(moves)|
      ensures if outcome.Some? then At(Idle) else At(Checked) && store.Rows() == old(store.Rows())
      ensures outcome.Some? ==> store.Rows() == AfterObstacle(old(store.Rows()), delivery, outcome.value)
    {
      hide Fine, Walk, Consistent;
      var row := store.deliveries[delivery];
      if row.retryAt.Some? && row.retryAt.value > c.now {
        Note(Checked, Postpone, Idle);
        return Some(RetryScheduled);
      }
      var target := store.targets[row.target];
      if !target.enabled || !target.quota {
        Note(Checked, Refuse, Failing);
        GiveUp("Delivery target is disabled.");
        return Some(Disabled);
      }
      if c.stale {
        Note(Checked, Refuse, Failing);
        GiveUp("Событие старше 30 минут.");
        return Some(Stale);
      }
      return None;
    }

    /** Freezes the message and counts the attempt; `None` means that the delivery failed. */
    method PrepareMessage(c: Circumstances) returns (message: Option<Advert>)
      requires At(Checked) && delivery in store.deliveries && (c.message.Some? ==> c.message.value != "")
      modifies this`moves, store
      ensures Consistent(old(store.Rows())) && |moves| >= |old(moves)|
      ensures match message
        case None =>
          && Readied(old(store.Rows()), delivery, c) == None && At(Idle)
          && store.Rows() == AdDelivery.MarkFailed(old(store.Rows()), delivery, c.error)
        case Some(m) => Readied(old(store.Rows()), delivery, c) == Some(store.Rows()) && At(Counted(m.text, m.entities))
    {
      hide Fine, Walk, Consistent, AdDelivery.PrepareDelivery, AdDelivery.IncrementAttempts;
      var text := store.deliveries[delivery].text;
      if text == "" && c.message.None? {
        Note(Checked, Refuse, Failing);
        GiveUp(c.error);
        return None;
      }
      var post := if text != "" then text else c.message.value;
      ghost var l := Local(store.Rows(), Checked, log);
      var prepared := store.PrepareDelivery(delivery, post, c.sourceUrl);
      if prepared.Err? {
        Note(Checked, Prepare(post, c.sourceUrl), Failing);
        GiveUp(c.error);
        return None;
      }
      ghost var p := Prepared(prepared.value.text, prepared.value.entities);
      Extend(start, delivery, moves, l, Prepare(post, c.sourceUrl), Local(store.Rows(), p, log));
      moves := moves + [Prepare(post, c.sourceUrl)];
      Increment(prepared.value);
      return Some(prepared.value);
    }

    method Increment(message: Advert)
      requires At(Prepared(message.text, message.entities)) && delivery in store.deliveries
      modifies this`moves, store
      ensures At(Counted(message.text, message.entities)) && moves == old(moves) + [Count]
      ensures store.Rows() == AdDelivery.IncrementAttempts(old(store.Rows()), delivery)
    {
      hide Fine, Walk, Consistent, AdDelivery.IncrementAttempts;
      ghost var l := Local(store.Rows(), Prepared(message.text, message.entities), log);
      store.IncrementAttempts(delivery);
      Extend(start, delivery, moves, l, Count, Local(store.Rows(), Counted(message.text, message.entities), log));
      moves := moves + [Count];
    }

    /** Begins, sends and records; at most one request is made, and only if the placement allows it. */
    method Transmit(message: Advert, c: Circumstances) returns (outcome: Outcome)
      requires At(Counted(message.text, message.entities))
      requires Request("", VerdictOf(c.answer), c.published).Truthful()
      modifies this`moves, this`log, store
      ensures At(Idle) && |moves| >= |old(moves)|
      ensures log == old(log) + if c.configured && MaySend(old(store.Rows()), delivery)
        then [Request(message, VerdictOf(c.answer), c.published)] else []
      ensures delivery in old(store.Rows()).deliveries && Consistent(old(store.Rows()))
      ensures store.Rows() == AfterReady(old(store.Rows()), delivery, c)
      ensures outcome == if !c.configured then Unsuccessful
        else if !MaySend(old(store.Rows()), delivery) then InDoubt
        else AnswerOutcome(HasAdvertising(old(store.Rows()), delivery), c)
    {
      hide Fine, Walk, Consistent;
      ghost var l := Local(store.Rows(), Counted(message.text, message.entities), log);
      FineHere(l, delivery);
      if !c.configured {
        Note(Counted(message.text, message.entities), Misconfigured, Failing);
        GiveUp(c.error);
        return Unsuccessful;
      }
      var mayGo := store.BeginSend(delivery);
      BeginKeepsPlacement(l.db, delivery);
      hide AdDelivery.BeginSend, MaySend;
      ghost var begun := Local(store.Rows(), if mayGo then Began(message.text, message.entities) else Idle, log);
      Extend(start, delivery, moves, l, Begin, begun);
      moves := moves + [Begin];
      if !mayGo {
        return InDoubt;
      }
      outcome := Ask(message, c);
    }

    /** Calls the bot and records its answer. */
    method Ask(message: Advert, c: Circumstances) returns (outcome: Outcome)
      requires At(Began(message.text, message.entities)) && Request("", VerdictOf(c.answer), c.published).Truthful()
      modifies this`moves, this`log, store
      ensures At(Idle) && |moves| > |old(moves)| && outcome == AnswerOutcome(delivery in old(store.placements), c)
      ensures Consistent(old(store.Rows())) && delivery in old(store.Rows()).deliveries
      ensures store.Rows() == AfterAnswer(old(store.Rows()), delivery, c)
      ensures log == old(log) + [Request(message, VerdictOf(c.answer), c.published)]
    {
      hide Fine, Walk, Consistent;
      ghost var l := Local(store.Rows(), Began(message.text, message.entities), log);
      FineHere(l, delivery);
      ghost var request := Request(message, VerdictOf(c.answer), c.published);
      Extend(start, delivery, moves, l, Send(c.answer, c.published),
             l.(pc := Answered(c.answer), log := log + [request]));
      moves, log := moves + [Send(c.answer, c.published)], log + [request];
      outcome := Record(c);
    }

    lemma BeginKeepsPlacement(db: Db, d: nat)
      ensures d in AdDelivery.BeginSend(db, d).placements <==> d in db.placements
    {
    }

    /**
     The whole task under the lock. It answers as expected, calls the bot at most once and only when it should, and what
     it leaves in the database is reached by a walk of the protocol from idle to idle without a crash.
     */
    method DeliverLocked(c: Circumstances) returns (outcome: Outcome)
      requires At(Idle) && delivery in store.deliveries && (c.message.Some? ==> c.message.value != "")
      requires Request("", VerdictOf(c.answer), c.published).Truthful()
      modifies this`moves, this`log, store
      ensures Consistent(old(store.Rows()))
      ensures outcome == Expected(old(store.Rows()), delivery, c)
      ensures store.Rows() == Leaves(old(store.Rows()), delivery, c)
      ensures Walk(start, delivery, moves) == Some(Local(store.Rows(), Idle, log))
      ensures |moves| > |old(moves)| && forall move <- moves :: Own(move)
      ensures Fine(Local(store.Rows(), Idle, log), delivery)
      ensures |log| == |old(log)| + (if CallsBot(old(store.Rows()), delivery, c) then 1 else 0) && old(log) <= log
    {
      hide Fine, Walk, StatusObstacle, OuterObstacle, Readied, MaySend;
      var status := CheckStatus();
      if status.Some? {
        return status.value;
      }
      var obstacle := CheckCircumstances(c);
      if obstacle.Some? {
        return obstacle.value;
      }
      var message := PrepareMessage(c);
      if message.None? {
        return Unsuccessful;
      }
      outcome := Transmit(message.value, c);
    }
  }
}
