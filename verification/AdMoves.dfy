/**
 One advertised delivery and its worker: every move is one transaction or one answer of the bot client, in the order
 of the delivery task, with a crash possible between any two; the operator and the requeue move the same rows. What
 holds of one delivery is shown kept by every move, from the effect of each transaction on the delivery's own rows.
 */
module AdMoves {
  import opened Text
  import opened MarkupResult
  import opened AdDelivery
  import opened Requests
  import opened Formatting

  /** What the bot client reports. Only the first three prove that nothing was published. */
  datatype Answer = RateLimited | ChatRefused | AuthRefused | Unavailable | BadResponse | Accepted(messageId: string) {
    predicate Refuses() { RateLimited? || ChatRefused? || AuthRefused? }
  }

  /** Where the worker of a delivery stands. */
  datatype Pc =
    | Idle
    | Loaded(status: DeliveryStatus)
    | Checked
    | Prepared(text: string, entities: seq<Entity>)
    | Counted(text: string, entities: seq<Entity>)
    | Began(text: string, entities: seq<Entity>)
    | Answered(answer: Answer)
    | Doubtful
    | Failing
    | Rescheduling
  {
    /** Past the check of the delivery's own status. */
    predicate Live() { !(Idle? || (Loaded? && status != Pending && status != Failed)) }
  }

  datatype Move =
    | Load | Crash | Check | Postpone | Doubt(error: string) | Refuse | Prepare(post: string, sourceUrl: string) | Count
      | Misconfigured
    | Begin | Send(answer: Answer, published: bool) | Handle(retry: bool, error: string)
    | Fail(error: string) | Reschedule(error: string, at: nat)
    | Resolve(wasSent: bool, note: string, messageId: string, positive: bool)
    | Claim | Restore(previous: Delivery)

  /** A delivery with its worker and its requests, in the database. */
  datatype Local = Local(db: Db, pc: Pc, log: seq<Request<Advert>>)

  // ---------------------------------------------------------------- steps

  function HasAdvertising(db: Db, d: nat): bool {
    d in db.placements
  }

  function VerdictOf(answer: Answer): Verdict {
    if answer.Refuses() then Refused else if answer.Accepted? then Confirmed else Unknown
  }

  /** A temporary error without advertising doubt: a retry is prepared, or the delivery fails. */
  function RetryOrFail(l: Local, d: nat, retry: bool): Local {
    if retry then l.(db := RetryReserved(l.db, d), pc := Rescheduling) else l.(pc := Failing)
  }

  function Handled(l: Local, d: nat, answer: Answer, retry: bool, error: string): Local
    requires d in l.db.deliveries && l.db.deliveries[d].target in l.db.targets
    requires d in l.db.placements ==> l.db.placements[d].campaign in l.db.campaigns
  {
    match answer
    case Accepted(id) => l.(db := MarkSent(l.db, d, id), pc := Idle)
    case ChatRefused => l.(db := MarkPermanentChatFailure(l.db, d, error), pc := Idle)
    case AuthRefused => l.(pc := Failing)
    case RateLimited => RetryOrFail(l, d, retry)
    case Unavailable => if HasAdvertising(l.db, d) then l.(pc := Doubtful) else RetryOrFail(l, d, retry)
    case BadResponse => if HasAdvertising(l.db, d) then l.(pc := Doubtful) else l.(pc := Failing)
  }

  /** Where the checks on the delivery itself leave the worker. */
  function AfterCheck(db: Db, d: nat, status: DeliveryStatus): Pc {
    if status == DeliveryStatus.Sent || status == DeliveryStatus.Uncertain then Idle
    else if Unconfirmed(db, d) then Doubtful
    else if status == Failed then Idle
    else Checked
  }

  /** The moves of a worker between two of its steps. */
  ghost function WorkerStep(l: Local, d: nat, move: Move): Option<Local>
    requires Consistent(l.db) && d in l.db.deliveries
  {
    match (l.pc, move)
    case (_, Crash) => Some(l.(pc := Idle))
    case (Idle, Load) => Some(l.(pc := Loaded(l.db.deliveries[d].status)))
    case (Loaded(status), Check) => Some(l.(pc := AfterCheck(l.db, d, status)))
    case (Doubtful, Doubt(error)) => Some(l.(db := MarkUncertain(l.db, d, error), pc := Idle))
    case (Checked, Postpone) => Some(l.(pc := Idle))
    case (Checked, Refuse) => Some(l.(pc := Failing))
    case (Checked, Prepare(post, url)) =>
      if post == "" then None
      else
        (match PrepareDelivery(l.db, d, post, url)
         case Err(_) => Some(l.(pc := Failing))
         case Ok(db) => Some(l.(db := db, pc := Prepared(db.deliveries[d].text, db.deliveries[d].entities))))
    case (Prepared(text, es), Count) => Some(l.(db := IncrementAttempts(l.db, d), pc := Counted(text, es)))
    case (Counted(_, _), Misconfigured) => Some(l.(pc := Failing))
    case (Counted(text, es), Begin) =>
      Some(l.(db := BeginSend(l.db, d), pc := if MaySend(l.db, d) then Began(text, es) else Idle))
    case (Began(text, es), Send(answer, published)) =>
      var request := Request(Advert(text, es), VerdictOf(answer), published);
      if request.Truthful() then Some(l.(pc := Answered(answer), log := l.log + [request])) else None
    case (Answered(answer), Handle(retry, error)) => Some(Handled(l, d, answer, retry, error))
    case (Failing, Fail(error)) => Some(l.(db := MarkFailed(l.db, d, error), pc := Idle))
    case (Rescheduling, Reschedule(error, at)) => Some(l.(db := ScheduleRetry(l.db, d, error, at), pc := Idle))
    case _ => None
  }

  /** The operator resolves truthfully, and failed deliveries are claimed and given back at any time. */
  ghost function DeskStep(l: Local, d: nat, move: Move): Option<Local>
    requires Consistent(l.db) && d in l.db.deliveries
  {
    match move
    case Resolve(wasSent, note, id, positive) =>
      if !HasAdvertising(l.db, d) || wasSent != (exists r <- l.log :: r.published) then None
      else
        (match ResolvePlacement(l.db, d, wasSent, note, id, positive)
         case Err(_) => None
         case Ok(db) => Some(l.(db := db, log := if wasSent then l.log else Cleared(l.log))))
    case Claim => Some(l.(db := ClaimFailed(l.db, d)))
    case Restore(previous) =>
      if previous.status == Failed then Some(l.(db := RestoreFailed(l.db, d, previous))) else None
    case _ => None
  }

  ghost function LocalStep(l: Local, d: nat, move: Move): Option<Local>
    requires Consistent(l.db) && d in l.db.deliveries
  {
    if move.Resolve? || move.Claim? || move.Restore? then DeskStep(l, d, move) else WorkerStep(l, d, move)
  }

  // ---------------------------------------------------------------- the invariant

  ghost predicate AdvertisedPc(status: PlacementStatus, pc: Pc, log: seq<Request<Advert>>) {
    match pc
    case Checked => status == Reserved || status == Released
    case Prepared(_, _) => status == Reserved
    case Counted(_, _) => status == Reserved
    case Began(_, _) => status == Sending && AllSettled(log)
    case Answered(answer) =>
      status == Sending && log != [] && log[|log| - 1].verdict == VerdictOf(answer)
    case Doubtful => status == Sending
    case Failing => AllSettled(log)
    case Rescheduling => status == Reserved
    case _ => true
  }

  ghost predicate Advertised(status: PlacementStatus, pc: Pc, log: seq<Request<Advert>>) {
    && SettledButLast(log)
    && (status == Reserved || status == Released ==> AllSettled(log))
    && (status == PlacementStatus.Sent ==> log != [] && log[|log| - 1].published)
    && AdvertisedPc(status, pc, log)
  }

  ghost predicate SameMessage(row: Delivery, pc: Pc, log: seq<Request<Advert>>) {
    && (forall r <- log :: r.Truthful() && r.content == Advert(row.text, row.entities) && row.text != "")
    && (pc.Prepared? || pc.Counted? || pc.Began? ==> pc.text == row.text != "" && pc.entities == row.entities)
  }

  /** The status of a delivery's placement, if it has one. */
  function StatusAt(db: Db, d: nat): Option<PlacementStatus> {
    if d in db.placements then Some(db.placements[d].status) else None
  }

  /** What holds of one delivery. */
  ghost predicate Good(row: Delivery, status: Option<PlacementStatus>, pc: Pc, log: seq<Request<Advert>>) {
    && SameMessage(row, pc, log)
    && (pc.Live() ==> row.status == Pending || row.status == Failed)
    && (if status.Some? then Advertised(status.value, pc, log) else pc != Doubtful)
  }

  /** One delivery's step writes only that delivery's rows. */
  ghost predicate Elsewhere(db: Db, db': Db, d: nat) {
    && d in db'.deliveries && db'.deliveries == db.deliveries[d := db'.deliveries[d]]
    && (db'.placements == db.placements
        || (d in db'.placements && db'.placements == db.placements[d := db'.placements[d]]))
  }

  ghost predicate Fine(l: Local, d: nat) {
    Sane(l.db) && d in l.db.deliveries && Good(l.db.deliveries[d], StatusAt(l.db, d), l.pc, l.log)
  }

  /** A step that keeps the delivery and the database in order and touches nothing else. */
  ghost predicate Keeps(l: Local, l': Local, d: nat) {
    Fine(l', d) && Elsewhere(l.db, l'.db, d)
  }

  /** A transaction's effect on the delivery's own rows. */
  ghost predicate Effect(db: Db, db': Db, d: nat, status: DeliveryStatus, placed: Option<PlacementStatus>) {
    && Elsewhere(db, db', d) && d in db.deliveries
    && db'.deliveries[d].status == status && db'.deliveries[d].text == db.deliveries[d].text
    && db'.deliveries[d].entities == db.deliveries[d].entities
    && StatusAt(db', d) == placed
  }

  lemma SaneRow(db: Db, d: nat)
    requires Sane(db) && d in db.deliveries
    ensures Consistent(db) && db.deliveries[d].target in db.targets
    ensures d in db.placements ==> db.placements[d].campaign in db.campaigns
    ensures var row, placed := db.deliveries[d], StatusAt(db, d);
      && (placed.Some? ==> row.text != "")
      && (placed == Some(PlacementStatus.Sent) ==> row.status == DeliveryStatus.Sent)
      && (placed.Some? && row.status == DeliveryStatus.Sent ==> placed == Some(PlacementStatus.Sent))
      && (placed == Some(PlacementStatus.Uncertain) ==> row.status == DeliveryStatus.Uncertain)
      && (row.status == DeliveryStatus.Uncertain ==> placed == Some(PlacementStatus.Uncertain))
    ensures Effect(db, db, d, db.deliveries[d].status, StatusAt(db, d))
    ensures Unconfirmed(db, d)
      <==> StatusAt(db, d) == Some(Sending) || StatusAt(db, d) == Some(PlacementStatus.Uncertain)
    ensures MaySend(db, d) <==> StatusAt(db, d) == None || StatusAt(db, d) == Some(Reserved)
  {
    SaneAt(db, d);
    assert db.deliveries == db.deliveries[d := db.deliveries[d]];
  }

  lemma FineIsConsistent(l: Local, d: nat)
    requires Fine(l, d)
    ensures Consistent(l.db) && d in l.db.deliveries
  {
    SaneIsConsistent(l.db);
  }

  function HeldOr(placed: Option<PlacementStatus>, status: PlacementStatus): Option<PlacementStatus> {
    if placed.Some? && placed.value.Held() then Some(status) else placed
  }

  lemma EffectRetry(db: Db, d: nat)
    requires d in db.deliveries
    ensures Effect(db, RetryReserved(db, d), d, db.deliveries[d].status,
                   if StatusAt(db, d) == Some(Sending) then Some(Reserved) else StatusAt(db, d))
  {
    var db' := RetryReserved(db, d);
    assert db'.deliveries == db.deliveries[d := db'.deliveries[d]];
  }

  lemma EffectMinor(db: Db, d: nat, error: string, at: nat)
    requires d in db.deliveries
    ensures Effect(db, ScheduleRetry(db, d, error, at), d, db.deliveries[d].status, StatusAt(db, d))
    ensures Effect(db, IncrementAttempts(db, d), d, db.deliveries[d].status, StatusAt(db, d))
  {
    var b, c := ScheduleRetry(db, d, error, at), IncrementAttempts(db, d);
    assert b.deliveries == db.deliveries[d := b.deliveries[d]];
    assert c.deliveries == db.deliveries[d := c.deliveries[d]];
  }

  lemma EffectUncertain(db: Db, d: nat, error: string)
    requires d in db.deliveries
    ensures var row, placed := db.deliveries[d], StatusAt(db, d);
      Effect(db, MarkUncertain(db, d, error), d,
             if row.status == DeliveryStatus.Sent then row.status else DeliveryStatus.Uncertain,
             HeldOr(placed, PlacementStatus.Uncertain))
  {
    var db' := MarkUncertain(db, d, error);
    assert db'.deliveries == db.deliveries[d := db'.deliveries[d]];
  }

  lemma EffectFailed(db: Db, d: nat, error: string)
    requires d in db.deliveries
    ensures var row, placed := db.deliveries[d], StatusAt(db, d);
      Effect(db, MarkFailed(db, d, error), d,
             if row.status == DeliveryStatus.Sent then row.status else Failed, HeldOr(placed, Released))
  {
    var db' := MarkFailed(db, d, error);
    assert db'.deliveries == db.deliveries[d := db'.deliveries[d]];
  }

  lemma EffectPermanent(db: Db, d: nat, error: string)
    requires d in db.deliveries && db.deliveries[d].target in db.targets
      && db.deliveries[d].status != DeliveryStatus.Sent
    ensures Effect(db, MarkPermanentChatFailure(db, d, error), d, Failed, HeldOr(StatusAt(db, d), Released))
  {
    EffectFailed(db, d, error);
  }

  lemma EffectSent(db: Db, d: nat, id: string)
    requires d in db.deliveries && (d in db.placements ==> db.placements[d].campaign in db.campaigns)
    ensures Effect(db, MarkSent(db, d, id), d, DeliveryStatus.Sent,
                   if StatusAt(db, d).Some? then Some(PlacementStatus.Sent) else None)
  {
    var db' := MarkSent(db, d, id);
    assert db'.deliveries == db.deliveries[d := db'.deliveries[d]];
  }

  lemma EffectBegin(db: Db, d: nat)
    requires d in db.deliveries && MaySend(db, d)
    ensures Effect(db, BeginSend(db, d), d, db.deliveries[d].status,
                   if StatusAt(db, d).Some? then Some(Sending) else None)
  {
    var db' := BeginSend(db, d);
    assert db'.deliveries == db.deliveries[d := db'.deliveries[d]];
  }

  lemma EffectRequeue(db: Db, d: nat, previous: Delivery)
    requires d in db.deliveries && previous.status == Failed
    ensures var status := db.deliveries[d].status;
      && Effect(db, ClaimFailed(db, d), d, if status == Failed then Pending else status, StatusAt(db, d))
      && (|| Effect(db, RestoreFailed(db, d, previous), d, status, StatusAt(db, d))
          || (status == Pending && Effect(db, RestoreFailed(db, d, previous), d, Failed, StatusAt(db, d))))
  {
    var a, b := ClaimFailed(db, d), RestoreFailed(db, d, previous);
    assert a.deliveries == db.deliveries[d := a.deliveries[d]];
    assert b.deliveries == db.deliveries[d := b.deliveries[d]];
  }

  /** With these effects known, a step is a matter of the delivery's status, its placement's, the worker and the log. */
  lemma KeepsByEffect(l: Local, l': Local, d: nat, status: DeliveryStatus, placed: Option<PlacementStatus>)
    requires Fine(l, d) && Sane(l'.db) && Effect(l.db, l'.db, d, status, placed)
    requires Good(l.db.deliveries[d].(status := status), placed, l'.pc, l'.log)
    ensures Keeps(l, l', d)
  {
    hide Sane, Advertised, StatusAt;
  }

  lemma KeepsIdle(l: Local, d: nat)
    requires Fine(l, d)
    ensures Keeps(l, l.(pc := Idle), d)
    ensures l.pc == Idle ==> Keeps(l, l.(pc := Loaded(l.db.deliveries[d].status)), d)
  {
    SaneRow(l.db, d);
    hide Sane;
  }

  lemma GoodChecked(row: Delivery, placed: Option<PlacementStatus>, status: DeliveryStatus, log: seq<Request<Advert>>,
                    pc: Pc)
    requires Good(row, placed, Loaded(status), log)
    requires pc == Idle || (pc == Doubtful && placed == Some(Sending) && (status == Pending || status == Failed))
      || (pc == Checked && placed != Some(Sending) && placed != Some(PlacementStatus.Uncertain) && status == Pending)
    requires placed == Some(PlacementStatus.Sent) ==> row.status == DeliveryStatus.Sent
    ensures Good(row, placed, pc, log)
  {
    hide AllSettled, SettledButLast;
  }

  lemma KeepsCheck(l: Local, d: nat)
    requires Fine(l, d) && l.pc.Loaded?
    ensures Keeps(l, l.(pc := AfterCheck(l.db, d, l.pc.status)), d)
  {
    SaneRow(l.db, d);
    hide Sane, Unconfirmed, StatusAt, Elsewhere, Good;
    GoodChecked(l.db.deliveries[d], StatusAt(l.db, d), l.pc.status, l.log, AfterCheck(l.db, d, l.pc.status));
  }

  lemma GoodBegan(row: Delivery, placed: Option<PlacementStatus>, pc: Pc, log: seq<Request<Advert>>)
    requires Good(row, placed, pc, log) && pc.Counted?
    ensures Good(row, if placed.Some? then Some(Sending) else None, Began(pc.text, pc.entities), log)
    ensures placed.Some? ==> placed == Some(Reserved)
  {
  }

  lemma GoodDoubted(row: Delivery, placed: Option<PlacementStatus>, log: seq<Request<Advert>>)
    requires Good(row, placed, Doubtful, log)
    ensures placed == Some(Sending) && row.status != DeliveryStatus.Sent
    ensures Good(row.(status := DeliveryStatus.Uncertain), Some(PlacementStatus.Uncertain), Idle, log)
  {
  }

  lemma KeepsDoubt(l: Local, d: nat, error: string)
    requires Fine(l, d) && l.pc == Doubtful
    ensures Keeps(l, l.(db := MarkUncertain(l.db, d, error), pc := Idle), d)
  {
    SaneRow(l.db, d);
    MarkUncertainSane(l.db, d, error);
    EffectUncertain(l.db, d, error);
    GoodDoubted(l.db.deliveries[d], StatusAt(l.db, d), l.log);
    hide Sane, Effect, MarkUncertain, StatusAt, Elsewhere, Good;
    KeepsByEffect(l, l.(db := MarkUncertain(l.db, d, error), pc := Idle), d, DeliveryStatus.Uncertain,
                  Some(PlacementStatus.Uncertain));
  }

  lemma KeepsPrepare(l: Local, d: nat, post: string, url: string)
    requires Fine(l, d) && l.pc == Checked && post != ""
    ensures Consistent(l.db)
    ensures match PrepareDelivery(l.db, d, post, url)
      case Err(_) => Keeps(l, l.(pc := Failing), d)
      case Ok(db) => Keeps(l, l.(db := db, pc := Prepared(db.deliveries[d].text, db.deliveries[d].entities)), d)
  {
    SaneRow(l.db, d);
    if PrepareDelivery(l.db, d, post, url).Err? {
      KeepsFailing(l, d);
    } else {
      PrepareSane(l.db, d, post, url);
      PrepareShape(l.db, d, post, url);
      hide Sane, PrepareDelivery, StatusAt, Elsewhere;
      var db := PrepareDelivery(l.db, d, post, url).value;
      GoodPrepared(l.db.deliveries[d], db.deliveries[d], StatusAt(l.db, d), StatusAt(db, d), l.log);
      hide Good;
    }
  }

  lemma GoodPrepared(row: Delivery, row': Delivery, placed: Option<PlacementStatus>, placed': Option<PlacementStatus>,
                     log: seq<Request<Advert>>)
    requires Good(row, placed, Checked, log) && row'.text != "" && row'.status == row.status
    requires row.text != "" ==> row' == row && placed' == if placed == Some(Released) then Some(Reserved) else placed
    requires row.text == "" ==> placed == None && (placed' == None || placed' == Some(Reserved))
    ensures Good(row', placed', Prepared(row'.text, row'.entities), log)
  {
    if row.text == "" { assert forall r <- log :: false; }
  }

  /** Preparing changes the text only if there was none, and an advertised delivery then holds a post. */
  lemma PrepareShape(db: Db, d: nat, post: string, url: string)
    requires Consistent(db) && d in db.deliveries && post != "" && PrepareDelivery(db, d, post, url).Ok?
    ensures var db', row, placed := PrepareDelivery(db, d, post, url).value, db.deliveries[d], StatusAt(db, d);
      && Elsewhere(db, db', d)
      && db'.deliveries[d].text != "" && db'.deliveries[d].status == row.status
      && (row.text != "" ==>
            db'.deliveries[d] == row && StatusAt(db', d) == if placed == Some(Released) then Some(Reserved) else placed)
      && (row.text == "" ==> StatusAt(db', d) == None || StatusAt(db', d) == Some(Reserved))
  {
    hide Appended, Utf16Length, Advertiser, Message;
    var db' := Reclaim(db, d).value;
    assert db'.deliveries == db.deliveries == db.deliveries[d := db.deliveries[d]];
    if db'.deliveries[d].text == "" {
      var c := Advertiser(db', d);
      if c.Some? {
        AdvertiserExists(db', d);
        MessageNotEmpty(post, db'.campaigns[c.value].copy);
      }
    }
  }

  lemma AdvertiserExists(db: Db, d: nat)
    requires Consistent(db) && d in db.deliveries && Advertiser(db, d).Some?
    ensures Advertiser(db, d).value in db.campaigns
  {
  }

  lemma KeepsCount(l: Local, d: nat)
    requires Fine(l, d) && l.pc.Prepared?
    ensures Keeps(l, l.(db := IncrementAttempts(l.db, d), pc := Counted(l.pc.text, l.pc.entities)), d)
  {
    MinorSane(l.db, d, "", 0);
    EffectMinor(l.db, d, "", 0);
    hide Sane, Effect, IncrementAttempts, StatusAt, Elsewhere, AllSettled, SettledButLast;
    KeepsByEffect(l, l.(db := IncrementAttempts(l.db, d), pc := Counted(l.pc.text, l.pc.entities)), d,
                  l.db.deliveries[d].status, StatusAt(l.db, d));
  }

  lemma KeepsBegin(l: Local, d: nat)
    requires Fine(l, d) && l.pc.Counted?
    ensures MaySend(l.db, d)
    ensures Keeps(l, l.(db := BeginSend(l.db, d), pc := Began(l.pc.text, l.pc.entities)), d)
  {
    SaneRow(l.db, d);
    BeginSendSane(l.db, d);
    hide MaySend;
    assert MaySend(l.db, d);
    EffectBegin(l.db, d);
    GoodBegan(l.db.deliveries[d], StatusAt(l.db, d), l.pc, l.log);
    hide Sane, Effect, BeginSend, StatusAt, Elsewhere, Good;
    KeepsByEffect(l, l.(db := BeginSend(l.db, d), pc := Began(l.pc.text, l.pc.entities)), d, l.db.deliveries[d].status,
                  if StatusAt(l.db, d).Some? then Some(Sending) else None);
  }

  lemma KeepsSend(l: Local, d: nat, answer: Answer, published: bool)
    requires Fine(l, d) && l.pc.Began?
    requires Request(Advert(l.pc.text, l.pc.entities), VerdictOf(answer), published).Truthful()
    ensures Keeps(l, l.(pc := Answered(answer),
                        log := l.log + [Request(Advert(l.pc.text, l.pc.entities), VerdictOf(answer), published)]), d)
  {
    SaneRow(l.db, d);
    hide Sane, StatusAt, Elsewhere;
    var log := l.log + [Request(Advert(l.pc.text, l.pc.entities), VerdictOf(answer), published)];
    forall k | 0 <= k < |log| - 1 ensures log[k] in l.log { assert log[k] == l.log[k]; }
  }

  lemma KeepsHandle(l: Local, d: nat, retry: bool, error: string)
    requires Fine(l, d) && l.pc.Answered?
    ensures Consistent(l.db) && l.db.deliveries[d].target in l.db.targets
    ensures Keeps(l, Handled(l, d, l.pc.answer, retry, error), d)
  {
    SaneRow(l.db, d);
    hide Fine, Keeps, MarkSent, MarkPermanentChatFailure;
    match l.pc.answer
    case Accepted(id) => KeepsSent(l, d, id);
    case ChatRefused => KeepsPermanent(l, d, error);
    case AuthRefused => KeepsFailing(l, d);
    case RateLimited => KeepsRetry(l, d, retry);
    case Unavailable =>
      if HasAdvertising(l.db, d) { KeepsDoubtful(l, d); } else { KeepsRetry(l, d, retry); }
    case BadResponse =>
      if HasAdvertising(l.db, d) { KeepsDoubtful(l, d); } else { KeepsFailing(l, d); }
  }

  lemma KeepsDoubtful(l: Local, d: nat)
    requires Fine(l, d) && l.pc.Answered? && HasAdvertising(l.db, d)
    ensures Keeps(l, l.(pc := Doubtful), d)
  {
    SaneRow(l.db, d);
    hide Sane, Elsewhere, AllSettled, SettledButLast;
  }

  lemma KeepsFailing(l: Local, d: nat)
    requires Fine(l, d) && (l.pc == Checked || l.pc.Counted? || l.pc.Answered?)
    requires l.pc.Answered? ==> l.pc.answer.Refuses() || !HasAdvertising(l.db, d)
    ensures Keeps(l, l.(pc := Failing), d)
  {
    SaneRow(l.db, d);
    hide Sane, Elsewhere, AllSettled, SettledButLast;
    if l.pc.Answered? && HasAdvertising(l.db, d) { LastSettles(l.log); }
  }

  lemma GoodRetry(row: Delivery, placed: Option<PlacementStatus>, answer: Answer, log: seq<Request<Advert>>)
    requires Good(row, placed, Answered(answer), log) && (answer.Refuses() || placed.None?)
    ensures placed.Some? ==> placed == Some(Sending)
    ensures Good(row, if placed.Some? then Some(Reserved) else None, Rescheduling, log)
  {
    if placed.Some? { LastSettles(log); }
  }

  lemma GoodRefused(row: Delivery, placed: Option<PlacementStatus>, answer: Answer, log: seq<Request<Advert>>)
    requires Good(row, placed, Answered(answer), log) && answer.Refuses()
    ensures row.status == Pending || row.status == Failed
    ensures Good(row.(status := Failed), HeldOr(placed, Released), Idle, log)
  {
    if placed.Some? { LastSettles(log); }
  }

  lemma GoodConfirmed(row: Delivery, pc: Pc, log: seq<Request<Advert>>)
    requires Good(row, Some(PlacementStatus.Uncertain), pc, log) && row.status == DeliveryStatus.Uncertain
    requires exists r <- log :: r.published
    ensures Good(row.(status := DeliveryStatus.Sent), Some(PlacementStatus.Sent), pc, log)
  {
    PublishedIsLast(log);
  }

  lemma GoodCleared(row: Delivery, pc: Pc, log: seq<Request<Advert>>)
    requires Good(row, Some(PlacementStatus.Uncertain), pc, log) && row.status == DeliveryStatus.Uncertain
    requires !exists r <- log :: r.published
    ensures Good(row.(status := Failed), Some(Released), pc, Cleared(log))
  {
    ClearedSettled(log);
    forall k | 0 <= k < |log| ensures log[k] in log && Cleared(log)[k].content == Advert(row.text, row.entities) {
    }
  }

  lemma KeepsRetry(l: Local, d: nat, retry: bool)
    requires Fine(l, d) && l.pc.Answered? && (l.pc.answer.Refuses() || !HasAdvertising(l.db, d))
    ensures Keeps(l, RetryOrFail(l, d, retry), d)
  {
    if retry {
      var placed := StatusAt(l.db, d);
      assert HasAdvertising(l.db, d) <==> placed.Some?;
      RetryReservedSane(l.db, d);
      EffectRetry(l.db, d);
      hide Sane, RetryReserved, Elsewhere, StatusAt, HasAdvertising, Effect;
      GoodRetry(l.db.deliveries[d], placed, l.pc.answer, l.log);
      hide Good;
      KeepsByEffect(l, RetryOrFail(l, d, retry), d, l.db.deliveries[d].status,
                    if placed.Some? then Some(Reserved) else None);
    } else {
      KeepsFailing(l, d);
    }
  }

  lemma GoodAccepted(row: Delivery, placed: Option<PlacementStatus>, id: string, log: seq<Request<Advert>>)
    requires Good(row, placed, Answered(Accepted(id)), log)
    ensures placed.Some? ==> placed == Some(Sending)
    ensures Good(row.(status := DeliveryStatus.Sent), if placed.Some? then Some(PlacementStatus.Sent) else None, Idle,
                 log)
  {
    if placed.Some? { assert log[|log| - 1] in log; }
  }

  lemma KeepsSent(l: Local, d: nat, id: string)
    requires Fine(l, d) && l.pc == Answered(Accepted(id))
    ensures d in l.db.placements ==> l.db.placements[d].campaign in l.db.campaigns
    ensures Keeps(l, l.(db := MarkSent(l.db, d, id), pc := Idle), d)
  {
    SaneRow(l.db, d);
    MarkSentSane(l.db, d, id);
    EffectSent(l.db, d, id);
    GoodAccepted(l.db.deliveries[d], StatusAt(l.db, d), id, l.log);
    hide Sane, Effect, MarkSent, StatusAt, Elsewhere, Good;
    KeepsByEffect(l, l.(db := MarkSent(l.db, d, id), pc := Idle), d, DeliveryStatus.Sent,
                  if StatusAt(l.db, d).Some? then Some(PlacementStatus.Sent) else None);
  }

  lemma KeepsPermanent(l: Local, d: nat, error: string)
    requires Fine(l, d) && l.pc == Answered(ChatRefused) && l.db.deliveries[d].target in l.db.targets
    ensures Keeps(l, l.(db := MarkPermanentChatFailure(l.db, d, error), pc := Idle), d)
  {
    SaneRow(l.db, d);
    GoodRefused(l.db.deliveries[d], StatusAt(l.db, d), ChatRefused, l.log);
    PermanentSane(l.db, d, error);
    EffectPermanent(l.db, d, error);
    hide Sane, Effect, MarkPermanentChatFailure, StatusAt, Elsewhere, Good;
    KeepsByEffect(l, l.(db := MarkPermanentChatFailure(l.db, d, error), pc := Idle), d, Failed,
                  HeldOr(StatusAt(l.db, d), Released));
  }

  lemma KeepsFail(l: Local, d: nat, error: string)
    requires Fine(l, d) && l.pc == Failing
    ensures Keeps(l, l.(db := MarkFailed(l.db, d, error), pc := Idle), d)
  {
    SaneRow(l.db, d);
    MarkFailedSane(l.db, d, error);
    EffectFailed(l.db, d, error);
    hide Sane, Effect, MarkFailed, StatusAt, Elsewhere, AllSettled, SettledButLast;
    KeepsByEffect(l, l.(db := MarkFailed(l.db, d, error), pc := Idle), d, Failed, HeldOr(StatusAt(l.db, d), Released));
  }

  lemma KeepsReschedule(l: Local, d: nat, error: string, at: nat)
    requires Fine(l, d) && l.pc == Rescheduling
    ensures Keeps(l, l.(db := ScheduleRetry(l.db, d, error, at), pc := Idle), d)
  {
    MinorSane(l.db, d, error, at);
    EffectMinor(l.db, d, error, at);
    hide Sane, Effect, ScheduleRetry, StatusAt, Elsewhere, AllSettled, SettledButLast;
    KeepsByEffect(l, l.(db := ScheduleRetry(l.db, d, error, at), pc := Idle), d, l.db.deliveries[d].status,
                  StatusAt(l.db, d));
  }

  lemma KeepsRequeue(l: Local, d: nat, previous: Delivery)
    requires Fine(l, d) && previous.status == Failed
    ensures Keeps(l, l.(db := ClaimFailed(l.db, d)), d)
    ensures Keeps(l, l.(db := RestoreFailed(l.db, d, previous)), d)
  {
    RequeueSane(l.db, d, previous);
    EffectRequeue(l.db, d, previous);
    hide Sane, ClaimFailed, RestoreFailed, Elsewhere, AllSettled, SettledButLast;
    var status, placed := l.db.deliveries[d].status, StatusAt(l.db, d);
    KeepsByEffect(l, l.(db := ClaimFailed(l.db, d)), d, if status == Failed then Pending else status, placed);
    var restored := l.(db := RestoreFailed(l.db, d, previous));
    if Effect(l.db, restored.db, d, status, placed) {
      KeepsByEffect(l, restored, d, status, placed);
    } else {
      KeepsByEffect(l, restored, d, Failed, placed);
    }
  }

  lemma KeepsConfirmed(l: Local, d: nat, id: string)
    requires Fine(l, d) && StatusAt(l.db, d) == Some(PlacementStatus.Uncertain) && exists r <- l.log :: r.published
    ensures l.db.placements[d].campaign in l.db.campaigns
    ensures Keeps(l, l.(db := MarkSent(l.db, d, id)), d)
  {
    SaneRow(l.db, d);
    MarkSentSane(l.db, d, id);
    EffectSent(l.db, d, id);
    GoodConfirmed(l.db.deliveries[d], l.pc, l.log);
    hide Sane, Effect, MarkSent, StatusAt, Elsewhere, Good;
    KeepsByEffect(l, l.(db := MarkSent(l.db, d, id)), d, DeliveryStatus.Sent, Some(PlacementStatus.Sent));
  }

  lemma KeepsCleared(l: Local, d: nat, error: string)
    requires Fine(l, d) && StatusAt(l.db, d) == Some(PlacementStatus.Uncertain) && !exists r <- l.log :: r.published
    ensures Keeps(l, l.(db := MarkFailed(l.db, d, error), log := Cleared(l.log)), d)
  {
    SaneRow(l.db, d);
    MarkFailedSane(l.db, d, error);
    EffectFailed(l.db, d, error);
    GoodCleared(l.db.deliveries[d], l.pc, l.log);
    hide Sane, Effect, MarkFailed, StatusAt, Elsewhere, Cleared, Good;
    KeepsByEffect(l, l.(db := MarkFailed(l.db, d, error), log := Cleared(l.log)), d, Failed, Some(Released));
  }

  lemma KeepsDesk(l: Local, d: nat, move: Move)
    requires Fine(l, d) && (move.Resolve? || move.Claim? || move.Restore?)
    ensures Consistent(l.db)
    ensures DeskStep(l, d, move).Some? ==> Keeps(l, DeskStep(l, d, move).value, d)
  {
    SaneRow(l.db, d);
    hide Fine, Keeps, Blank, MarkSent, MarkFailed, Cleared, ClaimFailed, RestoreFailed;
    if DeskStep(l, d, move).Some? {
      match move {
        case Resolve(wasSent, _, id, _) =>
          if wasSent {
            KeepsConfirmed(l, d, id);
          } else {
            KeepsCleared(l, d, "Проверено владельцем: пост отсутствует в канале.");
          }
        case Claim => KeepsRequeue(l, d, l.db.deliveries[d].(status := Failed));
        case Restore(previous) => KeepsRequeue(l, d, previous);
      }
    }
  }

  lemma KeepsEarly(l: Local, d: nat, move: Move)
    requires Fine(l, d) && !(move.Count? || move.Misconfigured? || move.Begin? || move.Send? || move.Handle?
                             || move.Fail? || move.Reschedule?)
    ensures Consistent(l.db)
    ensures WorkerStep(l, d, move).Some? ==> Keeps(l, WorkerStep(l, d, move).value, d)
  {
    FineIsConsistent(l, d);
    hide Fine, Keeps, Consistent;
    hide MarkUncertain, PrepareDelivery, Unconfirmed;
    if WorkerStep(l, d, move).Some? {
      match move {
        case Crash => KeepsIdle(l, d);
        case Load => KeepsIdle(l, d);
        case Check => KeepsCheck(l, d);
        case Doubt(error) => KeepsDoubt(l, d, error);
        case Postpone => KeepsIdle(l, d);
        case Refuse => KeepsFailing(l, d);
        case Prepare(post, url) => KeepsPrepare(l, d, post, url);
        case _ =>
      }
    }
  }

  lemma KeepsLate(l: Local, d: nat, move: Move)
    requires Fine(l, d) && (move.Count? || move.Misconfigured? || move.Begin? || move.Send? || move.Handle?
                            || move.Fail? || move.Reschedule?)
    ensures Consistent(l.db)
    ensures WorkerStep(l, d, move).Some? ==> Keeps(l, WorkerStep(l, d, move).value, d)
  {
    FineIsConsistent(l, d);
    hide Fine, Keeps, Consistent;
    hide IncrementAttempts, BeginSend, MaySend, Handled, MarkFailed, ScheduleRetry;
    if WorkerStep(l, d, move).Some? {
      match move {
        case Count => KeepsCount(l, d);
        case Misconfigured => KeepsFailing(l, d);
        case Begin => KeepsBegin(l, d);
        case Send(answer, published) => KeepsSend(l, d, answer, published);
        case Handle(retry, error) => KeepsHandle(l, d, retry, error);
        case Fail(error) => KeepsFail(l, d, error);
        case Reschedule(error, at) => KeepsReschedule(l, d, error, at);
      }
    }
  }

  lemma KeepsWorker(l: Local, d: nat, move: Move)
    requires Fine(l, d)
    ensures Consistent(l.db)
    ensures WorkerStep(l, d, move).Some? ==> Keeps(l, WorkerStep(l, d, move).value, d)
  {
    hide Fine, Keeps, Consistent, WorkerStep;
    if move.Count? || move.Misconfigured? || move.Begin? || move.Send? || move.Handle? || move.Fail?
      || move.Reschedule? {
      KeepsLate(l, d, move);
    } else {
      KeepsEarly(l, d, move);
    }
  }

  lemma KeepsLocal(l: Local, d: nat, move: Move)
    requires Fine(l, d)
    ensures Consistent(l.db)
    ensures LocalStep(l, d, move).Some? ==> Keeps(l, LocalStep(l, d, move).value, d)
  {
    hide Fine, Keeps, Consistent, WorkerStep, DeskStep;
    if move.Resolve? || move.Claim? || move.Restore? { KeepsDesk(l, d, move); } else { KeepsWorker(l, d, move); }
  }

  // ---------------------------------------------------------------- what never changes again

  lemma SentStays(l: Local, d: nat, move: Move)
    requires Fine(l, d) && Consistent(l.db) && l.db.deliveries[d].status == DeliveryStatus.Sent
      && LocalStep(l, d, move).Some?
    ensures var l' := LocalStep(l, d, move).value;
      d in l'.db.deliveries && l'.db.deliveries[d] == l.db.deliveries[d] && StatusAt(l'.db, d) == StatusAt(l.db, d)
        && l'.log == l.log
  {
    SaneRow(l.db, d);
    hide Sane, Consistent;
    assert !l.pc.Live();
  }

  ghost predicate SameText(db: Db, db': Db, d: nat) {
    && d in db.deliveries && d in db'.deliveries
    && db'.deliveries[d].text == db.deliveries[d].text && db'.deliveries[d].entities == db.deliveries[d].entities
  }

  lemma TransactionsKeepText(db: Db, d: nat, error: string, at: nat)
    requires d in db.deliveries
    ensures SameText(db, MarkUncertain(db, d, error), d) && SameText(db, MarkFailed(db, d, error), d)
    ensures SameText(db, IncrementAttempts(db, d), d) && SameText(db, BeginSend(db, d), d)
    ensures SameText(db, RetryReserved(db, d), d) && SameText(db, ScheduleRetry(db, d, error, at), d)
  {
  }

  lemma OutcomesKeepText(db: Db, d: nat, error: string, id: string, previous: Delivery)
    requires Consistent(db) && d in db.deliveries
    ensures SameText(db, MarkSent(db, d, id), d) && SameText(db, MarkPermanentChatFailure(db, d, error), d)
    ensures SameText(db, ClaimFailed(db, d), d) && SameText(db, RestoreFailed(db, d, previous), d)
  {
  }

  lemma TextStays(l: Local, d: nat, move: Move)
    requires Consistent(l.db) && d in l.db.deliveries && LocalStep(l, d, move).Some?
    requires l.db.deliveries[d].text != "" || !move.Prepare?
    ensures SameText(l.db, LocalStep(l, d, move).value.db, d)
  {
    hide Consistent, WorkerStep, DeskStep, SameText;
    if move.Resolve? || move.Claim? || move.Restore? {
      TextStaysAtDesk(l, d, move);
    } else {
      TextStaysAtWork(l, d, move);
    }
  }

  lemma TextStaysAtDesk(l: Local, d: nat, move: Move)
    requires Consistent(l.db) && d in l.db.deliveries && DeskStep(l, d, move).Some?
    ensures SameText(l.db, DeskStep(l, d, move).value.db, d)
  {
    hide Blank, SameText, MarkFailed, MarkSent, ClaimFailed, RestoreFailed;
    match move {
      case Resolve(_, _, id, _) =>
        OutcomesKeepText(l.db, d, "", id, l.db.deliveries[d]);
        TransactionsKeepText(l.db, d, "Проверено владельцем: пост отсутствует в канале.", 0);
      case Claim => OutcomesKeepText(l.db, d, "", "", l.db.deliveries[d]);
      case Restore(previous) => OutcomesKeepText(l.db, d, "", "", previous);
    }
  }

  lemma TextStaysAtWork(l: Local, d: nat, move: Move)
    requires Consistent(l.db) && d in l.db.deliveries && WorkerStep(l, d, move).Some?
    requires l.db.deliveries[d].text != "" || !move.Prepare?
    ensures SameText(l.db, WorkerStep(l, d, move).value.db, d)
  {
    hide Consistent, PrepareDelivery, SameText, Handled, MaySend, Unconfirmed;
    hide MarkUncertain, MarkFailed, IncrementAttempts, BeginSend, ScheduleRetry;
    SameTextSame(l.db, d);
    if move.Doubt? || move.Fail? {
      TransactionsKeepText(l.db, d, move.error, 0);
    } else if move.Count? || move.Begin? {
      TransactionsKeepText(l.db, d, "", 0);
    } else if move.Reschedule? {
      TransactionsKeepText(l.db, d, move.error, move.at);
    } else if move.Handle? && l.pc.Answered? {
      HandledKeepsText(l, d, l.pc.answer, move.retry, move.error);
    } else if move.Prepare? && l.pc == Checked {
      if PrepareDelivery(l.db, d, move.post, move.sourceUrl).Ok? {
        PreparedKeepsText(l.db, d, move.post, move.sourceUrl);
      }
    }
  }

  lemma SameTextSame(db: Db, d: nat)
    requires d in db.deliveries
    ensures SameText(db, db, d)
  {
  }

  lemma PreparedKeepsText(db: Db, d: nat, post: string, url: string)
    requires Consistent(db) && d in db.deliveries && db.deliveries[d].text != "" && post != ""
      && PrepareDelivery(db, d, post, url).Ok?
    ensures SameText(db, PrepareDelivery(db, d, post, url).value, d)
  {
    PrepareShape(db, d, post, url);
  }

  lemma HandledKeepsText(l: Local, d: nat, answer: Answer, retry: bool, error: string)
    requires Consistent(l.db) && d in l.db.deliveries
    ensures SameText(l.db, Handled(l, d, answer, retry, error).db, d)
  {
    TransactionsKeepText(l.db, d, error, 0);
    OutcomesKeepText(l.db, d, error, if answer.Accepted? then answer.messageId else "", l.db.deliveries[d]);
    hide MarkSent, MarkPermanentChatFailure, RetryReserved;
  }
}
