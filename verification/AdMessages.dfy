/** What the advertising delivery protocol sends: every message ever requested is legible to Telegram. */
module AdMessages {
  import opened Text
  import opened MarkupResult
  import opened AdDelivery
  import opened AdMoves
  import opened AdProtocol
  import opened Formatting

  /** Entities on the characters of their text, nested or disjoint. */
  ghost predicate Legible(text: string, es: seq<Entity>) {
    Laminar(es) && forall e <- es :: Placed(text, e)
  }

  /** Every saved copy is sound, every frozen message legible, and one with advertising within the limit. */
  ghost predicate AllLegible(db: Db) {
    && (forall c <- db.campaigns :: Sound(db.campaigns[c].copy))
    && (forall d <- db.deliveries :: Legible(db.deliveries[d].text, db.deliveries[d].entities))
    && (forall d <- db.placements :: d in db.deliveries && Utf16Length(db.deliveries[d].text) <= 4096)
  }

  // ---------------------------------------------------------------- what a move leaves alone

  /** The same copies, and placements of the same deliveries. */
  ghost predicate Steady(db: Db, db': Db) {
    && db'.campaigns.Keys == db.campaigns.Keys
    && (forall c <- db.campaigns :: db'.campaigns[c].copy == db.campaigns[c].copy)
    && db'.placements.Keys == db.placements.Keys
  }

  lemma TransactionsSteady(db: Db, d: nat, error: string, at: nat)
    requires d in db.deliveries
    ensures Steady(db, db) && Steady(db, MarkUncertain(db, d, error)) && Steady(db, MarkFailed(db, d, error))
    ensures Steady(db, IncrementAttempts(db, d)) && Steady(db, BeginSend(db, d))
    ensures Steady(db, RetryReserved(db, d)) && Steady(db, ScheduleRetry(db, d, error, at))
  {
  }

  lemma OutcomesSteady(db: Db, d: nat, error: string, id: string, previous: Delivery)
    requires Consistent(db) && d in db.deliveries
    ensures Steady(db, MarkSent(db, d, id)) && Steady(db, MarkPermanentChatFailure(db, d, error))
    ensures Steady(db, ClaimFailed(db, d)) && Steady(db, RestoreFailed(db, d, previous))
  {
    SentSteady(db, d, id);
    ChatFailureSteady(db, d, error);
    RequeueSteady(db, d, previous);
    hide *;
  }

  lemma SentSteady(db: Db, d: nat, id: string)
    requires Consistent(db) && d in db.deliveries
    ensures Steady(db, MarkSent(db, d, id))
  {
    hide Published;
  }

  lemma ChatFailureSteady(db: Db, d: nat, error: string)
    requires d in db.deliveries && db.deliveries[d].target in db.targets
    ensures Steady(db, MarkPermanentChatFailure(db, d, error))
  {
  }

  lemma RequeueSteady(db: Db, d: nat, previous: Delivery)
    ensures Steady(db, ClaimFailed(db, d)) && Steady(db, RestoreFailed(db, d, previous))
  {
  }

  lemma HandledSteady(l: Local, d: nat, answer: Answer, retry: bool, error: string)
    requires Consistent(l.db) && d in l.db.deliveries
    ensures Steady(l.db, Handled(l, d, answer, retry, error).db)
  {
    TransactionsSteady(l.db, d, error, 0);
    OutcomesSteady(l.db, d, error, if answer.Accepted? then answer.messageId else "", l.db.deliveries[d]);
    hide Steady, MarkSent, MarkPermanentChatFailure, RetryReserved;
  }

  lemma DeskSteady(l: Local, d: nat, move: Move)
    requires Consistent(l.db) && d in l.db.deliveries && DeskStep(l, d, move).Some?
    ensures Steady(l.db, DeskStep(l, d, move).value.db)
  {
    hide Blank, Steady, MarkFailed, MarkSent, ClaimFailed, RestoreFailed;
    match move {
      case Resolve(_, _, id, _) =>
        OutcomesSteady(l.db, d, "", id, l.db.deliveries[d]);
        TransactionsSteady(l.db, d, "Проверено владельцем: пост отсутствует в канале.", 0);
      case Claim => OutcomesSteady(l.db, d, "", "", l.db.deliveries[d]);
      case Restore(previous) => OutcomesSteady(l.db, d, "", "", previous);
    }
  }

  lemma WorkSteady(l: Local, d: nat, move: Move)
    requires Consistent(l.db) && d in l.db.deliveries && WorkerStep(l, d, move).Some? && !move.Prepare?
    ensures Steady(l.db, WorkerStep(l, d, move).value.db)
  {
    hide Consistent, PrepareDelivery, Steady, Handled, MaySend, Unconfirmed;
    hide MarkUncertain, MarkFailed, IncrementAttempts, BeginSend, ScheduleRetry;
    TransactionsSteady(l.db, d, if move.Doubt? || move.Fail? || move.Reschedule? then move.error else "",
                       if move.Reschedule? then move.at else 0);
    if move.Handle? && l.pc.Answered? { HandledSteady(l, d, l.pc.answer, move.retry, move.error); }
  }

  // ---------------------------------------------------------------- what a move writes

  /** A step that leaves copies and texts alone keeps everything legible. */
  lemma SteadyLegible(db: Db, db': Db, d: nat)
    requires AllLegible(db) && Steady(db, db') && SameText(db, db', d) && Elsewhere(db, db', d)
    ensures AllLegible(db')
  {
    hide Legible, Sound, Utf16Length;
  }

  /** What preparation freezes is legible, and within the limit if it carries advertising. */
  lemma PreparedLegible(db: Db, d: nat, post: string, url: string)
    requires Consistent(db) && AllLegible(db) && d in db.deliveries && PrepareDelivery(db, d, post, url).Ok?
    ensures AllLegible(PrepareDelivery(db, d, post, url).value)
  {
    hide Legible, Sound, Utf16Length, Appended, Message, Advertiser;
    var db' := Reclaim(db, d).value;
    assert db'.deliveries == db.deliveries && db'.campaigns == db.campaigns
      && db'.placements.Keys == db.placements.Keys;
    if db'.deliveries[d].text == "" {
      assert d !in db.placements;
      NoEntities(post);
      var c := Advertiser(db', d);
      if c.Some? {
        AdvertiserExists(db', d);
        AdvertLegible(post, db.campaigns[c.value].copy, url);
      }
    }
  }

  lemma NoEntities(text: string)
    ensures Legible(text, [])
  {
  }

  lemma AdvertLegible(post: string, copy: Copy, url: string)
    requires Sound(copy)
    ensures Legible(Message(post, copy), Appended(post, copy, url))
  {
    AdvertisingWellNested(post, copy, url);
    hide Laminar, Placed, Message, Appended;
  }

  lemma ActLegible(l: Local, d: nat, move: Move)
    requires Fine(l, d) && Consistent(l.db) && AllLegible(l.db) && LocalStep(l, d, move).Some?
    ensures AllLegible(LocalStep(l, d, move).value.db)
  {
    FineIsConsistent(l, d);
    hide Fine, Consistent, AllLegible, PrepareDelivery, DeskStep;
    if move.Prepare? {
      if l.pc == Checked && PrepareDelivery(l.db, d, move.post, move.sourceUrl).Ok? {
        PreparedLegible(l.db, d, move.post, move.sourceUrl);
      }
    } else {
      KeepsLocal(l, d, move);
      TextStays(l, d, move);
      if move.Resolve? || move.Claim? || move.Restore? { DeskSteady(l, d, move); } else { WorkSteady(l, d, move); }
      hide WorkerStep;
      SteadyLegible(l.db, LocalStep(l, d, move).value.db, d);
    }
  }

  // ---------------------------------------------------------------- runs

  lemma SavedLegible(db: Db, c: nat, row: Campaign, rules: CopyRules)
    requires AllLegible(db) && AdDelivery.SaveCampaign(db, c, row, Publishable(rules, row.copy)).Ok?
    ensures AllLegible(AdDelivery.SaveCampaign(db, c, row, Publishable(rules, row.copy)).value)
  {
    ApprovedIsSound(rules, row.copy);
    hide Legible, Sound, Utf16Length, Cleaned;
  }

  lemma QueuedLegible(db: Db, d: nat, t: nat)
    requires Consistent(db) && AllLegible(db)
    ensures AllLegible(QueueDelivery(db, d, t))
  {
    NoEntities("");
    hide Legible, Sound, Utf16Length;
  }

  lemma StepLegible(sys: Sys, action: Action)
    requires Invariant(sys) && AllLegible(sys.db) && Step(sys, action).Some?
    ensures AllLegible(Step(sys, action).value.db)
  {
    hide Invariant, LocalStep, AdDelivery.SaveCampaign, Consistent, Publishable, Fine, QueueDelivery;
    match action
    case Act(d, move) =>
      FineAt(sys, d);
      ActLegible(Local(sys.db, sys.Worker(d), sys.Log(d)), d, move);
      hide AllLegible;
    case SaveCampaign(c, row, rules) => SavedLegible(sys.db, c, row, rules);
    case SaveTarget(_, _) =>
    case Queue(d, t) => QueuedLegible(sys.db, d, t);
  }

  lemma {:induction false} RunLegible(sys: Sys, actions: seq<Action>)
    requires Invariant(sys) && AllLegible(sys.db) && Run(sys, actions).Some?
    ensures AllLegible(Run(sys, actions).value.db)
    decreases |actions|
  {
    hide Invariant, Step, AllLegible;
    if actions != [] {
      StepKeeps(sys, actions[0]);
      StepLegible(sys, actions[0]);
      RunLegible(Step(sys, actions[0]).value, actions[1..]);
    }
  }

  lemma LegibleAt(db: Db, d: nat)
    requires AllLegible(db) && d in db.deliveries
    ensures Legible(db.deliveries[d].text, db.deliveries[d].entities)
    ensures d in db.placements ==> Utf16Length(db.deliveries[d].text) <= 4096
  {
  }

  /**
   In every run each request carried entities that lie on the characters of its text and are nested or disjoint, and one
   with advertising was within the limit.
   */
  lemma RequestsAreLegible(sys: Sys, d: nat, i: nat)
    requires Reachable(sys) && d in sys.db.deliveries && i < |sys.Log(d)|
    ensures var message := sys.Log(d)[i].content;
      && Laminar(message.entities) && (forall e <- message.entities :: Placed(message.text, e))
      && (d in sys.db.placements ==> Utf16Length(message.text) <= 4096)
  {
    RequestsCarryFrozenMessage(sys, d, i, i);
    ReachableLegible(sys);
    LegibleAt(sys.db, d);
    hide Reachable, AllLegible, Laminar, Placed;
  }

  lemma ReachableLegible(sys: Sys)
    requires Reachable(sys)
    ensures AllLegible(sys.db)
  {
    var actions :| Run(START, actions) == Some(sys);
    RunLegible(START, actions);
  }
}
