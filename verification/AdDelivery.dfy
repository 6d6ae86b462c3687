/**
 Advertising deliveries: the rows of the database and each of its transactions as a function on the rows, with what
 every transaction keeps: references resolve, no campaign takes more posts than it has, an enabled one has posts left,
 one campaign per target is active, and a placement is sent or uncertain exactly when its delivery is.
 */
module AdDelivery {
  import opened Text
  import opened MarkupResult
  import Formatting

  datatype DeliveryStatus = Pending | Sent | Failed | Uncertain

  datatype PlacementStatus = Reserved | Sending | Uncertain | Sent | Released {
    predicate Held() { Reserved? || Sending? || Uncertain? }
  }

  datatype Target = Target(quota: bool, channel: bool, enabled: bool)

  datatype Delivery = Delivery(
    target: nat, status: DeliveryStatus, attempts: nat, retryAt: Option<nat>,
    messageId: string, error: string, text: string, entities: seq<Entity>)

  datatype Placement = Placement(campaign: nat, status: PlacementStatus)

  datatype Campaign = Campaign(target: nat, total: nat, enabled: bool, copy: Formatting.Copy)

  /** The rows; a delivery has at most one placement, kept under the delivery's key. */
  datatype Db = Db(
    targets: map<nat, Target>, campaigns: map<nat, Campaign>, deliveries: map<nat, Delivery>,
    placements: map<nat, Placement>)

  datatype Refusal =
    | NoFreePlacement | MessageTooLong
    | NotUncertain | NoNote | NoMessageId
    | NotQuotaChannel | TargetChanged | TotalTooSmall | CampaignFinished | OtherCampaignActive | NoPosts | BadCopy

  // ---------------------------------------------------------------- counts

  /** The deliveries that take one of the campaign's posts. */
  function Taken(placements: map<nat, Placement>, c: nat): set<nat> {
    set d | d in placements && placements[d].campaign == c && placements[d].status != Released
  }

  function Published(placements: map<nat, Placement>, c: nat): set<nat> {
    set d | d in placements && placements[d].campaign == c && placements[d].status == PlacementStatus.Sent
  }

  function Waiting(placements: map<nat, Placement>, c: nat): set<nat> {
    set d | d in placements && placements[d].campaign == c && placements[d].status.Held()
  }

  /** Posts published and posts reserved together are the posts taken. */
  lemma TakenIsPublishedAndWaiting(placements: map<nat, Placement>, c: nat)
    ensures |Taken(placements, c)| == |Published(placements, c)| + |Waiting(placements, c)|
  {
    assert Published(placements, c) !! Waiting(placements, c);
    assert Taken(placements, c) == Published(placements, c) + Waiting(placements, c);
  }

  // ---------------------------------------------------------------- what the database keeps

  /** References resolve, one campaign per target is active, and a placement's text is frozen. */
  ghost predicate Consistent(db: Db) {
    && (forall d <- db.deliveries :: db.deliveries[d].target in db.targets)
    && (forall c <- db.campaigns :: db.campaigns[c].target in db.targets)
    && (forall d <- db.placements ::
        d in db.deliveries && db.placements[d].campaign in db.campaigns && db.deliveries[d].text != "")
    && (forall b, c ::
          b in db.campaigns && c in db.campaigns && b != c && db.campaigns[b].enabled && db.campaigns[c].enabled ==>
          db.campaigns[b].target != db.campaigns[c].target)
  }

  /** No campaign takes more posts than it has, and an enabled one has posts left to publish. */
  ghost predicate WithinTotals(db: Db) {
    forall c <- db.campaigns ::
      && |Taken(db.placements, c)| <= db.campaigns[c].total
      && (db.campaigns[c].enabled ==> |Published(db.placements, c)| < db.campaigns[c].total)
  }

  /** Where there is a placement, it and its delivery are sent together and uncertain together. */
  ghost predicate Coupled(db: Db) {
    && (forall d <- db.placements :: d in db.deliveries
          && (db.placements[d].status == PlacementStatus.Sent <==> db.deliveries[d].status == DeliveryStatus.Sent)
          && (db.placements[d].status == PlacementStatus.Uncertain
              <==> db.deliveries[d].status == DeliveryStatus.Uncertain))
    && (forall d <- db.deliveries :: db.deliveries[d].status == DeliveryStatus.Uncertain ==> d in db.placements)
  }

  ghost predicate Sane(db: Db) {
    Consistent(db) && WithinTotals(db) && Coupled(db)
  }

  // ---------------------------------------------------------------- transactions as functions

  function WithStatus(db: Db, d: nat, status: PlacementStatus): Db {
    if d in db.placements then db.(placements := db.placements[d := db.placements[d].(status := status)]) else db
  }

  ghost predicate ActiveFor(db: Db, target: nat, c: nat) {
    c in db.campaigns && db.campaigns[c].enabled && db.campaigns[c].target == target
  }

  ghost function ActiveCampaign(db: Db, target: nat): Option<nat> {
    if exists c :: ActiveFor(db, target, c) then
      var c :| ActiveFor(db, target, c); Some(c)
    else None
  }

  /** A released placement takes a post again, if the campaign has one. */
  function Reclaim(db: Db, d: nat): Result<Db, Refusal>
    requires d in db.placements ==> db.placements[d].campaign in db.campaigns
  {
    if d in db.placements && db.placements[d].status == Released then
      var c := db.placements[d].campaign;
      if |Taken(db.placements, c)| >= db.campaigns[c].total then Err(NoFreePlacement)
      else Ok(WithStatus(db, d, Reserved))
    else Ok(db)
  }

  function Freeze(db: Db, d: nat, text: string, entities: seq<Entity>): Db
    requires d in db.deliveries
  {
    db.(deliveries := db.deliveries[d := db.deliveries[d].(text := text, entities := entities)])
  }

  /** The campaign that advertises in a delivery whose text is not frozen yet. */
  ghost function Advertiser(db: Db, d: nat): Option<nat>
    requires Consistent(db) && d in db.deliveries
  {
    var t := db.deliveries[d].target;
    var c := if db.targets[t].quota && db.targets[t].channel then ActiveCampaign(db, t) else None;
    if c.Some? && |Taken(db.placements, c.value)| < db.campaigns[c.value].total then c else None
  }

  /** Freezes the exact message and takes a post of the active campaign; once frozen it never changes. */
  ghost function PrepareDelivery(db: Db, d: nat, post: string, sourceUrl: string): (r: Result<Db, Refusal>)
    requires Consistent(db) && d in db.deliveries
    ensures r.Ok? ==> d in r.value.deliveries
  {
    match Reclaim(db, d)
    case Err(e) => Err(e)
    case Ok(db') =>
      if db'.deliveries[d].text != "" then Ok(db')
      else
        match Advertiser(db', d)
        case None => Ok(Freeze(db', d, post, []))
        case Some(c) =>
          var copy := db'.campaigns[c].copy;
          if Utf16Length(Formatting.Message(post, copy)) > Formatting.MESSAGE_LIMIT then Err(MessageTooLong)
          else
            Ok(PlaceAdvert(db', d, c, Formatting.Message(post, copy), Formatting.Appended(post, copy, sourceUrl)))
  }

  function PlaceAdvert(db: Db, d: nat, c: nat, text: string, entities: seq<Entity>): Db
    requires d in db.deliveries
  {
    Freeze(db, d, text, entities).(placements := db.placements[d := Placement(c, Reserved)])
  }

  predicate MaySend(db: Db, d: nat) {
    d in db.placements ==> db.placements[d].status == Reserved
  }

  predicate Unconfirmed(db: Db, d: nat) {
    d in db.placements && (db.placements[d].status == Sending || db.placements[d].status == PlacementStatus.Uncertain)
  }

  const UNCONFIRMED := "Предыдущая попытка не подтверждена. Проверьте канал."

  function BeginSend(db: Db, d: nat): Db {
    if Unconfirmed(db, d) then MarkUncertain(db, d, UNCONFIRMED)
    else if MaySend(db, d) then WithStatus(db, d, Sending)
    else db
  }

  function MarkUncertain(db: Db, d: nat, error: string): Db {
    var db' := if d in db.placements && db.placements[d].status.Held() then WithStatus(db, d, PlacementStatus.Uncertain)
               else db;
    if d in db.deliveries && db.deliveries[d].status != DeliveryStatus.Sent
      && db.deliveries[d].status != DeliveryStatus.Uncertain then
      db'.(deliveries := db.deliveries[d := db.deliveries[d].(status := DeliveryStatus.Uncertain, error := error,
                                                              retryAt := None)])
    else db'
  }

  function Release(db: Db, d: nat): Db {
    if d in db.placements && db.placements[d].status.Held() then WithStatus(db, d, Released) else db
  }

  function RetryReserved(db: Db, d: nat): Db {
    if d in db.placements && db.placements[d].status == Sending then WithStatus(db, d, Reserved) else db
  }

  /** The placement is sent; a campaign with nothing left is switched off. */
  function ConfirmPlacement(db: Db, d: nat): Db
    requires d in db.placements ==> db.placements[d].campaign in db.campaigns
  {
    if d !in db.placements || db.placements[d].status == PlacementStatus.Sent then db
    else
      var db' := WithStatus(db, d, PlacementStatus.Sent);
      var c := db.placements[d].campaign;
      if |Published(db'.placements, c)| >= db.campaigns[c].total then
        db'.(campaigns := db.campaigns[c := db.campaigns[c].(enabled := false)])
      else db'
  }

  function MarkSent(db: Db, d: nat, messageId: string): Db
    requires d in db.deliveries
    requires d in db.placements ==> db.placements[d].campaign in db.campaigns
  {
    var row := db.deliveries[d];
    var row' := if row.status == DeliveryStatus.Sent then row
                else row.(status := DeliveryStatus.Sent, messageId := messageId, retryAt := None, error := "");
    ConfirmPlacement(db.(deliveries := db.deliveries[d := row']), d)
  }

  /** The second statement of a scheduled retry; the first is `RetryReserved`. */
  function ScheduleRetry(db: Db, d: nat, error: string, at: nat): Db {
    if d in db.deliveries && db.deliveries[d].status == Pending then
      db.(deliveries := db.deliveries[d := db.deliveries[d].(error := error, retryAt := Some(at))])
    else db
  }

  function MarkFailed(db: Db, d: nat, error: string): Db
    requires d in db.deliveries
  {
    var row := db.deliveries[d];
    var row' := if row.status == DeliveryStatus.Sent then row
                else row.(status := Failed, error := error, retryAt := None);
    Release(db.(deliveries := db.deliveries[d := row']), d)
  }

  /** Like `MarkFailed`, but a sent delivery stays untouched, and a private chat is switched off. */
  function MarkPermanentChatFailure(db: Db, d: nat, error: string): Db
    requires d in db.deliveries && db.deliveries[d].target in db.targets
  {
    var row := db.deliveries[d];
    if row.status == DeliveryStatus.Sent then db
    else
      var db' := MarkFailed(db, d, error);
      if db.targets[row.target].channel then db'
      else db'.(targets := db.targets[row.target := db.targets[row.target].(enabled := false)])
  }

  function IncrementAttempts(db: Db, d: nat): Db
    requires d in db.deliveries
  {
    var row := db.deliveries[d];
    if row.status != Pending then db
    else db.(deliveries := db.deliveries[d := row.(attempts := row.attempts + 1, retryAt := None)])
  }

  function Blank(s: string): bool {
    Formatting.Strip(s) == ""
  }

  /** The operator's verdict on an uncertain placement, after a look at the channel. */
  function ResolvePlacement(db: Db, d: nat, wasSent: bool, note: string, messageId: string,
                            positive: bool): Result<Db, Refusal>
    requires d in db.placements && d in db.deliveries && db.placements[d].campaign in db.campaigns
  {
    if db.placements[d].status != PlacementStatus.Uncertain then Err(NotUncertain)
    else if Blank(note) then Err(NoNote)
    else if !wasSent then Ok(MarkFailed(db, d, "Проверено владельцем: пост отсутствует в канале."))
    else if !positive then Err(NoMessageId)
    else Ok(MarkSent(db, d, messageId))
  }

  /** Saving a campaign, new or edited, with approved copy; the target of a saved one is fixed. */
  ghost function SaveCampaign(db: Db, c: nat, row: Campaign, approved: bool): Result<Db, Refusal> {
    if row.total < 1 then Err(NoPosts)
    else if !approved then Err(BadCopy)
    else if row.target !in db.targets || !db.targets[row.target].quota || !db.targets[row.target].channel then
      Err(NotQuotaChannel)
    else if c in db.campaigns && row.target != db.campaigns[c].target then Err(TargetChanged)
    else if c in db.campaigns && row.total < |Published(db.placements, c)| + |Waiting(db.placements, c)| then
      Err(TotalTooSmall)
    else if c in db.campaigns && row.enabled && |Published(db.placements, c)| >= row.total then Err(CampaignFinished)
    else if row.enabled && exists b :: b != c && ActiveFor(db, row.target, b) then Err(OtherCampaignActive)
    else Ok(db.(campaigns := db.campaigns[c := row.(copy := Formatting.Cleaned(row.copy))]))
  }

  /** A failed delivery is claimed for another attempt. */
  function ClaimFailed(db: Db, d: nat): Db {
    if d in db.deliveries && db.deliveries[d].status == Failed then
      db.(deliveries := db.deliveries[d := db.deliveries[d].(status := Pending, messageId := "", attempts := 0,
                                                             retryAt := None, error := "")])
    else db
  }

  /** The claim is taken back when the task could not be queued and no attempt was made. */
  function RestoreFailed(db: Db, d: nat, previous: Delivery): Db {
    if d in db.deliveries && db.deliveries[d].status == Pending && db.deliveries[d].attempts == 0 then
      db.(deliveries := db.deliveries[d := db.deliveries[d].(status := previous.status, messageId := previous.messageId,
        attempts := previous.attempts, retryAt := previous.retryAt, error := previous.error)])
    else db
  }

  /** Fan-out creates a delivery where there is none. */
  function QueueDelivery(db: Db, d: nat, target: nat): Db {
    if d in db.deliveries then db
    else db.(deliveries := db.deliveries[d := Delivery(target, Pending, 0, None, "", "", "", [])])
  }

  // ---------------------------------------------------------------- what the transactions keep

  lemma TakenAfter(ps: map<nat, Placement>, d: nat, p: Placement, c: nat)
    ensures var ps' := ps[d := p];
      && Taken(ps', c) == (if p.campaign == c && p.status != Released then Taken(ps, c) + {d} else Taken(ps, c) - {d})
      && Published(ps', c) == (if p.campaign == c && p.status == PlacementStatus.Sent then Published(ps, c) + {d}
                               else Published(ps, c) - {d})
  {
  }

  lemma CountAfter(ps: map<nat, Placement>, d: nat, p: Placement, c: nat)
    ensures var ps' := ps[d := p];
      && |Taken(ps', c)| <= |Taken(ps, c)|
        + (if p.campaign == c && p.status != Released && d !in Taken(ps, c) then 1 else 0)
      && |Published(ps', c)| <= |Published(ps, c)|
        + (if p.campaign == c && p.status == PlacementStatus.Sent then 1 else 0)
  {
    TakenAfter(ps, d, p, c);
  }

  /** A new status for a taken placement other than `Sent` never breaks the totals. */
  lemma TotalsKept(db: Db, db': Db, d: nat, status: PlacementStatus)
    requires WithinTotals(db) && d in db.placements && status != PlacementStatus.Sent
    requires status != Released ==> db.placements[d].status != Released
    requires db'.placements == db.placements[d := db.placements[d].(status := status)] && db'.campaigns == db.campaigns
    ensures WithinTotals(db')
  {
    forall c | c in db.campaigns
      ensures |Taken(db'.placements, c)| <= |Taken(db.placements, c)|
      ensures |Published(db'.placements, c)| <= |Published(db.placements, c)|
    {
      CountAfter(db.placements, d, db.placements[d].(status := status), c);
    }
  }

  /** A transaction that writes the rows of one delivery, and neither its campaign nor its text. */
  ghost predicate Rewrites(db: Db, db': Db, d: nat) {
    && d in db.deliveries && d in db'.deliveries && db'.deliveries == db.deliveries[d := db'.deliveries[d]]
    && db'.targets.Keys == db.targets.Keys && db'.campaigns == db.campaigns
    && (db'.placements == db.placements
        || (d in db.placements && d in db'.placements && db'.placements == db.placements[d := db'.placements[d]]))
    && db'.deliveries[d].target == db.deliveries[d].target && db'.deliveries[d].text == db.deliveries[d].text
    && (d in db.placements ==> db'.placements[d].campaign == db.placements[d].campaign)
  }

  lemma ConsistentKept(db: Db, db': Db, d: nat)
    requires Consistent(db) && Rewrites(db, db', d)
    ensures Consistent(db')
  {
  }

  lemma CoupledKept(db: Db, db': Db, d: nat)
    requires Coupled(db) && Rewrites(db, db', d)
    requires d !in db.placements ==> db'.deliveries[d].status != DeliveryStatus.Uncertain
    requires d in db.placements ==>
      && (db'.placements[d].status == PlacementStatus.Sent <==> db'.deliveries[d].status == DeliveryStatus.Sent)
      && (db'.placements[d].status == PlacementStatus.Uncertain
          <==> db'.deliveries[d].status == DeliveryStatus.Uncertain)
    ensures Coupled(db')
  {
  }

  /** A transaction that writes the rows of one delivery keeps the rest; its own rows must stay coupled. */
  lemma RowsKept(db: Db, db': Db, d: nat)
    requires Consistent(db) && Coupled(db) && d in db.deliveries && db'.targets.Keys == db.targets.Keys
      && db'.campaigns == db.campaigns
    requires d in db'.deliveries && db'.deliveries == db.deliveries[d := db'.deliveries[d]]
    requires || db'.placements == db.placements
             || (d in db.placements && d in db'.placements && db'.placements == db.placements[d := db'.placements[d]])
    requires var row, row' := db.deliveries[d], db'.deliveries[d];
      && row'.target == row.target && row'.text == row.text
      && (d !in db.placements ==> row'.status != DeliveryStatus.Uncertain)
    requires d in db.placements ==>
      var p, p', row' := db.placements[d], db'.placements[d], db'.deliveries[d];
      && p'.campaign == p.campaign
      && (p'.status == PlacementStatus.Sent <==> row'.status == DeliveryStatus.Sent)
      && (p'.status == PlacementStatus.Uncertain <==> row'.status == DeliveryStatus.Uncertain)
    ensures Consistent(db') && Coupled(db')
  {
    hide Consistent, Coupled;
    ConsistentKept(db, db', d);
    CoupledKept(db, db', d);
  }

  lemma ActiveIsUnique(db: Db, target: nat, c: nat)
    requires Consistent(db) && ActiveFor(db, target, c)
    ensures ActiveCampaign(db, target) == Some(c)
  {
  }

  lemma ReclaimSane(db: Db, d: nat)
    requires Sane(db) && d in db.deliveries && (d in db.placements ==> db.placements[d].campaign in db.campaigns)
    requires Reclaim(db, d).Ok?
    ensures Sane(Reclaim(db, d).value)
  {
    SaneAt(db, d);
    if d in db.placements && db.placements[d].status == Released {
      var db' := Reclaim(db, d).value;
      ReclaimTotals(db, d);
      hide Consistent, WithinTotals;
      assert db'.deliveries == db.deliveries[d := db.deliveries[d]];
      RowsKept(db, db', d);
    }
  }

  lemma ReclaimTotals(db: Db, d: nat)
    requires WithinTotals(db) && d in db.placements && db.placements[d].status == Released
    requires db.placements[d].campaign in db.campaigns && Reclaim(db, d).Ok?
    ensures WithinTotals(Reclaim(db, d).value)
  {
    var p := Placement(db.placements[d].campaign, Reserved);
    forall c | c in db.campaigns
      ensures |Taken(db.placements[d := p], c)| <= db.campaigns[c].total
      ensures |Published(db.placements[d := p], c)| <= |Published(db.placements, c)|
    {
      CountAfter(db.placements, d, p, c);
    }
  }

  lemma PlaceSane(db: Db, d: nat, c: nat, text: string, entities: seq<Entity>)
    requires Sane(db) && d in db.deliveries && db.deliveries[d].text == "" && text != ""
    requires c in db.campaigns && |Taken(db.placements, c)| < db.campaigns[c].total
    requires db.deliveries[d].status == Pending || db.deliveries[d].status == Failed
    ensures Sane(PlaceAdvert(db, d, c, text, entities))
  {
    PlaceTotals(db, d, c);
    PlaceRows(db, d, c, text, entities);
    hide Consistent, Coupled;
    var placed := db.(placements := db.placements[d := Placement(c, Reserved)]);
    TotalsSame(placed, PlaceAdvert(db, d, c, text, entities));
    hide WithinTotals;
  }

  lemma PlaceTotals(db: Db, d: nat, c: nat)
    requires WithinTotals(db) && c in db.campaigns && |Taken(db.placements, c)| < db.campaigns[c].total
    ensures WithinTotals(db.(placements := db.placements[d := Placement(c, Reserved)]))
  {
    forall b | b in db.campaigns
      ensures |Taken(db.placements[d := Placement(c, Reserved)], b)| <= db.campaigns[b].total
      ensures |Published(db.placements[d := Placement(c, Reserved)], b)| <= |Published(db.placements, b)|
    {
      CountAfter(db.placements, d, Placement(c, Reserved), b);
    }
  }

  lemma PlaceRows(db: Db, d: nat, c: nat, text: string, entities: seq<Entity>)
    requires Consistent(db) && Coupled(db) && d in db.deliveries && text != "" && c in db.campaigns
    requires db.deliveries[d].status == Pending || db.deliveries[d].status == Failed
    ensures Consistent(PlaceAdvert(db, d, c, text, entities)) && Coupled(PlaceAdvert(db, d, c, text, entities))
  {
  }

  lemma MessageNotEmpty(post: string, copy: Formatting.Copy)
    ensures Formatting.Message(post, copy) != ""
  {
  }

  lemma PrepareSane(db: Db, d: nat, post: string, sourceUrl: string)
    requires Sane(db) && d in db.deliveries && post != ""
    requires db.deliveries[d].status == Pending || db.deliveries[d].status == Failed
    requires PrepareDelivery(db, d, post, sourceUrl).Ok?
    ensures Sane(PrepareDelivery(db, d, post, sourceUrl).value)
  {
    hide Sane, Formatting.Message, Formatting.Appended, Utf16Length;
    SaneIsConsistent(db);
    ReclaimSane(db, d);
    var db' := Reclaim(db, d).value;
    SaneIsConsistent(db');
    if db'.deliveries[d].text == "" {
      var c := Advertiser(db', d);
      if c.Some? {
        var copy := db'.campaigns[c.value].copy;
        MessageNotEmpty(post, copy);
        PlaceSane(db', d, c.value, Formatting.Message(post, copy), Formatting.Appended(post, copy, sourceUrl));
      } else {
        FreezeSane(db', d, post, []);
      }
    }
  }

  lemma SaneIsConsistent(db: Db)
    requires Sane(db)
    ensures Consistent(db)
  {
  }

  lemma FreezeSane(db: Db, d: nat, text: string, entities: seq<Entity>)
    requires Sane(db) && d in db.deliveries && text != ""
    ensures Sane(Freeze(db, d, text, entities))
  {
  }

  lemma MarkUncertainSane(db: Db, d: nat, error: string)
    requires Sane(db) && Unconfirmed(db, d)
    ensures Sane(MarkUncertain(db, d, error))
  {
    hide Consistent, WithinTotals;
    SaneAt(db, d);
    var db' := MarkUncertain(db, d, error);
    TotalsKept(db, db', d, PlacementStatus.Uncertain);
    assert db'.deliveries == db.deliveries[d := db'.deliveries[d]];
    hide Coupled;
    RowsKept(db, db', d);
  }

  lemma SaneAt(db: Db, d: nat)
    requires Sane(db)
    ensures d in db.placements ==>
      && d in db.deliveries && db.deliveries[d].text != ""
      && (db.placements[d].status == PlacementStatus.Sent <==> db.deliveries[d].status == DeliveryStatus.Sent)
      && (db.placements[d].status == PlacementStatus.Uncertain <==> db.deliveries[d].status == DeliveryStatus.Uncertain)
    ensures d in db.deliveries ==> db.deliveries[d].target in db.targets
    ensures d in db.deliveries && db.deliveries[d].status == DeliveryStatus.Uncertain ==> d in db.placements
    ensures d in db.placements ==> db.placements[d].campaign in db.campaigns
  {
  }

  lemma BeginSendSane(db: Db, d: nat)
    requires Sane(db) && d in db.deliveries
    ensures Sane(BeginSend(db, d))
  {
    hide Consistent, WithinTotals;
    SaneAt(db, d);
    if Unconfirmed(db, d) {
      MarkUncertainSane(db, d, UNCONFIRMED);
    } else if MaySend(db, d) && d in db.placements {
      StatusSane(db, d, Sending);
    }
  }

  /** Moves among the statuses that say nothing about the delivery's. */
  lemma StatusSane(db: Db, d: nat, status: PlacementStatus)
    requires Sane(db) && d in db.placements && (status == Reserved || status == Sending)
    requires db.placements[d].status == Reserved || db.placements[d].status == Sending
    ensures Sane(WithStatus(db, d, status))
  {
    hide Consistent, WithinTotals;
    SaneAt(db, d);
    var db' := WithStatus(db, d, status);
    TotalsKept(db, db', d, status);
    assert db'.deliveries == db.deliveries[d := db.deliveries[d]];
    hide Coupled;
    RowsKept(db, db', d);
  }

  lemma RetryReservedSane(db: Db, d: nat)
    requires Sane(db)
    ensures Sane(RetryReserved(db, d))
  {
    if d in db.placements && db.placements[d].status == Sending { StatusSane(db, d, Reserved); }
  }

  lemma MarkFailedSane(db: Db, d: nat, error: string)
    requires Sane(db) && d in db.deliveries
    ensures Sane(MarkFailed(db, d, error))
  {
    hide Consistent, WithinTotals;
    SaneAt(db, d);
    var db' := MarkFailed(db, d, error);
    if d in db.placements && db.placements[d].status.Held() {
      TotalsKept(db, db', d, Released);
    } else {
      TotalsSame(db, db');
    }
    assert db'.deliveries == db.deliveries[d := db'.deliveries[d]];
    hide Coupled;
    RowsKept(db, db', d);
  }

  lemma TotalsSame(db: Db, db': Db)
    requires WithinTotals(db) && db'.placements == db.placements && db'.campaigns == db.campaigns
    ensures WithinTotals(db')
  {
  }

  lemma PermanentSane(db: Db, d: nat, error: string)
    requires Sane(db) && d in db.deliveries && db.deliveries[d].target in db.targets
    ensures Sane(MarkPermanentChatFailure(db, d, error))
  {
    hide MarkFailed;
    MarkFailedSane(db, d, error);
    assert MarkFailed(db, d, error).targets == db.targets by { MarkFailedTargets(db, d, error); }
  }

  lemma MarkFailedTargets(db: Db, d: nat, error: string)
    requires d in db.deliveries
    ensures MarkFailed(db, d, error).targets == db.targets
  {
  }

  /** Confirming a post moves it from waiting to published; its campaign is switched off at the total. */
  lemma MarkSentSane(db: Db, d: nat, messageId: string)
    requires Sane(db) && d in db.deliveries && (d in db.placements ==> db.placements[d].status != Released)
    ensures d in db.placements ==> db.placements[d].campaign in db.campaigns
    ensures Sane(MarkSent(db, d, messageId))
  {
    hide Consistent, WithinTotals, Published;
    SaneAt(db, d);
    var db' := MarkSent(db, d, messageId);
    MarkSentTotals(db, d, messageId);
    var rows := db'.(campaigns := db.campaigns);
    assert rows.deliveries == db.deliveries[d := db'.deliveries[d]];
    RowsKept(db, rows, d);
    if d in db.placements { SwitchedOff(rows, db', db.placements[d].campaign); }
  }

  lemma SwitchedOff(db: Db, db': Db, c: nat)
    requires Consistent(db) && Coupled(db) && c in db.campaigns
    requires db' == db || db' == db.(campaigns := db.campaigns[c := db.campaigns[c].(enabled := false)])
    ensures Consistent(db') && Coupled(db')
  {
  }

  lemma MarkSentTotals(db: Db, d: nat, messageId: string)
    requires WithinTotals(db) && d in db.deliveries
    requires d in db.placements ==> db.placements[d].status != Released && db.placements[d].campaign in db.campaigns
    ensures WithinTotals(MarkSent(db, d, messageId))
  {
    if d in db.placements && db.placements[d].status != PlacementStatus.Sent {
      var p := db.placements[d].(status := PlacementStatus.Sent);
      var ps' := db.placements[d := p];
      forall c | c in db.campaigns
        ensures |Taken(ps', c)| <= |Taken(db.placements, c)|
        ensures c != p.campaign ==> |Published(ps', c)| <= |Published(db.placements, c)|
      {
        CountAfter(db.placements, d, p, c);
      }
      hide Taken, Published;
    }
  }

  lemma ResolveSane(db: Db, d: nat, wasSent: bool, note: string, messageId: string, positive: bool)
    requires Sane(db) && d in db.placements && d in db.deliveries && db.placements[d].campaign in db.campaigns
    requires ResolvePlacement(db, d, wasSent, note, messageId, positive).Ok?
    ensures Sane(ResolvePlacement(db, d, wasSent, note, messageId, positive).value)
  {
    if wasSent {
      MarkSentSane(db, d, messageId);
    } else {
      MarkFailedSane(db, d, "Проверено владельцем: пост отсутствует в канале.");
    }
  }

  lemma SaveSane(db: Db, c: nat, row: Campaign, approved: bool)
    requires Sane(db) && SaveCampaign(db, c, row, approved).Ok?
    ensures Sane(SaveCampaign(db, c, row, approved).value)
  {
    var db' := SaveCampaign(db, c, row, approved).value;
    TakenIsPublishedAndWaiting(db.placements, c);
    if c !in db.campaigns { assert Taken(db.placements, c) == {} && Published(db.placements, c) == {}; }
    forall a, b | a in db'.campaigns && b in db'.campaigns && a != b && db'.campaigns[a].enabled
      && db'.campaigns[b].enabled
      ensures db'.campaigns[a].target != db'.campaigns[b].target
    {
      if a == c { assert !ActiveFor(db, row.target, b); }
      if b == c { assert !ActiveFor(db, row.target, a); }
    }
  }

  lemma RequeueSane(db: Db, d: nat, previous: Delivery)
    requires Sane(db) && previous.status == Failed
    ensures Sane(ClaimFailed(db, d)) && Sane(RestoreFailed(db, d, previous))
  {
    hide Consistent, WithinTotals;
    SaneAt(db, d);
    if d in db.deliveries {
      var a, b := ClaimFailed(db, d), RestoreFailed(db, d, previous);
      assert a.deliveries == db.deliveries[d := a.deliveries[d]] && b.deliveries == db.deliveries[d := b.deliveries[d]];
      RowsKept(db, a, d);
      RowsKept(db, b, d);
      TotalsSame(db, a);
      TotalsSame(db, b);
    }
  }

  lemma MinorSane(db: Db, d: nat, error: string, at: nat)
    requires Sane(db) && d in db.deliveries
    ensures Sane(IncrementAttempts(db, d)) && Sane(ScheduleRetry(db, d, error, at))
  {
    hide Consistent, WithinTotals;
    SaneAt(db, d);
    var a, b := IncrementAttempts(db, d), ScheduleRetry(db, d, error, at);
    assert a.deliveries == db.deliveries[d := a.deliveries[d]] && b.deliveries == db.deliveries[d := b.deliveries[d]];
    RowsKept(db, a, d);
    RowsKept(db, b, d);
    TotalsSame(db, a);
    TotalsSame(db, b);
  }

  lemma QueueSane(db: Db, d: nat, target: nat)
    requires Sane(db) && target in db.targets
    ensures Sane(QueueDelivery(db, d, target))
  {
  }
}
