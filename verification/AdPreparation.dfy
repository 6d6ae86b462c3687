/** When a delivery carries advertising: which campaign, in which words, and when it is refused instead. */
module AdPreparation {
  import opened Text
  import opened AdDelivery
  import Formatting

  /** The campaign is active for the delivery's quota channel and has a post left. */
  ghost predicate Advertises(db: Db, d: nat, c: nat)
    requires Consistent(db) && d in db.deliveries
  {
    var t := db.deliveries[d].target;
    && db.targets[t].quota && db.targets[t].channel
    && c in db.campaigns && db.campaigns[c].enabled && db.campaigns[c].target == t
    && |set x | x in db.placements && db.placements[x].campaign == c && db.placements[x].status != Released|
         < db.campaigns[c].total
  }

  /** The post with the campaign's advertisement is longer than Telegram allows. */
  ghost predicate TooLong(db: Db, c: nat, post: string)
    requires c in db.campaigns
  {
    Utf16Length(Formatting.Message(post, db.campaigns[c].copy)) > 4096
  }

  lemma AdvertisesIsAdvertiser(db: Db, d: nat, c: nat)
    requires Consistent(db) && d in db.deliveries
    ensures Advertises(db, d, c) <==> Advertiser(db, d) == Some(c)
  {
    var t := db.deliveries[d].target;
    assert Taken(db.placements, c)
      == set x | x in db.placements && db.placements[x].campaign == c && db.placements[x].status != Released;
    if ActiveFor(db, t, c) { ActiveIsUnique(db, t, c); }
  }

  /** Nothing but the delivery's own row and placement differs. */
  ghost predicate OnlyOf(db: Db, db': Db, d: nat) {
    && db'.targets == db.targets && db'.campaigns == db.campaigns && db'.deliveries.Keys == db.deliveries.Keys
    && (forall x <- db.deliveries :: x != d ==> db'.deliveries[x] == db.deliveries[x])
    && db'.placements.Keys - {d} == db.placements.Keys - {d}
    && (forall x <- db.placements :: x != d ==> x in db'.placements && db'.placements[x] == db.placements[x])
  }

  /**
   A delivery without a frozen message gets a reserved placement of a campaign exactly when that campaign is active
   for its quota channel and has a post left; the message is then the post with the advertisement. Otherwise it is the
   bare post. It is refused exactly when the advertisement would make it too long.
   */
  lemma PreparedExactly(db: Db, d: nat, post: string, url: string)
    requires Sane(db) && d in db.deliveries && db.deliveries[d].text == "" && post != ""
    ensures Consistent(db) && d !in db.placements
    ensures PrepareDelivery(db, d, post, url).Err?
      <==> exists c <- db.campaigns :: Advertises(db, d, c) && TooLong(db, c, post)
    ensures PrepareDelivery(db, d, post, url).Ok? ==>
      var db' := PrepareDelivery(db, d, post, url).value;
      && OnlyOf(db, db', d)
      && db'.deliveries[d] == db.deliveries[d].(text := db'.deliveries[d].text, entities := db'.deliveries[d].entities)
      && (forall c :: Advertises(db, d, c) <==> d in db'.placements && db'.placements[d] == Placement(c, Reserved))
      && (d in db'.placements ==>
            var copy := db.campaigns[db'.placements[d].campaign].copy;
            && db'.deliveries[d].text == Formatting.Message(post, copy)
            && db'.deliveries[d].entities == Formatting.Appended(post, copy, url))
      && (d !in db'.placements ==> db'.deliveries[d].text == post && db'.deliveries[d].entities == [])
  {
    hide Formatting.Message, Formatting.Appended, Utf16Length, Sane, Consistent, Advertiser, Advertises;
    SaneIsConsistent(db);
    NotPlaced(db, d);
    forall c: nat ensures Advertises(db, d, c) <==> Advertiser(db, d) == Some(c) { AdvertisesIsAdvertiser(db, d, c); }
    if Advertiser(db, d).Some? { AdvertiserKnown(db, d); }
    assert Reclaim(db, d) == Ok(db);
  }

  lemma NotPlaced(db: Db, d: nat)
    requires Sane(db) && d in db.deliveries && db.deliveries[d].text == ""
    ensures d !in db.placements
  {
  }

  lemma AdvertiserKnown(db: Db, d: nat)
    requires Consistent(db) && d in db.deliveries && Advertiser(db, d).Some?
    ensures Advertiser(db, d).value in db.campaigns
  {
  }

  /** A released placement that the campaign has no post left for. */
  ghost predicate Lost(db: Db, d: nat)
    requires Consistent(db)
  {
    && d in db.placements && db.placements[d].status == Released
    && |set x | x in db.placements && db.placements[x].campaign == db.placements[d].campaign
    && db.placements[x].status != Released|
         >= db.campaigns[db.placements[d].campaign].total
  }

  /**
   A frozen message never changes: preparing again only reserves a released placement, and is refused exactly when the
   campaign has no post left for it.
   */
  lemma PreparedAgain(db: Db, d: nat, post: string, url: string)
    requires Consistent(db) && d in db.deliveries && db.deliveries[d].text != ""
    ensures PrepareDelivery(db, d, post, url).Err? <==> Lost(db, d)
    ensures PrepareDelivery(db, d, post, url).Ok? ==>
      var db' := PrepareDelivery(db, d, post, url).value;
      && db'.deliveries == db.deliveries && OnlyOf(db, db', d) && db'.placements.Keys == db.placements.Keys
      && (d in db.placements ==>
        db'.placements[d]
        == if db.placements[d].status == Released then Placement(db.placements[d].campaign, Reserved)
           else db.placements[d])
  {
    if d in db.placements {
      var c := db.placements[d].campaign;
      assert Taken(db.placements, c)
        == set x | x in db.placements && db.placements[x].campaign == c && db.placements[x].status != Released;
    }
  }

  // ---------------------------------------------------------------- campaigns

  function SentOf(placements: map<nat, Placement>, c: nat): set<nat> {
    set x | x in placements && placements[x].campaign == c && placements[x].status == PlacementStatus.Sent
  }

  function HeldOf(placements: map<nat, Placement>, c: nat): set<nat> {
    set x | x in placements && placements[x].campaign == c
      && (placements[x].status == Reserved || placements[x].status == Sending
          || placements[x].status == PlacementStatus.Uncertain)
  }

  lemma CountsAre(placements: map<nat, Placement>, c: nat)
    ensures SentOf(placements, c) == Published(placements, c) && HeldOf(placements, c) == Waiting(placements, c)
  {
  }

  /**
   A campaign is saved exactly when it has posts, its copy is approved, its target is a quota channel and does not
   change, its total covers what is published or held, and, if it is to be active, it has posts left and no rival.
   */
  lemma SavedExactly(db: Db, c: nat, row: Campaign, approved: bool)
    ensures AdDelivery.SaveCampaign(db, c, row, approved).Ok? <==>
      && row.total >= 1 && approved
      && row.target in db.targets && db.targets[row.target].quota && db.targets[row.target].channel
      && (c in db.campaigns ==>
            && row.target == db.campaigns[c].target
            && |SentOf(db.placements, c)| + |HeldOf(db.placements, c)| <= row.total
            && (row.enabled ==> |SentOf(db.placements, c)| < row.total))
      && (row.enabled ==> forall b <- db.campaigns ::
          b != c && db.campaigns[b].enabled ==> db.campaigns[b].target != row.target)
    ensures AdDelivery.SaveCampaign(db, c, row, approved).Ok? ==>
      AdDelivery.SaveCampaign(db, c, row, approved).value
        == db.(campaigns := db.campaigns[c := row.(copy := Formatting.Cleaned(row.copy))])
  {
    CountsAre(db.placements, c);
    hide SentOf, HeldOf, Published, Waiting, Formatting.Cleaned;
    assert forall b :: ActiveFor(db, row.target, b) <==>
        b in db.campaigns && db.campaigns[b].enabled && db.campaigns[b].target == row.target;
  }

  // ---------------------------------------------------------------- the operator and the requeue

  /**
   The operator decides exactly on an uncertain placement, with a note that is not blank and, for a post that was found,
   its positive id; the delivery and its placement are then sent, or failed and released.
   */
  lemma ResolvedExactly(db: Db, d: nat, wasSent: bool, note: string, id: string, positive: bool)
    requires Sane(db) && d in db.placements && d in db.deliveries && db.placements[d].campaign in db.campaigns
    ensures ResolvePlacement(db, d, wasSent, note, id, positive).Ok? <==>
      && db.placements[d].status == PlacementStatus.Uncertain && (exists c <- note :: !IsSpace(c))
        && (wasSent ==> positive)
    ensures ResolvePlacement(db, d, wasSent, note, id, positive).Ok? ==>
      var db' := ResolvePlacement(db, d, wasSent, note, id, positive).value;
      && d in db'.deliveries && d in db'.placements
      && (if wasSent then
            && db'.deliveries[d].status == DeliveryStatus.Sent && db'.deliveries[d].messageId == id
            && db'.placements[d].status == PlacementStatus.Sent
          else db'.deliveries[d].status == Failed && db'.placements[d].status == Released)
  {
    NotBlank(note);
    SaneAt(db, d);
    hide Sane, Blank, Published;
  }

  lemma NotBlank(s: string)
    ensures Blank(s) <==> forall c <- s :: IsSpace(c)
  {
    var before, after := Formatting.StripExact(s);
    if Formatting.Strip(s) != "" { assert Formatting.Strip(s)[0] in s; }
  }

  /** A requeue resets exactly the failed deliveries that were asked for and could be queued, and nothing else. */
  lemma ClaimedExactly(db: Db, d: nat)
    ensures var db' := ClaimFailed(db, d);
      && OnlyOf(db, db', d) && db'.placements == db.placements
      && (d in db.deliveries ==> db'.deliveries[d] == if db.deliveries[d].status != Failed then db.deliveries[d]
            else Delivery(db.deliveries[d].target, Pending, 0, None, "", "", db.deliveries[d].text,
                          db.deliveries[d].entities))
  {
  }

  /** A claim is taken back exactly while no attempt was made since. */
  lemma RestoredExactly(db: Db, d: nat, previous: Delivery)
    ensures var db' := RestoreFailed(db, d, previous);
      && OnlyOf(db, db', d) && db'.placements == db.placements
      && (d in db.deliveries ==>
            var row := db.deliveries[d];
            db'.deliveries[d] == if row.status != Pending || row.attempts > 0 then row
              else Delivery(row.target, previous.status, previous.attempts, previous.retryAt, previous.messageId,
                            previous.error,
                            row.text, row.entities))
  {
  }
}
