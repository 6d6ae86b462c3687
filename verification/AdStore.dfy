/** The advertising transactions as the code performs them: rows are read, compared and written one after another. */
module AdStore {
  import opened Text
  import opened AdDelivery
  import Formatting

  datatype Dispatch = Dispatch(requested: nat, queued: nat, skipped: nat, failed: nat)

  /** What a delivery looks like after a requeue of `ids`, if the tasks in `accepted` could be queued. */
  function Requeued(rows: map<nat, Delivery>, ids: set<nat>, accepted: set<nat>): map<nat, Delivery> {
    map d | d in rows :: if d in ids && d in accepted && rows[d].status == Failed then Fresh(rows[d]) else rows[d]
  }

  function Fresh(row: Delivery): Delivery {
    row.(status := Pending, messageId := "", attempts := 0, retryAt := None, error := "")
  }

  lemma RequeuedExactly(rows: map<nat, Delivery>, ids: seq<nat>, accepted: set<nat>)
    ensures var rows' := Requeued(rows, Distinct(ids), accepted);
      && rows'.Keys == rows.Keys
      && forall d <- rows :: rows'[d]
           == if d in ids && d in accepted && rows[d].status == Failed
              then rows[d].(status := Pending, messageId := "", attempts := 0, retryAt := None, error := "")
              else rows[d]
  {
  }

  function Distinct(ids: seq<nat>): set<nat> {
    set d | d in ids
  }

  function FailedAmong(rows: map<nat, Delivery>, ids: set<nat>): set<nat> {
    set d | d in ids && d in rows && rows[d].status == Failed
  }

  lemma NothingRequeued(rows: map<nat, Delivery>, accepted: set<nat>)
    ensures Requeued(rows, {}, accepted) == rows
  {
  }

  lemma FailedMember(rows: map<nat, Delivery>, ids: set<nat>, d: nat)
    requires d in FailedAmong(rows, ids)
    ensures d in rows && rows[d].status == Failed
  {
  }

  lemma RequeueStep(rows: map<nat, Delivery>, done: set<nat>, d: nat, accepted: set<nat>)
    requires d in rows && rows[d].status == Failed && d !in done
    ensures d in Requeued(rows, done, accepted) && Requeued(rows, done, accepted)[d] == rows[d]
    ensures Requeued(rows, done + {d}, accepted)
      == Requeued(rows, done, accepted)[d := if d in accepted then Fresh(rows[d]) else rows[d]]
    ensures Requeued(rows, done, accepted)[d := rows[d]] == Requeued(rows, done, accepted)
  {
  }

  lemma CountStep(done: set<nat>, d: nat, accepted: set<nat>)
    requires d !in done
    ensures |(done + {d}) * accepted| == |done * accepted| + if d in accepted then 1 else 0
    ensures |(done + {d}) - accepted| == |done - accepted| + if d in accepted then 0 else 1
  {
    if d in accepted {
      assert (done + {d}) * accepted == done * accepted + {d} && (done + {d}) - accepted == done - accepted;
    } else {
      assert (done + {d}) * accepted == done * accepted && (done + {d}) - accepted == (done - accepted) + {d};
    }
  }

  lemma AllRequeued(rows: map<nat, Delivery>, requested: set<nat>, accepted: set<nat>)
    ensures var candidates := FailedAmong(rows, requested);
      && Requeued(rows, candidates, accepted) == Requeued(rows, requested, accepted)
      && |candidates| <= |requested|
      && |candidates| == |candidates * accepted| + |candidates - accepted|
  {
    var candidates := FailedAmong(rows, requested);
    assert candidates == candidates * accepted + (candidates - accepted);
    assert requested == candidates + (requested - candidates);
  }

  class Store {
    var targets: map<nat, Target>
    var campaigns: map<nat, Campaign>
    var deliveries: map<nat, Delivery>
    var placements: map<nat, Placement>

    function Rows(): Db
      reads this
    {
      Db(targets, campaigns, deliveries, placements)
    }

    method PrepareDelivery(d: nat, post: string, sourceUrl: string) returns (r: Result<Formatting.Advert, Refusal>)
      requires Consistent(Rows()) && d in deliveries
      modifies this`deliveries, this`placements
      ensures match r
        case Err(e) => AdDelivery.PrepareDelivery(old(Rows()), d, post, sourceUrl) == Err(e) && Rows() == old(Rows())
        case Ok(message) =>
          && AdDelivery.PrepareDelivery(old(Rows()), d, post, sourceUrl) == Ok(Rows())
          && deliveries[d].text == message.text && deliveries[d].entities == message.entities
    {
      hide Formatting.Message, Formatting.Appended, Utf16Length;
      var row := deliveries[d];
      var target := targets[row.target];
      if d in placements && placements[d].status == Released {
        var c := placements[d].campaign;
        if |Taken(placements, c)| >= campaigns[c].total {
          return Err(NoFreePlacement);
        }
        placements := placements[d := placements[d].(status := Reserved)];
      }
      if row.text != "" {
        return Ok(Formatting.Advert(row.text, row.entities));
      }
      var message := Formatting.Advert(post, []);
      if target.quota && target.channel && exists c ::
        c in campaigns && campaigns[c].enabled && campaigns[c].target == row.target {
        var c :| c in campaigns && campaigns[c].enabled && campaigns[c].target == row.target;
        ActiveIsUnique(Rows(), row.target, c);
        if |Taken(placements, c)| < campaigns[c].total {
          var appended := Formatting.AppendAdvertising(post, campaigns[c].copy, sourceUrl);
          if appended.None? {
            return Err(MessageTooLong);
          }
          message := appended.value;
          placements := placements[d := Placement(c, Reserved)];
        }
      }
      deliveries := deliveries[d := row.(text := message.text, entities := message.entities)];
      return Ok(message);
    }

    method BeginSend(d: nat) returns (mayGo: bool)
      requires Consistent(Rows()) && d in deliveries
      modifies this`deliveries, this`placements
      ensures mayGo == MaySend(old(Rows()), d)
      ensures Rows() == AdDelivery.BeginSend(old(Rows()), d)
    {
      if d !in placements {
        return true;
      }
      if placements[d].status == Sending || placements[d].status == PlacementStatus.Uncertain {
        MarkUncertain(d, UNCONFIRMED);
        return false;
      }
      if placements[d].status != Reserved {
        return false;
      }
      placements := placements[d := placements[d].(status := Sending)];
      return true;
    }

    method MarkUncertain(d: nat, error: string)
      requires d in deliveries
      modifies this`deliveries, this`placements
      ensures Rows() == AdDelivery.MarkUncertain(old(Rows()), d, error)
    {
      if d in placements && placements[d].status.Held() {
        placements := placements[d := placements[d].(status := PlacementStatus.Uncertain)];
      }
      var row := deliveries[d];
      if row.status != DeliveryStatus.Sent && row.status != DeliveryStatus.Uncertain {
        deliveries := deliveries[d := row.(status := DeliveryStatus.Uncertain, error := error, retryAt := None)];
      }
    }

    /** Reports, and records as uncertain, an earlier attempt without an outcome. */
    method UnconfirmedSend(d: nat) returns (found: bool)
      requires d in deliveries
      modifies this`deliveries, this`placements
      ensures found == Unconfirmed(old(Rows()), d)
      ensures Rows() == if found then AdDelivery.MarkUncertain(old(Rows()), d, UNCONFIRMED) else old(Rows())
    {
      if d in placements && (placements[d].status == Sending || placements[d].status == PlacementStatus.Uncertain) {
        MarkUncertain(d, UNCONFIRMED);
        return true;
      }
      return false;
    }

    method Release(d: nat)
      modifies this`placements
      ensures Rows() == AdDelivery.Release(old(Rows()), d)
    {
      if d in placements && placements[d].status.Held() {
        placements := placements[d := placements[d].(status := Released)];
      }
    }

    method ConfirmPlacement(d: nat)
      requires d in placements ==> placements[d].campaign in campaigns
      modifies this`campaigns, this`placements
      ensures Rows() == AdDelivery.ConfirmPlacement(old(Rows()), d)
    {
      if d !in placements || placements[d].status == PlacementStatus.Sent {
        return;
      }
      placements := placements[d := placements[d].(status := PlacementStatus.Sent)];
      var c := placements[d].campaign;
      if |Published(placements, c)| >= campaigns[c].total {
        campaigns := campaigns[c := campaigns[c].(enabled := false)];
      }
    }

    method IncrementAttempts(d: nat)
      requires d in deliveries
      modifies this`deliveries
      ensures Rows() == AdDelivery.IncrementAttempts(old(Rows()), d)
    {
      if deliveries[d].status != Pending {
        return;
      }
      deliveries := deliveries[d := deliveries[d].(attempts := deliveries[d].attempts + 1, retryAt := None)];
    }

    method MarkSent(d: nat, messageId: string)
      requires Consistent(Rows()) && d in deliveries
      modifies this`deliveries, this`campaigns, this`placements
      ensures Rows() == AdDelivery.MarkSent(old(Rows()), d, messageId)
    {
      if deliveries[d].status != DeliveryStatus.Sent {
        deliveries := deliveries[d := deliveries[d].(status := DeliveryStatus.Sent, messageId := messageId,
                                                     retryAt := None, error := "")];
      }
      ConfirmPlacement(d);
    }

    method MarkRetryScheduled(d: nat, error: string, at: nat)
      modifies this`deliveries, this`placements
      ensures Rows() == ScheduleRetry(RetryReserved(old(Rows()), d), d, error, at)
    {
      if d in placements && placements[d].status == Sending {
        placements := placements[d := placements[d].(status := Reserved)];
      }
      if d in deliveries && deliveries[d].status == Pending {
        deliveries := deliveries[d := deliveries[d].(error := error, retryAt := Some(at))];
      }
    }

    method MarkFailed(d: nat, error: string)
      requires d in deliveries
      modifies this`deliveries, this`placements
      ensures Rows() == AdDelivery.MarkFailed(old(Rows()), d, error)
    {
      if deliveries[d].status != DeliveryStatus.Sent {
        deliveries := deliveries[d := deliveries[d].(status := Failed, error := error, retryAt := None)];
      }
      Release(d);
    }

    method MarkPermanentChatFailure(d: nat, error: string)
      requires Consistent(Rows()) && d in deliveries
      modifies this`targets, this`deliveries, this`placements
      ensures Rows() == AdDelivery.MarkPermanentChatFailure(old(Rows()), d, error)
    {
      var row := deliveries[d];
      if row.status == DeliveryStatus.Sent {
        return;
      }
      deliveries := deliveries[d := row.(status := Failed, error := error, retryAt := None)];
      Release(d);
      if !targets[row.target].channel {
        targets := targets[row.target := targets[row.target].(enabled := false)];
      }
    }

    method ResolvePlacement(d: nat, wasSent: bool, note: string, messageId: string, positive: bool)
      returns (refused: Option<Refusal>)
      requires Consistent(Rows()) && d in placements
      modifies this
      ensures d in old(Rows()).deliveries && old(Rows()).placements[d].campaign in old(Rows()).campaigns
      ensures match refused
        case Some(e) =>
          AdDelivery.ResolvePlacement(old(Rows()), d, wasSent, note, messageId, positive) == Err(e)
            && Rows() == old(Rows())
        case None => AdDelivery.ResolvePlacement(old(Rows()), d, wasSent, note, messageId, positive) == Ok(Rows())
    {
      if placements[d].status != PlacementStatus.Uncertain {
        return Some(NotUncertain);
      }
      if Blank(note) {
        return Some(NoNote);
      }
      if wasSent {
        if !positive {
          return Some(NoMessageId);
        }
        MarkSent(d, messageId);
      } else {
        MarkFailed(d, "Проверено владельцем: пост отсутствует в канале.");
      }
      return None;
    }

    /** Checks a campaign and saves it. */
    method SaveCampaign(c: nat, row: Campaign, rules: Formatting.CopyRules) returns (refused: Option<Refusal>)
      modifies this`campaigns
      ensures var saved := AdDelivery.SaveCampaign(old(Rows()), c, row,
                                                   Formatting.Approved(rules, Formatting.Cleaned(row.copy)));
        if refused.Some? then saved == Err(refused.value) && Rows() == old(Rows()) else saved == Ok(Rows())
    {
      if row.total < 1 {
        return Some(NoPosts);
      }
      var copy := Formatting.Cleaned(row.copy);
      var error := Formatting.ValidateCopy(rules, copy);
      hide Formatting.Approved, Formatting.Cleaned;
      if error.Some? {
        return Some(BadCopy);
      }
      if row.target !in targets || !targets[row.target].quota || !targets[row.target].channel {
        return Some(NotQuotaChannel);
      }
      if c in campaigns {
        if row.target != campaigns[c].target {
          return Some(TargetChanged);
        }
        if row.total < |Published(placements, c)| + |Waiting(placements, c)| {
          return Some(TotalTooSmall);
        }
        if row.enabled && |Published(placements, c)| >= row.total {
          return Some(CampaignFinished);
        }
      }
      if row.enabled && exists b ::
        b in campaigns && b != c && campaigns[b].enabled && campaigns[b].target == row.target {
        var b :| b in campaigns && b != c && campaigns[b].enabled && campaigns[b].target == row.target;
        assert b != c && ActiveFor(Rows(), row.target, b);
        return Some(OtherCampaignActive);
      }
      campaigns := campaigns[c := row.(copy := copy)];
      return None;
    }

    /**
     Resets and dispatches the failed deliveries among `ids`; one whose task cannot be queued gets its old state back.
     Every requested delivery is counted once: queued, skipped or failed to dispatch.
     */
    method RequeueFailed(ids: seq<nat>, accepted: set<nat>) returns (r: Dispatch)
      modifies this`deliveries
      ensures deliveries == Requeued(old(deliveries), Distinct(ids), accepted)
      ensures deliveries.Keys == old(deliveries).Keys
      ensures forall d <- old(deliveries) ::
        deliveries[d] == if d in ids && d in accepted && old(deliveries)[d].status == Failed
                         then old(deliveries)[d].(status := Pending, messageId := "", attempts := 0, retryAt := None,
                                                  error := "")
                         else old(deliveries)[d]
      ensures r.requested == |Distinct(ids)| == r.queued + r.skipped + r.failed
      ensures r.queued == |FailedAmong(old(deliveries), Distinct(ids)) * accepted|
      ensures r.failed == |FailedAmong(old(deliveries), Distinct(ids)) - accepted|
    {
      hide Requeued, Distinct, FailedAmong;
      var requested := Distinct(ids);
      var candidates := FailedAmong(deliveries, requested);
      var todo, queued, failed := candidates, 0, 0;
      ghost var rows, done: set<nat> := deliveries, {};
      NothingRequeued(rows, accepted);
      while todo != {}
        invariant todo !! done && todo + done == candidates
        invariant deliveries == Requeued(rows, done, accepted)
        invariant queued == |done * accepted| && failed == |done - accepted|
        decreases |todo|
      {
        var d :| d in todo;
        FailedMember(rows, requested, d);
        RequeueStep(rows, done, d, accepted);
        CountStep(done, d, accepted);
        var previous := deliveries[d];
        deliveries := deliveries[d := Fresh(previous)];
        if d in accepted {
          queued := queued + 1;
        } else {
          if deliveries[d].status == Pending && deliveries[d].attempts == 0 {
            deliveries := deliveries[d := deliveries[d].(status := previous.status, messageId := previous.messageId,
              attempts := previous.attempts, retryAt := previous.retryAt, error := previous.error)];
          }
          failed := failed + 1;
        }
        todo, done := todo - {d}, done + {d};
      }
      assert done == candidates;
      AllRequeued(rows, requested, accepted);
      RequeuedExactly(rows, ids, accepted);
      r := Dispatch(|requested|, queued, |requested| - |candidates|, failed);
    }
  }
}
