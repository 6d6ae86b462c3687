/** The advertising delivery protocol: all deliveries, the campaigns and the real channel, in every run. */
module AdProtocol {
  import opened Text
  import opened AdDelivery
  import opened Requests
  import opened AdMoves
  import opened Formatting

  datatype Action =
    | Act(delivery: nat, move: Move)
    | SaveCampaign(campaign: nat, row: Campaign, rules: CopyRules)
    | SaveTarget(target: nat, settings: Target)
    | Queue(delivery: nat, target: nat)

  datatype Sys = Sys(db: Db, workers: map<nat, Pc>, requests: map<nat, seq<Request<Advert>>>) {
    function Worker(d: nat): Pc { if d in workers then workers[d] else Idle }
    function Log(d: nat): seq<Request<Advert>> { if d in requests then requests[d] else [] }
  }

  const START := Sys(Db(map[], map[], map[], map[]), map[], map[])

  function With(sys: Sys, d: nat, l: Local): Sys {
    Sys(l.db, sys.workers[d := l.pc], sys.requests[d := l.log])
  }

  /** The copy is approved, and a body was rendered. */
  ghost predicate Publishable(rules: CopyRules, copy: Copy) {
    Approved(rules, Cleaned(copy)) && (copy.Body? ==> IsRendered(copy))
  }

  ghost function Step(sys: Sys, action: Action): Option<Sys> {
    if !Consistent(sys.db) then None
    else
      match action
      case Act(d, move) =>
        if d !in sys.db.deliveries then None
        else
          (match LocalStep(Local(sys.db, sys.Worker(d), sys.Log(d)), d, move)
           case None => None
           case Some(l) => Some(With(sys, d, l)))
      case SaveCampaign(c, row, rules) =>
        (match AdDelivery.SaveCampaign(sys.db, c, row, Publishable(rules, row.copy))
         case Err(_) => None
         case Ok(db) => Some(sys.(db := db)))
      case SaveTarget(t, settings) => Some(sys.(db := sys.db.(targets := sys.db.targets[t := settings])))
      case Queue(d, t) =>
        if t in sys.db.targets && sys.db.targets[t].enabled && sys.db.targets[t].quota then
          Some(sys.(db := QueueDelivery(sys.db, d, t)))
        else None
  }

  /** The state after a run of actions, if each was possible. */
  ghost function Run(sys: Sys, actions: seq<Action>): Option<Sys>
    decreases |actions|
  {
    if actions == [] then Some(sys)
    else
      match Step(sys, actions[0])
      case None => None
      case Some(sys') => Run(sys', actions[1..])
  }

  ghost predicate Invariant(sys: Sys) {
    && Sane(sys.db)
    && (forall d <- sys.db.deliveries :: Good(sys.db.deliveries[d], StatusAt(sys.db, d), sys.Worker(d), sys.Log(d)))
    && (forall d :: d in sys.workers || d in sys.requests ==> d in sys.db.deliveries)
  }

  // ---------------------------------------------------------------- every step keeps the invariant

  lemma ActKeeps(sys: Sys, d: nat, move: Move)
    requires Invariant(sys) && d in sys.db.deliveries && Step(sys, Act(d, move)).Some?
    ensures Invariant(Step(sys, Act(d, move)).value)
  {
    hide LocalStep, Sane, Good;
    var l := Local(sys.db, sys.Worker(d), sys.Log(d));
    KeepsLocal(l, d, move);
    KeepsOthers(sys, d, LocalStep(l, d, move).value);
  }

  lemma KeepsOthers(sys: Sys, d: nat, l': Local)
    requires Invariant(sys) && d in sys.db.deliveries && Keeps(Local(sys.db, sys.Worker(d), sys.Log(d)), l', d)
    ensures Invariant(With(sys, d, l'))
  {
    hide Sane, Good;
    var sys' := With(sys, d, l');
    forall x | x in sys'.db.deliveries && x != d
      ensures x in sys.db.deliveries && sys'.db.deliveries[x] == sys.db.deliveries[x]
        && StatusAt(sys'.db, x) == StatusAt(sys.db, x)
      ensures sys'.Worker(x) == sys.Worker(x) && sys'.Log(x) == sys.Log(x)
    {
    }
  }

  lemma OtherStepsKeep(sys: Sys, action: Action)
    requires Invariant(sys) && !action.Act? && Step(sys, action).Some?
    ensures Invariant(Step(sys, action).value)
  {
    InvariantIsSane(sys);
    SaneIsConsistent(sys.db);
    hide Invariant, Sane, Consistent, AdDelivery.SaveCampaign, Publishable;
    match action
    case SaveCampaign(c, row, rules) =>
      SaveSane(sys.db, c, row, Publishable(rules, row.copy));
      SaveShape(sys.db, c, row, Publishable(rules, row.copy));
      SameRows(sys, Step(sys, action).value.db);
    case SaveTarget(t, settings) =>
      TargetSane(sys.db, t, settings);
      SameRows(sys, Step(sys, action).value.db);
    case Queue(d, t) => QueueKeeps(sys, d, t);
  }

  lemma InvariantIsSane(sys: Sys)
    requires Invariant(sys)
    ensures Sane(sys.db)
  {
  }

  lemma SaveShape(db: Db, c: nat, row: Campaign, approved: bool)
    requires AdDelivery.SaveCampaign(db, c, row, approved).Ok?
    ensures var db' := AdDelivery.SaveCampaign(db, c, row, approved).value;
      db'.deliveries == db.deliveries && db'.placements == db.placements
  {
  }

  lemma SameRows(sys: Sys, db': Db)
    requires Invariant(sys) && Sane(db') && db'.deliveries == sys.db.deliveries && db'.placements == sys.db.placements
    ensures Invariant(sys.(db := db'))
  {
    hide Sane, Good;
  }

  lemma QueueKeeps(sys: Sys, d: nat, t: nat)
    requires Invariant(sys) && t in sys.db.targets
    ensures Invariant(sys.(db := QueueDelivery(sys.db, d, t)))
  {
    if d !in sys.db.deliveries {
      InvariantIsSane(sys);
      QueueSane(sys.db, d, t);
      NewIsGood(t);
      SaneIsConsistent(sys.db);
      NewIsUnplaced(sys.db, d);
      hide Invariant, Sane, Consistent, Good, StatusAt;
      JoinKeeps(sys, d, Delivery(t, Pending, 0, None, "", "", "", []));
    }
  }

  lemma JoinKeeps(sys: Sys, d: nat, row: Delivery)
    requires Invariant(sys) && d !in sys.db.deliveries && StatusAt(sys.db, d) == None && Good(row, None, Idle, [])
    requires Sane(sys.db.(deliveries := sys.db.deliveries[d := row]))
    ensures Invariant(sys.(db := sys.db.(deliveries := sys.db.deliveries[d := row])))
  {
    hide Sane, Good;
  }

  lemma TargetSane(db: Db, t: nat, settings: Target)
    requires Sane(db)
    ensures Sane(db.(targets := db.targets[t := settings]))
  {
    TotalsSame(db, db.(targets := db.targets[t := settings]));
    hide WithinTotals;
  }

  lemma NewIsUnplaced(db: Db, d: nat)
    requires Consistent(db) && d !in db.deliveries
    ensures StatusAt(db, d) == None
  {
  }

  lemma NewIsGood(t: nat)
    ensures Good(Delivery(t, Pending, 0, None, "", "", "", []), None, Idle, [])
  {
  }

  /** Every step of every run keeps the invariant. */
  lemma StepKeeps(sys: Sys, action: Action)
    requires Invariant(sys) && Step(sys, action).Some?
    ensures Invariant(Step(sys, action).value)
  {
    hide Invariant;
    if action.Act? { ActKeeps(sys, action.delivery, action.move); } else { OtherStepsKeep(sys, action); }
  }

  lemma {:induction false} RunKeeps(sys: Sys, actions: seq<Action>)
    requires Invariant(sys) && Run(sys, actions).Some?
    ensures Invariant(Run(sys, actions).value)
    decreases |actions|
  {
    hide Invariant, Step;
    if actions != [] {
      StepKeeps(sys, actions[0]);
      RunKeeps(Step(sys, actions[0]).value, actions[1..]);
    }
  }

  ghost predicate Reachable(sys: Sys) {
    exists actions :: Run(START, actions) == Some(sys)
  }

  lemma ReachableKeeps(sys: Sys)
    requires Reachable(sys)
    ensures Invariant(sys)
  {
    var actions :| Run(START, actions) == Some(sys);
    RunKeeps(START, actions);
  }

  // ---------------------------------------------------------------- the promises

  /** A post in the channel: the request of a delivery that published it. */
  datatype Post = Post(delivery: nat, request: nat)

  /** The posts in the channel that carry an advertisement of the campaign. */
  function AdPosts(sys: Sys, c: nat): set<Post> {
    set d, k | d in sys.db.placements && sys.db.placements[d].campaign == c && 0 <= k < |sys.Log(d)|
      && sys.Log(d)[k].published
      :: Post(d, k)
  }

  lemma PostTakes(sys: Sys, c: nat, post: Post)
    requires Invariant(sys) && post in AdPosts(sys, c)
    ensures post.delivery in Taken(sys.db.placements, c) && post.request == |sys.Log(post.delivery)| - 1
    ensures sys.db.placements[post.delivery].status != Reserved
  {
    var d := post.delivery;
    SaneAt(sys.db, d);
    hide Sane;
    var log := sys.Log(d);
    assert Good(sys.db.deliveries[d], StatusAt(sys.db, d), sys.Worker(d), log);
    assert log[post.request] in log;
  }

  /** A set whose members have distinct deliveries in `ds` is no larger than `ds`. */
  lemma {:induction false} NoMorePosts(posts: set<Post>, ds: set<nat>)
    requires forall p <- posts :: p.delivery in ds
    requires forall p, q :: p in posts && q in posts && p.delivery == q.delivery ==> p == q
    ensures |posts| <= |ds|
  {
    if posts != {} {
      var p :| p in posts;
      NoMorePosts(posts - {p}, ds - {p.delivery});
    }
  }

  /** In every run no campaign gets more posts than it has: neither in the channel nor in its placements. */
  lemma PostsNeverExceedTotal(sys: Sys, c: nat)
    requires Reachable(sys) && c in sys.db.campaigns
    ensures |AdPosts(sys, c)| <= |Taken(sys.db.placements, c)| <= sys.db.campaigns[c].total
    ensures sys.db.campaigns[c].enabled ==> |Published(sys.db.placements, c)| < sys.db.campaigns[c].total
  {
    ReachableKeeps(sys);
    forall p | p in AdPosts(sys, c)
      ensures p.delivery in Taken(sys.db.placements, c) && p.request == |sys.Log(p.delivery)| - 1 {
      PostTakes(sys, c, p);
    }
    NoMorePosts(AdPosts(sys, c), Taken(sys.db.placements, c));
  }

  /** In every reachable state the two statuses of an advertised delivery agree. */
  lemma StatusesAgree(sys: Sys, d: nat)
    requires Reachable(sys) && d in sys.db.placements
    ensures d in sys.db.deliveries
    ensures sys.db.placements[d].status == PlacementStatus.Sent <==> sys.db.deliveries[d].status == DeliveryStatus.Sent
    ensures sys.db.placements[d].status == PlacementStatus.Uncertain
      <==> sys.db.deliveries[d].status == DeliveryStatus.Uncertain
    ensures sys.db.placements[d].status == PlacementStatus.Sent ==> exists r <- sys.Log(d) :: r.published
  {
    ReachableKeeps(sys);
    SaneAt(sys.db, d);
    assert Good(sys.db.deliveries[d], StatusAt(sys.db, d), sys.Worker(d), sys.Log(d));
  }

  /** Every request ever made for a delivery carried the same text and entities: those frozen in its row. */
  lemma RequestsCarryFrozenMessage(sys: Sys, d: nat, i: nat, j: nat)
    requires Reachable(sys) && d in sys.db.deliveries && i < |sys.Log(d)| && j < |sys.Log(d)|
    ensures sys.Log(d)[i].content == sys.Log(d)[j].content
      == Advert(sys.db.deliveries[d].text, sys.db.deliveries[d].entities)
  {
    ReachableKeeps(sys);
    assert Good(sys.db.deliveries[d], StatusAt(sys.db, d), sys.Worker(d), sys.Log(d));
    assert sys.Log(d)[i] in sys.Log(d) && sys.Log(d)[j] in sys.Log(d);
  }

  lemma PlacedIsDelivery(sys: Sys, d: nat)
    requires Invariant(sys) && d in sys.db.placements
    ensures d in sys.db.deliveries
  {
  }

  lemma SendBegan(sys: Sys, d: nat, answer: Answer, published: bool)
    requires Step(sys, Act(d, Send(answer, published))).Some?
    ensures sys.Worker(d).Began?
  {
  }

  /** A worker that is about to ask holds a placement that is sending, with every earlier request settled. */
  lemma BeganIsSettled(l: Local, d: nat)
    requires Fine(l, d) && l.pc.Began? && d in l.db.placements
    ensures l.db.placements[d].status == Sending
    ensures forall r <- l.log :: (r.verdict == Refused || r.verdict == Absent) && !r.published
  {
    hide Sane;
  }

  /** A request that may have been published leaves the placement sending, uncertain or sent. */
  lemma DoubtIsHeld(l: Local, d: nat)
    requires Fine(l, d) && d in l.db.placements && exists r <- l.log :: r.verdict == Unknown || r.verdict == Confirmed
    ensures !MaySend(l.db, d) && !l.pc.Began? && l.db.placements[d].status != Released
  {
    hide Sane;
  }

  /** A new request for an advertised delivery is made only when every earlier one was refused or found absent. */
  lemma NoRequestAfterDoubt(sys: Sys, d: nat, answer: Answer, published: bool)
    requires Reachable(sys) && d in sys.db.placements && Step(sys, Act(d, Send(answer, published))).Some?
    ensures forall r <- sys.Log(d) :: (r.verdict == Refused || r.verdict == Absent) && !r.published
    ensures sys.db.placements[d].status == Sending
  {
    ReachableKeeps(sys);
    SendBegan(sys, d, answer, published);
    PlacedIsDelivery(sys, d);
    FineAt(sys, d);
    BeganIsSettled(Local(sys.db, sys.Worker(d), sys.Log(d)), d);
    hide *;
  }

  /**
   While a request may be in the channel the placement blocks sending, whatever crashed, until an operator decides.
   */
  lemma DoubtBlocksSending(sys: Sys, d: nat)
    requires Reachable(sys) && d in sys.db.placements && exists r <- sys.Log(d) ::
      r.verdict == Unknown || r.verdict == Confirmed
    ensures d in sys.db.deliveries
    ensures sys.db.placements[d].status == Sending || sys.db.placements[d].status == PlacementStatus.Uncertain
         || sys.db.placements[d].status == PlacementStatus.Sent
    ensures !MaySend(sys.db, d)
    ensures !sys.Worker(d).Began?
  {
    ReachableKeeps(sys);
    PlacedIsDelivery(sys, d);
    FineAt(sys, d);
    DoubtIsHeld(Local(sys.db, sys.Worker(d), sys.Log(d)), d);
    hide Invariant, Fine, Reachable;
  }

  // ---------------------------------------------------------------- what never changes again

  /** What is sent stays sent, and a frozen message stays as it is. */
  ghost predicate Faithful(db: Db, db': Db, d: nat) {
    && d in db.deliveries && d in db'.deliveries
    && (db.deliveries[d].status == DeliveryStatus.Sent ==> db'.deliveries[d] == db.deliveries[d])
    && (db.deliveries[d].text != "" ==> SameText(db, db', d))
    && (StatusAt(db, d) == Some(PlacementStatus.Sent) ==> StatusAt(db', d) == Some(PlacementStatus.Sent))
  }

  lemma FineAt(sys: Sys, d: nat)
    requires Invariant(sys) && d in sys.db.deliveries
    ensures Fine(Local(sys.db, sys.Worker(d), sys.Log(d)), d)
  {
  }

  lemma OthersFaithful(l: Local, e: nat, move: Move, d: nat)
    requires Fine(l, e) && d in l.db.deliveries && d != e
    requires Consistent(l.db) && LocalStep(l, e, move).Some?
    ensures Faithful(l.db, LocalStep(l, e, move).value.db, d)
  {
    KeepsLocal(l, e, move);
    hide LocalStep, Sane, Good;
  }

  lemma OwnFaithful(l: Local, d: nat, move: Move)
    requires Fine(l, d) && Consistent(l.db) && LocalStep(l, d, move).Some?
    ensures Faithful(l.db, LocalStep(l, d, move).value.db, d)
  {
    KeepsLocal(l, d, move);
    SaneRow(l.db, d);
    if l.db.deliveries[d].status == DeliveryStatus.Sent { SentStays(l, d, move); }
    if l.db.deliveries[d].text != "" { TextStays(l, d, move); }
    hide LocalStep, Sane, Good, Consistent;
  }

  lemma ActIsFaithful(sys: Sys, e: nat, move: Move, d: nat)
    requires Invariant(sys) && e in sys.db.deliveries && d in sys.db.deliveries
    requires Consistent(sys.db) && LocalStep(Local(sys.db, sys.Worker(e), sys.Log(e)), e, move).Some?
    ensures Faithful(sys.db, LocalStep(Local(sys.db, sys.Worker(e), sys.Log(e)), e, move).value.db, d)
  {
    hide Invariant, LocalStep, Consistent, Faithful, Fine;
    var l := Local(sys.db, sys.Worker(e), sys.Log(e));
    FineAt(sys, e);
    if d == e { OwnFaithful(l, d, move); } else { OthersFaithful(l, e, move, d); }
  }

  lemma StepIsFaithful(sys: Sys, action: Action, d: nat)
    requires Invariant(sys) && d in sys.db.deliveries && Step(sys, action).Some?
    ensures Faithful(sys.db, Step(sys, action).value.db, d)
  {
    hide Invariant, LocalStep, AdDelivery.SaveCampaign, Consistent, Publishable;
    match action
    case Act(e, move) =>
      ActIsFaithful(sys, e, move, d);
      hide Faithful;
    case SaveCampaign(c, row, rules) => SaveShape(sys.db, c, row, Publishable(rules, row.copy));
    case SaveTarget(_, _) =>
    case Queue(_, _) =>
  }

  /** Along every run what is sent stays sent and what is frozen stays frozen. */
  lemma {:induction false} RunIsFaithful(sys: Sys, actions: seq<Action>, d: nat)
    requires Invariant(sys) && d in sys.db.deliveries && Run(sys, actions).Some?
    ensures Faithful(sys.db, Run(sys, actions).value.db, d)
    decreases |actions|
  {
    hide Invariant, Step, StatusAt;
    if actions != [] {
      StepKeeps(sys, actions[0]);
      StepIsFaithful(sys, actions[0], d);
      RunIsFaithful(Step(sys, actions[0]).value, actions[1..], d);
    }
  }
}
