/** The two spending ledgers for X requests: one per week and one per historical fill, sharing their reservations. */
module NewsBudget {
  import opened Text

  const FILL_LIMIT: real := 2.0
  const WEEKLY_CAP: real := 10.0
  const NORMAL_SHARE: real := 0.8
  const RESOURCE_PRICE: real := 0.005
  const PAGE_SIZE := 10
  const PAGE_PRICE: real := 0.05

  datatype UsageStatus = Reserved | Uncertain | Counted

  datatype Usage = Usage(week: int, fill: Option<nat>, reserved: real, charged: real, resources: int,
                         status: UsageStatus) {
    /** What the usage weighs in its ledgers. */
    function Charge(): real { if status == Counted then charged else reserved }
  }

  datatype Period = Period(committed: real, limit: real)

  datatype Fill = Fill(committed: real, collecting: bool, expiresAt: int)

  /** Usages are numbered in the order in which they were made. */
  datatype Ledger = Ledger(periods: map<int, Period>, fills: map<nat, Fill>, usages: seq<Usage>)

  datatype Demand = Demand(week: int, now: int, weeklyLimit: real, maximum: real, priority: bool, fill: Option<nat>)

  datatype Failure = Exhausted | OutOfRange

  function Min(a: real, b: real): real {
    if a <= b then a else b
  }

  function Limit(d: Demand): real {
    Min(d.weeklyLimit, WEEKLY_CAP)
  }

  /** Requests that are neither urgent nor part of a fill stop earlier. */
  function Ceiling(d: Demand): real {
    if !d.priority && d.fill.None? then Limit(d) * NORMAL_SHARE else Limit(d)
  }

  function WeekTotal(l: Ledger, week: int): real {
    if week in l.periods then l.periods[week].committed else 0.0
  }

  predicate FillAllows(l: Ledger, d: Demand)
    requires d.fill.Some? ==> d.fill.value in l.fills
  {
    d.fill.Some? ==>
      var run := l.fills[d.fill.value];
      run.collecting && run.expiresAt > d.now && run.committed + d.maximum <= FILL_LIMIT
  }

  function Add(fills: map<nat, Fill>, fill: Option<nat>, amount: real): map<nat, Fill>
    requires fill.Some? ==> fill.value in fills
  {
    if fill.None? then fills
    else fills[fill.value := fills[fill.value].(committed := fills[fill.value].committed + amount)]
  }

  function Reserving(l: Ledger, d: Demand): Result<Ledger, Failure>
    requires d.fill.Some? ==> d.fill.value in l.fills
  {
    if !FillAllows(l, d) then Err(Exhausted)
    else if d.maximum <= 0.0 || WeekTotal(l, d.week) + d.maximum > Ceiling(d) then Err(Exhausted)
    else
      Ok(Ledger(l.periods[d.week := Period(WeekTotal(l, d.week) + d.maximum, Limit(d))],
                Add(l.fills, d.fill, d.maximum),
                l.usages + [Usage(d.week, d.fill, d.maximum, 0.0, 0, Reserved)]))
  }

  function Settling(l: Ledger, id: nat, resources: Option<int>): Result<Ledger, Failure>
    requires id < |l.usages|
    requires l.usages[id].week in l.periods && (l.usages[id].fill.Some? ==> l.usages[id].fill.value in l.fills)
  {
    var u := l.usages[id];
    if u.status != Reserved then Ok(l)
    else if resources.None? then Ok(l.(usages := l.usages[id := u.(status := Uncertain)]))
    else
      var actual := resources.value as real * RESOURCE_PRICE;
      if actual < 0.0 || actual > u.reserved then Err(OutOfRange)
      else
        var p := l.periods[u.week];
        Ok(Ledger(l.periods[u.week := p.(committed := p.committed + (actual - u.reserved))],
                  Add(l.fills, u.fill, actual - u.reserved),
                  l.usages[id := u.(charged := actual, resources := resources.value, status := Counted)]))
  }

  // ---------------------------------------------------------------- when a grant is given

  /**
   The part of the week's limit, at most ten dollars, that a request may use up: all of it if urgent or for a fill.
   */
  ghost predicate WithinWeek(spent: real, d: Demand) {
    && (d.priority || d.fill.Some? ==> spent + d.maximum <= d.weeklyLimit && spent + d.maximum <= 10.0)
    && (!d.priority && d.fill.None? ==>
          (spent + d.maximum) * 5.0 <= d.weeklyLimit * 4.0 && (spent + d.maximum) * 5.0 <= 40.0)
  }

  /** A fill that collects, is not out of date and stays within two dollars. */
  ghost predicate WithinFill(run: Fill, d: Demand) {
    run.collecting && d.now < run.expiresAt && run.committed + d.maximum <= 2.0
  }

  /**
   A request for something is granted exactly when the week and, for a fill, the fill have room for it. The grant adds
   to these two and to the usages, and changes nothing else.
   */
  lemma GrantedExactly(l: Ledger, d: Demand)
    requires d.fill.Some? ==> d.fill.value in l.fills
    ensures var spent := if d.week in l.periods then l.periods[d.week].committed else 0.0;
      && (Reserving(l, d).Ok? <==>
            d.maximum > 0.0 && WithinWeek(spent, d) && (d.fill.Some? ==> WithinFill(l.fills[d.fill.value], d)))
      && (Reserving(l, d).Ok? ==> var l' := Reserving(l, d).value;
            && l'.usages == l.usages + [Usage(d.week, d.fill, d.maximum, 0.0, 0, Reserved)]
            && l'.periods.Keys == l.periods.Keys + {d.week}
            && (forall w <- l.periods :: w != d.week ==> l'.periods[w] == l.periods[w])
            && l'.periods[d.week] == Period(spent + d.maximum, if d.weeklyLimit <= 10.0 then d.weeklyLimit else 10.0)
            && l'.fills.Keys == l.fills.Keys
            && forall f <- l.fills :: l'.fills[f]
                 == if d.fill == Some(f) then l.fills[f].(committed := l.fills[f].committed + d.maximum)
                    else l.fills[f])
  {
  }

  /**
   A reservation is settled once: left charged in full if what was delivered is unknown, or charged half a cent for each
   resource, which cannot be more than what was reserved. What was reserved too much returns to the week and the fill.
   */
  lemma SettledExactly(l: Ledger, id: nat, resources: Option<int>)
    requires id < |l.usages| && l.usages[id].week in l.periods
      && (l.usages[id].fill.Some? ==> l.usages[id].fill.value in l.fills)
    ensures var u, r := l.usages[id], Settling(l, id, resources);
      if !u.status.Reserved? then r == Ok(l)
      else if resources.None? then r == Ok(l.(usages := l.usages[id := u.(status := Uncertain)]))
      else
        var actual, back := resources.value as real / 200.0, u.reserved - resources.value as real / 200.0;
        && (r.Ok? <==> 0.0 <= actual <= u.reserved)
        && (r.Ok? ==>
              && r.value.usages == l.usages[id := u.(charged := actual, resources := resources.value,
                                                     status := Counted)]
              && r.value.periods
                   == l.periods[u.week := l.periods[u.week].(committed := l.periods[u.week].committed - back)]
              && r.value.fills.Keys == l.fills.Keys
              && forall f <- l.fills :: r.value.fills[f]
                   == if u.fill == Some(f) then l.fills[f].(committed := l.fills[f].committed - back) else l.fills[f])
  {
  }

  // ---------------------------------------------------------------- conservation

  /** What the usages of a week weigh together. */
  function SpentInWeek(usages: seq<Usage>, week: int): real {
    if usages == [] then 0.0
    else
      var u := usages[|usages| - 1];
      SpentInWeek(usages[..|usages| - 1], week) + if u.week == week then u.Charge() else 0.0
  }

  function SpentInFill(usages: seq<Usage>, fill: nat): real {
    if usages == [] then 0.0
    else
      var u := usages[|usages| - 1];
      SpentInFill(usages[..|usages| - 1], fill) + if u.fill == Some(fill) then u.Charge() else 0.0
  }

  ghost predicate Referenced(l: Ledger) {
    forall u <- l.usages ::
      u.week in l.periods && (u.fill.Some? ==> u.fill.value in l.fills) && 0.0 <= u.charged <= u.reserved
  }

  /** Both ledgers say exactly what their usages weigh, and neither is over its cap. */
  ghost predicate Balanced(l: Ledger) {
    && Referenced(l)
    && (forall w <- l.periods :: l.periods[w].committed == SpentInWeek(l.usages, w) <= WEEKLY_CAP)
    && (forall w :: w !in l.periods ==> SpentInWeek(l.usages, w) == 0.0)
    && (forall f <- l.fills :: l.fills[f].committed == SpentInFill(l.usages, f) <= FILL_LIMIT)
  }

  lemma SpentSnoc(usages: seq<Usage>, u: Usage, week: int, fill: nat)
    ensures SpentInWeek(usages + [u], week) == SpentInWeek(usages, week) + if u.week == week then u.Charge() else 0.0
    ensures SpentInFill(usages + [u], fill)
      == SpentInFill(usages, fill) + if u.fill == Some(fill) then u.Charge() else 0.0
  {
    assert (usages + [u])[..|usages|] == usages;
  }

  /** Replacing a usage by one of the same week and fill moves both sums by the difference of the charges. */
  lemma {:induction false} SpentUpdate(usages: seq<Usage>, id: nat, u: Usage, week: int, fill: nat)
    requires id < |usages| && u.week == usages[id].week && u.fill == usages[id].fill
    ensures SpentInWeek(usages[id := u], week)
      == SpentInWeek(usages, week) + if u.week == week then u.Charge() - usages[id].Charge() else 0.0
    ensures SpentInFill(usages[id := u], fill)
      == SpentInFill(usages, fill) + if u.fill == Some(fill) then u.Charge() - usages[id].Charge() else 0.0
  {
    var n := |usages| - 1;
    var usages' := usages[id := u];
    if id == n {
      assert usages'[..n] == usages[..n];
    } else {
      assert usages'[..n] == usages[..n][id := u];
      SpentUpdate(usages[..n], id, u, week, fill);
    }
  }

  lemma {:induction false} SpendingPositive(usages: seq<Usage>, week: int)
    requires forall u <- usages :: u.reserved >= 0.0 && u.charged >= 0.0
    ensures SpentInWeek(usages, week) >= 0.0
  {
    if usages != [] { SpendingPositive(usages[..|usages| - 1], week); }
  }

  lemma NoSpending(l: Ledger, fill: nat)
    requires Referenced(l) && fill !in l.fills
    ensures SpentInFill(l.usages, fill) == 0.0
  {
    NotInFill(l.usages, fill);
  }

  lemma {:induction false} NotInFill(usages: seq<Usage>, fill: nat)
    requires forall u <- usages :: u.fill != Some(fill)
    ensures SpentInFill(usages, fill) == 0.0
  {
    if usages != [] { NotInFill(usages[..|usages| - 1], fill); }
  }

  /** A grant is exactly booked in its week and its fill, and within the ceilings. */
  lemma ReserveBalances(l: Ledger, d: Demand)
    requires Balanced(l) && (d.fill.Some? ==> d.fill.value in l.fills) && Reserving(l, d).Ok?
    ensures var l' := Reserving(l, d).value;
      && Balanced(l')
      && l'.periods[d.week].committed == WeekTotal(l, d.week) + d.maximum <= l'.periods[d.week].limit <= WEEKLY_CAP
      && (!d.priority && d.fill.None? ==> l'.periods[d.week].committed <= l'.periods[d.week].limit * NORMAL_SHARE)
  {
    var u := Usage(d.week, d.fill, d.maximum, 0.0, 0, Reserved);
    SpendingPositive(l.usages, d.week);
    forall w
      ensures SpentInWeek(l.usages + [u], w) == SpentInWeek(l.usages, w) + if d.week == w then d.maximum else 0.0
    {
      SpentSnoc(l.usages, u, w, 0);
    }
    forall f: nat
      ensures SpentInFill(l.usages + [u], f) == SpentInFill(l.usages, f) + if d.fill == Some(f) then d.maximum else 0.0
    {
      SpentSnoc(l.usages, u, 0, f);
    }
    hide SpentInWeek, SpentInFill;
  }

  /** Settling keeps the books, never raises a total, and the second time changes nothing. */
  lemma SettleBalances(l: Ledger, id: nat, resources: Option<int>, again: Option<int>)
    requires Balanced(l) && id < |l.usages|
    ensures l.usages[id].week in l.periods && (l.usages[id].fill.Some? ==> l.usages[id].fill.value in l.fills)
    ensures Settling(l, id, resources).Ok? ==>
      var l' := Settling(l, id, resources).value;
      && Balanced(l') && |l'.usages| == |l.usages|
      && l'.usages[id].status != Reserved
      && l'.periods.Keys == l.periods.Keys && l'.fills.Keys == l.fills.Keys
      && (forall w <- l.periods :: l'.periods[w].committed <= l.periods[w].committed)
      && (forall f <- l.fills :: l'.fills[f].committed <= l.fills[f].committed)
      && l'.usages[id].week in l'.periods && (l'.usages[id].fill.Some? ==> l'.usages[id].fill.value in l'.fills)
      && Settling(l', id, again) == Ok(l')
  {
    var u := l.usages[id];
    assert u in l.usages;
    if Settling(l, id, resources).Ok? && u.status == Reserved {
      var l' := Settling(l, id, resources).value;
      ChargeMoves(l, l', id, l'.usages[id]);
    }
  }

  /** Books in which one usage weighs less, by as much as its week and its fill. */
  lemma ChargeMoves(l: Ledger, l': Ledger, id: nat, u': Usage)
    requires Balanced(l) && id < |l.usages|
    requires var u := l.usages[id];
      && u'.week == u.week && u'.fill == u.fill && 0.0 <= u'.charged <= u'.reserved && u'.Charge() <= u.Charge()
      && u.week in l.periods && (u.fill.Some? ==> u.fill.value in l.fills)
      && l'.usages == l.usages[id := u']
      && l'.periods.Keys == l.periods.Keys
      && (forall w <- l.periods :: l'.periods[w].committed
            == l.periods[w].committed + if w == u.week then u'.Charge() - u.Charge() else 0.0)
      && l'.fills.Keys == l.fills.Keys
      && (forall f <- l.fills :: l'.fills[f].committed
            == l.fills[f].committed + if Some(f) == u.fill then u'.Charge() - u.Charge() else 0.0)
    ensures Balanced(l')
  {
    var u := l.usages[id];
    forall w
      ensures SpentInWeek(l'.usages, w)
        == SpentInWeek(l.usages, w) + if u.week == w then u'.Charge() - u.Charge() else 0.0
    {
      SpentUpdate(l.usages, id, u', w, 0);
    }
    forall f: nat
      ensures SpentInFill(l'.usages, f)
        == SpentInFill(l.usages, f) + if u.fill == Some(f) then u'.Charge() - u.Charge() else 0.0
    {
      SpentUpdate(l.usages, id, u', 0, f);
    }
    hide SpentInWeek, SpentInFill;
    forall x | x in l'.usages
      ensures x.week in l'.periods && (x.fill.Some? ==> x.fill.value in l'.fills) && 0.0 <= x.charged <= x.reserved {
      assert x == u' || x in l.usages;
    }
  }

  /** A page's worth of resources can always be settled against a page's reservation. */
  lemma PageSettles(l: Ledger, id: nat, count: nat)
    requires Balanced(l) && id < |l.usages| && l.usages[id].reserved == PAGE_PRICE && count <= PAGE_SIZE
    ensures l.usages[id].week in l.periods && (l.usages[id].fill.Some? ==> l.usages[id].fill.value in l.fills)
    ensures Settling(l, id, Some(count)).Ok?
  {
    assert l.usages[id] in l.usages;
  }

  // ---------------------------------------------------------------- any history

  datatype Operation =
    | Grant(demand: Demand)
    | Close(id: nat, resources: Option<int>)
    | StartFill(fill: nat, expiresAt: int)
    | ChangeFill(fill: nat, collecting: bool, expiresAt: int)

  /** A refused operation changes nothing. */
  function Perform(l: Ledger, op: Operation): Ledger {
    match op
    case Grant(d) =>
      if d.fill.Some? && d.fill.value !in l.fills then l
      else if Reserving(l, d).Ok? then Reserving(l, d).value else l
    case Close(id, resources) =>
      if id >= |l.usages| || l.usages[id].week !in l.periods
        || (l.usages[id].fill.Some? && l.usages[id].fill.value !in l.fills) then l
      else if Settling(l, id, resources).Ok? then Settling(l, id, resources).value else l
    case StartFill(f, expiresAt) => if f in l.fills then l else l.(fills := l.fills[f := Fill(0.0, true, expiresAt)])
    case ChangeFill(f, collecting, expiresAt) =>
      if f in l.fills then l.(fills := l.fills[f := Fill(l.fills[f].committed, collecting, expiresAt)]) else l
  }

  function PerformAll(l: Ledger, ops: seq<Operation>): Ledger
    decreases |ops|
  {
    if ops == [] then l else PerformAll(Perform(l, ops[0]), ops[1..])
  }

  lemma PerformBalances(l: Ledger, op: Operation)
    requires Balanced(l)
    ensures Balanced(Perform(l, op))
  {
    match op
    case Grant(d) =>
      if (d.fill.Some? ==> d.fill.value in l.fills) && Reserving(l, d).Ok? { ReserveBalances(l, d); }
    case Close(id, resources) => if id < |l.usages| { SettleBalances(l, id, resources, None); }
    case StartFill(f, expiresAt) => if f !in l.fills { NoSpending(l, f); }
    case ChangeFill(f, collecting, expiresAt) =>
  }

  /** Whatever the sequence of operations, the ledgers balance and stay under their caps. */
  lemma {:induction false} LedgersConserve(l: Ledger, ops: seq<Operation>)
    requires Balanced(l)
    ensures Balanced(PerformAll(l, ops))
    decreases |ops|
  {
    hide Balanced, Perform;
    if ops != [] {
      PerformBalances(l, ops[0]);
      LedgersConserve(Perform(l, ops[0]), ops[1..]);
    }
  }

  lemma EmptyBalances()
    ensures Balanced(Ledger(map[], map[], []))
  {
  }

  // ---------------------------------------------------------------- the store

  datatype PageOutcome = Page(count: nat, profiles: bool) | Malformed | Broken

  class Budget {
    var periods: map<int, Period>
    var fills: map<nat, Fill>
    var usages: seq<Usage>

    function Books(): Ledger
      reads this
    {
      Ledger(periods, fills, usages)
    }

    method Reserve(d: Demand) returns (id: Option<nat>)
      requires d.fill.Some? ==> d.fill.value in fills
      modifies this
      ensures match id
        case None => Reserving(old(Books()), d) == Err(Exhausted) && Books() == old(Books())
        case Some(i) => Reserving(old(Books()), d) == Ok(Books()) && i == |old(usages)| && |usages| == i + 1
    {
      if d.fill.Some? {
        var run := fills[d.fill.value];
        if !run.collecting || run.expiresAt <= d.now || run.committed + d.maximum > FILL_LIMIT {
          return None;
        }
      }
      var committed := if d.week in periods then periods[d.week].committed else 0.0;
      var limit := Min(d.weeklyLimit, WEEKLY_CAP);
      var ceiling := limit;
      if !d.priority && d.fill.None? {
        ceiling := ceiling * NORMAL_SHARE;
      }
      if d.maximum <= 0.0 || committed + d.maximum > ceiling {
        return None;
      }
      periods := periods[d.week := Period(committed + d.maximum, limit)];
      if d.fill.Some? {
        var run := fills[d.fill.value];
        fills := fills[d.fill.value := run.(committed := run.committed + d.maximum)];
      }
      id := Some(|usages|);
      usages := usages + [Usage(d.week, d.fill, d.maximum, 0.0, 0, Reserved)];
    }

    method Settle(id: nat, resources: Option<int>) returns (ok: bool)
      requires id < |usages| && usages[id].week in periods && (usages[id].fill.Some? ==> usages[id].fill.value in fills)
      modifies this
      ensures if ok then Settling(old(Books()), id, resources) == Ok(Books())
        else Settling(old(Books()), id, resources) == Err(OutOfRange) && Books() == old(Books())
    {
      var u := usages[id];
      if u.status != Reserved {
        return true;
      }
      if resources.None? {
        usages := usages[id := u.(status := Uncertain)];
        return true;
      }
      var actual := resources.value as real * RESOURCE_PRICE;
      if actual < 0.0 || actual > u.reserved {
        return false;
      }
      if u.fill.Some? {
        var run := fills[u.fill.value];
        fills := fills[u.fill.value := run.(committed := run.committed + (actual - u.reserved))];
      }
      var period := periods[u.week];
      periods := periods[u.week := period.(committed := period.committed + (actual - u.reserved))];
      usages := usages[id := u.(charged := actual, resources := resources.value, status := Counted)];
      return true;
    }

    /**
     One page: reserved before the request, settled after it whatever happens. Only a page in order is counted at its
     size; anything else stays charged in full. The result says whether there is a page.
     */
    method FetchPage(d: Demand, outcome: PageOutcome) returns (fetched: Option<bool>)
      requires Balanced(Books()) && d.maximum == 0.05 && (d.fill.Some? ==> d.fill.value in fills)
      modifies this
      ensures Balanced(Books())
      ensures fetched.None? <==> Reserving(old(Books()), d).Err?
      ensures fetched.None? ==> Books() == old(Books())
      ensures fetched.Some? ==> |usages| == |old(usages)| + 1 && usages[..|old(usages)|] == old(usages)
      ensures fetched.Some? ==> var u := usages[|old(usages)|];
        && u.week == d.week && u.fill == d.fill
        && (fetched.value <==> outcome.Page? && outcome.count <= 10 && !outcome.profiles)
        && u.status == (if fetched.value then Counted else Uncertain)
        && u.Charge() == if fetched.value then outcome.count as real * 0.005 else 0.05
    {
      hide Balanced;
      var id := Reserve(d);
      if id.None? {
        return None;
      }
      ReserveBalances(old(Books()), d);
      var fine := outcome.Page? && outcome.count <= PAGE_SIZE && !outcome.profiles;
      SettleBalances(Books(), id.value, if fine then Some(outcome.count) else None, None);
      if fine { PageSettles(Books(), id.value, outcome.count); }
      var settled := Settle(id.value, if fine then Some(outcome.count) else None);
      return Some(fine);
    }
  }
}
