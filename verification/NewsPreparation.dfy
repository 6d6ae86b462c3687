/**
 Preparing a publication: numbered attempts under a lease, a paid cover that is requested once, and writes that are
 fenced by the attempt number. Any number of workers may be at it, slow ones included.
 */
module NewsPreparation {
  import opened Text

  datatype Status = Preparing | Ready | Blocked | Further

  /** The row of a publication; `history` tells those of a fill. */
  datatype Row = Row(
    status: Status, history: bool, attempts: nat, lease: Option<int>, nextAttempt: Option<int>, coverRequested: bool,
    media: bool)
  {
    function Limit(): nat { if history then 6 else 3 }
  }

  const LEASE := 1800
  const PAUSE := 300

  // ---------------------------------------------------------------- transactions

  datatype Claim = Refused | Exhausted | Attempt(number: nat)

  function Decide(row: Row, now: int, allowed: bool): Claim {
    if row.status != Preparing || !allowed then Refused
    else if row.lease.Some? && row.lease.value > now then Refused
    else if row.nextAttempt.Some? && row.nextAttempt.value > now then Refused
    else if row.attempts >= row.Limit() then Exhausted
    else Attempt(row.attempts + 1)
  }

  function Claimed(row: Row, now: int, allowed: bool): Row {
    match Decide(row, now, allowed)
    case Refused => row
    case Exhausted => row.(status := Blocked)
    case Attempt(number) => row.(attempts := number, lease := Some(now + LEASE))
  }

  datatype CoverClaim = HasMedia | Denied | Granted

  /** Whether the one paid cover may be requested now. */
  function DecideCover(row: Row, attempt: nat, allowed: bool): CoverClaim {
    if row.media then HasMedia
    else if row.status != Preparing || row.attempts != attempt || !allowed || row.coverRequested then Denied
    else Granted
  }

  function CoverClaimed(row: Row, attempt: nat, allowed: bool): Row {
    if DecideCover(row, attempt, allowed) == Granted then row.(coverRequested := true) else row
  }

  /** The attachments of the original post are kept, if it has any. */
  function Preserved(row: Row, attachments: bool): Row {
    row.(media := row.media || attachments)
  }

  function ImageSaved(row: Row): Row {
    row.(media := true)
  }

  /** The write that makes the publication ready, if it is still this attempt's. */
  function Finished(row: Row, attempt: nat): Row {
    if row.status == Preparing && row.attempts == attempt then row.(status := Ready, lease := None, nextAttempt := None)
    else row
  }

  /** The write after a failure: a cover problem or the last attempt blocks. */
  function Failed(row: Row, attempt: nat, cover: bool, now: int): Row {
    if row.status == Preparing && row.attempts == attempt then
      row.(status := if cover || attempt >= row.Limit() then Blocked else Preparing, lease := None,
           nextAttempt := Some(now + PAUSE))
    else row
  }

  // ---------------------------------------------------------------- many workers

  datatype Pc =
    | Idle | Writing(attempt: nat) | Preserving(attempt: nat) | Looking(attempt: nat) | Requesting(attempt: nat)
    | Generating(attempt: nat) | Saving(attempt: nat) | Finishing(attempt: nat) | Failing(attempt: nat, cover: bool)

  /** `generated` counts the calls of the paid image provider. */
  datatype Sys = Sys(row: Row, workers: map<nat, Pc>, generated: nat) {
    function Worker(w: nat): Pc { if w in workers then workers[w] else Idle }
  }

  datatype Action =
    | Take(now: int, allowed: bool)
    | Abandon
    | Write(ok: bool)
    | Preserve(attachments: bool, ok: bool)
    | Look(ok: bool, cover: bool)
    | AskCover(allowed: bool)
    | Generate(ok: bool)
    | SaveImage(ok: bool)
    | Finish
    | Fail(now: int)

  datatype Event = Work(worker: nat, action: Action) | Expire | MoveOn

  /**
   One worker's action: the new row, where the worker stands, and whether the provider was called. After the text the
   attachments of the original are kept; only without any media a cover is requested, and a cover whose sources
   changed fails.
   */
  function Acted(row: Row, pc: Pc, action: Action): Option<(Row, Pc, bool)> {
    match (pc, action)
    case (Idle, Take(now, allowed)) =>
      var decision := Decide(row, now, allowed);
      Some((Claimed(row, now, allowed), if decision.Attempt? then Writing(decision.number) else Idle, false))
    case (_, Abandon) => Some((row, Idle, false))
    case (Writing(a), Write(ok)) => Some((row, if ok then Preserving(a) else Failing(a, false), false))
    case (Preserving(a), Preserve(attachments, ok)) =>
      Some((Preserved(row, attachments), if ok then Looking(a) else Failing(a, false), false))
    case (Looking(a), Look(ok, cover)) =>
      Some((row, if !ok then Failing(a, cover) else if row.media then Finishing(a) else Requesting(a), false))
    case (Requesting(a), AskCover(allowed)) =>
      var pc' := match DecideCover(row, a, allowed)
        case HasMedia => Finishing(a)
        case Denied => Failing(a, true)
        case Granted => Generating(a);
      Some((CoverClaimed(row, a, allowed), pc', false))
    case (Generating(a), Generate(ok)) => Some((row, if ok then Saving(a) else Failing(a, true), true))
    case (Saving(a), SaveImage(ok)) =>
      if ok then Some((ImageSaved(row), Finishing(a), false)) else Some((row, Failing(a, true), false))
    case (Finishing(a), Finish) => Some((Finished(row, a), Idle, false))
    case (Failing(a, cover), Fail(now)) => Some((Failed(row, a, cover, now), Idle, false))
    case _ => None
  }

  /** A tick may block what is out of date; a ready publication goes on to be sent. */
  function Step(sys: Sys, event: Event): Option<Sys> {
    match event
    case Work(w, action) =>
      (match Acted(sys.row, sys.Worker(w), action)
       case None => None
       case Some((row, pc, paid)) => Some(Sys(row, sys.workers[w := pc], sys.generated + if paid then 1 else 0)))
    case Expire =>
      if sys.row.status == Preparing || sys.row.status == Ready then
        Some(sys.(row := sys.row.(status := Blocked, lease := None)))
      else None
    case MoveOn => if sys.row.status == Ready then Some(sys.(row := sys.row.(status := Further))) else None
  }

  function Run(sys: Sys, events: seq<Event>): Option<Sys>
    decreases |events|
  {
    if events == [] then Some(sys)
    else
      match Step(sys, events[0])
      case None => None
      case Some(sys') => Run(sys', events[1..])
  }

  // ---------------------------------------------------------------- the invariant

  predicate Holds(pc: Pc, number: nat) {
    !pc.Idle? && pc.attempt == number
  }

  /** Attempts stay within the limit, and a generated cover was requested. */
  ghost predicate GoodRow(row: Row, generated: nat) {
    row.attempts <= row.Limit() && generated <= 1 && (generated == 1 ==> row.coverRequested)
  }

  /** A worker holds a number that was given, and one about to call the provider holds the permission, unused. */
  ghost predicate GoodWorker(row: Row, pc: Pc, generated: nat) {
    && (!pc.Idle? ==> 1 <= pc.attempt <= row.attempts)
    && (pc.Generating? ==> row.coverRequested && generated == 0)
  }

  /** Two workers never hold the same number nor the same permission. */
  ghost predicate Apart(a: Pc, b: Pc) {
    && (!a.Idle? && !b.Idle? ==> a.attempt != b.attempt)
    && !(a.Generating? && b.Generating?)
  }

  ghost predicate Invariant(sys: Sys) {
    && GoodRow(sys.row, sys.generated)
    && (forall w: nat :: GoodWorker(sys.row, sys.Worker(w), sys.generated))
    && (forall v: nat, w: nat :: v != w ==> Apart(sys.Worker(v), sys.Worker(w)))
  }

  lemma ActedGood(row: Row, pc: Pc, action: Action, generated: nat)
    requires GoodRow(row, generated) && GoodWorker(row, pc, generated) && Acted(row, pc, action).Some?
    ensures var (row', pc', paid) := Acted(row, pc, action).value;
      var generated' := generated + if paid then 1 else 0;
      GoodRow(row', generated') && GoodWorker(row', pc', generated')
  {
  }

  lemma ActedApart(row: Row, pc: Pc, action: Action, generated: nat, other: Pc)
    requires GoodWorker(row, pc, generated) && GoodWorker(row, other, generated) && Apart(pc, other)
      && Acted(row, pc, action).Some?
    ensures var (row', pc', paid) := Acted(row, pc, action).value;
      GoodWorker(row', other, generated + if paid then 1 else 0) && Apart(pc', other)
  {
  }

  lemma WorkKeeps(sys: Sys, w: nat, action: Action)
    requires Invariant(sys) && Acted(sys.row, sys.Worker(w), action).Some?
    ensures Invariant(Step(sys, Work(w, action)).value)
  {
    var sys' := Step(sys, Work(w, action)).value;
    ActedGood(sys.row, sys.Worker(w), action, sys.generated);
    forall v: nat | v != w
      ensures sys'.Worker(v) == sys.Worker(v)
      ensures GoodWorker(sys'.row, sys'.Worker(v), sys'.generated) && Apart(sys'.Worker(w), sys'.Worker(v))
    {
      assert Apart(sys.Worker(w), sys.Worker(v));
      ActedApart(sys.row, sys.Worker(w), action, sys.generated, sys.Worker(v));
    }
    hide Acted, GoodRow, GoodWorker;
    forall u: nat, v: nat | u != v ensures Apart(sys'.Worker(u), sys'.Worker(v)) {
      if u != w && v != w { assert Apart(sys.Worker(u), sys.Worker(v)); }
    }
  }

  lemma StepKeeps(sys: Sys, event: Event)
    requires Invariant(sys) && Step(sys, event).Some?
    ensures Invariant(Step(sys, event).value)
  {
    match event
    case Work(w, action) =>
      WorkKeeps(sys, w, action);
      hide Invariant, Acted;
    case Expire => OutsideKeeps(sys, sys.row.(status := Blocked, lease := None));
    case MoveOn => OutsideKeeps(sys, sys.row.(status := Further));
  }

  lemma OutsideKeeps(sys: Sys, row: Row)
    requires Invariant(sys) && row == sys.row.(status := row.status, lease := row.lease)
    ensures Invariant(sys.(row := row))
  {
    var sys' := sys.(row := row);
    forall w: nat ensures sys'.Worker(w) == sys.Worker(w) && GoodWorker(row, sys'.Worker(w), sys'.generated) {
      assert GoodWorker(sys.row, sys.Worker(w), sys.generated);
    }
    forall u: nat, v: nat | u != v ensures Apart(sys'.Worker(u), sys'.Worker(v)) {
      assert Apart(sys.Worker(u), sys.Worker(v));
    }
  }

  lemma {:induction false} RunKeeps(sys: Sys, events: seq<Event>)
    requires Invariant(sys) && Run(sys, events).Some?
    ensures Invariant(Run(sys, events).value)
    decreases |events|
  {
    hide Invariant;
    if events != [] {
      StepKeeps(sys, events[0]);
      RunKeeps(Step(sys, events[0]).value, events[1..]);
    }
  }

  /** A publication as it is created. */
  function Created(history: bool): Sys {
    Sys(Row(Preparing, history, 0, None, None, false, false), map[], 0)
  }

  ghost predicate Reachable(sys: Sys) {
    exists history, events :: Run(Created(history), events) == Some(sys)
  }

  lemma ReachableKeeps(sys: Sys)
    requires Reachable(sys)
    ensures Invariant(sys)
  {
    var history, events :| Run(Created(history), events) == Some(sys);
    RunKeeps(Created(history), events);
  }

  // ---------------------------------------------------------------- the promises

  /** The paid cover is generated at most once, and no publication is attempted more often than its limit. */
  lemma OneCoverBoundedAttempts(sys: Sys)
    requires Reachable(sys)
    ensures sys.generated <= 1
    ensures sys.row.attempts <= if sys.row.history then 6 else 3
  {
    ReachableKeeps(sys);
  }

  lemma WorkersApart(sys: Sys, v: nat, w: nat)
    requires Invariant(sys)
    ensures v != w ==> Apart(sys.Worker(v), sys.Worker(w))
  {
  }

  /** Attempt numbers fence: no two workers hold the same one. */
  lemma NumbersAreExclusive(sys: Sys, v: nat, w: nat, number: nat)
    requires Reachable(sys) && Holds(sys.Worker(v), number) && Holds(sys.Worker(w), number)
    ensures v == w
  {
    ReachableKeeps(sys);
    WorkersApart(sys, v, w);
  }

  /**
   A publication leaves preparing only by the worker that holds the current number, or by a claim that finds the
   attempts used up, or by a tick that finds it out of date.
   */
  lemma OnlyCurrentAttemptDecides(sys: Sys, event: Event)
    requires Reachable(sys) && sys.row.status == Preparing && Step(sys, event).Some?
    requires Step(sys, event).value.row.status != Preparing
    ensures
      || (event.Work? && Holds(sys.Worker(event.worker), sys.row.attempts)
          && Step(sys, event).value.row.status == (if event.action.Finish? then Ready else Blocked))
      || (event.Work? && event.action.Take? && sys.row.attempts == sys.row.Limit()
          && Step(sys, event).value.row.status == Blocked)
      || (event.Expire? && Step(sys, event).value.row.status == Blocked)
  {
    ReachableKeeps(sys);
  }

  ghost predicate NotBack(sys: Sys, sys': Sys) {
    && (sys.row.status != Preparing ==> sys'.row.status != Preparing)
    && (sys.row.coverRequested ==> sys'.row.coverRequested) && (sys.row.media ==> sys'.row.media)
    && sys.row.attempts <= sys'.row.attempts && sys.generated <= sys'.generated
  }

  lemma StepNotBack(sys: Sys, event: Event)
    requires Step(sys, event).Some?
    ensures NotBack(sys, Step(sys, event).value)
  {
  }

  /** Along every run what left preparing never goes back, a used number is never given again, and media stay. */
  lemma {:induction false} NeverBack(sys: Sys, events: seq<Event>)
    requires Run(sys, events).Some?
    ensures NotBack(sys, Run(sys, events).value)
    decreases |events|
  {
    hide Step;
    if events != [] {
      StepNotBack(sys, events[0]);
      NeverBack(Step(sys, events[0]).value, events[1..]);
    }
  }

  // ---------------------------------------------------------------- one worker, from claim to result

  /**
   How the parts of an attempt go: the text, the original attachments, the check of old media, the provider, the
   storage.
   */
  datatype Luck = Luck(
    now: int, allowed: bool, written: bool, attachments: bool, preserved: bool, coverOk: bool, coverAllowed: bool,
    generated: bool, stored: bool)

  /** What one attempt alone at the row leaves, and whether it paid for a cover. */
  function Prepared(row: Row, luck: Luck): (Row, bool) {
    var claimed := Claimed(row, luck.now, luck.allowed);
    match Decide(row, luck.now, luck.allowed)
    case Attempt(n) =>
      if !luck.written || !luck.preserved then (Failed(claimed, n, false, luck.now), false)
      else
        var kept := Preserved(claimed, luck.attachments);
        if kept.media then (if luck.coverOk then Finished(kept, n) else Failed(kept, n, true, luck.now), false)
        else if DecideCover(kept, n, luck.coverAllowed) != Granted then (Failed(kept, n, true, luck.now), false)
        else
          var asked := CoverClaimed(kept, n, luck.coverAllowed);
          (if luck.generated && luck.stored then Finished(ImageSaved(asked), n) else Failed(asked, n, true, luck.now),
           true)
    case _ => (claimed, false)
  }

  class Preparation {
    var row: Row

    method ClaimAttempt(now: int, allowed: bool) returns (attempt: Option<nat>)
      modifies this
      ensures row == Claimed(old(row), now, allowed)
      ensures attempt == if Decide(old(row), now, allowed).Attempt? then Some(Decide(old(row), now, allowed).number)
                         else None
    {
      if row.status != Preparing || !allowed {
        return None;
      }
      if row.lease.Some? && row.lease.value > now {
        return None;
      }
      if row.nextAttempt.Some? && row.nextAttempt.value > now {
        return None;
      }
      var limit := if row.history then 6 else 3;
      if row.attempts >= limit {
        row := row.(status := Blocked);
        return None;
      }
      row := row.(attempts := row.attempts + 1);
      attempt := Some(row.attempts);
      row := row.(lease := Some(now + LEASE));
    }

    /** Asks for the one paid cover; `Denied` is the exception that blocks the publication. */
    method ClaimGeneration(attempt: nat, allowed: bool) returns (claim: CoverClaim)
      modifies this
      ensures row == CoverClaimed(old(row), attempt, allowed) && claim == DecideCover(old(row), attempt, allowed)
    {
      if row.media {
        return HasMedia;
      }
      if row.status != Preparing || row.attempts != attempt || !allowed {
        return Denied;
      }
      if row.coverRequested {
        return Denied;
      }
      row := row.(coverRequested := true);
      return Granted;
    }

    /** The cover: an old one is checked, a new one requested, generated and stored. `false` blocks the publication. */
    method EnsureCover(attempt: nat, luck: Luck) returns (ok: bool, paid: bool)
      modifies this
      ensures paid <==> DecideCover(old(row), attempt, luck.coverAllowed) == Granted
      ensures ok <==> if old(row).media then luck.coverOk else paid && luck.generated && luck.stored
      ensures row == if ok && paid then ImageSaved(CoverClaimed(old(row), attempt, luck.coverAllowed))
        else CoverClaimed(old(row), attempt, luck.coverAllowed)
    {
      if row.media {
        return luck.coverOk, false;
      }
      var claim := ClaimGeneration(attempt, luck.coverAllowed);
      if claim == HasMedia {
        return true, false;
      }
      if claim == Denied {
        return false, false;
      }
      if !luck.generated || !luck.stored {
        return false, true;
      }
      if !row.media {
        row := row.(media := true);
      }
      return true, true;
    }

    /** Keeps the attachments of the original, or fails without any. */
    method Preserve(luck: Luck) returns (ok: bool)
      modifies this
      ensures ok == luck.preserved && row == if ok then Preserved(old(row), luck.attachments) else old(row)
    {
      if luck.preserved && luck.attachments {
        row := row.(media := true);
      }
      return luck.preserved;
    }

    /**
     One attempt alone at the row: a cover is paid for only without media and attachments, it ends ready exactly when
     everything went well, and otherwise blocked exactly when the cover failed or no attempt is left.
     */
    method Prepare(luck: Luck) returns (paid: bool)
      modifies this
      ensures (row, paid) == Prepared(old(row), luck)
      ensures Decide(old(row), luck.now, luck.allowed) == Refused ==> row == old(row)
      ensures Decide(old(row), luck.now, luck.allowed) == Exhausted ==> row == old(row).(status := Blocked)
      ensures Decide(old(row), luck.now, luck.allowed).Attempt? ==>
        var ready := luck.written && luck.preserved;
        var media := old(row).media || luck.attachments;
        && row.attempts == old(row).attempts + 1 && row.lease == None
        && paid == (ready && !media && luck.coverAllowed && !old(row).coverRequested)
        && (row.status == Ready <==> ready && if media then luck.coverOk else paid && luck.generated && luck.stored)
        && (row.status == Blocked <==> row.status != Ready && (ready || row.attempts >= row.Limit()))
        && (row.status == Preparing ==> row.nextAttempt == Some(luck.now + PAUSE))
      ensures paid ==> !old(row).coverRequested && row.coverRequested
    {
      paid := false;
      var attempt := ClaimAttempt(luck.now, luck.allowed);
      if attempt.None? {
        return;
      }
      var ok, cover := luck.written, false;
      if ok {
        ok := Preserve(luck);
      }
      if ok {
        ok, paid := EnsureCover(attempt.value, luck);
        cover := !ok;
      }
      if ok {
        if row.status == Preparing && row.attempts == attempt.value {
          row := row.(status := Ready, lease := None, nextAttempt := None);
        }
      } else if row.status == Preparing && row.attempts == attempt.value {
        row := row.(status := if cover || attempt.value >= row.Limit() then Blocked else Preparing, lease := None,
                    nextAttempt := Some(luck.now + PAUSE));
      }
    }
  }
}
