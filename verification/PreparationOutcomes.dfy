/** When an attempt is claimed, paid for and written, and that a worker alone takes the steps of the many. */
module PreparationOutcomes {
  import opened Text
  import opened NewsPreparation

  // ---------------------------------------------------------------- transactions

  /** An attempt may begin: nothing stands in its way, no lease or pause runs. */
  predicate Begins(row: Row, now: int, allowed: bool) {
    && row.status == Preparing && allowed
    && (row.lease.Some? ==> row.lease.value <= now) && (row.nextAttempt.Some? ==> row.nextAttempt.value <= now)
  }

  /** Three attempts, or six for a fill, each under a lease of half an hour; the next one blocks. */
  lemma ClaimedExactly(row: Row, now: int, allowed: bool)
    ensures Claimed(row, now, allowed)
      == if !Begins(row, now, allowed) then row
         else if row.attempts >= (if row.history then 6 else 3) then row.(status := Blocked)
         else row.(attempts := row.attempts + 1, lease := Some(now + 1800))
    ensures Decide(row, now, allowed).Attempt? <==>
      Begins(row, now, allowed) && row.attempts < if row.history then 6 else 3
    ensures Decide(row, now, allowed).Attempt? ==> Decide(row, now, allowed).number == row.attempts + 1
  {
  }

  /** A cover is asked for once, by the current attempt, where there are no media. */
  lemma CoverExactly(row: Row, attempt: nat, allowed: bool)
    ensures DecideCover(row, attempt, allowed) == Granted <==>
      !row.media && row.status == Preparing && row.attempts == attempt && allowed && !row.coverRequested
    ensures DecideCover(row, attempt, allowed) == HasMedia <==> row.media
    ensures CoverClaimed(row, attempt, allowed) ==
      row.(coverRequested := row.coverRequested || DecideCover(row, attempt, allowed) == Granted)
  {
  }

  /**
   Only the current attempt writes. A failure blocks if it was the cover's or the last one, or else waits five
   minutes.
   */
  lemma WritesExactly(row: Row, attempt: nat, cover: bool, now: int)
    ensures var current, last := row.status == Preparing && row.attempts == attempt, attempt >= if row.history then 6
                                                                                                else 3;
      && Finished(row, attempt) == (if current then row.(status := Ready, lease := None, nextAttempt := None) else row)
      && Failed(row, attempt, cover, now)
           == if !current then row
              else row.(status := if cover
                        || last then Blocked else Preparing, lease := None, nextAttempt := Some(now + 300))
  {
  }

  /** A new publication can be attempted; a tick blocks what is out of date, and only a ready one goes on to be sent. */
  lemma OutsideExactly(sys: Sys, history: bool, now: int)
    ensures Created(history).row.history == history && Decide(Created(history).row, now, true) == Attempt(1)
    ensures !Created(history).row.media && !Created(history).row.coverRequested && Created(history).generated == 0
    ensures Step(sys, Expire) == if sys.row.status == Preparing || sys.row.status == Ready
                                 then Some(sys.(row := sys.row.(status := Blocked, lease := None))) else None
    ensures Step(sys, MoveOn) == if sys.row.status == Ready then Some(sys.(row := sys.row.(status := Further)))
                                 else None
  {
  }

  // ---------------------------------------------------------------- one worker among many

  /**
   The actions of a worker that takes one attempt, as its parts go; `row` is as it was claimed, then with its media.
   */
  function Actions(row: Row, luck: Luck): seq<Action> {
    [Take(luck.now, luck.allowed)] +
    if Decide(row, luck.now, luck.allowed).Attempt? then TextActions(row, luck) else []
  }

  function TextActions(row: Row, luck: Luck): seq<Action> {
    if !luck.written then [Write(false), Fail(luck.now)]
    else if !luck.preserved then [Write(true), Preserve(false, false), Fail(luck.now)]
    else
      [Write(true), Preserve(luck.attachments, true)]
      + MediaActions(row.media || luck.attachments, row.coverRequested, luck)
  }

  function MediaActions(media: bool, requested: bool, luck: Luck): seq<Action> {
    if media then (if luck.coverOk then [Look(true, true), Finish] else [Look(false, true), Fail(luck.now)])
    else if !luck.coverAllowed || requested then [Look(true, true), AskCover(luck.coverAllowed), Fail(luck.now)]
    else [Look(true, true), AskCover(true)] + CoverActions(luck)
  }

  function CoverActions(luck: Luck): seq<Action> {
    if !luck.generated then [Generate(false), Fail(luck.now)]
    else if !luck.stored then [Generate(true), SaveImage(false), Fail(luck.now)]
    else [Generate(true), SaveImage(true), Finish]
  }

  function Acts(row: Row, pc: Pc, paid: nat, actions: seq<Action>): Option<(Row, Pc, nat)>
    decreases |actions|
  {
    if actions == [] then Some((row, pc, paid))
    else
      match Acted(row, pc, actions[0])
      case None => None
      case Some((row', pc', pays)) => Acts(row', pc', paid + if pays then 1 else 0, actions[1..])
  }

  function Works(w: nat, actions: seq<Action>): seq<Event> {
    seq(|actions|, k requires 0 <= k < |actions| => Work(w, actions[k]))
  }

  lemma ActsFirst(row: Row, pc: Pc, paid: nat, action: Action, rest: seq<Action>)
    ensures Acts(row, pc, paid, [action] + rest)
      == match Acted(row, pc, action)
         case None => None
         case Some((row', pc', pays)) => Acts(row', pc', paid + if pays then 1 else 0, rest)
  {
    assert ([action] + rest)[1..] == rest;
  }

  /** A worker whose actions follow one another takes them in the run of all workers. */
  lemma {:induction false} ActsRun(sys: Sys, w: nat, actions: seq<Action>)
    ensures var acts, run := Acts(sys.row, sys.Worker(w), sys.generated, actions), Run(sys, Works(w, actions));
      if acts.None? then run.None? else
        && run.Some? && run.value.row == acts.value.0 && run.value.Worker(w) == acts.value.1
        && run.value.generated == acts.value.2
        && forall v: nat :: v != w ==> run.value.Worker(v) == sys.Worker(v)
    decreases |actions|
  {
    hide Acted;
    if actions != [] {
      var events := Works(w, actions);
      assert events[0] == Work(w, actions[0]) && events[1..] == Works(w, actions[1..]);
      var next := Step(sys, events[0]);
      if next.Some? { ActsRun(next.value, w, actions[1..]); }
    }
  }

  lemma MediaWalk(row: Row, a: nat, luck: Luck, paid: nat)
    requires row.status == Preparing && row.attempts == a
    ensures var asked := DecideCover(row, a, luck.coverAllowed) == Granted;
      Acts(row, Looking(a), paid, MediaActions(row.media, row.coverRequested, luck))
        == if row.media then Some((if luck.coverOk then Finished(row, a) else Failed(row, a, true, luck.now), Idle,
                                   paid))
           else if !asked then Some((Failed(row, a, true, luck.now), Idle, paid))
           else
             var row' := CoverClaimed(row, a, luck.coverAllowed);
             Some((if luck.generated && luck.stored then Finished(ImageSaved(row'), a)
                   else Failed(row', a, true, luck.now),
                   Idle, paid + 1))
  {
    var now, claimed := luck.now, CoverClaimed(row, a, luck.coverAllowed);
    var fails, finishes := [Fail(now)], [Finish];
    Ends(row, a, now, paid);
    hide Acts, Finished, Failed;
    if row.media {
      var ends := if luck.coverOk then finishes else fails;
      ActsFirst(row, Looking(a), paid, Look(luck.coverOk, true), ends);
      assert MediaActions(true, row.coverRequested, luck) == [Look(luck.coverOk, true)] + ends;
    } else if !luck.coverAllowed || row.coverRequested {
      ActsFirst(row, Looking(a), paid, Look(true, true), [AskCover(luck.coverAllowed)] + fails);
      ActsFirst(row, Requesting(a), paid, AskCover(luck.coverAllowed), fails);
      assert MediaActions(false, row.coverRequested, luck)
        == [Look(true, true)] + ([AskCover(luck.coverAllowed)] + fails);
    } else {
      ActsFirst(row, Looking(a), paid, Look(true, true), [AskCover(true)] + CoverActions(luck));
      ActsFirst(row, Requesting(a), paid, AskCover(true), CoverActions(luck));
      CoverWalk(claimed, a, luck, paid);
      assert MediaActions(false, false, luck) == [Look(true, true)] + ([AskCover(true)] + CoverActions(luck));
      hide CoverActions, MediaActions, ImageSaved;
    }
  }

  lemma CoverWalk(row: Row, a: nat, luck: Luck, paid: nat)
    ensures Acts(row, Generating(a), paid, CoverActions(luck))
      == Some((if luck.generated
               && luck.stored then Finished(ImageSaved(row), a) else Failed(row, a, true, luck.now), Idle, paid + 1))
  {
    var fails, finishes := [Fail(luck.now)], [Finish];
    var ends := if luck.stored then finishes else fails;
    Ends(row, a, luck.now, paid + 1);
    Ends(ImageSaved(row), a, luck.now, paid + 1);
    hide Acts, Finished, Failed;
    if luck.generated {
      ActsFirst(row, Generating(a), paid, Generate(true), [SaveImage(luck.stored)] + ends);
      ActsFirst(row, Saving(a), paid + 1, SaveImage(luck.stored), ends);
      assert CoverActions(luck) == [Generate(true)] + ([SaveImage(luck.stored)] + ends);
    } else {
      ActsFirst(row, Generating(a), paid, Generate(false), fails);
      assert CoverActions(luck) == [Generate(false)] + fails;
    }
  }

  lemma Ends(row: Row, a: nat, now: int, paid: nat)
    ensures Acts(row, Failing(a, true), paid, [Fail(now)]) == Some((Failed(row, a, true, now), Idle, paid))
    ensures Acts(row, Failing(a, false), paid, [Fail(now)]) == Some((Failed(row, a, false, now), Idle, paid))
    ensures Acts(row, Finishing(a), paid, [Finish]) == Some((Finished(row, a), Idle, paid))
  {
  }

  /** An attempt alone at the row is the walk of one worker: what it leaves, and pays for, is what its actions leave. */
  lemma AttemptIsAWalk(row: Row, luck: Luck, paid: nat)
    ensures Acts(row, Idle, paid, Actions(row, luck))
      == Some((Prepared(row, luck).0, Idle, paid + if Prepared(row, luck).1 then 1 else 0))
  {
    var now, claimed, a := luck.now, Claimed(row, luck.now, luck.allowed), row.attempts + 1;
    hide Acts, Finished, Failed, MediaActions;
    if Decide(row, now, luck.allowed).Attempt? {
      ActsFirst(row, Idle, paid, Take(now, luck.allowed), TextActions(row, luck));
      TextWalk(claimed, a, luck, paid);
      assert TextActions(claimed, luck) == TextActions(row, luck);
      if luck.written && luck.preserved { MediaWalk(Preserved(claimed, luck.attachments), a, luck, paid); }
    } else {
      ActsFirst(row, Idle, paid, Take(now, luck.allowed), []);
      NoActs(claimed, Idle, paid);
    }
  }

  lemma NoActs(row: Row, pc: Pc, paid: nat)
    ensures Acts(row, pc, paid, []) == Some((row, pc, paid))
  {
  }

  lemma TextWalk(row: Row, a: nat, luck: Luck, paid: nat)
    requires row.status == Preparing && row.attempts == a
    ensures var kept := Preserved(row, luck.attachments);
      Acts(row, Writing(a), paid, TextActions(row, luck))
        == if !luck.written || !luck.preserved then Some((Failed(row, a, false, luck.now), Idle, paid))
           else Acts(kept, Looking(a), paid, MediaActions(kept.media, kept.coverRequested, luck))
  {
    var kept, fails := Preserved(row, luck.attachments), [Fail(luck.now)];
    var media := MediaActions(kept.media, kept.coverRequested, luck);
    Ends(row, a, luck.now, paid);
    hide Acts, Finished, Failed, MediaActions;
    if !luck.written {
      ActsFirst(row, Writing(a), paid, Write(false), fails);
      assert TextActions(row, luck) == [Write(false)] + fails;
    } else if !luck.preserved {
      ActsFirst(row, Writing(a), paid, Write(true), [Preserve(false, false)] + fails);
      ActsFirst(row, Preserving(a), paid, Preserve(false, false), fails);
      assert TextActions(row, luck) == [Write(true)] + ([Preserve(false, false)] + fails);
    } else {
      ActsFirst(row, Writing(a), paid, Write(true), [Preserve(luck.attachments, true)] + media);
      ActsFirst(row, Preserving(a), paid, Preserve(luck.attachments, true), media);
      assert TextActions(row, luck) == [Write(true)] + ([Preserve(luck.attachments, true)] + media);
    }
  }
}
