/** Polls, backfills, failures and a growing timeline in any order: when there is never a hole. */
module IngestionRuns {
  import opened Text
  import opened Ingestion
  import opened Coverage

  // ---------------------------------------------------------------- any history

  /** Runs that succeed come with what they fetched; one that fails changes nothing. */
  datatype Event =
    | Grow(arrived: seq<Post>)
    | Poll(cursor: Option<Id>, posts: seq<Post>)
    | Backfill(below: Id, posts: seq<Post>)
    | Fail

  datatype Sys = Sys(timeline: seq<Post>, source: Source, range: Option<Range>)

  ghost predicate Possible(sys: Sys, event: Event, reading: UntilId)
    requires Timeline(sys.timeline)
  {
    match event
    case Grow(arrived) => Timeline(arrived + sys.timeline)
    case Poll(cursor, posts) =>
      && PollCursor(sys.source, cursor)
      && (if cursor.None? then posts <= sys.timeline
          else cursor.value.Numeric? ==> posts == Newer(sys.timeline, cursor.value.value))
    case Backfill(cursor, posts) =>
      && HistoryCursor(sys.source, cursor)
      && UpperBound(cursor).Some? && posts <= Older(sys.timeline, reading.Highest(UpperBound(cursor).value))
    case Fail => true
  }

  /** The range of what was fetched: from the smallest id ever fetched to the saved cursor. */
  ghost function RangeAfter(sys: Sys, event: Event, reading: UntilId): Option<Range>
    requires Timeline(sys.timeline) && Possible(sys, event, reading)
  {
    match event
    case Grow(_) => sys.range
    case Poll(None, posts) =>
      if posts == [] then sys.range
      else
        PartTimeline(sys.timeline, posts, 0);
        assert posts[0] in posts && posts[|posts| - 1] in posts;
        Some(Range(Number(posts[|posts| - 1]), Number(posts[0])))
    case Poll(Some(cursor), posts) =>
      if sys.range.None? || cursor.Opaque? then sys.range
      else
        SplitAt(sys.timeline, cursor.value);
        Some(Range(sys.range.value.low, HighAfter(cursor.value, posts)))
    case Backfill(cursor, posts) =>
      var bound := reading.Highest(UpperBound(cursor).value);
      SplitAt(sys.timeline, bound);
      if sys.range.None? || posts == [] then sys.range
      else
        assert posts[|posts| - 1] == Older(sys.timeline, bound)[|posts| - 1];
        Some(Range(Min(sys.range.value.low, Number(posts[|posts| - 1])), sys.range.value.high))
    case Fail => sys.range
  }

  ghost function SourceAfter(s: Source, event: Event): Source {
    match event
    case Poll(cursor, posts) => Polled(s, cursor, posts)
    case Backfill(_, posts) => Backfilled(s, posts)
    case _ => s
  }

  function TimelineAfter(t: seq<Post>, event: Event): seq<Post> {
    if event.Grow? then event.arrived + t else t
  }

  ghost function After(sys: Sys, event: Event, reading: UntilId): Sys
    requires Timeline(sys.timeline) && Possible(sys, event, reading)
  {
    Sys(TimelineAfter(sys.timeline, event), SourceAfter(sys.source, event), RangeAfter(sys, event, reading))
  }

  /** Everything in the range of a well-behaved timeline is stored. */
  ghost predicate NoHole(sys: Sys) {
    Timeline(sys.timeline) && Covered(sys.timeline, sys.source, sys.range)
  }

  /** The event passes nothing over. */
  ghost predicate Safe(sys: Sys, event: Event, reading: UntilId)
    requires Timeline(sys.timeline)
  {
    event.Backfill? && event.below.Numeric? ==>
      !Misses(sys.timeline, sys.source, event.below.value, event.posts, reading)
  }

  lemma NumericCursor(sys: Sys, event: Event, reading: UntilId)
    requires NoHole(sys) && Possible(sys, event, reading)
    ensures event.Poll? && event.cursor.Some? ==> event.cursor.value.Numeric? && sys.range.Some?
    ensures event.Backfill? ==> sys.range.Some? && event.below.Numeric?
  {
    if sys.range.Some? {
      if event.Poll? && event.cursor.Some? {
        CursorInRange(sys.timeline, sys.source, sys.range.value, event.cursor.value);
      }
    } else {
      NothingHeld(sys.timeline, sys.source);
    }
  }

  lemma NothingHeld(t: seq<Post>, s: Source)
    requires Timeline(t) && Covered(t, s, None)
    ensures s == Source(None, map[])
  {
    if s.stored != map[] {
      var id :| id in s.stored;
      HeldMember(s, id);
      assert false;
    }
  }

  lemma HeldMember(s: Source, id: Id)
    requires id in s.stored && id.Numeric?
    ensures id.value in Held(s)
  {
  }

  ghost predicate NotLower(before: Option<Id>, after: Option<Id>) {
    before.Some? ==> after.Some? && AtMost(before.value, after.value)
  }

  /** Everything in the range stays stored exactly when the event passes nothing over. */
  lemma NoHoleKept(sys: Sys, event: Event, reading: UntilId)
    requires NoHole(sys) && Possible(sys, event, reading)
    ensures NoHole(After(sys, event, reading)) <==> Safe(sys, event, reading)
  {
    NumericCursor(sys, event, reading);
    hide Covered, Timeline, Polled, Backfilled, PollCursor, HistoryCursor, Older, Newer, Misses;
    match event
    case Grow(arrived) => GrowthCovers(sys.timeline, arrived, sys.source, sys.range);
    case Poll(cursor, posts) =>
      if cursor.None? {
        FirstPoll(sys, posts, reading);
      } else {
        PollCovers(sys.timeline, sys.source, sys.range.value, cursor.value, posts);
      }
    case Backfill(cursor, posts) => BackfillCovers(sys.timeline, sys.source, sys.range.value, cursor, posts, reading);
    case Fail =>
  }

  lemma FirstPoll(sys: Sys, posts: seq<Post>, reading: UntilId)
    requires NoHole(sys) && PollCursor(sys.source, None) && posts <= sys.timeline
    ensures NoHole(After(sys, Poll(None, posts), reading))
  {
    assert Held(sys.source) == {};
    NothingHeld(sys.timeline, sys.source);
    BootstrapCovers(sys.timeline, posts);
  }

  /** No event lowers the saved cursor or loses a stored post. */
  lemma CursorKept(sys: Sys, event: Event, reading: UntilId)
    requires Timeline(sys.timeline) && Possible(sys, event, reading)
    ensures Timeline(After(sys, event, reading).timeline)
    ensures NotLower(sys.source.last, After(sys, event, reading).source.last)
    ensures sys.source.stored.Keys <= After(sys, event, reading).source.stored.Keys
  {
    AtMostIsOrder();
    if event.Poll? || event.Backfill? { StoredAfter(sys.source.stored, event.posts); }
    hide Timeline, Possible, RangeAfter;
  }

  // ---------------------------------------------------------------- runs

  ghost predicate Happens(sys: Sys, events: seq<Event>, reading: UntilId)
    requires Timeline(sys.timeline)
    decreases |events|
  {
    events == []
    || (Possible(sys, events[0], reading)
        && (CursorKept(sys, events[0], reading); Happens(After(sys, events[0], reading), events[1..], reading)))
  }

  ghost function AfterAll(sys: Sys, events: seq<Event>, reading: UntilId): Sys
    requires Timeline(sys.timeline) && Happens(sys, events, reading)
    decreases |events|
  {
    if events == [] then sys
    else
      CursorKept(sys, events[0], reading);
      AfterAll(After(sys, events[0], reading), events[1..], reading)
  }

  /** There is no hole at any time of the run. */
  ghost predicate AlwaysCovered(sys: Sys, events: seq<Event>, reading: UntilId)
    requires Timeline(sys.timeline) && Happens(sys, events, reading)
    decreases |events|
  {
    NoHole(sys)
    && (events == []
        || (CursorKept(sys, events[0], reading); AlwaysCovered(After(sys, events[0], reading), events[1..], reading)))
  }

  /** No event of the run passes anything over. */
  ghost predicate AllSafe(sys: Sys, events: seq<Event>, reading: UntilId)
    requires Timeline(sys.timeline) && Happens(sys, events, reading)
    decreases |events|
  {
    events == []
    || (Safe(sys, events[0], reading)
        && (CursorKept(sys, events[0], reading); AllSafe(After(sys, events[0], reading), events[1..], reading)))
  }

  /**
   Along any sequence of polls and backfills, failed or not, there is never a hole exactly when nothing is passed
   over.
   */
  lemma {:induction false} NeverAHole(sys: Sys, events: seq<Event>, reading: UntilId)
    requires NoHole(sys) && Happens(sys, events, reading)
    ensures AlwaysCovered(sys, events, reading) <==> AllSafe(sys, events, reading)
    decreases |events|
  {
    hide Possible, After, Safe, Covered;
    if events != [] {
      CursorKept(sys, events[0], reading);
      NoHoleKept(sys, events[0], reading);
      if Safe(sys, events[0], reading) { NeverAHole(After(sys, events[0], reading), events[1..], reading); }
    }
  }

  /** If X served the post whose id equals `until_id`, nothing would ever be passed over. */
  lemma {:induction false} InclusiveNeverAHole(sys: Sys, events: seq<Event>)
    requires NoHole(sys) && Happens(sys, events, Inclusive)
    ensures AlwaysCovered(sys, events, Inclusive)
    decreases |events|
  {
    hide Possible, After, Covered;
    if events != [] {
      CursorKept(sys, events[0], Inclusive);
      NoHoleKept(sys, events[0], Inclusive);
      InclusiveNeverAHole(After(sys, events[0], Inclusive), events[1..]);
    }
  }

  /** No wanted post has the id right below another post's. */
  ghost predicate Spread(t: seq<Post>)
    requires forall p <- t :: Numbered(p)
  {
    forall n <- Wanted(t) :: n + 1 !in Numbers(t)
  }

  /** Whatever X does with `until_id`, there is never a hole as long as no two ids follow each other directly. */
  lemma {:induction false} SpreadNeverAHole(sys: Sys, events: seq<Event>, reading: UntilId)
    requires NoHole(sys) && Happens(sys, events, reading) && Timeline(AfterAll(sys, events, reading).timeline)
    requires Spread(AfterAll(sys, events, reading).timeline)
    ensures AlwaysCovered(sys, events, reading)
    decreases |events|
  {
    SpreadBefore(sys, events, reading);
    hide Possible, After, Safe, Covered, Spread;
    if events != [] {
      CursorKept(sys, events[0], reading);
      NoHoleKept(sys, events[0], reading);
      SpreadIsSafe(sys, events[0], reading);
      SpreadNeverAHole(After(sys, events[0], reading), events[1..], reading);
    }
  }

  lemma SpreadIsSafe(sys: Sys, event: Event, reading: UntilId)
    requires NoHole(sys) && Possible(sys, event, reading) && Spread(sys.timeline)
    ensures Safe(sys, event, reading)
  {
    if event.Backfill? {
      NumericCursor(sys, event, reading);
      CursorInRange(sys.timeline, sys.source, sys.range.value, event.below);
      assert event.below.value - 1 + 1 in Numbers(sys.timeline);
    }
  }

  lemma {:induction false} SpreadBefore(sys: Sys, events: seq<Event>, reading: UntilId)
    requires Timeline(sys.timeline) && Happens(sys, events, reading)
    ensures Timeline(AfterAll(sys, events, reading).timeline)
    ensures Spread(AfterAll(sys, events, reading).timeline) ==> Spread(sys.timeline)
    decreases |events|
  {
    if events != [] {
      CursorKept(sys, events[0], reading);
      var sys' := After(sys, events[0], reading);
      SpreadBefore(sys', events[1..], reading);
      hide Possible, Timeline, RangeAfter;
      assert forall p <- sys.timeline :: p in sys'.timeline;
      assert Numbers(sys.timeline) <= Numbers(sys'.timeline) && Wanted(sys.timeline) <= Wanted(sys'.timeline);
    }
  }

  /** A saved cursor never decreases and a stored post stays, along every run. */
  lemma {:induction false} CursorNeverLower(sys: Sys, events: seq<Event>, reading: UntilId)
    requires Timeline(sys.timeline) && Happens(sys, events, reading)
    ensures NotLower(sys.source.last, AfterAll(sys, events, reading).source.last)
    ensures sys.source.stored.Keys <= AfterAll(sys, events, reading).source.stored.Keys
    decreases |events|
  {
    AtMostIsOrder();
    hide Possible, After, Timeline;
    if events != [] {
      CursorKept(sys, events[0], reading);
      CursorNeverLower(After(sys, events[0], reading), events[1..], reading);
    }
  }

  /** An input that leaves a hole: posts 5, 4 and 3 of which 5 is stored, and a backfill that gets only post 3. */
  lemma AdjacentIdsLeaveAHole()
    ensures exists sys, event ::
      NoHole(sys) && Possible(sys, event, Exclusive) && event.Backfill? && !NoHole(After(sys, event, Exclusive))
  {
    var five, four, three := Post(Some(Numeric(5)), 5, false, true), Post(Some(Numeric(4)), 4, false, true),
                             Post(Some(Numeric(3)), 3, false, true);
    var t := [five, four, three];
    var s := Source(Some(Numeric(5)), map[Numeric(5) := 5]);
    var sys, event := Sys(t, s, Some(Range(5, 5))), Backfill(Numeric(5), [three]);
    assert Timeline(t) && five in t && four in t && three in t;
    assert Held(s) == {5} && 4 in Wanted(t) && 5 in Wanted(t) && 5 in Numbers(t);
    assert t[1..] == [four, three] && t[1..][1..] == [three];
    assert Older([three], 3) == [three] && Older(t[1..], 3) == [three];
    hide Older;
    NoHoleKept(sys, event, Exclusive);
  }

  lemma StartsWithoutHole(t: seq<Post>)
    requires Timeline(t)
    ensures NoHole(Sys(t, Source(None, map[]), None))
  {
  }

  /** Spelled out: a post that is not a retweet, between the smallest id fetched and the saved cursor, is stored. */
  lemma BetweenIsStored(sys: Sys, p: Post)
    requires NoHole(sys) && sys.range.Some? && p in sys.timeline && !p.retweet
    requires sys.range.value.low <= Number(p) <= sys.range.value.high
    ensures p.id.value in sys.source.stored
    ensures sys.source.last.Some? ==> sys.source.last == Some(Numeric(sys.range.value.high))
  {
    assert Number(p) in Wanted(sys.timeline) && Number(p) in Held(sys.source);
  }
}
