/** Which events a fill takes and when each step of a run is made. */
module FillOutcomes {
  import opened Text
  import Sorting
  import opened NewsFill
  import opened NewsFillRun
  import NewsSending

  /** An assessed event worth fifty that is no incident, was never published, and whose product the run has not used. */
  ghost predicate Wanted(fold: string -> string, run: Run, w: World, e: Event) {
    && e in w.pool && 50 <= e.score && !e.incident && e.id !in w.published
    && forall post <- run.posts :: Key(fold, post.product) != Key(fold, e.product)
  }

  /** Nothing of its product has a higher score, or is urgent at that score, or was seen later beyond that. */
  ghost predicate BestOfProduct(fold: string -> string, run: Run, w: World, e: Event) {
    && Wanted(fold, run, w, e)
    && forall o | Wanted(fold, run, w, o) && Key(fold, o.product) == Key(fold, e.product) ::
         && o.score <= e.score
         && (o.score == e.score && o.urgent ==> e.urgent)
         && (o.score == e.score && o.urgent == e.urgent ==> o.lastSeen <= e.lastSeen)
  }

  lemma WantedExactly(fold: string -> string, run: Run, w: World, e: Event)
    ensures Wanted(fold, run, w, e) <==>
      e in OnlyEligible(w.pool, w.published) && Key(fold, e.product) !in Taken(fold, run.posts)
  {
    EligibleMembers(w.pool, w.published);
  }

  /** What is open is one event for each product with a wanted event, and it is a best one of them. */
  lemma OpenExactly(fold: string -> string, run: Run, w: World)
    ensures var open := Open(fold, run, w);
      && DistinctProducts(fold, open) && (forall e <- open :: BestOfProduct(fold, run, w, e))
      && forall e | Wanted(fold, run, w, e) :: exists o <- open :: Key(fold, o.product) == Key(fold, e.product)
  {
    var open, eligible := Open(fold, run, w), OnlyEligible(w.pool, w.published);
    OpenExact(fold, run, w);
    forall e ensures Wanted(fold, run, w, e) <==> e in eligible && Key(fold, e.product) !in Taken(fold, run.posts) {
      WantedExactly(fold, run, w, e);
    }
    EligibleMembers(w.pool, w.published);
    hide Open, Key;
    forall e, o | e in open && Wanted(fold, run, w, o) && Key(fold, o.product) == Key(fold, e.product)
      ensures o == e || Better(e, o) {
      OpenIsBest(fold, run, w, e, o);
    }
    forall e | e in open ensures BestOfProduct(fold, run, w, e) {
      hide Eligible, Better, Wanted;
      forall o | Wanted(fold, run, w, o) && Key(fold, o.product) == Key(fold, e.product)
        ensures o == e || Better(e, o)
      {}
      BestByOrder(fold, run, w, e);
    }
    forall e | Wanted(fold, run, w, e) ensures exists o <- open :: Key(fold, o.product) == Key(fold, e.product) {
      assert Key(fold, e.product) in Products(fold, eligible) - Taken(fold, run.posts)
        && Key(fold, e.product) in Products(fold, open);
    }
  }

  lemma BestByOrder(fold: string -> string, run: Run, w: World, e: Event)
    requires Wanted(fold, run, w, e)
    requires forall o | Wanted(fold, run, w, o) && Key(fold, o.product) == Key(fold, e.product) ::
      o == e || Better(e, o)
    ensures BestOfProduct(fold, run, w, e)
  {
    hide Wanted, Key;
  }

  // ---------------------------------------------------------------- waves

  /** The publications of a run that were not blocked. */
  function Standing(posts: seq<Post>): set<nat> {
    set i | 0 <= i < |posts| && posts[i].status != NewsSending.Blocked
  }

  lemma {:induction false} NotBlockedExactly(posts: seq<Post>)
    ensures NotBlocked(posts) == |Standing(posts)|
  {
    if posts != [] {
      var n := |posts| - 1;
      NotBlockedExactly(posts[..n]);
      assert Standing(posts) == Standing(posts[..n]) + if posts[n].status == NewsSending.Blocked then {} else {n};
    }
  }

  /** What a run has room for: twenty publications less those not blocked. */
  function Room(posts: seq<Post>): nat {
    if |Standing(posts)| >= 20 then 0 else 20 - |Standing(posts)|
  }

  /**
   A wave: as many open events as there is room for, each with a higher score than any left out or as high and not
   younger, the oldest first.
   */
  ghost predicate IsWave(open: seq<Event>, room: nat, wave: seq<Event>) {
    && |wave| == (if |open| <= room then |open| else room)
    && (forall e <- wave :: e in open) && (forall i, j :: 0 <= i < j < |wave| ==> wave[i] != wave[j])
    && (forall i, j :: 0 <= i < j < |wave| ==> wave[i].happened <= wave[j].happened)
    && forall e, o | e in wave && o in open && o !in wave ::
      o.score < e.score || (o.score == e.score && e.happened <= o.happened)
  }

  lemma RoomExactly(posts: seq<Post>)
    ensures Free(posts) == Room(posts) && (Free(posts) > 0 <==> |Standing(posts)| < 20)
  {
    NotBlockedExactly(posts);
    hide NotBlocked, Standing;
  }

  lemma InOrder(es: seq<Event>)
    requires Sorting.Sorted(Earlier, es) && Distinct(es)
    ensures forall i, j :: 0 <= i < j < |es| ==> es[i] != es[j] && es[i].happened <= es[j].happened
  {
  }

  lemma WaveExactly(fold: string -> string, run: Run, w: World)
    ensures IsWave(Open(fold, run, w), Room(run.posts), Wave(fold, run, w))
  {
    OpenExact(fold, run, w);
    RoomExactly(run.posts);
    RankIsWave(Open(fold, run, w), Free(run.posts));
    hide Open, Free, Room, Rank, IsWave, Distinct, DistinctProducts, Key, Taken, Products, Eligible, OnlyEligible;
  }

  lemma RankIsWave(open: seq<Event>, room: nat)
    requires Distinct(open)
    ensures IsWave(open, room, Rank(open, room))
  {
    RankExact(open, room);
    InOrder(Rank(open, room));
    HigherExactly();
    hide Rank, Higher, Sorting.Sorted, Distinct;
  }

  lemma HigherExactly()
    ensures forall e, o :: Higher(e, o) <==> o.score < e.score || (o.score == e.score && e.happened <= o.happened)
  {
  }

  /** The posts of a run with a wave to be prepared. */
  ghost predicate AddsWave(fold: string -> string, run: Run, w: World, posts: seq<Post>) {
    exists wave: seq<Event> | IsWave(Open(fold, run, w), Room(run.posts), wave) ::
      && |posts| == |run.posts| + |wave| && run.posts <= posts
      && forall k :: 0 <= k < |wave| ==>
        posts[|run.posts| + k] == Post(wave[k].id, wave[k].product, NewsSending.Preparing)
  }

  // ---------------------------------------------------------------- advances

  /** Where one working step leads from its state. */
  ghost predicate StepsTo(fold: string -> string, run: Run, w: World, read: RunStatus, run': Run) {
    && run'.lease == None && run'.expiresAt == run.expiresAt
    && (run.status != Assessing || w.pending ==> run'.posts == run.posts)
    && match run.status
       case Archive =>
         run'.status == if w.pending then Archive else if |Open(fold, run, w)| >= 20 then Assessing else Collecting
       case Collecting => run'.status == read
       case Assessing =>
         if w.pending then run'.status == Assessing
         else
           && AddsWave(fold, run, w, run'.posts)
           && run'.status == if run.posts == [] && Open(fold, run, w) == [] then Completed else Publishing
       case Publishing =>
         run'.status
           == if exists post <- run.posts :: post.status == NewsSending.Preparing then Publishing
              else if |Standing(run.posts)| < 20 && Open(fold, run, w) != [] then Assessing
              else if forall post <- run.posts ::
                post.status == NewsSending.Sent || post.status == NewsSending.Blocked then Completed
              else Publishing
       case _ => run' == run
  }

  /** Whether an advance concerns the run: allowed, for the channel it was made for, not over, not leased. */
  predicate Concerned(run: Run, w: World) {
    && w.enabled && w.sameTarget && run.status != Completed && run.status != Blocked
    && (run.lease.Some? ==> run.lease.value <= w.now)
  }

  /** A run is worked on, blocked because it is out of date, or left alone. */
  lemma AdvanceExactly(fold: string -> string, run: Run, w: World, read: RunStatus)
    ensures var run' := Advance(fold, run, w, read);
      if !Concerned(run, w) then run' == run
      else if run.expiresAt <= w.now then run' == run.(status := Blocked)
      else StepsTo(fold, run, w, read, run')
  {
    if Concerned(run, w) && w.now < run.expiresAt {
      match run.status
      case Archive => ArchiveStep(fold, run, w, read);
      case Assessing => AssessingStep(fold, run, w, read);
      case Publishing => PublishingStep(fold, run, w, read);
      case Collecting =>
    }
    hide Worked, Open, StepsTo;
  }

  lemma ArchiveStep(fold: string -> string, run: Run, w: World, read: RunStatus)
    requires run.status == Archive
    ensures StepsTo(fold, run, w, read, Worked(fold, run, w, read).(lease := None))
  {
    hide Open;
  }

  lemma AssessingStep(fold: string -> string, run: Run, w: World, read: RunStatus)
    requires run.status == Assessing && Concerned(run, w) && w.now < run.expiresAt
    ensures StepsTo(fold, run, w, read, Worked(fold, run, w, read).(lease := None))
  {
    WaveAdded(fold, run, w);
    hide Open, Wave, AddsWave, Room;
  }

  lemma WaveAdded(fold: string -> string, run: Run, w: World)
    ensures var posts := run.posts + Joined(Wave(fold, run, w));
      AddsWave(fold, run, w, posts) && (posts == [] <==> run.posts == [] && Open(fold, run, w) == [])
  {
    var wave := Wave(fold, run, w);
    WaveExactly(fold, run, w);
    if run.posts == [] { assert Room(run.posts) == 20; }
    assert IsWave(Open(fold, run, w), Room(run.posts), wave) && |Joined(wave)| == |wave|;
    if wave == [] { WaveEmpty(Open(fold, run, w), Room(run.posts)); }
    hide Open, Wave, Room, IsWave;
  }

  lemma WaveEmpty(open: seq<Event>, room: nat)
    requires IsWave(open, room, [])
    ensures open == [] || room == 0
  {
  }

  lemma PublishingStep(fold: string -> string, run: Run, w: World, read: RunStatus)
    requires run.status == Publishing
    ensures StepsTo(fold, run, w, read, Worked(fold, run, w, read).(lease := None))
  {
    RoomExactly(run.posts);
    hide Open, Free, Standing, NotBlocked;
  }

  /**
   No publication can join a run that publishes or is over, has no text being prepared, and is full or wants nothing.
   */
  lemma FrozenExactly(fold: string -> string, run: Run, w: World)
    ensures Frozen(fold, run, w) <==>
      && (run.status == Publishing || run.status == Completed)
      && (forall post <- run.posts :: post.status != NewsSending.Preparing)
      && (20 <= |Standing(run.posts)| || forall e :: !Wanted(fold, run, w, e))
  {
    OpenExactly(fold, run, w);
    RoomExactly(run.posts);
    var open := Open(fold, run, w);
    if open != [] { assert open[0] in open && Wanted(fold, run, w, open[0]); }
    hide Open, Standing, Wanted, DistinctProducts;
  }

  // ---------------------------------------------------------------- reading

  predicate Waits(row: Row, now: int) {
    !row.done && (row.retryAt.Some? ==> row.retryAt.value <= now)
  }

  /** The row that is read: due, never read or read longest ago, the first of several. */
  ghost predicate Chosen(rows: seq<Row>, now: int, i: nat) {
    && i < |rows| && Waits(rows[i], now)
    && (forall k | 0 <= k < |rows| && Waits(rows[k], now) && rows[i].checkedAt.Some? ::
          rows[k].checkedAt.Some? && rows[i].checkedAt.value <= rows[k].checkedAt.value)
    && (forall k | 0 <= k < i && Waits(rows[k], now) :: rows[k].checkedAt != rows[i].checkedAt)
  }

  /**
   A page moves the cursor of its row, and the last one ends it; a cursor that comes again, and any failure but an
   exhausted budget, counts. The third failure in a row ends the row, an answer that cannot be read takes it back to
   its beginning.
   */
  ghost predicate IsRead(row: Row, row': Row, now: int, read: Read) {
    if read == Failed(OutOfBudget) then row' == row
    else if read.Page? && (read.token == "" || read.token != row.token) then
      row' == row.(token := read.token, done := read.token == "", attempts := 0, checkedAt := Some(now))
    else
      row' == row.(attempts := row.attempts + 1, done := row.attempts + 1 >= 3, checkedAt := Some(now),
                   retryAt := Some(now + if read.Failed? && read.why.Limited? then read.why.delay else 300),
                   token := if read == Failed(Other) || (read.Failed? && read.why.Limited?) then row.token else "")
  }

  lemma ReadExactly(now: int)
    ensures forall row, read :: IsRead(row, AfterRead(row, now, read), now, read)
  {
  }

  /** Reading moves one row: one of a source that was switched off is done, any other one is read under its lock. */
  lemma RowsExactly(rows: seq<Row>, now: int, locked: bool, read: Read)
    ensures var rows' := RowsAfter(rows, now, locked, read);
      && |rows'| == |rows|
      && ((forall row <- rows :: !Waits(row, now)) ==> rows' == rows)
      && forall i: nat | Chosen(rows, now, i) ::
           var row, row' := rows[i], rows'[i];
           && (forall k :: 0 <= k < |rows| && k != i ==> rows'[k] == rows[k])
           && if !row.enabled then row' == row.(done := true) else if !locked then row' == row
              else IsRead(row, row', now, read)
  {
    TurnIsLongestWaiting(rows, now, |rows|);
    forall i: nat | Chosen(rows, now, i) ensures Turn(rows, now, |rows|) == Some(i) {
      ChosenIsTurn(rows, now, i);
    }
    ReadExactly(now);
    forall k | 0 <= k < |rows| ensures Waits(rows[k], now) <==> Due(rows[k], now) {}
    assert (forall row <- rows :: !Waits(row, now)) ==> forall k :: 0 <= k < |rows| ==> !Waits(rows[k], now);
    hide Turn, Waits, Due, Chosen, IsRead, AfterRead;
  }

  lemma ChosenIsTurn(rows: seq<Row>, now: int, i: nat)
    requires Chosen(rows, now, i)
    ensures Turn(rows, now, |rows|) == Some(i)
  {
    TurnIsLongestWaiting(rows, now, |rows|);
    var t := Turn(rows, now, |rows|);
    assert Due(rows[i], now);
  }

  /** Reading ends when every row is done or the budget is exhausted. */
  lemma StatusExactly(status: RunStatus, rows: seq<Row>, now: int, locked: bool, read: Read)
    ensures (forall row <- rows :: row.done) ==> StatusAfter(status, rows, now, locked, read) == Assessing
    ensures forall i: nat | Chosen(rows, now, i) ::
      StatusAfter(status, rows, now, locked, read)
        == if rows[i].enabled && locked && read == Failed(OutOfBudget) then Assessing else status
    ensures (exists row <- rows :: !row.done) && (forall row <- rows :: !Waits(row, now)) ==>
      StatusAfter(status, rows, now, locked, read) == status
  {
    TurnIsLongestWaiting(rows, now, |rows|);
    forall i: nat | Chosen(rows, now, i) ensures Turn(rows, now, |rows|) == Some(i) {
      ChosenIsTurn(rows, now, i);
    }
    hide Turn;
  }

  /** One row is always chosen if any waits. */
  lemma SomeRowIsChosen(rows: seq<Row>, now: int)
    ensures (exists i: nat :: Chosen(rows, now, i)) <==> exists row <- rows :: Waits(row, now)
  {
    TurnIsLongestWaiting(rows, now, |rows|);
    if row :| row in rows && Waits(row, now) {
      var k :| 0 <= k < |rows| && rows[k] == row;
      assert Due(rows[k], now);
      var t := Turn(rows, now, |rows|);
      assert Chosen(rows, now, t.value);
    }
  }
}
