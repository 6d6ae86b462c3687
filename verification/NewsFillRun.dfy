/** The run of a fill: its waves of publications, its states, and the pages it reads. */
module NewsFillRun {
  import opened Text
  import Sorting
  import opened NewsFill
  import NewsSending

  datatype RunStatus = Archive | Collecting | Assessing | Publishing | Completed | Blocked

  datatype Run = Run(status: RunStatus, posts: seq<Post>, lease: Option<int>, expiresAt: int)

  /**
   What a run sees: the events of its archive, those already published in the channel, and whether some are
   unassessed.
   */
  datatype World = World(now: int, enabled: bool, sameTarget: bool, pending: bool, pool: seq<Event>,
                         published: set<nat>)

  const LEASE := 120

  function NotBlocked(posts: seq<Post>): nat {
    if posts == [] then 0
    else NotBlocked(posts[..|posts| - 1]) + if posts[|posts| - 1].status == NewsSending.Blocked then 0 else 1
  }

  function Free(posts: seq<Post>): nat {
    if NotBlocked(posts) >= FILL_LIMIT then 0 else FILL_LIMIT - NotBlocked(posts)
  }

  predicate BeingPrepared(posts: seq<Post>) {
    exists post <- posts :: post.status == NewsSending.Preparing
  }

  predicate AllOver(posts: seq<Post>) {
    forall post <- posts :: post.status == NewsSending.Sent || post.status == NewsSending.Blocked
  }

  function Fresh(e: Event): Post {
    Post(e.id, e.product, NewsSending.Preparing)
  }

  function Joined(es: seq<Event>): seq<Post> {
    seq(|es|, k requires 0 <= k < |es| => Fresh(es[k]))
  }

  function Open(fold: string -> string, run: Run, w: World): seq<Event> {
    Remaining(fold, w.pool, w.published, run.posts)
  }

  /** The events of the next wave. */
  function Wave(fold: string -> string, run: Run, w: World): seq<Event> {
    Rank(Open(fold, run, w), Free(run.posts))
  }

  function SelectInitial(fold: string -> string, run: Run, w: World): Run {
    if !w.enabled || !w.sameTarget || run.expiresAt <= w.now || run.status != Assessing || w.pending then run
    else
      var posts := run.posts + Joined(Wave(fold, run, w));
      run.(posts := posts, status := if posts != [] then Publishing else Completed)
  }

  /** One advance outside of reading; `read` is the state in which a page read leaves the run. */
  function Advance(fold: string -> string, run: Run, w: World, read: RunStatus): Run {
    if !w.enabled || run.status == Completed || run.status == Blocked || !w.sameTarget then run
    else if run.lease.Some? && run.lease.value > w.now then run
    else if run.expiresAt <= w.now then run.(status := Blocked)
    else Worked(fold, run, w, read).(lease := None)
  }

  function Worked(fold: string -> string, run: Run, w: World, read: RunStatus): Run {
    match run.status
    case Archive => if w.pending then run
                    else run.(status := if |Open(fold, run, w)| >= FILL_LIMIT then Assessing else Collecting)
    case Collecting => run.(status := read)
    case Assessing => SelectInitial(fold, run, w)
    case Publishing =>
      if BeingPrepared(run.posts) then run
      else if Free(run.posts) > 0 && Open(fold, run, w) != [] then run.(status := Assessing)
      else if AllOver(run.posts) then run.(status := Completed)
      else run
    case _ => run
  }

  /** The set of publications cannot grow any more. */
  predicate Frozen(fold: string -> string, run: Run, w: World) {
    && (run.status == Publishing || run.status == Completed)
    && !BeingPrepared(run.posts)
    && (NotBlocked(run.posts) >= FILL_LIMIT || Open(fold, run, w) == [])
  }

  // ---------------------------------------------------------------- one wave

  ghost predicate DistinctKeys(fold: string -> string, posts: seq<Post>) {
    forall i, j :: 0 <= i < j < |posts| ==> Key(fold, posts[i].product) != Key(fold, posts[j].product)
  }

  lemma OpenExact(fold: string -> string, run: Run, w: World)
    ensures var open := Open(fold, run, w);
      && DistinctProducts(fold, open) && Distinct(open)
      && (forall e <- open ::
          e in w.pool && Eligible(e, w.published) && Key(fold, e.product) !in Taken(fold, run.posts))
      && Products(fold, open) == Products(fold, OnlyEligible(w.pool, w.published)) - Taken(fold, run.posts)
  {
    var eligible := OnlyEligible(w.pool, w.published);
    var sorted := Sorting.Sort(Better, eligible);
    EligibleMembers(w.pool, w.published);
    Sorting.SortMembers(Better, eligible);
    BestExact(fold, sorted, Taken(fold, run.posts));
    assert Products(fold, sorted) == Products(fold, eligible);
  }

  /** Each open event is the best eligible one of its product: highest score, then urgent, then seen last. */
  lemma OpenIsBest(fold: string -> string, run: Run, w: World, kept: Event, other: Event)
    requires kept in Open(fold, run, w) && other in w.pool && Eligible(other, w.published)
    requires Key(fold, kept.product) == Key(fold, other.product)
    ensures kept == other || Better(kept, other)
  {
    var eligible := OnlyEligible(w.pool, w.published);
    EligibleMembers(w.pool, w.published);
    Orders();
    Sorting.SortMembers(Better, eligible);
    if eligible != [] { Sorting.SortCorrect(Better, eligible, eligible[0]); }
    BestIsBest(fold, Sorting.Sort(Better, eligible), Taken(fold, run.posts), kept, other);
  }

  lemma {:induction false} NotBlockedGrows(posts: seq<Post>, es: seq<Event>)
    ensures NotBlocked(posts + Joined(es)) == NotBlocked(posts) + |es|
  {
    if es == [] {
      assert posts + Joined(es) == posts;
    } else {
      var n := |es| - 1;
      assert Joined(es) == Joined(es[..n]) + [Fresh(es[n])];
      assert (posts + Joined(es))[..|posts| + n] == posts + Joined(es[..n]);
      NotBlockedGrows(posts, es[..n]);
    }
  }

  /** A wave takes the best open events, fits the limit, repeats no product, and leaves no two posts with one key. */
  lemma WaveExact(fold: string -> string, run: Run, w: World)
    ensures var wave, open := Wave(fold, run, w), Open(fold, run, w);
      && |wave| == (if |open| <= Free(run.posts) then |open| else Free(run.posts))
      && (forall e <- wave :: e in open) && Sorting.Sorted(Earlier, wave)
      && (forall e, other :: e in wave && other in open && other !in wave ==> Higher(e, other))
      && (|wave| > 0 ==> NotBlocked(run.posts + Joined(wave)) <= FILL_LIMIT)
      && (DistinctKeys(fold, run.posts) ==> DistinctKeys(fold, run.posts + Joined(wave)))
  {
    var wave := Wave(fold, run, w);
    OpenExact(fold, run, w);
    RankExact(Open(fold, run, w), Free(run.posts));
    NotBlockedGrows(run.posts, wave);
    if DistinctKeys(fold, run.posts) { WaveDistinct(fold, run, w); }
  }

  lemma WaveDistinct(fold: string -> string, run: Run, w: World)
    requires DistinctKeys(fold, run.posts)
    ensures DistinctKeys(fold, run.posts + Joined(Wave(fold, run, w)))
  {
    var wave, open := Wave(fold, run, w), Open(fold, run, w);
    OpenExact(fold, run, w);
    RankExact(open, Free(run.posts));
    hide Rank, Remaining;
    forall i, j | 0 <= i < j < |wave| ensures Key(fold, wave[i].product) != Key(fold, wave[j].product) {
      assert wave[i] in wave && wave[j] in wave;
      DifferentKeys(fold, open, wave[i], wave[j]);
    }
    JoinDistinct(fold, run.posts, wave);
  }

  lemma JoinDistinct(fold: string -> string, posts: seq<Post>, es: seq<Event>)
    requires DistinctKeys(fold, posts) && DistinctProducts(fold, es)
    requires forall e <- es :: Key(fold, e.product) !in Taken(fold, posts)
    ensures DistinctKeys(fold, posts + Joined(es))
  {
    hide Key;
    var all := posts + Joined(es);
    forall i, j | 0 <= i < j < |all| ensures Key(fold, all[i].product) != Key(fold, all[j].product) {
      if i < |posts| <= j {
        assert all[i] in posts && es[j - |posts|] in es;
      }
    }
  }

  lemma DifferentKeys(fold: string -> string, es: seq<Event>, a: Event, b: Event)
    requires DistinctProducts(fold, es) && a in es && b in es && a != b
    ensures Key(fold, a.product) != Key(fold, b.product)
  {
    var i :| 0 <= i < |es| && es[i] == a;
    var j :| 0 <= j < |es| && es[j] == b;
  }

  function Ids(es: seq<Event>): set<nat> {
    set e | e in es :: e.id
  }

  /** Whatever a wave takes closes its products: with the same events, fewer products are open afterwards. */
  lemma WaveShrinks(fold: string -> string, run: Run, w: World)
    ensures var wave := Wave(fold, run, w);
      var run', w' := run.(posts := run.posts + Joined(wave)), w.(published := w.published + Ids(wave));
      && Products(fold, Open(fold, run', w')) <= Products(fold, Open(fold, run, w)) - Products(fold, wave)
      && (wave != [] ==> Products(fold, Open(fold, run', w')) < Products(fold, Open(fold, run, w)))
  {
    var wave := Wave(fold, run, w);
    var run', w' := run.(posts := run.posts + Joined(wave)), w.(published := w.published + Ids(wave));
    OpenExact(fold, run, w);
    OpenExact(fold, run', w');
    RankExact(Open(fold, run, w), Free(run.posts));
    TakenGrows(fold, run.posts, wave);
    EligibleMembers(w.pool, w.published);
    EligibleMembers(w'.pool, w'.published);
    assert Products(fold, OnlyEligible(w'.pool, w'.published)) <= Products(fold, OnlyEligible(w.pool, w.published));
    if wave != [] {
      var k := Key(fold, wave[0].product);
      assert wave[0] in wave && wave[0] in Open(fold, run, w);
      assert k in Products(fold, wave) && k in Products(fold, Open(fold, run, w));
    }
  }

  lemma TakenGrows(fold: string -> string, posts: seq<Post>, es: seq<Event>)
    ensures Taken(fold, posts + Joined(es)) == Taken(fold, posts) + Products(fold, es)
  {
    var all := posts + Joined(es);
    forall k ensures k in Taken(fold, all) <==> k in Taken(fold, posts) + Products(fold, es) {
      if k in Taken(fold, all) {
        var post :| post in all && Key(fold, post.product) == k;
        var i :| 0 <= i < |all| && all[i] == post;
        if i < |posts| { assert post in posts; } else { assert es[i - |posts|] in es; }
      }
      if k in Products(fold, es) {
        var e :| e in es && Key(fold, e.product) == k;
        var i :| 0 <= i < |es| && es[i] == e;
        assert all[|posts| + i] == Fresh(e);
      }
      if k in Taken(fold, posts) {
        var post :| post in posts && Key(fold, post.product) == k;
        assert post in all;
      }
    }
  }

  // ---------------------------------------------------------------- whole runs

  /** A run advances in any world, or one of its posts changes its state in any way. */
  datatype Happening = Advances(world: World, read: RunStatus) | Changes(post: nat, status: Status)

  function Happen(fold: string -> string, run: Run, h: Happening): Run {
    match h
    case Advances(w, read) => Advance(fold, run, w, read)
    case Changes(i, status) =>
      if i < |run.posts| then run.(posts := run.posts[i := run.posts[i].(status := status)]) else run
  }

  function HappenAll(fold: string -> string, run: Run, hs: seq<Happening>): Run
    decreases |hs|
  {
    if hs == [] then run else HappenAll(fold, Happen(fold, run, hs[0]), hs[1..])
  }

  /** What one advance does to the posts: nothing, or a wave from assessing. */
  lemma AdvancePosts(fold: string -> string, run: Run, w: World, read: RunStatus)
    ensures var run' := Advance(fold, run, w, read);
      || run'.posts == run.posts
      || (run.status == Assessing && !w.pending && run'.posts == run.posts + Joined(Wave(fold, run, w)))
  {
    hide Wave, Open, BeingPrepared, AllOver;
  }

  /** Over all waves no two publications of a fill share a product, and none was ever removed. */
  lemma {:induction false} NoProductTwice(fold: string -> string, run: Run, hs: seq<Happening>)
    requires DistinctKeys(fold, run.posts)
    ensures var run' := HappenAll(fold, run, hs);
      && DistinctKeys(fold, run'.posts) && |run.posts| <= |run'.posts|
      && forall i :: 0 <= i < |run.posts| ==> run'.posts[i].event == run.posts[i].event
    decreases |hs|
  {
    if hs != [] {
      var next := Happen(fold, run, hs[0]);
      match hs[0] {
        case Advances(w, read) =>
          AdvancePosts(fold, run, w, read);
          WaveExact(fold, run, w);
        case Changes(_, _) =>
      }
      hide Advance, Wave, Key, Happen;
      NoProductTwice(fold, next, hs[1..]);
    }
  }

  /** While a run is frozen an advance adds nothing, and it stays frozen or ends. */
  lemma FrozenAddsNothing(fold: string -> string, run: Run, w: World, read: RunStatus)
    requires Frozen(fold, run, w)
    ensures var run' := Advance(fold, run, w, read);
      run'.posts == run.posts && (Frozen(fold, run', w) || run'.status == Blocked)
  {
    hide Remaining;
  }

  // ---------------------------------------------------------------- reading pages

  /** A source of the run. */
  datatype Row = Row(token: string, done: bool, attempts: nat, checkedAt: Option<int>, retryAt: Option<int>,
                     enabled: bool)

  datatype Failure = OutOfBudget | Limited(delay: int) | BadResponse | Other

  datatype Read = Page(token: string) | Failed(why: Failure)

  const READ_ATTEMPTS := 3
  const READ_PAUSE := 300

  predicate Due(row: Row, now: int) {
    !row.done && (row.retryAt.None? || row.retryAt.value <= now)
  }

  /** Never read comes first, then the longest ago. */
  predicate ReadSooner(a: Row, b: Row) {
    a.checkedAt.None? || (b.checkedAt.Some? && a.checkedAt.value <= b.checkedAt.value)
  }

  /** The row, among the first `n`, whose turn it is. */
  function Turn(rows: seq<Row>, now: int, n: nat): (turn: Option<nat>)
    requires n <= |rows|
    ensures turn.Some? ==> turn.value < n && Due(rows[turn.value], now)
  {
    if n == 0 then None
    else
      var before := Turn(rows, now, n - 1);
      if Due(rows[n - 1], now) && (before.None? || !ReadSooner(rows[before.value], rows[n - 1])) then Some(n - 1)
      else before
  }

  /** It is the turn of a row that waits longest, the first of several; there is none only if no row is due. */
  lemma {:induction false} TurnIsLongestWaiting(rows: seq<Row>, now: int, n: nat)
    requires n <= |rows|
    ensures var turn := Turn(rows, now, n);
      && (turn.None? <==> forall k :: 0 <= k < n ==> !Due(rows[k], now))
      && (turn.Some? ==> forall k :: 0 <= k < n && Due(rows[k], now) ==>
            ReadSooner(rows[turn.value], rows[k]) && (ReadSooner(rows[k], rows[turn.value]) ==> turn.value <= k))
  {
    if n > 0 { TurnIsLongestWaiting(rows, now, n - 1); }
  }

  method NextRow(rows: seq<Row>, now: int) returns (turn: Option<nat>)
    ensures turn == Turn(rows, now, |rows|)
  {
    turn := None;
    for i := 0 to |rows|
      invariant turn == Turn(rows, now, i)
    {
      if Due(rows[i], now) && (turn.None? || !ReadSooner(rows[turn.value], rows[i])) {
        turn := Some(i);
      }
    }
  }

  /** A page is saved and the cursor moves, or the row counts an attempt; an empty token ends the row. */
  function AfterRead(row: Row, now: int, read: Read): Row {
    match read
    case Page(token) =>
      if token != "" && token == row.token then AfterFailure(row, now, BadResponse)
      else row.(token := token, done := token == "", attempts := 0, checkedAt := Some(now))
    case Failed(why) => AfterFailure(row, now, why)
  }

  function AfterFailure(row: Row, now: int, why: Failure): Row {
    if why == OutOfBudget then row
    else
      var attempts := row.attempts + 1;
      row.(attempts := attempts, checkedAt := Some(now), done := attempts >= READ_ATTEMPTS,
           retryAt := Some(now + if why.Limited? then why.delay else READ_PAUSE),
           token := if why == BadResponse then "" else row.token)
  }

  /** The rows after one page read, and the state of the run. */
  function RowsAfter(rows: seq<Row>, now: int, locked: bool, read: Read): seq<Row> {
    match Turn(rows, now, |rows|)
    case None => rows
    case Some(i) =>
      if !rows[i].enabled then rows[i := rows[i].(done := true)]
      else if !locked then rows
      else rows[i := AfterRead(rows[i], now, read)]
  }

  function StatusAfter(status: RunStatus, rows: seq<Row>, now: int, locked: bool, read: Read): RunStatus {
    match Turn(rows, now, |rows|)
    case None => if forall row <- rows :: row.done then Assessing else status
    case Some(i) => if rows[i].enabled && locked && read == Failed(OutOfBudget) then Assessing else status
  }

  ghost predicate RowsInOrder(rows: seq<Row>) {
    forall row <- rows :: row.attempts <= READ_ATTEMPTS && (!row.done ==> row.attempts < READ_ATTEMPTS)
  }

  /** A read never leaves a row with more than its attempts, and a saved page never leaves the cursor where it was. */
  lemma ReadsAreBounded(rows: seq<Row>, now: int, locked: bool, read: Read)
    requires RowsInOrder(rows)
    ensures RowsInOrder(RowsAfter(rows, now, locked, read)) && |RowsAfter(rows, now, locked, read)| == |rows|
    ensures forall i :: 0 <= i < |rows| && rows[i].done ==> RowsAfter(rows, now, locked, read)[i] == rows[i]
    ensures forall i ::
      0 <= i < |rows| && read.Page? && RowsAfter(rows, now, locked, read)[i] != rows[i] && rows[i].enabled ==>
      var row := RowsAfter(rows, now, locked, read)[i];
      row.done || row.attempts > rows[i].attempts || row.token != rows[i].token
  {
    var rows' := RowsAfter(rows, now, locked, read);
    forall row | row in rows' ensures row.attempts <= READ_ATTEMPTS && (!row.done ==> row.attempts < READ_ATTEMPTS) {
      var i :| 0 <= i < |rows'| && rows'[i] == row;
      assert rows[i] in rows;
    }
  }

  class FillRun {
    var status: RunStatus
    var posts: seq<Post>
    var lease: Option<int>
    var expiresAt: int
    var rows: seq<Row>

    function View(): Run
      reads this
    {
      Run(status, posts, lease, expiresAt)
    }

    /** Best event per product that the run has not used, found in one pass over the candidates. */
    method FindRemaining(fold: string -> string, w: World) returns (best: seq<Event>)
      ensures best == Open(fold, View(), w)
    {
      var events := Sorting.Sort(Better, OnlyEligible(w.pool, w.published));
      var closed := Taken(fold, posts);
      best := [];
      var i := 0;
      while i < |events|
        invariant 0 <= i <= |events|
        invariant best + Best(fold, events[i..], closed) == Open(fold, View(), w)
      {
        var k := Key(fold, events[i].product);
        assert events[i..][0] == events[i] && events[i..][1..] == events[i + 1..];
        if k !in closed {
          Associative(best, [events[i]], Best(fold, events[i + 1..], closed + {k}));
          best, closed := best + [events[i]], closed + {k};
        }
        i := i + 1;
      }
    }

    /** Creates the publications of a wave, one event after another. */
    method Select(fold: string -> string, w: World)
      modifies this`posts, this`status
      ensures View() == SelectInitial(fold, old(View()), w)
    {
      if !w.enabled || !w.sameTarget || expiresAt <= w.now {
        return;
      }
      if status != Assessing || w.pending {
        return;
      }
      var open := FindRemaining(fold, w);
      var wave := Rank(open, Free(posts));
      ghost var before := posts;
      for k := 0 to |wave|
        invariant posts == before + Joined(wave[..k])
      {
        assert Joined(wave[..k + 1]) == Joined(wave[..k]) + [Fresh(wave[k])];
        posts := posts + [Fresh(wave[k])];
      }
      assert wave[..|wave|] == wave;
      status := if posts != [] then Publishing else Completed;
    }

    /** Reads a page of the source whose turn it is. */
    method ReadPage(now: int, locked: bool, read: Read)
      modifies this`rows, this`status
      ensures rows == RowsAfter(old(rows), now, locked, read)
      ensures status == StatusAfter(old(status), old(rows), now, locked, read)
    {
      var turn := NextRow(rows, now);
      if turn.None? {
        if forall row <- rows :: row.done {
          status := Assessing;
        }
        return;
      }
      var i := turn.value;
      var row := rows[i];
      if !row.enabled {
        rows := rows[i := row.(done := true)];
        return;
      }
      if !locked {
        return;
      }
      if read == Failed(OutOfBudget) {
        status := Assessing;
        return;
      }
      rows := rows[i := AfterRead(row, now, read)];
    }

    /** One tick of the run under its lease. */
    method AdvanceRun(fold: string -> string, w: World, locked: bool, read: Read)
      modifies this
      ensures View() == Advance(fold, old(View()), w, StatusAfter(old(status), old(rows), w.now, locked, read))
      ensures rows == if old(status) == Collecting && w.enabled && w.sameTarget && w.now < expiresAt
                         && (old(lease).Some? ==> old(lease).value <= w.now) then
                           RowsAfter(old(rows), w.now, locked, read)
                      else old(rows)
    {
      if !w.enabled || status == Completed || status == Blocked || !w.sameTarget {
        return;
      }
      if lease.Some? && lease.value > w.now {
        return;
      }
      if expiresAt <= w.now {
        status := Blocked;
        return;
      }
      lease := Some(w.now + LEASE);
      if status == Archive {
        if !w.pending {
          var open := FindRemaining(fold, w);
          status := if |open| >= FILL_LIMIT then Assessing else Collecting;
        }
      } else if status == Collecting {
        ReadPage(w.now, locked, read);
      } else if status == Assessing {
        Select(fold, w);
      } else if status == Publishing {
        if !BeingPrepared(posts) {
          var open := FindRemaining(fold, w);
          if Free(posts) > 0 && open != [] {
            status := Assessing;
          } else if AllOver(posts) {
            status := Completed;
          }
        }
      }
      lease := None;
    }
  }
}
