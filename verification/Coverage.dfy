/**
 Which part of a timeline is stored without a hole: a range of ids, from the smallest ever fetched to the saved cursor,
 in which every post that is not a retweet is stored. A first poll starts the range, later polls extend it upwards and
 backfills downwards; each of them reads a stretch of the timeline that is known by the numbers in it.
 */
module Coverage {
  import opened Text
  import opened Ingestion

  datatype Range = Range(low: int, high: int)

  /** The numbers of the posts of a timeline, all of them or only those that are stored. */
  ghost function Numbers(t: seq<Post>): set<int>
    requires forall p <- t :: Numbered(p)
  {
    set p | p in t :: Number(p)
  }

  ghost function Wanted(t: seq<Post>): set<int>
    requires forall p <- t :: Numbered(p)
  {
    set p | p in t && !p.retweet :: Number(p)
  }

  /** The stored numbers; every id of a timeline is one. */
  ghost function Held(s: Source): set<int> {
    set id | id in s.stored && id.Numeric? :: id.value
  }

  /** Everything wanted between two numbers is held, and nothing else. */
  ghost predicate Spans(numbers: set<int>, wanted: set<int>, held: set<int>, low: int, high: int) {
    && low <= high && high in numbers && held <= wanted
    && (forall n <- held :: low <= n <= high)
    && (forall n <- wanted :: low <= n <= high ==> n in held)
  }

  /**
   Everything between two numbers is stored except retweets. The lower one is the smallest id ever fetched, the upper
   one the saved cursor.
   */
  ghost predicate Covered(t: seq<Post>, s: Source, range: Option<Range>)
    requires Timeline(t)
  {
    && (forall id <- s.stored :: id.Numeric?)
    && match range
       case None => s.last == None && Held(s) == {}
       case Some(r) =>
         && (if s.last.Some? then s.last == Some(Numeric(r.high)) else Held(s) != {})
         && Spans(Numbers(t), Wanted(t), Held(s), r.low, r.high)
  }

  lemma CoveredParts(t: seq<Post>, s: Source, r: Range)
    requires Timeline(t)
    ensures Covered(t, s, Some(r)) <==>
      && (forall id <- s.stored :: id.Numeric?)
      && (if s.last.Some? then s.last == Some(Numeric(r.high)) else Held(s) != {})
      && Spans(Numbers(t), Wanted(t), Held(s), r.low, r.high)
  {
  }

  /** What lies above a held number joins the span, up to the highest number of all. */
  lemma SpanUp(numbers: set<int>, wanted: set<int>, held: set<int>, low: int, high: int, c: int, got: set<int>,
               top: int)
    requires Spans(numbers, wanted, held, low, high) && wanted <= numbers && low <= c <= high && c <= top
      && top in numbers
    requires (forall n <- numbers :: n <= top) || (top == c && forall n <- numbers :: n <= c)
    requires forall n :: n in got <==> n in wanted && c + 1 <= n <= top
    ensures Spans(numbers, wanted, held + got, low, top)
  {
    forall n | n in held + got ensures n in wanted && low <= n <= top {
      if n in held { assert n in wanted && n in numbers; }
    }
    forall n | n in wanted && low <= n <= top ensures n in held + got {
      if n <= c { assert n in held; }
    }
  }

  /** What lies below a held number joins the span, exactly when nothing wanted is left out on the way. */
  lemma SpanDown(numbers: set<int>, wanted: set<int>, held: set<int>, low: int, high: int, c: int, got: set<int>,
                 from: int, top: int)
    requires Spans(numbers, wanted, held, low, high) && low <= c <= high && from <= top < c
    requires forall n :: n in got <==> n in wanted && from <= n <= top
    ensures Spans(numbers, wanted, held + got, Min(low, from), high)
      <==> forall n <- wanted :: top < n < c ==> n in held
  {
    forall n | n in held + got ensures n in wanted && Min(low, from) <= n <= high {
      if n !in held { assert n in got; }
    }
    if Spans(numbers, wanted, held + got, Min(low, from), high) {
      forall n | n in wanted && top < n < c ensures n in held { assert n in held + got; }
    }
    if forall n <- wanted :: top < n < c ==> n in held {
      forall n | n in wanted && Min(low, from) <= n <= high ensures n in held + got {
        if low <= n { assert n in held; }
      }
    }
  }

  function Min(a: int, b: int): int { if a <= b then a else b }

  lemma NewestIsFirst(t: seq<Post>)
    requires Timeline(t) && t != []
    ensures Newest(t) == t[0].id
  {
    var n := |t| - 1;
    assert t[n] in t;
    if n > 0 {
      PartTimeline(t, t[..n], 0);
      NewestIsFirst(t[..n]);
      assert t[..n][0] == t[0] && Number(t[0]) > Number(t[n]);
      assert Later(t[0].id.value, t[n].id.value) == t[0].id.value;
    }
  }

  lemma PartTimeline(t: seq<Post>, part: seq<Post>, from: nat)
    requires Timeline(t) && from + |part| <= |t| && part == t[from..from + |part|]
    ensures Timeline(part) && (forall p <- part :: p in t) && Numbers(part) <= Numbers(t) && Wanted(part) <= Wanted(t)
  {
    assert forall i :: 0 <= i < |part| ==> part[i] == t[from + i] && t[from + i] in t;
  }

  /** In a beginning of a timeline are exactly the numbers from its last one on, and in an end those up to its first. */
  lemma PartExact(t: seq<Post>, part: seq<Post>, from: nat)
    requires Timeline(t) && from + |part| <= |t| && part == t[from..from + |part|] && part != []
    ensures Timeline(part) && part[0] in part && part[|part| - 1] in part
    ensures forall n <- Numbers(t) :: n in Numbers(part) <==> Number(part[|part| - 1]) <= n <= Number(part[0])
    ensures forall n <- Wanted(t) :: n in Wanted(part) <==> Number(part[|part| - 1]) <= n <= Number(part[0])
    ensures forall n <- Numbers(part) :: Number(part[|part| - 1]) <= n <= Number(part[0])
  {
    PartTimeline(t, part, from);
    forall p | p in t ensures p in part <==> Number(part[|part| - 1]) <= Number(p) <= Number(part[0]) {
      var i :| 0 <= i < |t| && t[i] == p;
      if from <= i < from + |part| { assert part[i - from] == p; }
      if p in part {
        var k :| 0 <= k < |part| && part[k] == p;
      }
    }
    assert forall n <- Wanted(part) :: n in Numbers(part);
    SameNumberSamePost(t);
  }

  lemma SameNumberSamePost(t: seq<Post>)
    requires Timeline(t)
    ensures forall p, q :: p in t && q in t && Number(p) == Number(q) ==> p == q
  {
  }

  lemma HeldAfter(s: Source, s': Source, posts: seq<Post>)
    requires (forall id <- s.stored :: id.Numeric?) && (forall p <- posts :: Numbered(p))
    requires s'.stored.Keys == s.stored.Keys + PostIds(posts)
    ensures Held(s') == Held(s) + Wanted(posts) && forall id <- s'.stored :: id.Numeric?
  {
    forall n ensures n in Held(s') <==> n in Held(s) + Wanted(posts) {
      if n in Wanted(posts) {
        var p :| p in posts && !p.retweet && Number(p) == n;
        assert p.id.value in PostIds(posts) && p.id.value in s'.stored;
      }
      if n in Held(s) { assert Numeric(n) in s'.stored; }
      if n in Held(s') {
        assert Numeric(n) in s'.stored;
        if Numeric(n) in PostIds(posts) {
          var p :| p in posts && !p.retweet && p.id == Some(Numeric(n));
          assert Number(p) == n;
        }
      }
    }
  }

  /** The first poll starts the range with what it got. */
  lemma BootstrapCovers(t: seq<Post>, posts: seq<Post>)
    requires Timeline(t) && posts <= t
    ensures var s' := Polled(Source(None, map[]), None, posts);
      if posts == [] then Covered(t, s', None)
      else
        && posts[0] in t && posts[|posts| - 1] in t
        && Covered(t, s', Some(Range(Number(posts[|posts| - 1]), Number(posts[0]))))
  {
    var s, s' := Source(None, map[]), Polled(Source(None, map[]), None, posts);
    StoredAfter(map[], posts);
    PartTimeline(t, posts, 0);
    HeldAfter(s, s', posts);
    assert Held(s) == {};
    if posts != [] {
      NewestIsFirst(posts);
      assert posts[0] in posts && posts[0] in t;
      NewestSaved(posts);
      BootstrapSpans(t, posts);
      assert Held(s') == Wanted(posts);
      CoveredParts(t, s', Range(Number(posts[|posts| - 1]), Number(posts[0])));
      hide Polled, Newest, Wanted, Held, Covered, Spans;
    }
  }

  lemma BootstrapSpans(t: seq<Post>, posts: seq<Post>)
    requires Timeline(t) && posts <= t && posts != []
    ensures posts[0] in t && posts[|posts| - 1] in t && forall p <- posts :: p in t
    ensures Spans(Numbers(t), Wanted(t), Wanted(posts), Number(posts[|posts| - 1]), Number(posts[0]))
  {
    PartTimeline(t, posts, 0);
    PartExact(t, posts, 0);
    WantedAreNumbers(posts);
    WantedAreNumbers(t);
    assert posts[|posts| - 1] == posts[0] || Number(posts[0]) > Number(posts[|posts| - 1]);
  }

  lemma NewestSaved(posts: seq<Post>)
    requires Newest(posts).Some?
    ensures Polled(Source(None, map[]), None, posts).last == Newest(posts)
  {
  }

  lemma WantedAreNumbers(t: seq<Post>)
    requires forall p <- t :: Numbered(p)
    ensures Wanted(t) <= Numbers(t)
  {
  }

  lemma TailTimeline(t: seq<Post>)
    requires Timeline(t) && t != []
    ensures Timeline(t[1..]) && forall p <- t[1..] :: p in t && Number(p) < Number(t[0])
  {
    PartTimeline(t, t[1..], 1);
    forall p | p in t[1..] ensures Number(p) < Number(t[0]) {
      var i :| 0 <= i < |t[1..]| && t[1..][i] == p;
      assert t[i + 1] == p;
    }
  }

  lemma {:induction false} NewerExact(t: seq<Post>, n: int)
    requires Timeline(t)
    ensures Newer(t, n) <= t && forall p <- t :: p in Newer(t, n) <==> Number(p) > n
  {
    if t != [] {
      TailTimeline(t);
      assert t == [t[0]] + t[1..];
      if Number(t[0]) > n { NewerExact(t[1..], n); }
    }
  }

  lemma {:induction false} OlderExact(t: seq<Post>, n: int)
    requires Timeline(t)
    ensures |Older(t, n)| <= |t| && Older(t, n) == t[|t| - |Older(t, n)|..]
    ensures forall p <- t :: p in Older(t, n) <==> Number(p) <= n
  {
    if t != [] {
      TailTimeline(t);
      assert t == [t[0]] + t[1..];
      if Number(t[0]) > n { OlderExact(t[1..], n); }
    }
  }

  /** What a server serves after a number is a beginning of the timeline, and up to a number an end of it. */
  lemma SplitAt(t: seq<Post>, n: int)
    requires Timeline(t)
    ensures Newer(t, n) <= t && |Older(t, n)| <= |t| && Older(t, n) == t[|t| - |Older(t, n)|..]
    ensures forall p <- t :: (p in Newer(t, n) <==> Number(p) > n) && (p in Older(t, n) <==> Number(p) <= n)
    ensures Timeline(Newer(t, n)) && Timeline(Older(t, n))
  {
    NewerExact(t, n);
    OlderExact(t, n);
    var newer, older := Newer(t, n), Older(t, n);
    hide Newer, Older;
    PrefixTimeline(t, newer);
    SuffixTimeline(t, older, |t| - |older|);
    hide Timeline;
  }

  lemma PrefixTimeline(t: seq<Post>, part: seq<Post>)
    requires Timeline(t) && part <= t
    ensures Timeline(part)
  {
    PartTimeline(t, part, 0);
  }

  lemma SuffixTimeline(t: seq<Post>, part: seq<Post>, from: nat)
    requires Timeline(t) && from <= |t| && part == t[from..]
    ensures Timeline(part)
  {
    PartTimeline(t, part, from);
  }

  /** Posts found by their numbers in a part of a timeline. */
  lemma NumbersOfPart(t: seq<Post>, part: seq<Post>, low: int, high: int)
    requires Timeline(t) && Timeline(part) && forall p <- part :: p in t
    requires forall p <- t :: p in part <==> low <= Number(p) <= high
    ensures forall n :: n in Wanted(part) <==> n in Wanted(t) && low <= n <= high
    ensures forall n :: n in Numbers(part) <==> n in Numbers(t) && low <= n <= high
  {
    SameNumberSamePost(t);
  }

  /** Where a poll leaves the upper end. */
  ghost function HighAfter(cursor: int, posts: seq<Post>): int
    requires forall p <- posts :: Numbered(p)
  {
    if posts == [] then cursor else Number(posts[0])
  }

  lemma PolledLast(t: seq<Post>, s: Source, cursor: int, posts: seq<Post>)
    requires Timeline(t) && posts == Newer(t, cursor)
    requires if s.last.Some? then s.last == Some(Numeric(cursor)) else s.stored != map[]
    ensures forall p <- posts :: Numbered(p)
    ensures Polled(s, Some(Numeric(cursor)), posts).last == Some(Numeric(HighAfter(cursor, posts)))
    ensures HighAfter(cursor, posts) >= cursor
  {
    SplitAt(t, cursor);
    if posts != [] {
      NewestIsFirst(posts);
      assert posts[0] in posts && posts[0] in t;
    }
  }

  lemma CursorInRange(t: seq<Post>, s: Source, r: Range, cursor: Id)
    requires Timeline(t) && Covered(t, s, Some(r)) && (PollCursor(s, Some(cursor)) || HistoryCursor(s, cursor))
    ensures cursor.Numeric? && r.low <= cursor.value <= r.high && cursor.value in Numbers(t)
    ensures s.last.Some? && PollCursor(s, Some(cursor)) ==> cursor.value == r.high
  {
    WantedAreNumbers(t);
    if cursor in s.stored { assert cursor.value in Held(s); }
    if s.stored == map[] { assert Held(s) == {}; }
  }

  /** A later poll reads everything after its cursor; the upper end follows and never falls behind the saved cursor. */
  lemma PollCovers(t: seq<Post>, s: Source, r: Range, cursor: Id, posts: seq<Post>)
    requires Timeline(t) && Covered(t, s, Some(r)) && PollCursor(s, Some(cursor))
    requires cursor.Numeric? && posts == Newer(t, cursor.value)
    ensures forall p <- posts :: Numbered(p)
    ensures Covered(t, Polled(s, Some(cursor), posts), Some(Range(r.low, HighAfter(cursor.value, posts))))
    ensures s.last.Some? ==> HighAfter(cursor.value, posts) >= r.high
  {
    CursorInRange(t, s, r, cursor);
    SplitAt(t, cursor.value);
    var s' := Polled(s, Some(cursor), posts);
    PolledHolds(t, s, cursor, posts);
    if s.stored == map[] { assert Held(s) == {}; }
    PolledLast(t, s, cursor.value, posts);
    var high := HighAfter(cursor.value, posts);
    TopAfterPoll(t, cursor.value, posts);
    WantedAreNumbers(t);
    CoveredParts(t, s, r);
    CoveredParts(t, s', Range(r.low, high));
    hide Newer, Polled, Held, Wanted, Numbers, Spans, Covered, Timeline, PollCursor, HighAfter;
    SpanUp(Numbers(t), Wanted(t), Held(s), r.low, r.high, cursor.value, Wanted(posts), high);
  }

  lemma PolledHolds(t: seq<Post>, s: Source, cursor: Id, posts: seq<Post>)
    requires Timeline(t) && (forall id <- s.stored :: id.Numeric?) && forall p <- posts :: p in t
    ensures Held(Polled(s, Some(cursor), posts)) == Held(s) + Wanted(posts)
    ensures forall id <- Polled(s, Some(cursor), posts).stored :: id.Numeric?
  {
    StoredAfter(s.stored, posts);
    HeldAfter(s, Polled(s, Some(cursor), posts), posts);
  }

  /** After a poll nothing lies above the upper end, and exactly what lies above the cursor was fetched. */
  lemma TopAfterPoll(t: seq<Post>, c: int, posts: seq<Post>)
    requires Timeline(t) && posts == Newer(t, c) && c in Numbers(t)
    ensures forall p <- posts :: p in t
    ensures var top := HighAfter(c, posts);
      && c <= top && top in Numbers(t) && (forall n <- Numbers(t) :: n <= top)
      && (forall n :: n in Wanted(posts) <==> n in Wanted(t) && c + 1 <= n <= top)
  {
    SplitAt(t, c);
    var top := HighAfter(c, posts);
    if posts == [] {
      NothingNewer(t, c);
    } else {
      FirstIsHighest(t, posts);
      assert posts[0] in posts;
    }
    NumbersOfPart(t, posts, c + 1, top);
  }

  lemma NothingNewer(t: seq<Post>, n: int)
    requires Timeline(t) && Newer(t, n) == []
    ensures forall x <- Numbers(t) :: x <= n
    ensures forall p <- t :: Number(p) <= n
  {
    SplitAt(t, n);
  }

  lemma FirstIsHighest(t: seq<Post>, part: seq<Post>)
    requires Timeline(t) && part <= t && part != []
    ensures t[0] in t && part[0] == t[0]
    ensures forall p <- t :: Number(p) <= Number(t[0])
    ensures forall x <- Numbers(t) :: x <= Number(t[0])
    ensures Number(t[0]) in Numbers(t)
  {
  }

  /** The post right below the cursor is wanted, not stored, and passed over: X serves less than the code expects. */
  ghost predicate Misses(t: seq<Post>, s: Source, cursor: int, posts: seq<Post>, reading: UntilId)
    requires forall p <- t :: Numbered(p)
  {
    reading.Exclusive? && posts != [] && cursor - 1 in Wanted(t) && cursor - 1 !in Held(s)
  }

  /**
   A backfill reads a stretch below its cursor and only the lower end moves; nothing is left out unless it misses a
   post.
   */
  lemma BackfillCovers(t: seq<Post>, s: Source, r: Range, cursor: Id, posts: seq<Post>, reading: UntilId)
    requires Timeline(t) && Covered(t, s, Some(r)) && HistoryCursor(s, cursor)
    requires UpperBound(cursor).Some? && posts <= Older(t, reading.Highest(UpperBound(cursor).value))
    ensures forall p <- posts :: Numbered(p)
    ensures var low := if posts == [] then r.low else Min(r.low, Number(posts[|posts| - 1]));
      Covered(t, Backfilled(s, posts), Some(Range(low, r.high))) <==> !Misses(t, s, cursor.value, posts, reading)
  {
    var bound := reading.Highest(UpperBound(cursor).value);
    CursorInRange(t, s, r, cursor);
    FromTimeline(t, bound, posts);
    var s' := Backfilled(s, posts);
    BackfilledHolds(t, s, posts);
    CoveredParts(t, s, r);
    if posts == [] {
      assert Wanted(posts) == {} && Held(s) + {} == Held(s);
      CoveredParts(t, s', r);
    } else {
      StretchSpans(t, Held(s), r, cursor.value, posts, bound);
      MissesExactly(t, s, cursor.value, posts, reading);
      CoveredParts(t, s', Range(Min(r.low, Number(posts[|posts| - 1])), r.high));
    }
    hide *;
  }

  /**
   A backfill that reached the end of what is older, which it does if that is no more than its limit, leaves nothing
   older than the saved cursor unstored, unless X reads its bound as exclusive and the post right below the cursor is
   missing.
   */
  lemma BackfillReachesTheOldest(t: seq<Post>, s: Source, r: Range, cursor: Id, posts: seq<Post>, limit: nat,
                                 reading: UntilId)
    requires Timeline(t) && Covered(t, s, Some(r)) && HistoryCursor(s, cursor) && UpperBound(cursor).Some?
    requires var older := Older(t, reading.Highest(UpperBound(cursor).value));
      |older| <= limit && posts <= older && (posts == older || |posts| == limit)
    ensures (forall p <- t :: !p.retweet && Number(p) <= r.high ==> p.id.value in Backfilled(s, posts).stored)
      <==> (reading.Exclusive? && cursor.value - 1 in Wanted(t) ==> cursor.value - 1 in Held(s))
  {
    var bound := reading.Highest(UpperBound(cursor).value);
    CursorInRange(t, s, r, cursor);
    var c, stored := cursor.value, Backfilled(s, posts).stored;
    forall p | p in t && !p.retweet && Number(p) <= r.high && (Number(p) <= bound || c <= Number(p))
      ensures p.id.value in stored {
      Reached(t, s, r, p, c, posts, bound);
    }
    forall p | p in t && !p.retweet && bound < Number(p) ensures p.id.value in stored <==> Number(p) in Held(s) {
      NotServed(t, s, posts, p, bound);
    }
    if reading.Exclusive? && c - 1 in Wanted(t) {
      var p :| p in t && !p.retweet && Number(p) == c - 1;
    }
    hide *;
  }

  lemma Reached(t: seq<Post>, s: Source, r: Range, p: Post, c: int, posts: seq<Post>, bound: int)
    requires Timeline(t) && Covered(t, s, Some(r)) && p in t && !p.retweet && posts == Older(t, bound)
    requires Number(p) <= bound || r.low <= c <= Number(p) <= r.high
    ensures p.id.value in Backfilled(s, posts).stored
  {
    SplitAt(t, bound);
    StoredAfter(s.stored, posts);
    CoveredParts(t, s, r);
    assert Number(p) in Wanted(t);
    if Number(p) <= bound { assert p.id.value in PostIds(posts); }
    hide Older, Newer, Timeline;
  }

  lemma NotServed(t: seq<Post>, s: Source, posts: seq<Post>, p: Post, bound: int)
    requires Timeline(t) && p in t && !p.retweet && bound < Number(p) && posts == Older(t, bound)
    ensures p.id.value in Backfilled(s, posts).stored <==> Number(p) in Held(s)
  {
    SplitAt(t, bound);
    StoredAfter(s.stored, posts);
    assert forall q <- posts :: q in t && q != p && Number(q) <= bound;
    hide Older, Newer;
  }

  lemma FromTimeline(t: seq<Post>, bound: int, posts: seq<Post>)
    requires Timeline(t) && posts <= Older(t, bound)
    ensures forall p <- posts :: p in t && Numbered(p)
  {
    SplitAt(t, bound);
    assert forall p <- posts :: p in Older(t, bound);
  }

  lemma StretchSpans(t: seq<Post>, held: set<int>, r: Range, c: int, posts: seq<Post>, bound: int)
    requires Timeline(t) && posts <= Older(t, bound) && posts != [] && (forall p <- posts :: Numbered(p))
    requires Spans(Numbers(t), Wanted(t), held, r.low, r.high) && r.low <= c <= r.high && bound < c
    ensures Spans(Numbers(t), Wanted(t), held + Wanted(posts), Min(r.low, Number(posts[|posts| - 1])), r.high)
      <==> forall n <- Wanted(t) :: bound < n < c ==> n in held
  {
    StretchFetched(t, bound, posts);
    hide Older, Wanted, Numbers, Spans, Timeline;
    SpanDown(Numbers(t), Wanted(t), held, r.low, r.high, c, Wanted(posts), Number(posts[|posts| - 1]), bound);
  }

  lemma MissesExactly(t: seq<Post>, s: Source, c: int, posts: seq<Post>, reading: UntilId)
    requires (forall p <- t :: Numbered(p)) && posts != []
    ensures Misses(t, s, c, posts, reading)
      <==> !(forall n <- Wanted(t) :: reading.Highest(c - 1) < n < c ==> n in Held(s))
  {
  }

  lemma BackfilledHolds(t: seq<Post>, s: Source, posts: seq<Post>)
    requires Timeline(t) && (forall id <- s.stored :: id.Numeric?) && forall p <- posts :: p in t
    ensures Held(Backfilled(s, posts)) == Held(s) + Wanted(posts)
    ensures forall id <- Backfilled(s, posts).stored :: id.Numeric?
  {
    StoredAfter(s.stored, posts);
    HeldAfter(s, Backfilled(s, posts), posts);
  }

  /** A backfill fetched exactly what lies between its last post and its bound. */
  lemma StretchFetched(t: seq<Post>, bound: int, posts: seq<Post>)
    requires Timeline(t) && posts <= Older(t, bound) && posts != []
    ensures forall p <- posts :: p in t
    ensures forall n :: n in Wanted(posts) <==> n in Wanted(t) && Number(posts[|posts| - 1]) <= n <= bound
    ensures Number(posts[|posts| - 1]) <= bound
  {
    SplitAt(t, bound);
    var older := Older(t, bound);
    var from := |t| - |older|;
    assert posts == t[from..from + |posts|];
    PartExact(t, posts, from);
    HighestOlder(t, bound, posts);
    WantedAreNumbers(t);
    WantedAreNumbers(posts);
    SubsetWanted(t, posts);
  }

  lemma SubsetWanted(t: seq<Post>, part: seq<Post>)
    requires (forall p <- t :: Numbered(p)) && forall p <- part :: p in t
    ensures Wanted(part) <= Wanted(t)
  {
  }

  lemma HighestOlder(t: seq<Post>, bound: int, posts: seq<Post>)
    requires Timeline(t) && posts <= Older(t, bound) && posts != []
    ensures posts[0] in t
    ensures Number(posts[0]) <= bound
    ensures forall x <- Numbers(t) :: x <= bound ==> x <= Number(posts[0])
  {
    SplitAt(t, bound);
    var older := Older(t, bound);
    assert posts[0] == older[0] && older[0] in older;
    FirstIsHighest(older, older);
    forall x | x in Numbers(t) && x <= bound ensures x <= Number(posts[0]) {
      var p :| p in t && Number(p) == x;
      assert p in older;
    }
  }

  lemma InTail(arrived: seq<Post>, t: seq<Post>, i: nat)
    requires i < |arrived + t|
    ensures i < |arrived| || (arrived + t)[i] in t
  {
  }

  /** New posts come above all others, so they leave no hole. */
  lemma GrowthCovers(t: seq<Post>, arrived: seq<Post>, s: Source, range: Option<Range>)
    requires Timeline(t) && Timeline(arrived + t) && Covered(t, s, range)
    ensures Covered(arrived + t, s, range)
  {
    var t' := arrived + t;
    assert forall p <- t :: p in t';
    assert Numbers(t) <= Numbers(t') && Wanted(t) <= Wanted(t');
    forall n, x | n in Wanted(t') && n !in Wanted(t) && x in Numbers(t) ensures n > x {
      var p :| p in t' && !p.retweet && Number(p) == n;
      var i :| 0 <= i < |t'| && t'[i] == p;
      InTail(arrived, t, i);
      var q :| q in t && Number(q) == x;
      var j :| 0 <= j < |t| && t[j] == q;
      assert t'[|arrived| + j] == q;
    }
  }
}
