/** Polling and backfilling the posts of one source: cursors, preparation and storage. */
module Ingestion {
  import opened Text
  import Sorting
  import opened XTimeline

  // ---------------------------------------------------------------- post ids

  /** A post id as it sorts: one that reads as a number after every other one. */
  datatype Id = Opaque(text: string) | Numeric(value: int)

  predicate TextAtMost(a: string, b: string) {
    a == "" || (b != "" && (a[0] < b[0] || (a[0] == b[0] && TextAtMost(a[1..], b[1..]))))
  }

  predicate AtMost(a: Id, b: Id) {
    match (a, b)
    case (Opaque(s), Opaque(t)) => TextAtMost(s, t)
    case (Opaque(_), Numeric(_)) => true
    case (Numeric(_), Opaque(_)) => false
    case (Numeric(m), Numeric(n)) => m <= n
  }

  lemma {:induction false} TextTotal(a: string, b: string)
    ensures TextAtMost(a, b) || TextAtMost(b, a)
  {
    if a != "" && b != "" && a[0] == b[0] { TextTotal(a[1..], b[1..]); }
  }

  lemma {:induction false} TextTransitive(a: string, b: string, c: string)
    requires TextAtMost(a, b) && TextAtMost(b, c)
    ensures TextAtMost(a, c)
  {
    if a != "" && b != "" && c != "" && a[0] == b[0] == c[0] { TextTransitive(a[1..], b[1..], c[1..]); }
  }

  lemma AtMostIsOrder()
    ensures Sorting.TotalPreorder(AtMost)
  {
    forall a: Id, b: Id ensures AtMost(a, b) || AtMost(b, a) {
      if a.Opaque? && b.Opaque? { TextTotal(a.text, b.text); }
    }
    forall a: Id, b: Id, c: Id | AtMost(a, b) && AtMost(b, c) ensures AtMost(a, c) {
      if a.Opaque? && b.Opaque? && c.Opaque? { TextTransitive(a.text, b.text, c.text); }
    }
  }

  /** The later of two ids, the first one on a tie. */
  function Later(a: Id, b: Id): Id {
    if AtMost(b, a) then a else b
  }

  // ---------------------------------------------------------------- preparing and storing

  /** A served post; `valid` tells whether it can be normalised. */
  datatype Post = Post(id: Option<Id>, date: int, retweet: bool, valid: bool)

  datatype Item = Item(id: Id, date: int)

  datatype Prepared = Prepared(items: seq<Item>, ignored: nat, newest: Option<Id>)

  predicate ItemBefore(a: Item, b: Item) {
    a.date < b.date || (a.date == b.date && AtMost(a.id, b.id))
  }

  /** A post that can be stored. */
  predicate Usable(post: Post) {
    post.retweet || (post.valid && post.id.Some?)
  }

  function Items(posts: seq<Post>): seq<Item> {
    if posts == [] then []
    else
      var post := posts[|posts| - 1];
      Items(posts[..|posts| - 1]) + if !post.retweet && post.id.Some? then [Item(post.id.value, post.date)] else []
  }

  /** The items to store, by date and then by id. */
  function Ordered(posts: seq<Post>): seq<Item> {
    Sorting.Sort(ItemBefore, Items(posts))
  }

  function Retweets(posts: seq<Post>): nat {
    if posts == [] then 0 else Retweets(posts[..|posts| - 1]) + if posts[|posts| - 1].retweet then 1 else 0
  }

  /** The latest id of all posts, retweets included. */
  function Newest(posts: seq<Post>): Option<Id> {
    if posts == [] then None
    else
      var before, id := Newest(posts[..|posts| - 1]), posts[|posts| - 1].id;
      if id.None? then before else if before.None? then id else Some(Later(before.value, id.value))
  }

  /** Items of the posts that are not retweets, oldest first; nothing at all if one of them is malformed. */
  method PrepareSourcePosts(pages: seq<seq<Post>>) returns (r: Option<Prepared>)
    ensures r.Some? <==> forall post <- Flat(pages) :: post.retweet || (post.valid && post.id.Some?)
    ensures r.Some? ==> r.value == Prepared(Ordered(Flat(pages)), Retweets(Flat(pages)), Newest(Flat(pages)))
  {
    var items: seq<Item>, ignored, newest: Option<Id> := [], 0, None;
    var done: seq<Post> := [];
    for i := 0 to |pages|
      invariant done == Flat(pages[..i]) && forall post <- done :: Usable(post)
      invariant items == Items(done) && ignored == Retweets(done) && newest == Newest(done)
    {
      assert pages[..i + 1][..i] == pages[..i];
      ghost var before := done;
      for j := 0 to |pages[i]|
        invariant done == before + pages[i][..j] && forall post <- done :: Usable(post)
        invariant items == Items(done) && ignored == Retweets(done) && newest == Newest(done)
      {
        var post := pages[i][j];
        assert (done + [post])[..|done|] == done;
        if !Usable(post) {
          InFlat(pages, i, j);
          return None;
        }
        if post.id.Some? {
          newest := if newest.None? then post.id else Some(Later(newest.value, post.id.value));
        }
        if post.retweet {
          ignored := ignored + 1;
        } else {
          items := items + [Item(post.id.value, post.date)];
        }
        done := done + [post];
      }
      assert pages[i][..|pages[i]|] == pages[i];
    }
    assert pages[..|pages|] == pages;
    return Some(Prepared(Sorting.Sort(ItemBefore, items), ignored, newest));
  }

  lemma {:induction false} InFlat(pages: seq<seq<Post>>, i: nat, j: nat)
    requires i < |pages| && j < |pages[i]|
    ensures pages[i][j] in Flat(pages)
  {
    var n := |pages| - 1;
    if i < n {
      assert pages[..n][i] == pages[i];
      InFlat(pages[..n], i, j);
    }
  }

  /** Rows by post id, with the dates; a post that is already stored is left as it is. */
  function Persist(rows: map<Id, int>, items: seq<Item>): map<Id, int> {
    if items == [] then rows
    else
      var before, item := Persist(rows, items[..|items| - 1]), items[|items| - 1];
      if item.id in before then before else before[item.id := item.date]
  }

  method PersistSourcePosts(rows: map<Id, int>, items: seq<Item>)
    returns (stored: map<Id, int>, created: nat, existing: nat)
    ensures stored == Persist(rows, items) && created + existing == |items| && created == |stored| - |rows|
  {
    stored, created, existing := rows, 0, 0;
    for i := 0 to |items|
      invariant stored == Persist(rows, items[..i]) && created + existing == i && created == |stored| - |rows|
    {
      assert items[..i + 1][..i] == items[..i];
      if items[i].id in stored {
        existing := existing + 1;
      } else {
        stored := stored[items[i].id := items[i].date];
        created := created + 1;
      }
    }
    assert items[..|items|] == items;
  }

  function ItemIds(items: seq<Item>): set<Id> {
    set item | item in items :: item.id
  }

  /** The ids of the posts that are not retweets. */
  function PostIds(posts: seq<Post>): set<Id> {
    set p | p in posts && !p.retweet && p.id.Some? :: p.id.value
  }

  /** Storing keeps every row and adds exactly the items' ids. */
  lemma {:induction false} PersistExact(rows: map<Id, int>, items: seq<Item>)
    ensures forall id <- rows :: id in Persist(rows, items) && Persist(rows, items)[id] == rows[id]
    ensures Persist(rows, items).Keys == rows.Keys + ItemIds(items)
  {
    if items != [] {
      var n := |items| - 1;
      PersistExact(rows, items[..n]);
      assert items == items[..n] + [items[n]];
      assert ItemIds(items) == ItemIds(items[..n]) + {items[n].id};
    }
  }

  lemma {:induction false} ItemsExact(posts: seq<Post>)
    ensures ItemIds(Items(posts)) == PostIds(posts)
  {
    if posts != [] {
      var n := |posts| - 1;
      var last := if !posts[n].retweet && posts[n].id.Some? then [Item(posts[n].id.value, posts[n].date)] else [];
      ItemsExact(posts[..n]);
      assert posts == posts[..n] + [posts[n]];
      assert Items(posts) == Items(posts[..n]) + last;
      assert ItemIds(Items(posts)) == ItemIds(Items(posts[..n])) + ItemIds(last);
      assert PostIds(posts) == PostIds(posts[..n]) + ItemIds(last);
    }
  }

  // ---------------------------------------------------------------- the source

  datatype Source = Source(last: Option<Id>, stored: map<Id, int>)

  /** A stored post with the latest date. */
  predicate LatestStored(stored: map<Id, int>, id: Id) {
    id in stored && forall x <- stored :: stored[x] <= stored[id]
  }

  predicate EarliestStored(stored: map<Id, int>, id: Id) {
    id in stored && forall x <- stored :: stored[id] <= stored[x]
  }

  /** The order of the archive: by date, and within a date by the database's order of ids. */
  predicate ByDate(rows: map<Id, int>, order: (Id, Id) -> bool, a: Id, b: Id)
    requires a in rows && b in rows
  {
    rows[a] < rows[b] || (rows[a] == rows[b] && order(a, b))
  }

  /** The poll cursor: the saved one, or one recovered from the stored posts. */
  predicate PollCursor(s: Source, cursor: Option<Id>) {
    if s.last.Some? then cursor == s.last
    else if s.stored == map[] then cursor == None
    else cursor.Some? && LatestStored(s.stored, cursor.value)
  }

  /** The history cursor: the earliest stored post, or else the saved cursor. */
  predicate HistoryCursor(s: Source, cursor: Id) {
    if s.stored == map[] then s.last == Some(cursor) else EarliestStored(s.stored, cursor)
  }

  function Advanced(last: Option<Id>, cursor: Option<Id>, newest: Option<Id>): Option<Id> {
    var saved := if last.None? then cursor else last;
    if newest.None? then saved else if saved.None? then newest else Some(Later(saved.value, newest.value))
  }

  function Polled(s: Source, cursor: Option<Id>, posts: seq<Post>): Source {
    Source(Advanced(s.last, cursor, Newest(posts)), Persist(s.stored, Ordered(posts)))
  }

  function Backfilled(s: Source, posts: seq<Post>): Source {
    s.(stored := Persist(s.stored, Ordered(posts)))
  }

  /** The inclusive bound below a cursor, if the cursor is a number with something below it. */
  function UpperBound(cursor: Id): Option<int> {
    if cursor.Numeric? && cursor.value > 1 then Some(cursor.value - 1) else None
  }

  /**
   How X reads `until_id`: as the highest id it serves, or, as X documents it, as an id above everything it serves. The
   code subtracts one from its cursor in either case.
   */
  datatype UntilId = Inclusive | Exclusive {
    function Highest(bound: int): int { if Inclusive? then bound else bound - 1 }
  }

  lemma StoredAfter(rows: map<Id, int>, posts: seq<Post>)
    ensures Persist(rows, Ordered(posts)).Keys == rows.Keys + PostIds(posts)
    ensures forall id <- rows :: Persist(rows, Ordered(posts))[id] == rows[id]
  {
    PersistExact(rows, Ordered(posts));
    Sorting.SortMembers(ItemBefore, Items(posts));
    assert ItemIds(Ordered(posts)) == ItemIds(Items(posts));
    ItemsExact(posts);
  }

  // ---------------------------------------------------------------- the timeline

  ghost predicate Numbered(p: Post) {
    p.id.Some? && p.id.value.Numeric? && p.valid
  }

  function Number(p: Post): int
    requires Numbered(p)
  {
    p.id.value.value
  }

  /** A well-behaved timeline: numbered posts, newest first. */
  ghost predicate Timeline(t: seq<Post>) {
    && (forall p <- t :: Numbered(p))
    && (forall i, j :: 0 <= i < j < |t| ==> Number(t[i]) > Number(t[j]))
  }

  /** The posts after a number, and those up to one. */
  ghost function Newer(t: seq<Post>, after: int): seq<Post>
    requires forall p <- t :: Numbered(p)
  {
    if t == [] || Number(t[0]) <= after then [] else [t[0]] + Newer(t[1..], after)
  }

  ghost function Older(t: seq<Post>, upTo: int): seq<Post>
    requires forall p <- t :: Numbered(p)
  {
    if t == [] || Number(t[0]) <= upTo then t else Older(t[1..], upTo)
  }

  // ---------------------------------------------------------------- the source as a class

  /** What a timeline serves after a cursor. */
  ghost function ServedAfter(t: seq<Post>, cursor: Option<Id>): seq<Post>
    requires forall p <- t :: Numbered(p)
  {
    if cursor.Some? && cursor.value.Numeric? then Newer(t, cursor.value.value) else t
  }

  /** A reading that fails: the server broke it off, or it brought a post that cannot be stored. */
  ghost predicate Fails(server: Server<Post>, b: Bounds) {
    exists requested, pages: seq<seq<Post>> :: FailsSo(server, b, requested, pages)
  }

  ghost predicate FailsSo(server: Server<Post>, b: Bounds, requested: seq<Option<string>>, pages: seq<seq<Post>>) {
    && requested != [] && Once(requested, server.tokens) && Followed(server, b, requested, pages)
    && ((exists error :: BrokenOff(server, b, requested, pages, error)) || exists post <- Flat(pages) :: !Usable(post))
  }

  /** A server that never fails and serves posts that can be stored is read without a failure. */
  lemma ServedNeverFails(server: Server<Post>, b: Bounds, posts: seq<Post>, place: Option<string> -> nat)
    requires Serves(server, posts, place) && Reliable(server) && forall post <- posts :: Usable(post)
    ensures !Fails(server, b)
  {
    if Fails(server, b) {
      var requested, pages: seq<seq<Post>> :| FailsSo(server, b, requested, pages);
      hide Followed, BrokenOff, Once, Flat, Serves, Reliable, Usable;
      forall error ensures !BrokenOff(server, b, requested, pages, error) {
        NeverBreaksOff(server, b, requested, pages, error, posts, place);
      }
      FollowedServes(server, b, requested, pages, posts, place);
    }
  }

  lemma {:induction false} FollowedServes(server: Server<Post>, b: Bounds, requested: seq<Option<string>>,
                                          pages: seq<seq<Post>>,
                                          posts: seq<Post>, place: Option<string> -> nat)
    requires Followed(server, b, requested, pages) && Serves(server, posts, place)
    ensures forall post <- Flat(pages) :: post in posts
  {
    if pages != [] {
      var n := |pages| - 1;
      forall i | 0 <= i < n ensures pages[..n][..i] == pages[..i] {}
      FollowedServes(server, b, requested, pages[..n], posts, place);
      var a := AnswerAt(server, b, requested, pages, n);
      assert forall post <- pages[n] :: post in a.posts;
      assert forall post <- a.posts :: post in posts;
      assert forall post <- Flat(pages) :: post in Flat(pages[..n]) || post in pages[n];
    }
  }

  /** Reading one page brings what the first answer has. */
  lemma FirstPage(server: Server<Post>, b: Bounds, requested: seq<Option<string>>, pages: seq<seq<Post>>)
    requires b.total == None && Once(requested, server.tokens) && Followed(server, b, requested, pages) && |pages| == 1
    ensures var first := server.answer(0, None, b.results); first.Page? && Flat(pages) == first.posts
  {
    assert pages[..0] == [];
  }

  class Feed {
    var last: Option<Id>
    var stored: map<Id, int>

    function View(): Source
      reads this
    {
      Source(last, stored)
    }

    method ResolvePollCursor(order: (Id, Id) -> bool) returns (cursor: Option<Id>)
      requires Sorting.TotalPreorder(order)
      ensures PollCursor(View(), cursor)
      ensures last.None? && cursor.Some? ==> cursor.value in stored && forall x <- stored ::
        stored[x] < stored[cursor.value] || (stored[x] == stored[cursor.value] && order(x, cursor.value))
    {
      if last.Some? || stored == map[] {
        return last;
      }
      var found := FindLatest(stored, true, order);
      return Some(found);
    }

    method ResolveHistoryCursor(order: (Id, Id) -> bool) returns (cursor: Option<Id>)
      requires Sorting.TotalPreorder(order)
      ensures cursor.None? <==> View() == Source(None, map[])
      ensures cursor.Some? ==> HistoryCursor(View(), cursor.value)
      ensures stored != map[] ==> cursor.Some? && cursor.value in stored && forall x <- stored ::
        stored[cursor.value] < stored[x] || (stored[cursor.value] == stored[x] && order(cursor.value, x))
    {
      if stored == map[] {
        return last;
      }
      var found := FindLatest(stored, false, order);
      return Some(found);
    }

    /** The last stored post by date and id, or the first. */
    static method FindLatest(rows: map<Id, int>, latest: bool, order: (Id, Id) -> bool) returns (found: Id)
      requires rows != map[] && Sorting.TotalPreorder(order)
      ensures found in rows
      ensures forall x <- rows :: if latest then ByDate(rows, order, x, found) else ByDate(rows, order, found, x)
    {
      var todo := rows.Keys;
      found :| found in todo;
      todo := todo - {found};
      while todo != {}
        invariant todo <= rows.Keys && found in rows && found !in todo
        invariant forall x <- rows ::
          x !in todo ==> if latest then ByDate(rows, order, x, found) else ByDate(rows, order, found, x)
        decreases |todo|
      {
        var id :| id in todo;
        if (if latest then ByDate(rows, order, found, id) else ByDate(rows, order, id, found)) {
          found := id;
        }
        todo := todo - {id};
      }
    }

    /**
     Polls: everything after the cursor, or one page at first. Nothing changes unless all of it could be read and
     stored; the cursor and the posts fetched are the ghost results.
     */
    method IngestSourcePosts(server: Option<Id> -> Server<Post>, bootstrapLimit: nat, regularLimit: nat,
                             order: (Id, Id) -> bool,
                             ghost t: seq<Post>, ghost place: Option<string> -> nat)
      returns (ok: bool, ghost cursor: Option<Id>, ghost posts: seq<Post>)
      requires MIN_RESULTS <= bootstrapLimit <= MAX_RESULTS && MIN_RESULTS <= regularLimit <= MAX_RESULTS
      requires Sorting.TotalPreorder(order) && (forall c :: Finite(server(c))) && forall p <- t :: Numbered(p)
      modifies this
      ensures PollCursor(old(View()), cursor)
      ensures View() == if ok then Polled(old(View()), cursor, posts) else old(View())
      ensures ok && Serves(server(cursor), ServedAfter(t, cursor), place) ==>
        if cursor.None? then posts <= t else posts == ServedAfter(t, cursor)
      ensures ok && cursor.None? ==>
        var first := server(None).answer(0, None, bootstrapLimit); first.Page? && posts == first.posts
      ensures !ok ==> Fails(server(cursor),
        if cursor.None? then Bounds(bootstrapLimit, Some(1), None) else Bounds(regularLimit, None, None))
    {
      hide Serves, Finite, Once, Followed, BrokenOff;
      var saved := ResolvePollCursor(order);
      cursor, posts := saved, [];
      var bounds := if saved.None? then Bounds(bootstrapLimit, Some(1), None) else Bounds(regularLimit, None, None);
      var reading, requested, pages := IterUserPosts(server(saved), bounds, ServedAfter(t, saved), place);
      if reading.Err? {
        assert FailsSo(server(cursor), bounds, requested, pages);
        return false, cursor, posts;
      }
      posts := Flat(reading.value.pages);
      if saved.None? { FirstPage(server(None), bounds, requested, pages); }
      var prepared := PrepareSourcePosts(reading.value.pages);
      if prepared.None? {
        assert FailsSo(server(cursor), bounds, requested, pages);
        return false, cursor, posts;
      }
      var rows, created, existing := PersistSourcePosts(stored, prepared.value.items);
      stored := rows;
      if saved.Some? && last.None? {
        last := saved;
      }
      if prepared.value.newest.Some? {
        last := if last.None? then prepared.value.newest else Some(Later(last.value, prepared.value.newest.value));
      }
      return true, cursor, posts;
    }

    /** Backfills: one bounded stretch below the earliest stored post; the saved cursor is left alone. */
    method IngestSourceHistory(server: int -> Server<Post>, limit: nat, order: (Id, Id) -> bool,
                               ghost reading: UntilId, ghost t: seq<Post>, ghost place: Option<string> -> nat)
      returns (ok: bool, ghost cursor: Option<Id>, ghost posts: seq<Post>)
      requires MIN_RESULTS <= limit && Sorting.TotalPreorder(order) && (forall n :: Finite(server(n)))
        && forall p <- t :: Numbered(p)
      modifies this`stored
      ensures View() == if ok then Backfilled(old(View()), posts) else old(View())
      ensures ok ==> cursor.Some? && HistoryCursor(old(View()), cursor.value)
      ensures ok ==> UpperBound(cursor.value).Some? && cursor.value.Numeric? && cursor.value.value > 1
      ensures ok ==> var bound := cursor.value.value - 1; var older := Older(t, reading.Highest(bound));
        Serves(server(bound), older, place) ==>
          posts <= older && |posts| <= limit && (posts == older || |posts| == limit)
      ensures !ok ==>
        (cursor.None? && old(View()) == Source(None, map[]))
        || (cursor.Some? && HistoryCursor(old(View()), cursor.value)
            && (cursor.value.Opaque? || cursor.value.value <= 1
                || Fails(server(cursor.value.value - 1),
                         Bounds(if limit < 100 then limit else 100, None, Some(limit)))))
    {
      hide Serves, Finite, Once, Followed, BrokenOff;
      var saved := ResolveHistoryCursor(order);
      cursor, posts := saved, [];
      if saved.None? {
        return false, cursor, posts;
      }
      var bound := UpperBound(saved.value);
      if bound.None? {
        return false, cursor, posts;
      }
      var bounds := Bounds(if limit < MAX_RESULTS then limit else MAX_RESULTS, None, Some(limit));
      var reading, requested, pages :=
        IterUserPosts(server(bound.value), bounds, Older(t, reading.Highest(bound.value)), place);
      if reading.Err? {
        assert FailsSo(server(bound.value), bounds, requested, pages);
        return false, cursor, posts;
      }
      posts := Flat(reading.value.pages);
      var prepared := PrepareSourcePosts(reading.value.pages);
      if prepared.None? {
        assert FailsSo(server(bound.value), bounds, requested, pages);
        return false, cursor, posts;
      }
      var rows, created, existing := PersistSourcePosts(stored, prepared.value.items);
      stored := rows;
      return true, cursor, posts;
    }
  }
}
