/** What a poll or a backfill leaves in the rows and in the saved cursor. */
module IngestionRows {
  import opened Text
  import Sorting
  import opened Ingestion

  /** Texts are ordered by the first character in which they differ, a beginning before what it begins. */
  lemma {:induction false} TextAtMostExactly(a: string, b: string)
    ensures TextAtMost(a, b) <==>
      a <= b || exists i :: 0 <= i < |a| && i < |b| && a[..i] == b[..i] && a[i] < b[i]
  {
    if a != "" && b != "" {
      if a[0] == b[0] {
        TextAtMostExactly(a[1..], b[1..]);
        if i :| 0 <= i < |a[1..]| && i < |b[1..]| && a[1..][..i] == b[1..][..i] && a[1..][i] < b[1..][i] {
          assert a[..i + 1] == [a[0]] + a[1..][..i] && b[..i + 1] == [b[0]] + b[1..][..i];
          assert a[i + 1] < b[i + 1];
        }
        if i :| 0 <= i < |a| && i < |b| && a[..i] == b[..i] && a[i] < b[i] {
          assert i > 0;
          assert a[1..][..i - 1] == a[..i][1..] && b[1..][..i - 1] == b[..i][1..];
          assert a[1..][i - 1] < b[1..][i - 1];
        }
        assert a <= b <==> a[1..] <= b[1..] by { assert a == [a[0]] + a[1..] && b == [b[0]] + b[1..]; }
      } else if a[0] < b[0] {
        assert a[..0] == b[..0];
      } else {
        forall i | 0 <= i < |a| && i < |b| && a[..i] == b[..i] ensures i == 0 {
          if i > 0 { SameBeginning(a, b, i); }
        }
      }
    }
  }

  lemma SameBeginning(a: string, b: string, i: nat)
    requires 0 < i <= |a| && i <= |b| && a[..i] == b[..i]
    ensures a[0] == b[0]
  {
    assert a[..i][0] == a[0] && b[..i][0] == b[0];
  }

  /** Numbers by value, after every other id. */
  lemma OrderExactly(a: Id, b: Id)
    ensures a.Numeric? && b.Numeric? ==> (AtMost(a, b) <==> a.value <= b.value)
    ensures a.Opaque? && b.Numeric? ==> AtMost(a, b) && !AtMost(b, a)
    ensures a.Opaque? && b.Opaque? ==> (AtMost(a, b) <==> TextAtMost(a.text, b.text))
    ensures AtMost(a, b) && AtMost(b, a) ==> a == b
  {
    if a.Opaque? && b.Opaque? { TextTies(a.text, b.text); }
  }

  lemma {:induction false} TextTies(a: string, b: string)
    ensures TextAtMost(a, b) && TextAtMost(b, a) ==> a == b
  {
    if a != "" && b != "" && a[0] == b[0] {
      TextTies(a[1..], b[1..]);
      assert a == [a[0]] + a[1..] && b == [b[0]] + b[1..];
    }
  }

  /** An id of the posts, retweets included. */
  ghost predicate Has(posts: seq<Post>, id: Id) {
    exists post <- posts :: post.id == Some(id)
  }

  /** The highest id of the posts, if one has any. */
  lemma {:induction false} NewestExactly(posts: seq<Post>)
    ensures Newest(posts).None? <==> forall id :: !Has(posts, id)
    ensures Newest(posts).Some? ==> Has(posts, Newest(posts).value) && forall id | Has(posts, id) ::
      AtMost(id, Newest(posts).value)
  {
    AtMostIsOrder();
    if posts != [] {
      var n := |posts| - 1;
      NewestExactly(posts[..n]);
      forall id ensures Has(posts, id) <==> Has(posts[..n], id) || posts[n].id == Some(id) {
        assert posts == posts[..n] + [posts[n]];
      }
      if posts[n].id.Some? { assert Has(posts, posts[n].id.value); }
      hide Has;
    }
  }

  /** The first item of an id decides its row, unless there is one. */
  lemma {:induction false} PersistFirst(rows: map<Id, int>, items: seq<Item>, k: nat)
    requires k < |items| && items[k].id !in rows && forall i :: 0 <= i < k ==> items[i].id != items[k].id
    ensures items[k].id in Persist(rows, items) && Persist(rows, items)[items[k].id] == items[k].date
  {
    var n := |items| - 1;
    PersistExact(rows, items[..n]);
    if k < n {
      PersistFirst(rows, items[..n], k);
    } else {
      assert items[k].id !in ItemIds(items[..n]);
    }
  }

  lemma FirstItem(items: seq<Item>, id: Id) returns (k: nat)
    requires id in ItemIds(items)
    ensures k < |items| && items[k].id == id && forall i :: 0 <= i < k ==> items[i].id != id
  {
    k := 0;
    while items[k].id != id
      invariant k < |items| && forall i :: 0 <= i < k ==> items[i].id != id
      decreases |items| - k
    {
      LaterItem(items, id, k);
      k := k + 1;
    }
  }

  lemma LaterItem(items: seq<Item>, id: Id, k: nat)
    requires id in ItemIds(items) && k < |items| && forall i :: 0 <= i <= k ==> items[i].id != id
    ensures k + 1 < |items|
  {
    var item :| item in items && item.id == id;
    var i :| 0 <= i < |items| && items[i] == item;
  }

  /** A post of the posts that is not a retweet, with this id and date. */
  ghost predicate Posted(posts: seq<Post>, id: Id, date: int) {
    exists post <- posts :: !post.retweet && post.id == Some(id) && post.date == date
  }

  lemma {:induction false} ItemsPosted(posts: seq<Post>, item: Item)
    ensures item in Items(posts) <==> Posted(posts, item.id, item.date)
  {
    if posts != [] {
      var n := |posts| - 1;
      ItemsPosted(posts[..n], item);
      assert posts == posts[..n] + [posts[n]];
    }
  }

  /**
   Rows that were there stay as they are. Besides them there is one for each post that is not a retweet, dated by the
   earliest of the posts with its id.
   */
  lemma StoredExactly(rows: map<Id, int>, posts: seq<Post>, id: Id)
    ensures var rows' := Persist(rows, Ordered(posts));
      && (id in rows ==> id in rows' && rows'[id] == rows[id])
      && (id !in rows ==> (id in rows' <==> exists date :: Posted(posts, id, date)))
      && (id !in rows && id in rows' ==>
            Posted(posts, id, rows'[id]) && forall date | Posted(posts, id, date) :: rows'[id] <= date)
  {
    StoredAfter(rows, posts);
    var items := Ordered(posts);
    Sorting.SortMembers(ItemBefore, Items(posts));
    RowsPosted(posts, id);
    PersistExact(rows, items);
    if id !in rows && id in ItemIds(items) {
      var k := FirstItem(items, id);
      PersistFirst(rows, items, k);
      ItemsPosted(posts, items[k]);
      forall date | Posted(posts, id, date) ensures items[k].date <= date {
        ItemsPosted(posts, Item(id, date));
        var i :| 0 <= i < |items| && items[i] == Item(id, date);
        EarlierFirst(posts, k, i);
      }
    }
  }

  lemma RowsPosted(posts: seq<Post>, id: Id)
    ensures id in ItemIds(Ordered(posts)) <==> exists date :: Posted(posts, id, date)
  {
    Sorting.SortMembers(ItemBefore, Items(posts));
    if id in ItemIds(Ordered(posts)) {
      var item :| item in Ordered(posts) && item.id == id;
      ItemsPosted(posts, item);
    }
    if date :| Posted(posts, id, date) {
      ItemsPosted(posts, Item(id, date));
      assert Item(id, date) in Ordered(posts);
    }
  }

  /** Items come by date, those of a date by id. */
  lemma EarlierFirst(posts: seq<Post>, i: nat, j: nat)
    requires i <= j < |Ordered(posts)|
    ensures var a, b := Ordered(posts)[i], Ordered(posts)[j];
      a.date < b.date || (a.date == b.date && AtMost(a.id, b.id))
  {
    AtMostIsOrder();
    assert Sorting.TotalPreorder(ItemBefore);
    if i < j { Sorting.SortCorrect(ItemBefore, Items(posts), Ordered(posts)[i]); }
  }

  /** The saved cursor after a poll: the highest of the one before, or else the recovered one, and all fetched ids. */
  lemma CursorExactly(s: Source, cursor: Option<Id>, posts: seq<Post>)
    ensures var before, after := if s.last.Some? then s.last else cursor, Polled(s, cursor, posts).last;
      && (after.None? <==> before.None? && forall id :: !Has(posts, id))
      && (after.Some? ==>
            && (before == after || Has(posts, after.value)) && (before.Some? ==> AtMost(before.value, after.value))
            && forall id | Has(posts, id) :: AtMost(id, after.value))
  {
    NewestExactly(posts);
    AtMostIsOrder();
    hide Has, Newest;
  }

  /**
   A poll starts from the saved cursor or a post stored last, a backfill from a post stored first or the saved cursor.
   */
  lemma CursorsExactly(s: Source, id: Id)
    ensures PollCursor(s, None) <==> s == Source(None, map[])
    ensures PollCursor(s, Some(id)) <==>
      s.last == Some(id) || (s.last == None && id in s.stored && forall x <- s.stored :: s.stored[x] <= s.stored[id])
    ensures HistoryCursor(s, id) <==>
      (s.stored == map[] && s.last == Some(id))
        || (id in s.stored && forall x <- s.stored :: s.stored[id] <= s.stored[x])
  {
  }

  /** The posts that are ignored are the retweets. */
  lemma {:induction false} RetweetsExactly(posts: seq<Post>)
    ensures Retweets(posts) == |set i | 0 <= i < |posts| && posts[i].retweet|
  {
    var all := set i | 0 <= i < |posts| && posts[i].retweet;
    if posts != [] {
      var n := |posts| - 1;
      RetweetsExactly(posts[..n]);
      var before := set i | 0 <= i < |posts[..n]| && posts[..n][i].retweet;
      assert all == before + if posts[n].retweet then {n} else {};
    }
  }
}
