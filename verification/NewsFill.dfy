/** The one-time fill of a news channel: which events it takes, wave by wave, and the states it goes through. */
module NewsFill {
  import opened Text
  import Sorting
  import NewsSending

  const FILL_LIMIT := 20
  const FILL_MIN_SCORE := 50

  type Status = NewsSending.Status

  /** An assessed event; `happened` is the time of its earliest evidence. */
  datatype Event = Event(id: nat, product: string, score: int, urgent: bool, lastSeen: int, happened: int,
                         incident: bool)

  /** A publication of the fill, with the product of its event. */
  datatype Post = Post(event: nat, product: string, status: Status)

  // ---------------------------------------------------------------- product keys

  function WordEnd(s: string): (end: nat)
    ensures end <= |s|
    ensures forall k :: 0 <= k < end ==> !IsSpace(s[k])
    ensures end < |s| ==> IsSpace(s[end])
  {
    if s == "" || IsSpace(s[0]) then 0 else 1 + WordEnd(s[1..])
  }

  function Words(s: string): seq<string>
    decreases |s|
  {
    if s == "" then []
    else if IsSpace(s[0]) then Words(s[1..])
    else [s[..WordEnd(s)]] + Words(s[WordEnd(s)..])
  }

  function JoinWords(words: seq<string>): string {
    if words == [] then "" else if |words| == 1 then words[0] else words[0] + " " + JoinWords(words[1..])
  }

  /** The product name with single spaces, in folded case. */
  function Key(fold: string -> string, product: string): string {
    fold(JoinWords(Words(product)))
  }

  ghost predicate AreWords(words: seq<string>) {
    forall w <- words :: w != "" && forall c <- w :: !IsSpace(c)
  }

  lemma {:induction false} WordsAreWords(s: string)
    ensures AreWords(Words(s))
    decreases |s|
  {
    if s != "" {
      if IsSpace(s[0]) {
        WordsAreWords(s[1..]);
      } else {
        WordsAreWords(s[WordEnd(s)..]);
      }
    }
  }

  lemma {:induction false} WordEndsAt(word: string, rest: string)
    requires forall c <- word :: !IsSpace(c)
    requires rest == "" || IsSpace(rest[0])
    ensures WordEnd(word + rest) == |word|
  {
    if word == "" {
      assert word + rest == rest;
    } else {
      assert (word + rest)[1..] == word[1..] + rest;
      WordEndsAt(word[1..], rest);
    }
  }

  lemma SplitFirst(word: string, tail: string)
    requires word != "" && forall c <- word :: !IsSpace(c)
    requires tail == "" || IsSpace(tail[0])
    ensures Words(word + tail) == [word] + Words(tail)
  {
    WordEndsAt(word, tail);
    var s := word + tail;
    assert s[..|word|] == word && s[|word|..] == tail && s[0] == word[0];
    hide WordEnd, IsSpace;
  }

  lemma SplitSpace(c: char, s: string)
    requires IsSpace(c)
    ensures Words([c] + s) == Words(s)
  {
    var t := [c] + s;
    assert IsSpace(t[0]) && t[1..] == s;
  }

  /**
   Words are what stands between white space: there are none in nothing, white space is passed, a word ends before it.
   */
  lemma WordsExactly(c: char, word: string, rest: string)
    ensures Words("") == []
    ensures IsSpace(c) ==> Words([c] + rest) == Words(rest)
    ensures word != "" && (forall x <- word :: !IsSpace(x)) && (rest == "" || IsSpace(rest[0])) ==>
      Words(word + rest) == [word] + Words(rest)
  {
    NoWords();
    if IsSpace(c) { SplitSpace(c, rest); }
    hide Words, IsSpace;
    if word != "" && (forall x <- word :: !IsSpace(x)) && (rest == "" || IsSpace(rest[0])) { SplitFirst(word, rest); }
  }

  /** Spacing does not matter: splitting a joined text gives back its words. */
  lemma {:induction false} SplitJoined(words: seq<string>)
    requires AreWords(words)
    ensures Words(JoinWords(words)) == words
  {
    hide Words, IsSpace;
    if |words| == 1 {
      assert words[0] in words && words[0] + "" == words[0];
      SplitFirst(words[0], "");
      assert Words("") == [] by { NoWords(); }
      assert [words[0]] == words;
    } else if words != [] {
      assert words[0] in words && IsSpace((" " + JoinWords(words[1..]))[0]) by { SpaceIsSpace(); }
      Associative(words[0], " ", JoinWords(words[1..]));
      SplitFirst(words[0], " " + JoinWords(words[1..]));
      SpaceIsSpace();
      SplitSpace(' ', JoinWords(words[1..]));
      assert forall w <- words[1..] :: w in words;
      SplitJoined(words[1..]);
      assert words == [words[0]] + words[1..];
    } else {
      NoWords();
    }
  }

  lemma NoWords()
    ensures Words("") == []
  {
  }

  lemma SpaceIsSpace()
    ensures IsSpace(' ')
  {
  }

  /** Two names have the same key, however letter case is folded, exactly when they have the same words. */
  lemma KeyIgnoresSpacing(a: string, b: string)
    ensures Words(a) == Words(b) <==> forall fold: string -> string :: Key(fold, a) == Key(fold, b)
    ensures Words(a) == Words(b) <==> JoinWords(Words(a)) == JoinWords(Words(b))
  {
    WordsAreWords(a);
    WordsAreWords(b);
    SplitJoined(Words(a));
    SplitJoined(Words(b));
    var same: string -> string := s => s;
    assert Key(same, a) == JoinWords(Words(a)) && Key(same, b) == JoinWords(Words(b));
  }

  // ---------------------------------------------------------------- open events

  predicate Better(a: Event, b: Event) {
    || a.score > b.score
    || (a.score == b.score && (a.urgent && !b.urgent))
    || (a.score == b.score && a.urgent == b.urgent && a.lastSeen >= b.lastSeen)
  }

  predicate Higher(a: Event, b: Event) {
    a.score > b.score || (a.score == b.score && a.happened <= b.happened)
  }

  predicate Earlier(a: Event, b: Event) {
    a.happened <= b.happened
  }

  predicate Eligible(e: Event, published: set<nat>) {
    e.score >= FILL_MIN_SCORE && !e.incident && e.id !in published
  }

  function OnlyEligible(pool: seq<Event>, published: set<nat>): seq<Event> {
    if pool == [] then []
    else (if Eligible(pool[0], published) then [pool[0]] else []) + OnlyEligible(pool[1..], published)
  }

  /** The first event of each product whose key is not closed. */
  function Best(fold: string -> string, es: seq<Event>, closed: set<string>): seq<Event> {
    if es == [] then []
    else if Key(fold, es[0].product) in closed then Best(fold, es[1..], closed)
    else [es[0]] + Best(fold, es[1..], closed + {Key(fold, es[0].product)})
  }

  function Taken(fold: string -> string, posts: seq<Post>): set<string> {
    set post | post in posts :: Key(fold, post.product)
  }

  /** Best event per product that the run has not used. */
  function Remaining(fold: string -> string, pool: seq<Event>, published: set<nat>, posts: seq<Post>): seq<Event> {
    Best(fold, Sorting.Sort(Better, OnlyEligible(pool, published)), Taken(fold, posts))
  }

  function Products(fold: string -> string, es: seq<Event>): set<string> {
    set e | e in es :: Key(fold, e.product)
  }

  ghost predicate DistinctProducts(fold: string -> string, es: seq<Event>) {
    forall i, j :: 0 <= i < j < |es| ==> Key(fold, es[i].product) != Key(fold, es[j].product)
  }

  lemma {:induction false} EligibleMembers(pool: seq<Event>, published: set<nat>)
    ensures forall e :: e in OnlyEligible(pool, published) <==> e in pool && Eligible(e, published)
  {
    if pool != [] {
      EligibleMembers(pool[1..], published);
      assert pool == [pool[0]] + pool[1..];
    }
  }

  /** One event for every open product, and it is the first of its product. */
  lemma {:induction false} BestExact(fold: string -> string, es: seq<Event>, closed: set<string>)
    ensures var best := Best(fold, es, closed);
      && DistinctProducts(fold, best)
      && (forall e <- best :: e in es && Key(fold, e.product) !in closed)
      && Products(fold, best) == Products(fold, es) - closed
  {
    if es != [] {
      var k := Key(fold, es[0].product);
      assert es == [es[0]] + es[1..];
      if k in closed {
        BestExact(fold, es[1..], closed);
      } else {
        var rest := Best(fold, es[1..], closed + {k});
        BestExact(fold, es[1..], closed + {k});
        assert Best(fold, es, closed) == [es[0]] + rest;
        BestProducts(fold, es, closed);
      }
    }
  }

  lemma BestProducts(fold: string -> string, es: seq<Event>, closed: set<string>)
    requires es != [] && Key(fold, es[0].product) !in closed
    requires var k := Key(fold, es[0].product); var rest := Best(fold, es[1..], closed + {k});
      && Products(fold, rest) == Products(fold, es[1..]) - (closed + {k})
    ensures Products(fold, Best(fold, es, closed)) == Products(fold, es) - closed
  {
    var k := Key(fold, es[0].product);
    var rest := Best(fold, es[1..], closed + {k});
    assert es == [es[0]] + es[1..] && Best(fold, es, closed) == [es[0]] + rest;
    assert Products(fold, es) == Products(fold, es[1..]) + {k};
    assert Products(fold, [es[0]] + rest) == Products(fold, rest) + {k};
  }

  /** In a list sorted best first, nothing of the same product beats the event that was kept. */
  lemma {:induction false} BestIsBest(fold: string -> string, es: seq<Event>, closed: set<string>, kept: Event,
                                      other: Event)
    requires Sorting.Sorted(Better, es) && kept in Best(fold, es, closed) && other in es
    requires Key(fold, kept.product) == Key(fold, other.product)
    ensures kept == other || Better(kept, other)
  {
    var k := Key(fold, es[0].product);
    assert es == [es[0]] + es[1..];
    if k in closed {
      BestExact(fold, es, closed);
      BestIsBest(fold, es[1..], closed, kept, other);
    } else if kept == es[0] {
      if other != es[0] {
        var i :| 0 <= i < |es[1..]| && es[1..][i] == other;
        assert es[i + 1] == other;
      }
    } else {
      BestExact(fold, es[1..], closed + {k});
      BestIsBest(fold, es[1..], closed + {k}, kept, other);
    }
  }

  // ---------------------------------------------------------------- ranking

  function Take(es: seq<Event>, limit: nat): seq<Event> {
    if |es| <= limit then es else es[..limit]
  }

  /** The highest scores, ties to the older event, put in order of time. */
  function Rank(remaining: seq<Event>, limit: nat): seq<Event> {
    Sorting.Sort(Earlier, Take(Sorting.Sort(Higher, remaining), limit))
  }

  lemma Orders()
    ensures Sorting.TotalPreorder(Better) && Sorting.TotalPreorder(Higher) && Sorting.TotalPreorder(Earlier)
  {
  }

  ghost predicate Distinct<T>(s: seq<T>) {
    forall i, j :: 0 <= i < j < |s| ==> s[i] != s[j]
  }

  lemma TwiceCounts<T>(s: seq<T>, i: nat, j: nat)
    requires i < j < |s|
    ensures s[i] == s[j] ==> multiset(s)[s[i]] >= 2
  {
    assert s == s[..j] + s[j..];
    assert s[..j][i] in multiset(s[..j]) && s[j..][0] in multiset(s[j..]);
  }

  lemma {:induction false} OnceCounts<T>(s: seq<T>)
    requires Distinct(s)
    ensures forall x <- s :: multiset(s)[x] == 1
  {
    if s != [] {
      var tail := s[1..];
      assert s == [s[0]] + tail;
      OnceCounts(tail);
      assert s[0] !in multiset(tail);
      forall x | x in s ensures multiset(s)[x] == 1 {
        if x != s[0] { assert x in tail; }
      }
    }
  }

  lemma PermutationDistinct<T>(a: seq<T>, b: seq<T>)
    requires multiset(a) == multiset(b) && Distinct(a)
    ensures Distinct(b)
  {
    OnceCounts(a);
    forall i, j | 0 <= i < j < |b| ensures b[i] != b[j] {
      TwiceCounts(b, i, j);
      assert b[i] in multiset(b) && b[i] in a;
    }
  }

  lemma SortedDistinct(le: (Event, Event) -> bool, es: seq<Event>)
    requires Sorting.TotalPreorder(le) && Distinct(es)
    ensures Sorting.Sorted(le, Sorting.Sort(le, es)) && Distinct(Sorting.Sort(le, es)) && |Sorting.Sort(le, es)| == |es|
    ensures forall e :: e in Sorting.Sort(le, es) <==> e in es
  {
    hide Sorting.TotalPreorder;
    Sorting.SortMembers(le, es);
    if es != [] { Sorting.SortCorrect(le, es, es[0]); }
    PermutationDistinct(es, Sorting.Sort(le, es));
    hide Distinct;
  }

  lemma TakenDistinct(es: seq<Event>, limit: nat)
    requires Distinct(es)
    ensures Distinct(Take(es, limit)) && forall e <- Take(es, limit) :: e in es
  {
  }

  /** What is cut off never comes before what is taken. */
  lemma TakenHigher(sorted: seq<Event>, limit: nat, e: Event, other: Event)
    requires Sorting.Sorted(Higher, sorted) && e in Take(sorted, limit) && other in sorted
      && other !in Take(sorted, limit)
    ensures Higher(e, other)
  {
    var taken := Take(sorted, limit);
    var i :| 0 <= i < |taken| && taken[i] == e;
    var j :| 0 <= j < |sorted| && sorted[j] == other;
    TakeKeeps(sorted, limit, j);
    assert sorted[i] == e;
  }

  lemma TakeKeeps(es: seq<Event>, limit: nat, i: nat)
    requires i < |es|
    ensures i < |Take(es, limit)| ==> es[i] in Take(es, limit)
  {
    if i < |Take(es, limit)| { assert Take(es, limit)[i] == es[i]; }
  }

  /** A wave: as many as fit, each at least as good as any left out, oldest first. */
  lemma RankExact(remaining: seq<Event>, limit: nat)
    requires Distinct(remaining)
    ensures var rank := Rank(remaining, limit);
      && |rank| == (if |remaining| <= limit then |remaining| else limit)
      && Distinct(rank) && (forall e <- rank :: e in remaining)
      && Sorting.Sorted(Earlier, rank)
      && (forall e, other :: e in rank && other in remaining && other !in rank ==> Higher(e, other))
  {
    Orders();
    var sorted := Sorting.Sort(Higher, remaining);
    var taken := Take(sorted, limit);
    SortedDistinct(Higher, remaining);
    TakenDistinct(sorted, limit);
    SortedDistinct(Earlier, taken);
    hide Sorting.Sort, Sorting.Sorted, Higher, Distinct;
    forall e, other | e in Rank(remaining, limit) && other in remaining && other !in Rank(remaining, limit)
      ensures Higher(e, other) {
      TakenHigher(sorted, limit, e, other);
    }
  }
}
