/** Reading a user's timeline from X page by page. */
module XTimeline {
  import opened Text

  const MIN_RESULTS := 5
  const MAX_RESULTS := 100

  datatype Error = Malformed | BadToken | Failed

  /** What a page says about the next one; `Odd` is anything that is not a string. */
  datatype Next = End | Token(token: string) | Odd

  datatype Answer<T> = Page(posts: seq<T>, next: Next) | Fault(error: Error)

  /**
   A server answers the n-th request for a page token with at most so many results; it has finitely many tokens.
   */
  datatype Server<!T> = Server(answer: (nat, Option<string>, nat) -> Answer<T>, tokens: set<string>)

  ghost predicate Finite<T(!new)>(server: Server<T>) {
    forall n, token, limit :: var a := server.answer(n, token, limit);
      a.Page? && a.next.Token? && a.next.token != "" ==> a.next.token in server.tokens
  }

  /** The server gives the token to the next page with some answer. */
  ghost predicate Offers<T(!new)>(server: Server<T>, token: string) {
    exists n, asked, limit :: var a := server.answer(n, asked, limit); a.Page? && a.next == Token(token) && token != ""
  }

  lemma OffersFew<T(!new)>(server: Server<T>)
    requires Finite(server)
    ensures forall token :: Offers(server, token) ==> token in server.tokens
  {
  }

  /** How many results a run may take; `pages` and `total` bound it if given. */
  datatype Bounds = Bounds(results: nat, pages: Option<nat>, total: Option<nat>)

  predicate Allowed(b: Bounds) {
    MIN_RESULTS <= b.results <= MAX_RESULTS && (b.pages.Some? ==> b.pages.value >= 1)
      && (b.total.Some? ==> b.total.value >= 1)
  }

  function Left(b: Bounds, returned: nat): Option<nat> {
    if b.total.None? then None else Some(if b.total.value > returned then b.total.value - returned else 0)
  }

  function RequestSize(b: Bounds, returned: nat): nat {
    match Left(b, returned)
    case None => b.results
    case Some(left) =>
      var wanted := if left < b.results then left else b.results;
      if wanted < MIN_RESULTS then MIN_RESULTS else wanted
  }

  function Cut<T>(posts: seq<T>, left: Option<nat>): seq<T> {
    if left.Some? && left.value < |posts| then posts[..left.value] else posts
  }

  function Flat<T>(pages: seq<seq<T>>): seq<T> {
    if pages == [] then [] else Flat(pages[..|pages| - 1]) + pages[|pages| - 1]
  }

  lemma FlatSnoc<T>(pages: seq<seq<T>>, page: seq<T>)
    ensures Flat(pages + [page]) == Flat(pages) + page
  {
    assert (pages + [page])[..|pages|] == pages;
  }

  /** Whether a bound ends the run. */
  predicate Enough(b: Bounds, pages: nat, returned: nat) {
    (b.pages.Some? && pages >= b.pages.value) || (b.total.Some? && returned >= b.total.value)
  }

  // ---------------------------------------------------------------- a server that serves a list

  /**
   The server serves `posts` in order: `place` tells where a page token starts, every page goes on from there, and the
   token of the next page stands for its end; without a token the end is reached.
   */
  ghost predicate Serves<T(!new)>(server: Server<T>, posts: seq<T>, place: Option<string> -> nat) {
    && place(None) == 0
    && forall n, token, limit :: var a := server.answer(n, token, limit);
         a.Page? ==>
           && place(token) + |a.posts| <= |posts|
           && a.posts == posts[place(token)..place(token) + |a.posts|]
           && (a.next == End || a.next == Token("") ==> place(token) + |a.posts| == |posts|)
           && (a.next.Token? && a.next.token != "" ==> place(Some(a.next.token)) == place(token) + |a.posts|)
  }

  datatype Reading<T> = Reading(pages: seq<seq<T>>, complete: bool)

  /** The tokens requested so far: none first, then each one only once, all of them seen. */
  ghost predicate Once(requested: seq<Option<string>>, seen: set<string>) {
    && (requested != [] ==> requested[0] == None)
    && (forall i :: 0 < i < |requested| ==>
        requested[i].Some? && requested[i].value in seen && requested[i] != Some(""))
    && (forall i, j :: 0 <= i < j < |requested| ==> requested[i] != requested[j])
  }

  lemma OnceMore(requested: seq<Option<string>>, seen: set<string>, token: Option<string>)
    requires Once(requested, seen) && token !in requested
    requires if requested == [] then token == None else token.Some? && token.value in seen && token != Some("")
    ensures Once(requested + [token], seen)
  {
  }

  lemma OnceNew(requested: seq<Option<string>>, seen: set<string>, token: string)
    requires Once(requested, seen) && token !in seen
    ensures Once(requested, seen + {token}) && Some(token) !in requested
  {
  }

  /** What was read from a server that serves a list: its posts before the place of the next token. */
  ghost predicate ReadUpTo<T(!new)>(server: Server<T>, posts: seq<T>, place: Option<string> -> nat,
                                    token: Option<string>, read: seq<T>) {
    Serves(server, posts, place) ==> place(token) <= |posts| && read == posts[..place(token)]
  }

  /** One more page of a served list, perhaps cut short. */
  lemma ReadMore<T(!new)>(server: Server<T>, posts: seq<T>, place: Option<string> -> nat, n: nat, token: Option<string>,
                          limit: nat,
                          read: seq<T>, left: Option<nat>)
    requires ReadUpTo(server, posts, place, token, read) && server.answer(n, token, limit).Page?
    ensures var a := server.answer(n, token, limit); var data := Cut(a.posts, left);
      && (Serves(server, posts, place) ==> read + data <= posts)
      && (data == a.posts && (a.next == End || a.next == Token("")) && Serves(server, posts, place) ==>
          read + data == posts)
      && (data == a.posts && a.next.Token? && a.next.token != "" ==>
          ReadUpTo(server, posts, place, Some(a.next.token), read + data))
  {
    if Serves(server, posts, place) {
      var a := server.answer(n, token, limit);
      assert posts[..place(token)] + posts[place(token)..place(token) + |a.posts|] == posts[..place(token) + |a.posts|];
    }
  }

  // ---------------------------------------------------------------- the requests and their answers

  /** The answer to the i-th request, given what was taken from the pages before it. */
  ghost function AnswerAt<T>(server: Server<T>, b: Bounds, requested: seq<Option<string>>, pages: seq<seq<T>>,
                             i: nat): Answer<T>
    requires i < |requested| && i <= |pages|
  {
    server.answer(i, requested[i], RequestSize(b, |Flat(pages[..i])|))
  }

  /** All of a page is taken, or as much of it as the total allows. */
  ghost predicate Took<T>(b: Bounds, before: nat, answer: Answer<T>, data: seq<T>) {
    && answer.Page? && data <= answer.posts && (b.total.Some? ==> before + |data| <= b.total.value)
    && (data == answer.posts || b.total == Some(before + |data|))
  }

  /** Each page is what was taken of the answer to its request, and the next request is for the token it gave. */
  ghost predicate Followed<T>(server: Server<T>, b: Bounds, requested: seq<Option<string>>, pages: seq<seq<T>>) {
    && |pages| <= |requested|
    && forall i :: 0 <= i < |pages| ==>
         var a := AnswerAt(server, b, requested, pages, i);
         && Took(b, |Flat(pages[..i])|, a, pages[i])
         && (i + 1 < |requested| ==> requested[i + 1].Some? && a.next == Token(requested[i + 1].value))
  }

  /** The last answer was an error, or gave a token that is no string or was requested before. */
  ghost predicate BrokenOff<T>(server: Server<T>, b: Bounds, requested: seq<Option<string>>, pages: seq<seq<T>>,
                               error: Error) {
    && requested != [] && |requested| <= |pages| + 1
    && var a := AnswerAt(server, b, requested, pages, |requested| - 1);
       if a.Fault? then error == a.error
       else error == BadToken && (a.next == Odd || (a.next.Token? && Some(a.next.token) in requested))
  }

  /** The server gives this error, or some answer of it goes on without a usable token. */
  ghost predicate Objects<T(!new)>(server: Server<T>, error: Error) {
    exists n, token, limit ::
      var a := server.answer(n, token, limit);
      if a.Fault? then a.error == error else error == BadToken && a.next != End && a.next != Token("")
  }

  lemma BrokenObjects<T(!new)>(server: Server<T>, b: Bounds, requested: seq<Option<string>>, pages: seq<seq<T>>,
                               error: Error)
    requires BrokenOff(server, b, requested, pages, error) && Once(requested, server.tokens)
    ensures Objects(server, error)
  {
    var a := AnswerAt(server, b, requested, pages, |requested| - 1);
    hide Flat;
  }

  /** Where a total is given, what is left of it is asked for, but at least five. */
  lemma AsksForTheRest(b: Bounds, returned: nat)
    requires Allowed(b) && (b.total.Some? ==> returned < b.total.value)
    ensures RequestSize(b, returned)
      == if b.total.None? || b.total.value - returned >= b.results then b.results
         else if b.total.value - returned <= 5 then 5
         else b.total.value - returned
  {
  }

  lemma FollowedMore<T>(server: Server<T>, b: Bounds, requested: seq<Option<string>>, pages: seq<seq<T>>, data: seq<T>)
    requires Followed(server, b, requested, pages) && |requested| == |pages| + 1
    requires Took(b, |Flat(pages)|, server.answer(|pages|, requested[|pages|], RequestSize(b, |Flat(pages)|)), data)
    ensures Followed(server, b, requested, pages + [data])
  {
    var pages' := pages + [data];
    assert pages'[..|pages|] == pages && pages[..|pages|] == pages;
    forall i | 0 <= i < |pages| ensures pages'[..i] == pages[..i] {}
    hide Took, Flat;
  }

  lemma FollowedOn<T>(server: Server<T>, b: Bounds, requested: seq<Option<string>>, pages: seq<seq<T>>,
                      token: Option<string>)
    requires Followed(server, b, requested, pages) && |requested| == |pages|
    requires pages == [] ||
      (token.Some? && AnswerAt(server, b, requested, pages, |pages| - 1).next == Token(token.value))
    ensures Followed(server, b, requested + [token], pages)
  {
    hide Took, Flat;
  }

  /** A server never fails that serves a list, answers every request, and advances with every page before the end. */
  ghost predicate Reliable<T(!new)>(server: Server<T>) {
    forall n, token, limit :: var a := server.answer(n, token, limit);
      a.Page? && a.next != Odd && (a.next.Token? && a.next.token != "" ==> a.posts != [])
  }

  /** The places of the requested tokens increase, so none comes again. */
  lemma {:induction false} Advances<T(!new)>(server: Server<T>, b: Bounds, requested: seq<Option<string>>,
                                             pages: seq<seq<T>>,
                                            posts: seq<T>, place: Option<string> -> nat, i: nat, j: nat)
    requires Followed(server, b, requested, pages) && Serves(server, posts, place) && Reliable(server)
    requires i < j < |requested| <= |pages| + 1 && Some("") !in requested
    ensures place(requested[i]) < place(requested[j])
  {
    hide Took, Flat;
    if i < j - 1 { Advances(server, b, requested, pages, posts, place, i, j - 1); }
    var a := AnswerAt(server, b, requested, pages, j - 1);
    assert requested[j] != Some("");
  }

  /** Reading such a server never breaks off. */
  lemma NeverBreaksOff<T(!new)>(server: Server<T>, b: Bounds, requested: seq<Option<string>>, pages: seq<seq<T>>,
                                error: Error,
                                posts: seq<T>, place: Option<string> -> nat)
    requires Followed(server, b, requested, pages) && Serves(server, posts, place) && Reliable(server)
    requires Once(requested, server.tokens)
    ensures !BrokenOff(server, b, requested, pages, error)
  {
    hide Took, Flat, Followed;
    if BrokenOff(server, b, requested, pages, error) {
      var n := |requested| - 1;
      var a := AnswerAt(server, b, requested, pages, n);
      var k :| 0 <= k < |requested| && requested[k] == Some(a.next.token);
      if k < n { Advances(server, b, requested, pages, posts, place, k, n); }
    }
  }

  // ---------------------------------------------------------------- the generator

  /** What follows a page: another one, the end (reached, or set by a bound), or an error. */
  datatype Turn = More | Over(complete: bool) | Broken(error: Error)

  /** The generator of pages, whatever the server is; the list that a server may serve is a ghost. */
  class PageReader<T(!new)> {
    const server: Server<T>
    const bounds: Bounds
    ghost const posts: seq<T>
    ghost const place: Option<string> -> nat
    var token: Option<string>
    var seen: set<string>
    var pages: seq<seq<T>>
    var returned: nat
    ghost var requested: seq<Option<string>>

    /** Every token was requested once, and what was yielded is within the bounds. */
    ghost predicate Valid()
      reads this
    {
      && Allowed(bounds) && Once(requested, seen) && returned == |Flat(pages)|
      && (bounds.total.Some? ==> returned <= bounds.total.value)
      && (bounds.pages.Some? ==> |pages| <= bounds.pages.value)
      && (Serves(server, posts, place) ==> Flat(pages) <= posts)
      && Followed(server, bounds, requested, pages)
    }

    /** Between two pages: the token to request next is a new one, and no bound is reached. */
    ghost predicate Going()
      reads this
    {
      && Valid() && |pages| == |requested| && !Enough(bounds, |pages|, returned) && token !in requested
      && (if requested == [] then token == None else token.Some? && token.value in seen && token != Some(""))
      && ReadUpTo(server, posts, place, token, Flat(pages))
      && Followed(server, bounds, requested + [token], pages) && forall x <- seen ::
        Some(x) in requested || token == Some(x)
    }

    constructor (server: Server<T>, bounds: Bounds, ghost posts: seq<T>, ghost place: Option<string> -> nat)
      requires Allowed(bounds)
      ensures Going() && requested == [] && seen == {}
      ensures this.server == server && this.bounds == bounds && this.posts == posts && this.place == place
    {
      this.server, this.bounds, this.posts, this.place := server, bounds, posts, place;
      token, seen, pages, returned, requested := None, {}, [], 0, [];
      new;
      NothingRead(server, posts, place);
      assert requested + [token] == [None] && Followed(server, bounds, [], []) && Followed(server, bounds, [None], []);
      hide Followed, Once, ReadUpTo, Serves, Flat;
    }

    /**
     Requests one page and yields it. From any server no token is requested twice and no bound is passed; a served list
     is read from its beginning, and completely when the end is reached. Reading goes on as long as the answers allow.
     */
    method ReadPage() returns (turn: Turn)
      requires Going()
      modifies this
      ensures Valid() && requested == old(requested) + [old(token)] && old(token) !in old(requested)
      ensures turn.More? ==>
        Going() && token.Some? && token.value !in old(seen) && seen == old(seen) + {token.value}
          && Offers(server, token.value)
      ensures !turn.More? ==> seen == old(seen)
      ensures turn.Over? ==> |pages| == |requested| && (turn.complete <==> !Enough(bounds, |pages|, returned))
      ensures turn.Broken? ==> BrokenOff(server, bounds, requested, pages, turn.error)
      ensures turn.Over? && turn.complete && Serves(server, posts, place) ==> Flat(pages) == posts
    {
      hide Once, ReadUpTo, Serves, Flat, Followed;
      var size := RequestSize(bounds, returned);
      var answer := server.answer(|pages|, token, size);
      OnceMore(requested, seen, token);
      requested := requested + [token];
      assert pages[..|pages|] == pages;
      if answer.Fault? {
        return Broken(answer.error);
      }
      var data := Cut(answer.posts, Left(bounds, returned));
      ReadMore(server, posts, place, |pages|, token, size, Flat(pages), Left(bounds, returned));
      FlatSnoc(pages, data);
      FollowedMore(server, bounds, requested, pages, data);
      pages := pages + [data];
      assert pages[..|pages| - 1] == old(pages);
      returned := returned + |data|;
      if bounds.pages.Some? && |pages| >= bounds.pages.value {
        return Over(false);
      }
      if bounds.total.Some? && returned >= bounds.total.value {
        return Over(false);
      }
      assert data == answer.posts;
      if answer.next == End || answer.next == Token("") {
        return Over(true);
      }
      if answer.next == Odd || answer.next.token in seen {
        return Broken(BadToken);
      }
      OnceNew(requested, seen, answer.next.token);
      FollowedOn(server, bounds, requested, pages, Some(answer.next.token));
      assert Offers(server, answer.next.token) by { var a := server.answer(|old(pages)|, old(token), size); }
      seen := seen + {answer.next.token};
      token := Some(answer.next.token);
      return More;
    }
  }

  /**
   All pages as a list. The promises of the generator hold of it, and it ends because the server has finitely many
   tokens; from a server that serves a list the pages are a beginning of it: all of it, unless a bound ended the run.
   */
  method IterUserPosts<T(!new)>(server: Server<T>, b: Bounds, ghost posts: seq<T>, ghost place: Option<string> -> nat)
    returns (r: Result<Reading<T>, Error>, ghost requested: seq<Option<string>>, ghost pages: seq<seq<T>>)
    requires Allowed(b) && Finite(server)
    ensures requested != [] && Once(requested, server.tokens) && Followed(server, b, requested, pages)
    ensures r.Err? ==> BrokenOff(server, b, requested, pages, r.error)
    ensures r.Err? ==> Objects(server, r.error)
    ensures r.Ok? ==> r.value.pages == pages && |pages| == |requested|
    ensures r.Ok? && b.total.Some? ==> |Flat(r.value.pages)| <= b.total.value
    ensures r.Ok? && b.pages.Some? ==> |r.value.pages| <= b.pages.value
    ensures r.Ok? ==> (r.value.complete <==> !Enough(b, |r.value.pages|, |Flat(r.value.pages)|))
    ensures r.Ok? && Serves(server, posts, place) ==> Flat(r.value.pages) <= posts
    ensures r.Ok? && Serves(server, posts, place) && r.value.complete ==> Flat(r.value.pages) == posts
  {
    OffersFew(server);
    hide Once, ReadUpTo, Serves, Flat, Finite, Offers, Followed, BrokenOff;
    var reader := new PageReader(server, b, posts, place);
    var turn := More;
    while turn == More
      invariant reader.server == server && reader.bounds == b && reader.posts == posts && reader.place == place
      invariant reader.Valid() && reader.seen <= server.tokens
      invariant turn == More ==> reader.Going()
      invariant turn != More ==> reader.requested != []
      invariant turn.Over? ==>
        |reader.pages| == |reader.requested| && (turn.complete <==> !Enough(b, |reader.pages|, reader.returned))
      invariant turn.Broken? ==> BrokenOff(server, b, reader.requested, reader.pages, turn.error)
      invariant turn.Over? && turn.complete && Serves(server, posts, place) ==> Flat(reader.pages) == posts
      decreases turn == More, server.tokens - reader.seen
    {
      turn := reader.ReadPage();
    }
    requested, pages := reader.requested, reader.pages;
    OnceWidens(requested, reader.seen, server.tokens);
    if turn.Broken? {
      BrokenObjects(server, b, requested, pages, turn.error);
      return Err(turn.error), requested, pages;
    }
    return Ok(Reading(reader.pages, turn.complete)), requested, pages;
  }

  lemma NothingRead<T(!new)>(server: Server<T>, posts: seq<T>, place: Option<string> -> nat)
    ensures Flat<T>([]) == [] && ReadUpTo(server, posts, place, None, Flat([])) && Once([], {})
  {
  }

  lemma OnceWidens(requested: seq<Option<string>>, seen: set<string>, tokens: set<string>)
    requires Once(requested, seen) && seen <= tokens
    ensures Once(requested, tokens)
  {
  }
}
