/** Collecting a source by search windows: the checkpoint, its page chain, and the time that was really read. */
module NewsCollection {
  import opened Text

  const LAG := 15
  const HORIZON := 601200 // 6 days and 23 hours, in seconds
  const PAGE_PAUSE := 10
  const WINDOW_PAUSE := 120
  const BUDGET_WAIT := 1800
  const FAILURE_WAIT := 300

  datatype Window = Window(start: int, end: int)

  datatype Checkpoint = Checkpoint(
    hash: string, window: Option<Window>, token: string, completed: Option<int>, nextAttempt: Option<int>)

  /** A served post; retweets are not stored. */
  datatype Post = Post(id: string, retweet: bool)

  function Kept(posts: seq<Post>): set<string> {
    set p | p in posts && !p.retweet :: p.id
  }

  /** What a page request leads to; `next` is missing when it is not a string. */
  datatype Fetched =
    | Page(posts: seq<Post>, next: Option<string>, errors: bool, valid: bool, stored: bool)
    | OutOfBudget | RateLimited(seconds: int) | BadResponse | Other

  datatype Input = Input(now: int, quotaRunning: bool, locked: bool, hash: string, activatedAt: int, fetched: Fetched)

  datatype Outcome = Shared | Locked | Waiting | EmptyWindow | PageSaved | Paused

  function Reached(cp: Checkpoint, activatedAt: int): int {
    if cp.completed.Some? then cp.completed.value else activatedAt
  }

  /** Another filter forgets what the former one covered. */
  function ForFilter(cp: Checkpoint, hash: string): Checkpoint {
    if cp.hash != "" && cp.hash != hash then Checkpoint(hash, None, "", None, cp.nextAttempt) else cp.(hash := hash)
  }

  /** The window to read: the open one, or the next, from where the last one ended or the horizon of the search. */
  function WindowFor(cp: Checkpoint, now: int, activatedAt: int): Window {
    if cp.window.Some? then cp.window.value
    else
      var start, floor := Reached(cp, activatedAt), now - HORIZON;
      Window(if start < floor then floor else start, now - LAG)
  }

  function Opened(cp: Checkpoint, i: Input): Checkpoint {
    var c := ForFilter(cp, i.hash);
    c.(window := Some(WindowFor(c, i.now, i.activatedAt)))
  }

  /** A page in order: complete, usable, stored, and its cursor goes on. */
  predicate Good(fetched: Fetched, token: string) {
    && fetched.Page? && !fetched.errors && fetched.valid && fetched.next.Some?
    && (fetched.next.value != "" ==> fetched.next.value != token) && fetched.stored
  }

  /** Whether the page was answered but is not in order. */
  predicate Rejected(fetched: Fetched, token: string) {
    || fetched.BadResponse?
    || (fetched.Page? && (fetched.errors || !fetched.valid || fetched.next.None?
                          || (fetched.next.value != "" && fetched.next.value == token)))
  }

  function Saved(c: Checkpoint, next: string, now: int): Checkpoint
    requires c.window.Some?
  {
    if next == "" then Checkpoint(c.hash, None, "", Some(c.window.value.end), Some(now + WINDOW_PAUSE))
    else c.(token := next, nextAttempt := Some(now + PAGE_PAUSE))
  }

  function Stopped(c: Checkpoint, fetched: Fetched, now: int): Checkpoint {
    var wait := match fetched
      case OutOfBudget => BUDGET_WAIT
      case RateLimited(seconds) => seconds
      case _ => FAILURE_WAIT;
    c.(nextAttempt := Some(now + wait), token := if Rejected(fetched, c.token) then "" else c.token)
  }

  function Collect(cp: Checkpoint, i: Input): (Checkpoint, Outcome) {
    if i.quotaRunning then (cp, Shared)
    else if !i.locked then (cp, Locked)
    else if cp.nextAttempt.Some? && cp.nextAttempt.value > i.now then (cp, Waiting)
    else
      var c := Opened(cp, i);
      if c.window.value.start >= c.window.value.end then (cp, EmptyWindow)
      else if Good(i.fetched, c.token) then (Saved(c, i.fetched.next.value, i.now), PageSaved)
      else (Stopped(c, i.fetched, i.now), Paused)
  }

  // ---------------------------------------------------------------- page chains

  /** A stored page: the token it was asked for, the token of the next one, and its posts. */
  datatype Link = Link(token: string, next: string, posts: seq<Post>)

  ghost predicate Linked(chain: seq<Link>) {
    && (chain != [] ==> chain[0].token == "")
    && (forall k :: 0 <= k < |chain| - 1 ==> chain[k + 1].token == chain[k].next != "")
  }

  /** From the first page of a window to the one without a next. */
  ghost predicate Complete(chain: seq<Link>) {
    chain != [] && Linked(chain) && chain[|chain| - 1].next == ""
  }

  function PostsOf(chain: seq<Link>): seq<Post> {
    if chain == [] then [] else PostsOf(chain[..|chain| - 1]) + chain[|chain| - 1].posts
  }

  /**
   The chain was read from a server that serves a window's posts in order: `place` tells where a token's page starts.
   */
  ghost predicate ServesWindow(posts: seq<Post>, place: string -> nat, chain: seq<Link>) {
    && place("") == 0
    && forall link <- chain ::
         && place(link.token) + |link.posts| <= |posts|
         && link.posts == posts[place(link.token)..place(link.token) + |link.posts|]
         && (if link.next == "" then place(link.token) + |link.posts| == |posts|
             else place(link.next) == place(link.token) + |link.posts|)
  }

  lemma {:induction false} ChainReadsPrefix(posts: seq<Post>, place: string -> nat, chain: seq<Link>)
    requires Linked(chain) && chain != [] && ServesWindow(posts, place, chain)
    ensures var last := chain[|chain| - 1];
      place(last.token) + |last.posts| <= |posts| && PostsOf(chain) == posts[..place(last.token) + |last.posts|]
  {
    var n := |chain| - 1;
    var before, last := chain[..n], chain[n];
    assert last in chain;
    if n == 0 {
      assert before == [] && PostsOf(before) == [];
    } else {
      assert before[n - 1] in chain && last.token == before[n - 1].next;
      LinkedBefore(chain);
      ChainReadsPrefix(posts, place, before);
      hide Linked, PostsOf;
      PostsOfLast(chain);
      Extended(posts, place(last.token), |last.posts|);
    }
  }

  lemma LinkedBefore(chain: seq<Link>)
    requires Linked(chain) && |chain| > 1
    ensures Linked(chain[..|chain| - 1])
    ensures forall link <- chain[..|chain| - 1] :: link in chain
    ensures chain[|chain| - 1].token == chain[|chain| - 2].next != ""
  {
    assert chain[|chain| - 2 + 1].token == chain[|chain| - 2].next;
  }

  lemma PostsOfLast(chain: seq<Link>)
    requires chain != []
    ensures PostsOf(chain) == PostsOf(chain[..|chain| - 1]) + chain[|chain| - 1].posts
  {
  }

  lemma Extended<T>(s: seq<T>, from: nat, n: nat)
    requires from + n <= |s|
    ensures s[..from] + s[from..from + n] == s[..from + n]
  {
  }

  /** A complete chain read every post of its window. */
  lemma ChainReadsAll(posts: seq<Post>, place: string -> nat, chain: seq<Link>)
    requires Complete(chain) && ServesWindow(posts, place, chain)
    ensures PostsOf(chain) == posts
  {
    ChainReadsPrefix(posts, place, chain);
    assert chain[|chain| - 1] in chain;
  }

  // ---------------------------------------------------------------- what was read

  /** A stretch of time: read through a whole chain, or out of reach of the search when its window was opened. */
  datatype Piece = Read(from: int, to: int, chain: seq<Link>) | Cut(from: int, to: int, seenAt: int)

  ghost predicate Sound(piece: Piece) {
    match piece
    case Read(from, to, chain) => from < to && Complete(chain)
    case Cut(from, to, seenAt) => from < to && to == seenAt - HORIZON
  }

  /** The pieces follow one another without gap from one instant to another. */
  ghost predicate Tiles(pieces: seq<Piece>, from: int, to: int) {
    if pieces == [] then from == to
    else
      var last := pieces[|pieces| - 1];
      last.to == to && Sound(last) && Tiles(pieces[..|pieces| - 1], from, last.from)
  }

  /**
   The checkpoint with the history of its filter: pieces, the pages stored so far of the open window, and the archive of
   stored posts.
   */
  datatype Sys = Sys(cp: Checkpoint, pieces: seq<Piece>, chain: seq<Link>, openedAt: int, archive: set<string>)

  ghost predicate ChainKept(chain: seq<Link>, archive: set<string>) {
    forall link <- chain :: Kept(link.posts) <= archive
  }

  /** Every page of the history is in the archive. */
  ghost predicate Archived(sys: Sys) {
    && ChainKept(sys.chain, sys.archive)
    && forall piece <- sys.pieces :: piece.Read? ==> ChainKept(piece.chain, sys.archive)
  }

  ghost predicate Tracked(sys: Sys, activatedAt: int) {
    var reached := Reached(sys.cp, activatedAt);
    && Tiles(sys.pieces, activatedAt, reached)
    && Linked(sys.chain)
    && (sys.chain == [] ==> sys.cp.token == "")
    && (sys.chain != [] ==> sys.cp.token == sys.chain[|sys.chain| - 1].next != "")
    && (sys.cp.window.None? ==> sys.chain == [])
    && (sys.cp.window.Some? ==>
          var w := sys.cp.window.value;
          && reached <= w.start < w.end == sys.openedAt - LAG
          && (w.start > reached ==> w.start == sys.openedAt - HORIZON))
  }

  /** What a new window skips and, once complete, reads. */
  function PieceOf(reached: int, w: Window, openedAt: int): seq<Piece> {
    if w.start > reached then [Cut(reached, w.start, openedAt)] else []
  }

  /**
   The history after one call: forgotten with a new filter, extended by a stored page, restarted with a lost token.
   */
  ghost function After(sys: Sys, i: Input): Sys {
    var (cp', outcome) := Collect(sys.cp, i);
    if outcome != PageSaved && outcome != Paused then sys
    else
      var c := Opened(sys.cp, i);
      var changed := sys.cp.hash != "" && sys.cp.hash != i.hash;
      var pieces := if changed then [] else sys.pieces;
      var anew := changed || sys.cp.window.None?;
      var chain := if anew then [] else sys.chain;
      var openedAt := if anew then i.now else sys.openedAt;
      if outcome == Paused then Sys(cp', pieces, if cp'.token == "" then [] else chain, openedAt, sys.archive)
      else
        var chain' := chain + [Link(c.token, i.fetched.next.value, i.fetched.posts)];
        var archive := sys.archive + Kept(i.fetched.posts);
        if i.fetched.next.value != "" then Sys(cp', pieces, chain', openedAt, archive)
        else
          var w := c.window.value;
          Sys(cp', pieces + PieceOf(Reached(c, i.activatedAt), w, openedAt) + [Read(w.start, w.end, chain')], [],
              openedAt, archive)
  }

  lemma TilesSnoc(pieces: seq<Piece>, piece: Piece, from: int, to: int)
    requires Tiles(pieces, from, piece.from) && Sound(piece) && piece.to == to
    ensures Tiles(pieces + [piece], from, to)
  {
    assert (pieces + [piece])[..|pieces|] == pieces;
  }

  lemma LinkedSnoc(chain: seq<Link>, link: Link)
    requires Linked(chain) && (if chain == [] then link.token == "" else link.token == chain[|chain| - 1].next != "")
    ensures Linked(chain + [link])
  {
  }

  /** Opening a window keeps the history in order. */
  lemma OpenTracked(sys: Sys, i: Input)
    requires Tracked(sys, i.activatedAt)
    requires var w := Opened(sys.cp, i).window.value; w.start < w.end
    ensures var changed := sys.cp.hash != "" && sys.cp.hash != i.hash;
      var anew := changed || sys.cp.window.None?;
      Tracked(Sys(Opened(sys.cp, i), if changed then [] else sys.pieces, if anew then [] else sys.chain,
                  if anew then i.now else sys.openedAt, sys.archive), i.activatedAt)
  {
  }

  lemma SaveTracked(sys: Sys, next: string, posts: seq<Post>, now: int, activatedAt: int, archive: set<string>)
    requires Tracked(sys, activatedAt) && sys.cp.window.Some? && (next != "" ==> next != sys.cp.token)
    ensures var chain' := sys.chain + [Link(sys.cp.token, next, posts)];
      var w := sys.cp.window.value;
      Tracked(if next != "" then Sys(Saved(sys.cp, next, now), sys.pieces, chain', sys.openedAt, archive)
              else Sys(Saved(sys.cp, next, now),
                       sys.pieces + PieceOf(Reached(sys.cp, activatedAt), w, sys.openedAt)
                         + [Read(w.start, w.end, chain')],
                       [], sys.openedAt, archive), activatedAt)
  {
    var w, reached := sys.cp.window.value, Reached(sys.cp, activatedAt);
    var chain' := sys.chain + [Link(sys.cp.token, next, posts)];
    LinkedSnoc(sys.chain, Link(sys.cp.token, next, posts));
    if next == "" {
      var before := sys.pieces + PieceOf(reached, w, sys.openedAt);
      if w.start > reached {
        TilesSnoc(sys.pieces, Cut(reached, w.start, sys.openedAt), activatedAt, w.start);
      } else {
        assert before == sys.pieces;
      }
      TilesSnoc(before, Read(w.start, w.end, chain'), activatedAt, w.end);
    }
  }

  /** Every call keeps the history in order, whatever it meets. */
  lemma CollectTracked(sys: Sys, i: Input)
    requires Tracked(sys, i.activatedAt)
    ensures Tracked(After(sys, i), i.activatedAt) && After(sys, i).cp == Collect(sys.cp, i).0
  {
    var (cp', outcome) := Collect(sys.cp, i);
    if outcome == PageSaved || outcome == Paused {
      OpenTracked(sys, i);
      var changed := sys.cp.hash != "" && sys.cp.hash != i.hash;
      var anew := changed || sys.cp.window.None?;
      var begun := Sys(Opened(sys.cp, i), if changed then [] else sys.pieces, if anew then [] else sys.chain,
                       if anew then i.now else sys.openedAt, sys.archive);
      hide Tiles, Linked, Opened;
      if outcome == PageSaved {
        SaveTracked(begun, i.fetched.next.value, i.fetched.posts, i.now, i.activatedAt,
                    sys.archive + Kept(i.fetched.posts));
      } else {
        StopTracked(begun, i.fetched, i.now, i.activatedAt);
      }
    }
  }

  /** What is in the archive stays there, and every stored page joins it. */
  lemma CollectArchived(sys: Sys, i: Input)
    requires Archived(sys)
    ensures Archived(After(sys, i)) && sys.archive <= After(sys, i).archive
  {
    hide Collect, Opened, WindowFor, Kept;
    var sys' := After(sys, i);
    forall piece | piece in sys'.pieces && piece.Read? && piece !in sys.pieces
      ensures ChainKept(piece.chain, sys'.archive) {
    }
  }

  lemma StopTracked(sys: Sys, fetched: Fetched, now: int, activatedAt: int)
    requires Tracked(sys, activatedAt)
    ensures var cp' := Stopped(sys.cp, fetched, now);
      Tracked(sys.(cp := cp', chain := if cp'.token == "" then [] else sys.chain), activatedAt)
  {
  }

  ghost function AfterAll(sys: Sys, inputs: seq<Input>): Sys
    decreases |inputs|
  {
    if inputs == [] then sys else AfterAll(After(sys, inputs[0]), inputs[1..])
  }

  lemma {:induction false} AlwaysTracked(sys: Sys, inputs: seq<Input>, activatedAt: int)
    requires Tracked(sys, activatedAt) && Archived(sys) && forall i <- inputs :: i.activatedAt == activatedAt
    ensures Tracked(AfterAll(sys, inputs), activatedAt) && Archived(AfterAll(sys, inputs))
    decreases |inputs|
  {
    hide Tracked, Archived, After;
    if inputs != [] {
      assert inputs[0] in inputs && forall i <- inputs[1..] :: i in inputs;
      CollectTracked(sys, inputs[0]);
      CollectArchived(sys, inputs[0]);
      AlwaysTracked(After(sys, inputs[0]), inputs[1..], activatedAt);
    }
  }

  lemma StartsTracked(activatedAt: int)
    ensures var start := Sys(Checkpoint("", None, "", None, None), [], [], 0, {});
      Tracked(start, activatedAt) && Archived(start)
  {
  }

  // ---------------------------------------------------------------- the promises

  lemma {:induction false} PieceAt(pieces: seq<Piece>, from: int, to: int, x: int)
    requires Tiles(pieces, from, to) && from <= x < to
    ensures exists piece <- pieces :: piece.from <= x < piece.to && Sound(piece)
  {
    var n := |pieces| - 1;
    var last := pieces[n];
    if x < last.from {
      PieceAt(pieces[..n], from, last.from, x);
      var piece :| piece in pieces[..n] && piece.from <= x < piece.to && Sound(piece);
      assert piece in pieces;
    } else {
      assert last in pieces;
    }
  }

  /**
   An instant was out of reach when its window was opened, or read through a whole chain: if that chain came from a
   server that serves the window's posts in order, then every one of them is archived, retweets excepted.
   */
  ghost predicate Explains(piece: Piece, x: int, archive: set<string>) {
    && piece.from <= x < piece.to
    && match piece
       case Cut(_, _, seenAt) => x < seenAt - HORIZON
       case Read(_, _, chain) =>
         Complete(chain) && forall posts, place :: ServesWindow(posts, place, chain) ==> Kept(posts) <= archive
  }

  lemma {:induction false} KeptOf(chain: seq<Link>, archive: set<string>)
    requires ChainKept(chain, archive)
    ensures Kept(PostsOf(chain)) <= archive
  {
    if chain != [] {
      var n := |chain| - 1;
      assert chain[n] in chain && forall link <- chain[..n] :: link in chain;
      KeptOf(chain[..n], archive);
    }
  }

  lemma PieceExplains(piece: Piece, x: int, archive: set<string>)
    requires Sound(piece) && piece.from <= x < piece.to && (piece.Read? ==> ChainKept(piece.chain, archive))
    ensures Explains(piece, x, archive)
  {
    if piece.Read? {
      forall posts, place | ServesWindow(posts, place, piece.chain) ensures Kept(posts) <= archive {
        ChainReadsAll(posts, place, piece.chain);
        KeptOf(piece.chain, archive);
      }
    }
  }

  /**
   After any calls, every instant from the activation to `completed` was read through a whole page chain, all of whose
   posts are archived, or lay beyond the horizon of the search when its window was opened.
   */
  lemma NoInstantSkipped(sys: Sys, inputs: seq<Input>, activatedAt: int, x: int)
    requires Tracked(sys, activatedAt) && Archived(sys) && forall i <- inputs :: i.activatedAt == activatedAt
    requires var cp := AfterAll(sys, inputs).cp; cp.completed.Some? && activatedAt <= x < cp.completed.value
    ensures exists piece <- AfterAll(sys, inputs).pieces :: Explains(piece, x, AfterAll(sys, inputs).archive)
  {
    AlwaysTracked(sys, inputs, activatedAt);
    var sys' := AfterAll(sys, inputs);
    PieceAt(sys'.pieces, activatedAt, sys'.cp.completed.value, x);
    var piece :| piece in sys'.pieces && piece.from <= x < piece.to && Sound(piece);
    PieceExplains(piece, x, sys'.archive);
  }

  /**
   `completed` changes only to the end of the open window with its last page stored, or is forgotten with the filter.
   */
  lemma CompletedMovesOnlyWithLastPage(cp: Checkpoint, i: Input)
    requires Collect(cp, i).0.completed != cp.completed
    ensures
      || (cp.hash != "" && cp.hash != i.hash)
      || (Collect(cp, i).1 == PageSaved && i.fetched.next == Some("")
          && Collect(cp, i).0.completed == Some(Opened(cp, i).window.value.end) && Collect(cp, i).0.window.None?)
  {
  }

  // ---------------------------------------------------------------- the collector as a class

  class Collector {
    var hash: string
    var window: Option<Window>
    var token: string
    var completed: Option<int>
    var nextAttempt: Option<int>
    var archive: set<string>

    function View(): Checkpoint
      reads this
    {
      Checkpoint(hash, window, token, completed, nextAttempt)
    }

    /** One call; a window that is still empty leaves the stored checkpoint untouched. */
    method CollectSource(i: Input) returns (outcome: Outcome)
      modifies this
      ensures (View(), outcome) == Collect(old(View()), i)
      ensures archive == old(archive) + if outcome == PageSaved && i.fetched.Page? then Kept(i.fetched.posts) else {}
    {
      hide Good, Saved, Stopped;
      if i.quotaRunning {
        return Shared;
      }
      if !i.locked {
        return Locked;
      }
      if nextAttempt.Some? && nextAttempt.value > i.now {
        return Waiting;
      }
      var w, t, done := window, token, completed;
      if hash != "" && hash != i.hash {
        w, t, done := None, "", None;
      }
      if w.None? {
        var start := if done.Some? then done.value else i.activatedAt;
        var floor := i.now - HORIZON;
        if start < floor {
          start := floor;
        }
        w := Some(Window(start, i.now - LAG));
      }
      if w.value.start >= w.value.end {
        return EmptyWindow;
      }
      hash, window, token, completed := i.hash, w, t, done;
      outcome := ReadWindow(i);
    }

    /** Fetches and stores a page of the open window, or notes why that failed. */
    method ReadWindow(i: Input) returns (outcome: Outcome)
      requires window.Some?
      modifies this
      ensures View() == if Good(i.fetched, old(token)) then Saved(old(View()), i.fetched.next.value, i.now)
        else Stopped(old(View()), i.fetched, i.now)
      ensures outcome == if Good(i.fetched, old(token)) then PageSaved else Paused
      ensures archive == old(archive) + if outcome == PageSaved && i.fetched.Page? then Kept(i.fetched.posts) else {}
    {
      match i.fetched
      case OutOfBudget =>
        nextAttempt := Some(i.now + BUDGET_WAIT);
        return Paused;
      case RateLimited(seconds) =>
        nextAttempt := Some(i.now + seconds);
        return Paused;
      case Page(posts, next, errors, valid, stored) =>
        if errors || !valid || next.None? || (next.value != "" && next.value == token) {
          nextAttempt := Some(i.now + FAILURE_WAIT);
          token := "";
          return Paused;
        }
        if !stored {
          nextAttempt := Some(i.now + FAILURE_WAIT);
          return Paused;
        }
        archive := archive + Kept(posts);
        token := next.value;
        if token == "" {
          completed := Some(window.value.end);
          window := None;
        }
        nextAttempt := Some(i.now + if token != "" then PAGE_PAUSE else WINDOW_PAUSE);
        return PageSaved;
      case BadResponse =>
        nextAttempt := Some(i.now + FAILURE_WAIT);
        if token != "" {
          token := "";
        }
        return Paused;
      case Other =>
        nextAttempt := Some(i.now + FAILURE_WAIT);
        return Paused;
    }
  }
}
