/** What each call of the collector does to the checkpoint. */
module CollectionOutcomes {
  import opened Text
  import opened NewsCollection

  /** Another filter than the one before, if there was one. */
  predicate Refiltered(cp: Checkpoint, hash: string) {
    cp.hash != "" && cp.hash != hash
  }

  /**
   The open window of this filter, or one from where reading ended, at most 6 days and 23 hours back, until 15 seconds
   ago.
   */
  ghost predicate ReadsIn(cp: Checkpoint, i: Input, w: Window) {
    if cp.window.Some? && !Refiltered(cp, i.hash) then w == cp.window.value
    else
      var reached := if cp.completed.Some? && !Refiltered(cp, i.hash) then cp.completed.value else i.activatedAt;
      && w.end == i.now - 15
      && i.now - 601200 <= w.start && reached <= w.start && (w.start == reached || w.start == i.now - 601200)
  }

  /** The page brings its window on: nothing is wrong with it, and its cursor is new or the last. */
  ghost predicate BringsOn(f: Fetched, token: string) {
    f.Page? && !f.errors && f.valid && f.stored && (f.next == Some("") || (f.next.Some? && f.next.value != token))
  }

  /** The window is read again from its beginning: the answer could not be read, or its cursor led nowhere. */
  ghost predicate StartsAgain(f: Fetched, token: string) {
    || f == BadResponse
    || (f.Page? && (f.errors || !f.valid || f.next == None || (f.next == Some(token) && token != "")))
  }

  ghost function Wait(f: Fetched): int {
    if f == OutOfBudget then 1800 else if f.RateLimited? then f.seconds else 300
  }

  /**
   Nothing changes while the other collector runs, the lock is taken, a wait is not over or there is nothing to read
   yet. A good page moves the cursor or, the last one, closes its window, which is then covered to its end. Anything
   else keeps the window and waits.
   */
  lemma CollectExactly(cp: Checkpoint, i: Input, w: Window)
    requires ReadsIn(cp, i, w)
    ensures var (cp', outcome) := Collect(cp, i);
      var completed := if Refiltered(cp, i.hash) then None else cp.completed;
      var token := if Refiltered(cp, i.hash) then "" else cp.token;
      if i.quotaRunning then (cp', outcome) == (cp, Shared)
      else if !i.locked then (cp', outcome) == (cp, Locked)
      else if cp.nextAttempt.Some? && i.now < cp.nextAttempt.value then (cp', outcome) == (cp, Waiting)
      else if w.end <= w.start then (cp', outcome) == (cp, EmptyWindow)
      else if !BringsOn(i.fetched, token) then
        && outcome == Paused
        && cp' == Checkpoint(i.hash, Some(w), if StartsAgain(i.fetched, token) then "" else token, completed,
                             Some(i.now + Wait(i.fetched)))
      else
        && outcome == PageSaved
        && cp' == if i.fetched.next == Some("") then Checkpoint(i.hash, None, "", Some(w.end), Some(i.now + 120))
                  else Checkpoint(i.hash, Some(w), i.fetched.next.value, completed, Some(i.now + 10))
  {
    WindowExactly(cp, i, w);
  }

  lemma WindowExactly(cp: Checkpoint, i: Input, w: Window)
    ensures ReadsIn(cp, i, w) <==> w == Opened(cp, i).window.value
  {
  }
}
