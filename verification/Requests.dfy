/** Requests really made to Telegram, what is known of their outcome, and whether their post is in the channel. */
module Requests {

  datatype Verdict = Refused | Unknown | Confirmed | Absent

  datatype Request<T> = Request(content: T, verdict: Verdict, published: bool) {
    /** Known not to be in the channel. */
    predicate Settled() { verdict == Refused || verdict == Absent }
    predicate Truthful() { (Settled() ==> !published) && (verdict == Confirmed ==> published) }
  }

  ghost predicate AllSettled<T>(log: seq<Request<T>>) {
    forall r <- log :: r.Settled()
  }

  /** Only the last request can be unsettled. */
  ghost predicate SettledButLast<T>(log: seq<Request<T>>) {
    forall k :: 0 <= k < |log| - 1 ==> log[k].Settled()
  }

  lemma LastSettles<T>(log: seq<Request<T>>)
    requires SettledButLast(log) && log != [] && log[|log| - 1].Settled()
    ensures AllSettled(log)
  {
  }

  /** An operator found nothing: every request of unknown outcome is known to be absent. */
  function Cleared<T>(log: seq<Request<T>>): seq<Request<T>> {
    seq(|log|, k requires 0 <= k < |log| => if log[k].verdict == Unknown then log[k].(verdict := Absent) else log[k])
  }

  lemma ClearedSettled<T>(log: seq<Request<T>>)
    requires forall r <- log :: r.Truthful() && !r.published
    ensures AllSettled(Cleared(log)) && |Cleared(log)| == |log|
    ensures forall k :: 0 <= k < |log| ==> Cleared(log)[k].content == log[k].content && Cleared(log)[k].Truthful()
  {
    forall k | 0 <= k < |log| ensures Cleared(log)[k].Settled() && Cleared(log)[k].Truthful() {
      assert log[k] in log;
    }
  }

  lemma PublishedIsLast<T>(log: seq<Request<T>>)
    requires SettledButLast(log) && (forall r <- log :: r.Truthful()) && exists r <- log :: r.published
    ensures log != [] && log[|log| - 1].published
  {
    var r :| r in log && r.published;
    var k :| 0 <= k < |log| && log[k] == r;
  }
}
