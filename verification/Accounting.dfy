/**
 * Request counters over whole runs: handlers at any point of `forward_request`, clients that give up,
 * reloads that delete the counters of a URL, and every other step of the system, interleaved.
 */
module Accounting {
  import opened Prelude
  import opened State
  import opened Invariants
  import opened Forwarder

  /**
   * A request that waits for its response, one with actions left to do, or one that has looked up its outcome
   * counter and not incremented it yet. `deletions` tells the counter it holds from later ones of the same URL.
   */
  datatype Handler =
    | Waiting(url: string)
    | Acting(url: string, pending: seq<Effect>)
    | Counting(url: string, failure: bool, deletions: nat, pending: seq<Effect>)

  /** The outcome counters a handler will still increment. */
  function Owes(h: Handler): nat {
    match h
    case Waiting(_) => 1
    case Acting(_, pending) => Counts(pending)
    case Counting(_, _, _, pending) => 1 + Counts(pending)
  }

  function Due(h: Handler, url: string): nat {
    if url == h.url then Owes(h) else 0
  }

  function Owed(h: Handler): (m: multiset<string>)
    ensures forall u :: m[u] == Due(h, u)
  {
    multiset{}[h.url := Owes(h)]
  }

  function InFlight(hs: seq<Handler>): multiset<string> {
    if hs == [] then multiset{} else InFlight(hs[..|hs| - 1]) + Owed(hs[|hs| - 1])
  }

  /**
   * `arrived` counts requests per URL; the program keeps only the total. `discarded` went with deleted counters, and
   * the last two say how often those of a URL have been deleted.
   */
  datatype World = World(
    sys: System,
    arrived: multiset<string>,
    succeeded: multiset<string>,
    failed: multiset<string>,
    discarded: multiset<string>,
    abandoned: multiset<string>,
    handlers: seq<Handler>,
    succeededDeletions: multiset<string>,
    failedDeletions: multiset<string>)

  datatype Event =
    | Arrive(url: string)
    | Answer(who: nat, up: Upstream, elapsedMs: u64)
    | Act(who: nat, now: nat)
    | LookUp(who: nat)
    | Increment(who: nat)
    | Cancel(who: nat)
    | DeleteCounter(url: string, failure: bool)
    | Other(step: Step)

  predicate ActsNext(w: World, who: nat) {
    who < |w.handlers| && w.handlers[who].Acting? && w.handlers[who].pending != []
  }

  ghost predicate Possible(w: World, event: Event) {
    match event
    case Answer(who, _, _) => who < |w.handlers| && w.handlers[who].Waiting?
    case Act(who, now) => ActsNext(w, who) && !IsCount(w.handlers[who].pending[0]) && w.sys.clock <= now
    case LookUp(who) => ActsNext(w, who) && IsCount(w.handlers[who].pending[0])
    case Increment(who) => who < |w.handlers| && w.handlers[who].Counting?
    case Cancel(who) => who < |w.handlers|
    case Other(step) => Enabled(w.sys, step)
    case _ => true
  }

  function Deletions(w: World, url: string, failure: bool): nat {
    if failure then w.failedDeletions[url] else w.succeededDeletions[url]
  }

  /** An increment of the counter that was there after so many deletions; if it has been deleted since, it is lost. */
  function Counted(w: World, url: string, failure: bool, deletions: nat): World {
    if deletions != Deletions(w, url, failure) then w.(discarded := w.discarded + multiset{url})
    else if failure then w.(failed := w.failed + multiset{url})
    else w.(succeeded := w.succeeded + multiset{url})
  }

  function Deleted(w: World, url: string, failure: bool): World {
    if failure then
      w.(discarded := w.discarded[url := w.discarded[url] + w.failed[url]],
         failed := w.failed[url := 0],
         failedDeletions := w.failedDeletions + multiset{url})
    else
      w.(discarded := w.discarded[url := w.discarded[url] + w.succeeded[url]],
         succeeded := w.succeeded[url := 0],
         succeededDeletions := w.succeededDeletions + multiset{url})
  }

  /** One action of a handler on the balancer. */
  ghost function Performed(w: World, url: string, effect: Effect, now: nat): World
    requires Closed(w.sys.core)
  {
    match effect
    case Measure(_) => w.(sys := w.sys.(core := AppliedOne(w.sys.core, url, effect, now)))
    case _ => w.(sys := w.sys.(core := AppliedOne(w.sys.core, url, effect, now), clock := now))
  }

  ghost function After(w: World, event: Event): World
    requires Closed(w.sys.core) && Possible(w, event)
  {
    match event
    case Arrive(url) => w.(arrived := w.arrived + multiset{url}, handlers := w.handlers + [Waiting(url)])
    case Answer(who, up, elapsedMs) =>
      var url, effects := w.handlers[who].url, Effects(up, elapsedMs, w.sys.core.client.timeoutSecs);
      Performed(w, url, effects[0], w.sys.clock).(handlers := w.handlers[who := Acting(url, effects[1..])])
    case Act(who, now) =>
      var url, pending := w.handlers[who].url, w.handlers[who].pending;
      Performed(w, url, pending[0], now).(handlers := w.handlers[who := Acting(url, pending[1..])])
    case LookUp(who) =>
      var url, pending := w.handlers[who].url, w.handlers[who].pending;
      var failure := pending[0] == CountFailed;
      w.(handlers := w.handlers[who := Counting(url, failure, Deletions(w, url, failure), pending[1..])])
    case Increment(who) =>
      var h := w.handlers[who];
      Counted(w, h.url, h.failure, h.deletions).(handlers := w.handlers[who := Acting(h.url, h.pending)])
    case Cancel(who) =>
      var h := w.handlers[who];
      w.(abandoned := w.abandoned + Owed(h), handlers := w.handlers[who := Acting(h.url, [])])
    case DeleteCounter(url, failure) => Deleted(w, url, failure)
    case Other(step) => w.(sys := Next(w.sys, step))
  }

  /** Both sides of the balance for one URL. */
  ghost predicate BalancedAt(w: World, url: string) {
    w.arrived[url] == w.succeeded[url] + w.failed[url] + w.discarded[url] + w.abandoned[url] + InFlight(w.handlers)[url]
  }

  /** Nothing is counted twice and nothing is lost, URL by URL. */
  ghost predicate Balanced(w: World) {
    forall url :: BalancedAt(w, url)
  }

  // ---- Proof ----

  function Pending(hs: seq<Handler>, url: string): nat {
    if hs == [] then 0 else Pending(hs[..|hs| - 1], url) + Due(hs[|hs| - 1], url)
  }

  lemma {:induction false} InFlightCounts(hs: seq<Handler>, url: string)
    ensures InFlight(hs)[url] == Pending(hs, url)
  {
    if hs != [] {
      InFlightCounts(hs[..|hs| - 1], url);
    }
  }

  lemma {:induction false} PendingUpdate(hs: seq<Handler>, who: nat, h: Handler, url: string)
    requires who < |hs|
    ensures Pending(hs[who := h], url) + Due(hs[who], url) == Pending(hs, url) + Due(h, url)
    decreases |hs|
  {
    var last := |hs| - 1;
    if who == last {
      assert hs[who := h][..last] == hs[..last];
    } else {
      PendingUpdate(hs[..last], who, h, url);
      assert hs[who := h][..last] == hs[..last][who := h];
    }
  }

  lemma {:induction false} InFlightUpdate(hs: seq<Handler>, who: nat, h: Handler, url: string)
    requires who < |hs|
    ensures InFlight(hs[who := h])[url] + Due(hs[who], url) == InFlight(hs)[url] + Due(h, url)
  {
    InFlightCounts(hs, url);
    InFlightCounts(hs[who := h], url);
    PendingUpdate(hs, who, h, url);
  }

  lemma {:induction false} InFlightAppend(hs: seq<Handler>, h: Handler, url: string)
    ensures InFlight(hs + [h])[url] == InFlight(hs)[url] + Due(h, url)
  {
    assert (hs + [h])[..|hs|] == hs;
  }

  lemma SystemKept(w: World, url: string, effect: Effect, now: nat)
    requires Inv(w.sys) && w.sys.clock <= now
    ensures Inv(Performed(w, url, effect, now).sys)
  {
    EffectIsStep(w.sys, url, effect, now);
  }

  lemma EventKeepsInv(w: World, event: Event)
    requires Inv(w.sys) && Possible(w, event)
    ensures Inv(After(w, event).sys)
  {
    match event
    case Answer(who, up, elapsedMs) =>
      SystemKept(w, w.handlers[who].url, Effects(up, elapsedMs, w.sys.core.client.timeoutSecs)[0], w.sys.clock);
    case Act(who, now) => SystemKept(w, w.handlers[who].url, w.handlers[who].pending[0], now);
    case Other(step) => StepKeepsInv(w.sys, step);
    case _ =>
  }

  /** A handler that owes as many counts as before keeps the balance. */
  lemma OwesTheSame(w: World, who: nat, h: Handler, url: string)
    requires BalancedAt(w, url) && who < |w.handlers|
    requires h.url == w.handlers[who].url && Owes(w.handlers[who]) == Owes(h)
    ensures BalancedAt(w.(handlers := w.handlers[who := h]), url)
  {
    InFlightUpdate(w.handlers, who, h, url);
  }

  /** An increment moves what the handler owes into a counter, or loses it with a deleted one. */
  lemma IncrementKeepsBalance(w: World, who: nat, url: string)
    requires BalancedAt(w, url) && who < |w.handlers| && w.handlers[who].Counting?
    ensures var h := w.handlers[who];
      BalancedAt(Counted(w, h.url, h.failure, h.deletions).(handlers := w.handlers[who := Acting(h.url, h.pending)]),
                 url)
  {
    var h := w.handlers[who];
    InFlightUpdate(w.handlers, who, Acting(h.url, h.pending), url);
  }

  lemma DeletionKeepsBalance(w: World, of: string, failure: bool, url: string)
    requires BalancedAt(w, url)
    ensures BalancedAt(Deleted(w, of, failure), url)
  {
  }

  /** The measurement, which comes first, counts nothing. */
  lemma AnswerOwesOne(up: Upstream, elapsedMs: u64, timeoutSecs: u64)
    ensures var effects := Effects(up, elapsedMs, timeoutSecs); effects[0].Measure? && Counts(effects[1..]) == 1
  {
    EveryExitCountsOnce(up, elapsedMs, timeoutSecs);
  }

  lemma LookUpKeepsBalance(w: World, who: nat, url: string)
    requires Closed(w.sys.core) && Possible(w, LookUp(who)) && BalancedAt(w, url)
    ensures BalancedAt(After(w, LookUp(who)), url)
  {
    var h := w.handlers[who];
    var failure := h.pending[0] == CountFailed;
    OwesTheSame(w, who, Counting(h.url, failure, Deletions(w, h.url, failure), h.pending[1..]), url);
  }

  lemma AnswerKeepsBalance(w: World, who: nat, up: Upstream, elapsedMs: u64, url: string)
    requires Closed(w.sys.core) && Possible(w, Answer(who, up, elapsedMs)) && BalancedAt(w, url)
    ensures BalancedAt(After(w, Answer(who, up, elapsedMs)), url)
  {
    AnswerOwesOne(up, elapsedMs, w.sys.core.client.timeoutSecs);
    var effects := Effects(up, elapsedMs, w.sys.core.client.timeoutSecs);
    OwesTheSame(w, who, Acting(w.handlers[who].url, effects[1..]), url);
  }

  lemma ActKeepsBalance(w: World, who: nat, now: nat, url: string)
    requires Closed(w.sys.core) && Possible(w, Act(who, now)) && BalancedAt(w, url)
    ensures BalancedAt(After(w, Act(who, now)), url)
  {
    OwesTheSame(w, who, Acting(w.handlers[who].url, w.handlers[who].pending[1..]), url);
  }

  lemma {:induction false} EventKeepsBalance(w: World, event: Event, url: string)
    requires Closed(w.sys.core) && Possible(w, event) && BalancedAt(w, url)
    ensures BalancedAt(After(w, event), url)
  {
    match event
    case Arrive(of) =>
      InFlightAppend(w.handlers, Waiting(of), url);
    case Answer(who, up, elapsedMs) => AnswerKeepsBalance(w, who, up, elapsedMs, url);
    case Act(who, now) => ActKeepsBalance(w, who, now, url);
    case LookUp(who) => LookUpKeepsBalance(w, who, url);
    case Increment(who) => IncrementKeepsBalance(w, who, url);
    case Cancel(who) => InFlightUpdate(w.handlers, who, Acting(w.handlers[who].url, []), url);
    case DeleteCounter(of, failure) => DeletionKeepsBalance(w, of, failure, url);
    case Other(_) =>
  }

  /**
   * A handler with an outcome to count, undisturbed: the counter of that outcome and of no other goes up by one for
   * its URL.
   */
  lemma {:induction false} OutcomeIsCounted(w: World, who: nat)
    requires Closed(w.sys.core) && Possible(w, LookUp(who))
    ensures var u, h := After(w, LookUp(who)), w.handlers[who];
      && Possible(u, Increment(who))
      && var v := After(u, Increment(who));
      && v.succeeded == w.succeeded + (if h.pending[0] == CountSucceeded then multiset{h.url} else multiset{})
      && v.failed == w.failed + (if h.pending[0] == CountFailed then multiset{h.url} else multiset{})
      && v.discarded == w.discarded && v.abandoned == w.abandoned && v.sys == w.sys
      && v.handlers == w.handlers[who := Acting(h.url, h.pending[1..])]
  {
  }

  ghost predicate History(w: World, events: seq<Event>)
    requires Inv(w.sys)
    decreases |events|
  {
    events == [] || (Possible(w, events[0]) && (EventKeepsInv(w, events[0]); History(After(w, events[0]), events[1..])))
  }

  ghost function Outcome(w: World, events: seq<Event>): (v: World)
    requires Inv(w.sys) && History(w, events)
    ensures Inv(v.sys)
    decreases |events|
  {
    if events == [] then w else
      EventKeepsInv(w, events[0]);
      Outcome(After(w, events[0]), events[1..])
  }

  /**
   * In every interleaving, for every URL: requests that arrived are the ones counted as succeeded or
   * failed, the ones whose count went with a deleted counter, before or after the deletion, the ones whose client
   * gave up, and the ones in flight.
   */
  lemma {:induction false} RequestsConserved(w: World, events: seq<Event>)
    requires Inv(w.sys) && History(w, events) && Balanced(w)
    ensures Balanced(Outcome(w, events))
    decreases |events|
  {
    if events != [] {
      EventKeepsInv(w, events[0]);
      forall url
        ensures BalancedAt(After(w, events[0]), url)
      {
        EventKeepsBalance(w, events[0], url);
      }
      RequestsConserved(After(w, events[0]), events[1..]);
    }
  }

  /** In particular the totals add up. */
  lemma TotalsConserved(w: World)
    requires Balanced(w)
    ensures |w.arrived| == |w.succeeded| + |w.failed| + |w.discarded| + |w.abandoned| + |InFlight(w.handlers)|
  {
    assert w.arrived == w.succeeded + w.failed + w.discarded + w.abandoned + InFlight(w.handlers) by {
      forall url: string
        ensures w.arrived[url] == (w.succeeded + w.failed + w.discarded + w.abandoned + InFlight(w.handlers))[url]
      {
        assert BalancedAt(w, url);
      }
    }
  }

  predicate Patient(events: seq<Event>) {
    forall k :: 0 <= k < |events| ==> !events[k].Cancel?
  }

  lemma {:induction false} NobodyAbandons(w: World, events: seq<Event>)
    requires Inv(w.sys) && History(w, events) && Patient(events)
    ensures Outcome(w, events).abandoned == w.abandoned
    decreases |events|
  {
    if events != [] {
      EventKeepsInv(w, events[0]);
      assert !events[0].Cancel?;
      NobodyAbandons(After(w, events[0]), events[1..]);
    }
  }

  /** Nothing has been requested yet. */
  function Fresh(sys: System): World {
    World(sys, multiset{}, multiset{}, multiset{}, multiset{}, multiset{}, [], multiset{}, multiset{})
  }

  /**
   * From startup on, if no handler is cancelled, the total is the sum of the succeeded, the failed, the
   * discarded and the requests in flight.
   */
  lemma {:induction false} TotalForwards(sys: System, events: seq<Event>)
    requires Inv(sys)
    requires History(Fresh(sys), events) && Patient(events)
    ensures var v := Outcome(Fresh(sys), events);
      |v.arrived| == |v.succeeded| + |v.failed| + |v.discarded| + |InFlight(v.handlers)|
  {
    var w := Fresh(sys);
    RequestsConserved(w, events);
    NobodyAbandons(w, events);
    TotalsConserved(Outcome(w, events));
  }
}
