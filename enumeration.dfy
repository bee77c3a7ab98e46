/**
 * The `XploitSub` object: its found set, tested counter, stop flag and work
 * queue, updated in place by `check_subdomain`, `worker`, `signal_handler` and
 * `enumerate`. The worker pool is modelled as workers run one after another;
 * the DNS lookup is the parameter `resolve`, and an interrupt is the parameter
 * `signalAfter`: the signal arrives once the first worker has checked that many
 * candidates.
 */
module Enumeration {
  import opened Wrappers
  import Engine
  import Order
  import Wordlist

  /** The hard cap `__init__` puts on the thread count. */
  const MaxThreads := 50

  /** `min(threads, 50)`. */
  function ThreadCap(requested: int): (cap: int)
    ensures cap <= MaxThreads && cap <= requested
    ensures cap == MaxThreads || cap == requested
  {
    if requested < MaxThreads then requested else MaxThreads
  }

  /** The number of iterations of `range(min(cap, candidates))`: the smaller of
      the two, and none when that is not positive. */
  function WorkerCount(cap: int, candidates: nat): (w: nat)
    ensures w <= candidates
    ensures w <= cap || w == 0
    ensures w == candidates || w == cap || (w == 0 && cap <= 0)
  {
    var k := if cap < candidates then cap else candidates;
    if k <= 0 then 0 else k
  }

  /** The progress line printed when the counter reaches a multiple of 100. */
  datatype Progress = Progress(tested: nat, found: nat)

  /** What one call of `check_subdomain` did. */
  datatype Attempt =
    | Skipped    // the stop flag was set
    | Rejected   // the candidate is not a valid label
    | Resolved(name: string, outcome: Engine.Outcome, progress: Option<Progress>)

  /** What `show_results` prints: the two counters and the sorted names. */
  datatype Report = Report(tested: nat, foundCount: nat, names: seq<string>)

  ghost predicate ReportOf(r: Report, found: set<string>, tested: nat) {
    && r.tested == tested
    && r.foundCount == |found|
    && Order.StrictlySorted(r.names)
    && forall x :: x in r.names <==> x in found
  }

  /** How `enumerate` ends. `Stalled`: no worker was started, so the wait loop
      polls a queue that never empties until an interrupt arrives. */
  datatype RunResult = NoCandidates | Stalled | Completed(report: Report) | Interrupted(report: Report)

  /** Whether the signal arrives while a worker still has candidates to take
      from a queue of `n`. */
  predicate Fires(signalAfter: Option<nat>, n: nat) {
    signalAfter.Some? && signalAfter.value <= n
  }

  /** How many of `n` queued candidates the first worker takes. */
  function Processed(signalAfter: Option<nat>, n: nat): (k: nat)
    ensures k <= n
    ensures Fires(signalAfter, n) ==> k == signalAfter.value
    ensures !Fires(signalAfter, n) ==> k == n
  {
    match signalAfter
    case None => n
    case Some(limit) => if limit < n then limit else n
  }

  class XploitSub {
    const domain: string
    const threads: int
    var foundSubdomains: set<string>
    var totalTested: nat
    var stopped: bool
    var queue: seq<string>

    ghost predicate Valid()
      reads this
    {
      threads <= MaxThreads && Engine.Consistent(State(), domain)
    }

    /** The bookkeeping fields as one value. */
    function State(): Engine.State
      reads this
    {
      Engine.State(foundSubdomains, totalTested, stopped)
    }

    constructor (domain: string, threads: int)
      ensures Valid()
      ensures this.domain == domain && this.threads == ThreadCap(threads)
      ensures State() == Engine.Initial && queue == []
    {
      this.domain := domain;
      this.threads := ThreadCap(threads);
      foundSubdomains := {};
      totalTested := 0;
      stopped := false;
      queue := [];
    }

    /** `check_subdomain`: skip when stopped, reject an invalid label, otherwise
        look the name up, record it if it exists, and count the attempt. */
    method CheckSubdomain(subdomain: string, resolve: string -> Engine.Outcome) returns (attempt: Attempt)
      requires Valid()
      modifies this
      ensures Valid()
      ensures State() == Engine.Check(old(State()), domain, subdomain, resolve)
      ensures queue == old(queue)
      ensures attempt.Skipped? <==> old(stopped)
      ensures attempt.Rejected? <==> !old(stopped) && !Engine.ValidLabel(subdomain)
      ensures attempt.Resolved? ==>
        && attempt.name == Engine.Fqdn(subdomain, domain)
        && attempt.outcome == resolve(attempt.name)
        && (attempt.progress.Some? <==> totalTested % 100 == 0)
        && (attempt.progress.Some? ==> attempt.progress.value == Progress(totalTested, |foundSubdomains|))
    {
      Engine.CheckPreservesConsistent(State(), domain, subdomain, resolve);
      if stopped {
        return Skipped;
      }
      var fullDomain := Engine.Fqdn(subdomain, domain);
      if !Engine.ValidLabel(subdomain) {
        return Rejected;
      }
      var outcome := resolve(fullDomain);
      if outcome == Engine.Found {
        foundSubdomains := foundSubdomains + {fullDomain};
      }
      // the `finally` block: every lookup, whatever its outcome, is counted
      totalTested := totalTested + 1;
      var progress := if totalTested % 100 == 0 then Some(Progress(totalTested, |foundSubdomains|)) else None;
      attempt := Resolved(fullDomain, outcome, progress);
    }

    /** `show_results`: the counters and the found names in ascending order. */
    method ShowResults() returns (report: Report)
      ensures ReportOf(report, foundSubdomains, totalTested)
      ensures |report.names| == |foundSubdomains|
    {
      report := Report(totalTested, |foundSubdomains|, Order.SortedSet(foundSubdomains));
    }

    /** `signal_handler`: set the stop flag and print the report. */
    method SignalHandler() returns (report: Report)
      requires Valid()
      modifies this
      ensures Valid()
      ensures State() == Engine.Stop(old(State())) && queue == old(queue)
      ensures ReportOf(report, foundSubdomains, totalTested)
    {
      stopped := true;
      report := ShowResults();
    }

    /** One turn of the worker loop: `queue.get_nowait()` then `check_subdomain`. */
    method TakeAndCheck(resolve: string -> Engine.Outcome) returns (subdomain: string)
      requires Valid() && queue != []
      modifies this
      ensures Valid()
      ensures subdomain == old(queue)[0] && queue == old(queue)[1..]
      ensures State() == Engine.Check(old(State()), domain, subdomain, resolve)
    {
      subdomain := queue[0];
      queue := queue[1..];
      var _ := CheckSubdomain(subdomain, resolve);
    }

    /** One turn of the worker loop after `drained` were checked from `s0`,
        with the signal arriving once `signalAfter` candidates are done. */
    method WorkerStep(resolve: string -> Engine.Outcome, signalAfter: Option<nat>, ghost s0: Engine.State, drained: seq<string>)
      returns (subdomain: string, interrupt: Option<Report>)
      requires Valid() && !stopped && queue != [] && !s0.stopped
      requires var d := Engine.Drain(s0, domain, drained, resolve);
        foundSubdomains == d.found && totalTested == d.tested
      modifies this
      ensures Valid()
      ensures old(queue) == [subdomain] + queue
      ensures var d := Engine.Drain(s0, domain, drained + [subdomain], resolve);
        foundSubdomains == d.found && totalTested == d.tested
      ensures stopped == (signalAfter == Some(|drained| + 1))
      ensures interrupt.Some? == stopped
      ensures interrupt.Some? ==> ReportOf(interrupt.value, foundSubdomains, totalTested)
    {
      Engine.DrainMonotone(s0, domain, drained, resolve);
      subdomain := TakeAndCheck(resolve);
      Engine.DrainSnoc(s0, domain, drained, subdomain, resolve);
      interrupt := None;
      if signalAfter == Some(|drained| + 1) {
        var report := SignalHandler();
        interrupt := Some(report);
      }
    }

    /** `worker`: while the flag is clear, take the head of the queue and check
        it. A worker finding the queue empty returns (the daemon thread would
        poll until the process ends). */
    method Worker(resolve: string -> Engine.Outcome, signalAfter: Option<nat>)
      returns (dequeued: seq<string>, interrupt: Option<Report>)
      requires Valid()
      modifies this
      ensures Valid()
      ensures old(queue) == dequeued + queue
      ensures |dequeued| == if old(stopped) then 0 else Processed(signalAfter, |old(queue)|)
      ensures var d := Engine.Drain(old(State()), domain, dequeued, resolve);
        foundSubdomains == d.found && totalTested == d.tested
      ensures stopped == (old(stopped) || Fires(signalAfter, |old(queue)|))
      ensures interrupt.Some? <==> !old(stopped) && Fires(signalAfter, |old(queue)|)
      ensures interrupt.Some? ==> ReportOf(interrupt.value, foundSubdomains, totalTested)
    {
      dequeued, interrupt := [], None;
      if stopped {
        return;
      }
      ghost var s0, q0 := State(), queue;
      if signalAfter == Some(0) {
        var report := SignalHandler();
        interrupt := Some(report);
      }
      while !stopped && queue != []
        invariant Valid()
        invariant q0 == dequeued + queue
        invariant var d := Engine.Drain(s0, domain, dequeued, resolve);
          foundSubdomains == d.found && totalTested == d.tested
        invariant stopped == Fires(signalAfter, |dequeued|)
        invariant stopped ==> signalAfter == Some(|dequeued|)
        invariant interrupt.Some? == stopped
        invariant interrupt.Some? ==> ReportOf(interrupt.value, foundSubdomains, totalTested)
        decreases |queue|
      {
        var subdomain;
        subdomain, interrupt := WorkerStep(resolve, signalAfter, s0, dequeued);
        dequeued := dequeued + [subdomain];
      }
    }

    /** `enumerate` on the lines of the wordlist: filter them, return early when
        nothing is left, fill the queue in order, start the workers, and report. */
    method Enumerate(lines: seq<string>, resolve: string -> Engine.Outcome, signalAfter: Option<nat>)
      returns (result: RunResult, workers: nat)
      requires Valid() && !stopped && queue == []
      modifies this
      ensures Valid()
      ensures Wordlist.LoadWordlist(lines) == [] ==>
        result == NoCandidates && workers == 0 && State() == old(State()) && queue == []
      ensures Wordlist.LoadWordlist(lines) != [] ==>
        workers == WorkerCount(threads, |Wordlist.LoadWordlist(lines)|)
      ensures Wordlist.LoadWordlist(lines) != [] && workers == 0 ==>
        && queue == Wordlist.LoadWordlist(lines)
        && foundSubdomains == old(foundSubdomains) && totalTested == old(totalTested)
        && (if signalAfter.None? then result == Stalled && !stopped else result.Interrupted? && stopped)
      ensures Wordlist.LoadWordlist(lines) != [] && workers > 0 ==>
        var c := Wordlist.LoadWordlist(lines);
        var n := Processed(signalAfter, |c|);
        var d := Engine.Drain(old(State()), domain, c[..n], resolve);
        && queue == c[n..]
        && foundSubdomains == d.found && totalTested == d.tested
        && stopped == Fires(signalAfter, |c|)
        && (if stopped then result.Interrupted? else result.Completed?)
      ensures result.Completed? ==>
        && totalTested == old(totalTested) + Engine.CountValid(Wordlist.LoadWordlist(lines))
        && foundSubdomains == old(foundSubdomains) + Engine.FoundNames(domain, Wordlist.LoadWordlist(lines), resolve)
      ensures result.Completed? || result.Interrupted? ==> ReportOf(result.report, foundSubdomains, totalTested)
    {
      var candidates := Wordlist.LoadWordlist(lines);
      if |candidates| == 0 {
        return NoCandidates, 0;
      }
      for i := 0 to |candidates|
        invariant queue == candidates[..i]
        invariant State() == old(State())
      {
        queue := queue + [candidates[i]];
      }
      assert queue == candidates;
      workers := WorkerCount(threads, |candidates|);
      if workers == 0 {
        if signalAfter.Some? {
          var report := SignalHandler();
          result := Interrupted(report);
        } else {
          result := Stalled;
        }
        return;
      }
      ghost var s0 := State();
      var dequeued, interrupt := Worker(resolve, signalAfter);
      ghost var s1, q1 := State(), queue;
      assert q1 == [] || s1.stopped;
      for i := 1 to workers
        invariant Valid()
        invariant State() == s1 && queue == q1
      {
        var _, _ := Worker(resolve, None);
      }
      // the wait loop `while not queue.empty() and not stop` exits at once here
      if stopped {
        result := Interrupted(interrupt.value);
      } else {
        assert dequeued == candidates;
        Engine.DrainCounts(s0, domain, candidates, resolve);
        var report := ShowResults();
        result := Completed(report);
      }
    }
  }
}
