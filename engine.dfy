/**
 * The bookkeeping of `check_subdomain` as a pure transition on the state
 * (found set, tested counter, stop flag), and a sequential drain of a list of
 * candidates through it. The DNS lookup is the parameter `resolve`.
 */
module Engine {

  /** How one address lookup ended: the answer, or the class of exception raised. */
  datatype Outcome = Found | NXDomainOrNoAnswer | Timeout | NoNameservers | Other(msg: string)

  /** A candidate is resolved only when it is non-empty and holds none of `.`, `/`, ` `. */
  predicate ValidLabel(subdomain: string) {
    subdomain != [] && '.' !in subdomain && '/' !in subdomain && ' ' !in subdomain
  }

  /** `f"{subdomain}.{domain}"`. */
  function Fqdn(subdomain: string, domain: string): string {
    subdomain + "." + domain
  }

  /** `name` is a valid label followed by `.` and `domain`. */
  predicate NameUnder(name: string, domain: string) {
    && |name| > |domain| + 1
    && name[|name| - |domain| - 1..] == "." + domain
    && ValidLabel(name[..|name| - |domain| - 1])
  }

  lemma FqdnUnder(subdomain: string, domain: string)
    requires ValidLabel(subdomain)
    ensures NameUnder(Fqdn(subdomain, domain), domain)
  {
    var name := Fqdn(subdomain, domain);
    assert name[..|subdomain|] == subdomain;
    assert name[|subdomain|..] == "." + domain;
  }

  /** Distinct candidates give distinct names under one domain. */
  lemma FqdnInjective(a: string, b: string, domain: string)
    requires Fqdn(a, domain) == Fqdn(b, domain)
    ensures a == b
  {
    assert |a| == |b|;
    assert a == Fqdn(a, domain)[..|a|];
    assert b == Fqdn(b, domain)[..|b|];
  }

  /** The fields `found_subdomains`, `total_tested` and `stop_event`. */
  datatype State = State(found: set<string>, tested: nat, stopped: bool)

  const Initial := State({}, 0, false)

  /** What the object keeps true between calls: never more names than attempts,
      and every name a valid label under the target domain. */
  predicate Consistent(s: State, domain: string) {
    |s.found| <= s.tested && forall n :: n in s.found ==> NameUnder(n, domain)
  }

  /** One call of `check_subdomain(subdomain)`. */
  function Check(s: State, domain: string, subdomain: string, resolve: string -> Outcome): State {
    if s.stopped || !ValidLabel(subdomain) then s
    else
      var name := Fqdn(subdomain, domain);
      var found := if resolve(name) == Found then s.found + {name} else s.found;
      State(found, s.tested + 1, s.stopped)
  }

  /** `signal_handler`'s effect: the stop flag is set. */
  function Stop(s: State): State {
    s.(stopped := true)
  }

  lemma CheckWhileStopped(s: State, domain: string, subdomain: string, resolve: string -> Outcome)
    requires s.stopped
    ensures Check(s, domain, subdomain, resolve) == s
  {
  }

  lemma CheckRejectsInvalid(s: State, domain: string, subdomain: string, resolve: string -> Outcome)
    requires !ValidLabel(subdomain)
    ensures Check(s, domain, subdomain, resolve) == s
  {
  }

  /** A valid candidate is counted exactly once whatever the outcome, and only a
      successful lookup adds its name. */
  lemma CheckCountsOnce(s: State, domain: string, subdomain: string, resolve: string -> Outcome)
    requires !s.stopped && ValidLabel(subdomain)
    ensures var r := Check(s, domain, subdomain, resolve);
      && r.tested == s.tested + 1
      && r.stopped == s.stopped
      && (resolve(Fqdn(subdomain, domain)) == Found ==> r.found == s.found + {Fqdn(subdomain, domain)})
      && (resolve(Fqdn(subdomain, domain)) != Found ==> r.found == s.found)
  {
  }

  lemma CheckPreservesConsistent(s: State, domain: string, subdomain: string, resolve: string -> Outcome)
    requires Consistent(s, domain)
    ensures Consistent(Check(s, domain, subdomain, resolve), domain)
  {
    if !s.stopped && ValidLabel(subdomain) {
      FqdnUnder(subdomain, domain);
    }
  }

  /** Setting the flag again changes nothing, and a stopped state ignores checks. */
  lemma StopIdempotent(s: State, domain: string, subdomain: string, resolve: string -> Outcome)
    ensures Stop(Stop(s)) == Stop(s)
    ensures Check(Stop(s), domain, subdomain, resolve) == Stop(s)
    ensures Stop(s).found == s.found && Stop(s).tested == s.tested
  {
  }

  /** One worker taking `items` from the queue in order and checking each. */
  function Drain(s: State, domain: string, items: seq<string>, resolve: string -> Outcome): State
    decreases |items|
  {
    if items == [] then s
    else Drain(Check(s, domain, items[0], resolve), domain, items[1..], resolve)
  }

  /** The number of valid labels in `items`, duplicates counted. */
  function CountValid(items: seq<string>): (n: nat)
    ensures n <= |items|
  {
    if items == [] then 0
    else (if ValidLabel(items[0]) then 1 else 0) + CountValid(items[1..])
  }

  /** The names of `items` that the lookup reports as existing. */
  function FoundNames(domain: string, items: seq<string>, resolve: string -> Outcome): set<string> {
    set x | x in items && ValidLabel(x) && resolve(Fqdn(x, domain)) == Found :: Fqdn(x, domain)
  }

  lemma FoundNamesCons(domain: string, items: seq<string>, resolve: string -> Outcome)
    requires items != []
    ensures FoundNames(domain, items, resolve) ==
      FoundNames(domain, items[1..], resolve) +
      (if ValidLabel(items[0]) && resolve(Fqdn(items[0], domain)) == Found then {Fqdn(items[0], domain)} else {})
  {
    assert forall x :: x in items <==> x == items[0] || x in items[1..];
  }

  /** Checking `a` then `b` is checking `a + b`. */
  lemma {:induction false} DrainAppend(s: State, domain: string, a: seq<string>, b: seq<string>, resolve: string -> Outcome)
    ensures Drain(s, domain, a + b, resolve) == Drain(Drain(s, domain, a, resolve), domain, b, resolve)
    decreases |a|
  {
    if a == [] {
      assert a + b == b;
    } else {
      assert (a + b)[0] == a[0] && (a + b)[1..] == a[1..] + b;
      DrainAppend(Check(s, domain, a[0], resolve), domain, a[1..], b, resolve);
    }
  }

  lemma DrainSnoc(s: State, domain: string, items: seq<string>, x: string, resolve: string -> Outcome)
    ensures Drain(s, domain, items + [x], resolve) == Check(Drain(s, domain, items, resolve), domain, x, resolve)
  {
    DrainAppend(s, domain, items, [x], resolve);
    assert [x][1..] == [];
  }

  /** Once stopped, the worker loop changes nothing. */
  lemma {:induction false} DrainWhileStopped(s: State, domain: string, items: seq<string>, resolve: string -> Outcome)
    requires s.stopped
    ensures Drain(s, domain, items, resolve) == s
    decreases |items|
  {
    if items != [] {
      DrainWhileStopped(Check(s, domain, items[0], resolve), domain, items[1..], resolve);
    }
  }

  /** Without a stop, a drain counts every valid candidate once and adds exactly
      the names the lookup reports as existing. */
  lemma {:induction false} DrainCounts(s: State, domain: string, items: seq<string>, resolve: string -> Outcome)
    requires !s.stopped
    ensures var r := Drain(s, domain, items, resolve);
      && r.tested == s.tested + CountValid(items)
      && r.found == s.found + FoundNames(domain, items, resolve)
      && !r.stopped
    decreases |items|
  {
    if items != [] {
      FoundNamesCons(domain, items, resolve);
      DrainCounts(Check(s, domain, items[0], resolve), domain, items[1..], resolve);
    }
  }

  lemma {:induction false} DrainPreservesConsistent(s: State, domain: string, items: seq<string>, resolve: string -> Outcome)
    requires Consistent(s, domain)
    ensures Consistent(Drain(s, domain, items, resolve), domain)
    decreases |items|
  {
    if items != [] {
      CheckPreservesConsistent(s, domain, items[0], resolve);
      DrainPreservesConsistent(Check(s, domain, items[0], resolve), domain, items[1..], resolve);
    }
  }

  /** The found set and the counter only grow. */
  lemma {:induction false} DrainMonotone(s: State, domain: string, items: seq<string>, resolve: string -> Outcome)
    ensures var r := Drain(s, domain, items, resolve);
      s.found <= r.found && s.tested <= r.tested && r.stopped == s.stopped
    decreases |items|
  {
    if items != [] {
      DrainMonotone(Check(s, domain, items[0], resolve), domain, items[1..], resolve);
    }
  }

  lemma {:induction false} CountValidAppend(a: seq<string>, b: seq<string>)
    ensures CountValid(a + b) == CountValid(a) + CountValid(b)
    decreases |a|
  {
    if a == [] {
      assert a + b == b;
    } else {
      assert (a + b)[0] == a[0] && (a + b)[1..] == a[1..] + b;
      CountValidAppend(a[1..], b);
    }
  }

  lemma {:induction false} CountValidPermutation(a: seq<string>, b: seq<string>)
    requires multiset(a) == multiset(b)
    ensures CountValid(a) == CountValid(b)
    decreases |a|
  {
    if a == [] {
      assert |multiset(b)| == 0;
    } else {
      var x := a[0];
      assert x in multiset(b);
      var i :| 0 <= i < |b| && b[i] == x;
      var b' := b[..i] + b[i + 1..];
      assert b == b[..i] + [x] + b[i + 1..];
      assert a == [x] + a[1..];
      assert multiset(b) == multiset(b[..i]) + multiset{x} + multiset(b[i + 1..]);
      assert multiset(b') == multiset(b[..i]) + multiset(b[i + 1..]);
      assert multiset(a) == multiset{x} + multiset(a[1..]);
      assert multiset(a[1..]) == multiset(a) - multiset{x};
      assert multiset(b') == multiset(b) - multiset{x};
      CountValidPermutation(a[1..], b');
      CountValidAppend(b[..i] + [x], b[i + 1..]);
      CountValidAppend(b[..i], [x]);
      CountValidAppend(b[..i], b[i + 1..]);
      CountValidAppend([x], a[1..]);
    }
  }

  /** The final state does not depend on the order in which the candidates are
      taken: any permutation of the work gives the same tested count and found set. */
  lemma DrainPermutation(s: State, domain: string, a: seq<string>, b: seq<string>, resolve: string -> Outcome)
    requires multiset(a) == multiset(b)
    ensures Drain(s, domain, a, resolve) == Drain(s, domain, b, resolve)
  {
    if s.stopped {
      DrainWhileStopped(s, domain, a, resolve);
      DrainWhileStopped(s, domain, b, resolve);
    } else {
      DrainCounts(s, domain, a, resolve);
      DrainCounts(s, domain, b, resolve);
      CountValidPermutation(a, b);
      assert forall x :: x in a <==> x in multiset(a);
      assert forall x :: x in b <==> x in multiset(b);
      assert FoundNames(domain, a, resolve) == FoundNames(domain, b, resolve);
    }
  }
}
