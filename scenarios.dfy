/**
 * Whole runs against a stub resolver, derived from the contracts of the
 * object's methods: a complete run, an interrupted run and the worker bound.
 * Facts about particular strings are kept in small lemmas of their own and the
 * structural steps are stated over abstract values, so that no proof has to
 * unfold the filter and the lookup on literals at once.
 */
module Scenarios {
  import opened Wrappers
  import Engine
  import Order
  import Text
  import Wordlist
  import Enumeration

  /** A wordlist file as `open(...)` iterates it: each line keeps its newline. */
  const Lines: seq<string> := ["www\n", "#comment\n", "\n", "mail\n", "doesnotexist123xyz\n"]

  const Domain: string := "example.com"

  const Names: seq<string> := ["mail.example.com", "www.example.com"]

  /** A resolver under which exactly `www` and `mail` exist. */
  function Stub(name: string): Engine.Outcome {
    if name == "www.example.com" || name == "mail.example.com" then Engine.Found
    else Engine.NXDomainOrNoAnswer
  }

  lemma StripLine(line: string, word: string)
    requires line == word + "\n"
    requires word != [] && !Text.IsSpace(word[0]) && !Text.IsSpace(word[|word| - 1])
    ensures Text.Strip(line) == word
  {
    assert line == [] + word + "\n";
    Text.StripPadded(line, [], word, "\n");
  }

  /** Five lines of which the first, fourth and fifth are kept. */
  lemma LoadFive(l: seq<string>)
    requires |l| == 5
    requires Wordlist.Keep(l[0]) && !Wordlist.Keep(l[1]) && !Wordlist.Keep(l[2])
    requires Wordlist.Keep(l[3]) && Wordlist.Keep(l[4])
    ensures Wordlist.LoadWordlist(l) == [Text.Strip(l[0]), Text.Strip(l[3]), Text.Strip(l[4])]
  {
    var s4 := l[4..];
    assert s4[1..] == [] && s4[0] == l[4];
    assert Wordlist.LoadWordlist(s4) == [Text.Strip(l[4])];
    assert l[3..][0] == l[3] && l[3..][1..] == s4;
    assert Wordlist.LoadWordlist(l[3..]) == [Text.Strip(l[3]), Text.Strip(l[4])];
    assert l[2..][0] == l[2] && l[2..][1..] == l[3..];
    assert l[1..][0] == l[1] && l[1..][1..] == l[2..];
    assert Wordlist.LoadWordlist(l[1..]) == [Text.Strip(l[3]), Text.Strip(l[4])];
  }

  lemma WwwLine()
    ensures Wordlist.Keep(Lines[0]) && Text.Strip(Lines[0]) == "www"
  {
    StripLine(Lines[0], "www");
  }

  lemma MailLine()
    ensures Wordlist.Keep(Lines[3]) && Text.Strip(Lines[3]) == "mail"
  {
    StripLine(Lines[3], "mail");
  }

  lemma MissingLine()
    ensures Wordlist.Keep(Lines[4]) && Text.Strip(Lines[4]) == "doesnotexist123xyz"
  {
    StripLine(Lines[4], "doesnotexist123xyz");
  }

  /** The comment and the blank line are dropped; three candidates remain. */
  lemma Candidates()
    ensures Wordlist.LoadWordlist(Lines) == ["www", "mail", "doesnotexist123xyz"]
  {
    WwwLine();
    MailLine();
    MissingLine();
    assert !Wordlist.Keep(Lines[1]) && !Wordlist.Keep(Lines[2]);
    LoadFive(Lines);
  }

  /** Three valid candidates of which the first two are found. */
  lemma DrainThree(c: seq<string>, domain: string, resolve: string -> Engine.Outcome)
    requires |c| == 3 && Engine.ValidLabel(c[0]) && Engine.ValidLabel(c[1]) && Engine.ValidLabel(c[2])
    requires resolve(Engine.Fqdn(c[0], domain)) == Engine.Found
    requires resolve(Engine.Fqdn(c[1], domain)) == Engine.Found
    requires resolve(Engine.Fqdn(c[2], domain)) != Engine.Found
    ensures Engine.CountValid(c) == 3
    ensures Engine.FoundNames(domain, c, resolve) == {Engine.Fqdn(c[0], domain), Engine.Fqdn(c[1], domain)}
    ensures Engine.CountValid(c[..2]) == 2
    ensures Engine.FoundNames(domain, c[..2], resolve) == {Engine.Fqdn(c[0], domain), Engine.Fqdn(c[1], domain)}
  {
    assert c[1..][0] == c[1] && c[1..][1..][0] == c[2] && c[1..][1..][1..] == [];
    assert Engine.CountValid(c[1..][1..]) == 1;
    assert Engine.CountValid(c[1..]) == 2;
    assert forall y :: y in c <==> y == c[0] || y == c[1] || y == c[2];
    var t := c[..2];
    assert t[0] == c[0] && t[1..][0] == c[1] && t[1..][1..] == [];
    assert forall y :: y in t <==> y == c[0] || y == c[1];
  }

  lemma ScenarioLookups()
    ensures Engine.ValidLabel("www") && Engine.ValidLabel("mail") && Engine.ValidLabel("doesnotexist123xyz")
    ensures Engine.Fqdn("www", Domain) == "www.example.com"
    ensures Engine.Fqdn("mail", Domain) == "mail.example.com"
    ensures Stub(Engine.Fqdn("www", Domain)) == Engine.Found
    ensures Stub(Engine.Fqdn("mail", Domain)) == Engine.Found
    ensures Stub(Engine.Fqdn("doesnotexist123xyz", Domain)) != Engine.Found
  {
    var m := Engine.Fqdn("doesnotexist123xyz", Domain);
    assert m[0] == 'd';
  }

  lemma NamesSorted(names: seq<string>)
    requires Order.StrictlySorted(names)
    requires forall x :: x in names <==> x in FoundSet
    ensures names == Names
  {
    assert Order.Less(Names[0], Names[1]);
    assert Order.StrictlySorted(Names);
    Order.SortedUnique(names, Names);
  }

  lemma ScenarioDrains()
    ensures var c := Wordlist.LoadWordlist(Lines);
      && |c| == 3
      && Engine.CountValid(c) == 3
      && Engine.FoundNames(Domain, c, Stub) == FoundSet
      && Engine.CountValid(c[..2]) == 2
      && Engine.FoundNames(Domain, c[..2], Stub) == FoundSet
  {
    Candidates();
    ScenarioLookups();
    DrainThree(["www", "mail", "doesnotexist123xyz"], Domain, Stub);
  }

  /** The names the stub resolver reports as existing. */
  const FoundSet: set<string> := {"www.example.com", "mail.example.com"}

  lemma FoundSetListing(names: seq<string>)
    requires Order.StrictlySorted(names)
    requires forall x :: x in names <==> x in FoundSet
    ensures names == Names && |FoundSet| == 2
  {
    assert "www.example.com"[0] != "mail.example.com"[0];
    NamesSorted(names);
  }

  /** The facts about a wordlist and a resolver that fix the two runs below. */
  ghost predicate ThreeCandidates(lines: seq<string>, resolve: string -> Engine.Outcome) {
    var c := Wordlist.LoadWordlist(lines);
    && |c| == 3
    && Engine.CountValid(c) == 3 && Engine.CountValid(c[..2]) == 2
    && Engine.FoundNames(Domain, c, resolve) == FoundSet
    && Engine.FoundNames(Domain, c[..2], resolve) == FoundSet
  }

  lemma ScenarioThree()
    ensures ThreeCandidates(Lines, Stub)
  {
    ScenarioDrains();
  }

  /** Three valid candidates, two found, listed in ascending order. */
  method CompleteRun() returns (result: Enumeration.RunResult)
    ensures result == Enumeration.Completed(Enumeration.Report(3, 2, Names))
  {
    ScenarioThree();
    result := RunToEnd(Lines, Stub);
  }

  /** A run with no interrupt over a wordlist with three valid candidates. */
  method RunToEnd(lines: seq<string>, resolve: string -> Engine.Outcome) returns (result: Enumeration.RunResult)
    requires ThreeCandidates(lines, resolve)
    ensures result == Enumeration.Completed(Enumeration.Report(3, 2, Names))
  {
    result := RunToEndUnsorted(lines, resolve);
    FoundSetListing(result.report.names);
  }

  method RunToEndUnsorted(lines: seq<string>, resolve: string -> Engine.Outcome) returns (result: Enumeration.RunResult)
    requires ThreeCandidates(lines, resolve)
    ensures result.Completed? && Enumeration.ReportOf(result.report, FoundSet, 3)
  {
    var x := new Enumeration.XploitSub(Domain, 10);
    assert Enumeration.WorkerCount(x.threads, 3) == 3;
    var workers;
    result, workers := x.Enumerate(lines, resolve, None);
    assert workers == 3 && !x.stopped;
    assert result.Completed?;
    assert x.totalTested == Engine.CountValid(Wordlist.LoadWordlist(lines));
    assert Enumeration.ReportOf(result.report, x.foundSubdomains, x.totalTested);
    assert x.foundSubdomains == {} + Engine.FoundNames(Domain, Wordlist.LoadWordlist(lines), resolve);
    assert x.foundSubdomains == FoundSet;
  }

  /** The signal arrives after two lookups: the report shows those two. */
  method InterruptedRun() returns (result: Enumeration.RunResult)
    ensures result == Enumeration.Interrupted(Enumeration.Report(2, 2, Names))
  {
    ScenarioThree();
    result := RunInterrupted(Lines, Stub);
  }

  /** A run interrupted after two lookups, over a wordlist with three valid candidates. */
  method RunInterrupted(lines: seq<string>, resolve: string -> Engine.Outcome) returns (result: Enumeration.RunResult)
    requires ThreeCandidates(lines, resolve)
    ensures result == Enumeration.Interrupted(Enumeration.Report(2, 2, Names))
  {
    result := RunInterruptedUnsorted(lines, resolve);
    FoundSetListing(result.report.names);
  }

  method RunInterruptedUnsorted(lines: seq<string>, resolve: string -> Engine.Outcome) returns (result: Enumeration.RunResult)
    requires ThreeCandidates(lines, resolve)
    ensures result.Interrupted? && Enumeration.ReportOf(result.report, FoundSet, 2)
  {
    var x := new Enumeration.XploitSub(Domain, 10);
    ghost var c := Wordlist.LoadWordlist(lines);
    assert Enumeration.WorkerCount(x.threads, 3) == 3;
    assert Enumeration.Processed(Some(2), 3) == 2;
    Engine.DrainCounts(Engine.Initial, Domain, c[..2], resolve);
    var workers;
    result, workers := x.Enumerate(lines, resolve, Some(2));
    assert workers == 3 && x.stopped;
    assert result.Interrupted?;
    assert x.totalTested == 2;
    assert x.foundSubdomains == {} + Engine.FoundNames(Domain, c[..2], resolve);
    assert x.foundSubdomains == FoundSet;
  }

  /** A thousand requested threads and five candidates start five workers; zero
      requested threads start none. */
  lemma WorkerBound()
    ensures Enumeration.WorkerCount(Enumeration.ThreadCap(1000), 5) == 5
    ensures Enumeration.WorkerCount(Enumeration.ThreadCap(1000), 80) == 50
    ensures Enumeration.WorkerCount(Enumeration.ThreadCap(0), 5) == 0
  {
  }
}
