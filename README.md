# XploitSub bookkeeping core in Dafny

XploitSub brute-forces the subdomains of a target domain. It reads a wordlist,
puts every candidate label on a work queue, and lets worker threads look up
`label.domain` in DNS. It records the names that resolve and counts the
attempts. It stops on an interrupt and prints the results sorted.

This project models and proves the sequential bookkeeping under that plumbing.
The lookup, the threads and the printing are left out.

- `Text`: Python's `str.strip()` with the whitespace set of `str.isspace()`.
- `Wordlist`: the line filter of `load_wordlist`.
- `Engine`: `check_subdomain` as a pure transition on the state
  (found set, tested counter, stop flag). It also defines `Drain`, one worker
  taking a list of candidates in order, with its counting laws. The DNS lookup is
  the parameter `resolve: string -> Outcome`. `Outcome` has the constructors
  `Found`, `NXDomainOrNoAnswer`, `Timeout`, `NoNameservers` and `Other(msg)`.
- `Order`: code-point lexicographic order on strings, as Python compares `str`.
  It also defines `SortedSet`, the unique strictly ascending listing of a set,
  which models `sorted(...)`.
- `Enumeration`: the class `XploitSub` with the fields that the source updates in
  place: `foundSubdomains`, `totalTested`, `stopped` and `queue`. Its methods are
  `CheckSubdomain`, `Worker`, `SignalHandler`, `ShowResults` and `Enumerate`.
  Each method is proved against the functions of `Engine`.
  - An interrupt is the parameter `signalAfter: Option<nat>`. The handler runs
    once the first worker has checked that many candidates, or before it starts
    when the value is 0.
  - The worker pool runs one worker after another. Only the first one finds
    work.
- `Url`: what `get_domain_from_url` does to the network location. One leading
  `www.` is removed, then the text from the first `:` on is dropped.
- `Scenarios`: two whole runs against a stub resolver, derived only from the
  methods' contracts. One is complete and one is interrupted after two lookups.

The code says the comment test is done on the raw line (`line.startswith('#')`,
XploitSub.py:53). A line such as `  #admin` is therefore kept as the candidate
`#admin`, though a reading of the filter as "first character after trimming"
would drop it. The model follows the code; `Wordlist.IndentedHashSurvives`
states this case.

An empty candidate list makes `enumerate` print a message and return normally
(XploitSub.py:137-139), so the process exits with status 0 and not with an
error status. The model follows the code: it returns `NoCandidates` and changes
nothing.

## Model

| member | source | states |
|---|---|---|
| Text.LeadCount | XploitSub.py:53 | the leading run counted by `strip()` is all whitespace and is followed by a non-space character or the end |
| Text.TrailCount | XploitSub.py:53 | the trailing run counted by `strip()` is all whitespace and is preceded by a non-space character or the start |
| Text.Strip | XploitSub.py:53 | the stripped line is the slice after the leading whitespace, followed only by whitespace; its ends are not whitespace; it is empty exactly when the line is all whitespace |
| Text.StripPadded | XploitSub.py:53 | a word with non-space ends between whitespace runs strips to the word |
| Text.StripIdempotent | XploitSub.py:53 | stripping twice is stripping once |
| Order.LessIrreflexive | XploitSub.py:121 | no string sorts before itself |
| Order.LessAsymmetric | XploitSub.py:121 | if a sorts before b then b does not sort before a |
| Order.LessTransitive | XploitSub.py:121 | the order of `sorted` on strings is transitive |
| Order.LessTotal | XploitSub.py:121 | any two different strings are ordered one way or the other |
| Order.LessAsymmetricAll | XploitSub.py:121 | asymmetry for all pairs at once |
| Order.LeastExists | XploitSub.py:121 | every non-empty set of strings has a least element |
| Order.Least | XploitSub.py:121 | the element returned is in the set and sorts before every other element |
| Order.SortedSet | XploitSub.py:121 | `sorted(found)`: strictly ascending, one entry per element, exactly the elements of the set |
| Order.SortedUnique | XploitSub.py:121 | two strictly ascending lists with the same elements are equal, so the sorted listing is unique |
| Wordlist.LoadWordlist | XploitSub.py:53 | the filter yields no more candidates than there are lines |
| Wordlist.LoadWordlistTrimmed | XploitSub.py:53 | every candidate is non-empty and neither starts nor ends with whitespace |
| Wordlist.Positions | XploitSub.py:53 | the positions of the true flags, strictly increasing, and all of them |
| Wordlist.Kept | XploitSub.py:53 | the kept line positions are in range, pass the filter, increase strictly, and include every line that passes |
| Wordlist.KeptSnoc | XploitSub.py:53 | a line added at the end adds its own position exactly when it is kept |
| Wordlist.LoadWordlistAppend | XploitSub.py:53 | filtering a concatenation is concatenating the filtered halves |
| Wordlist.LoadWordlistIndexed | XploitSub.py:53 | the k-th candidate is the stripped text of the k-th kept line: one candidate per kept line, in file order, nothing else |
| Wordlist.IndentedHashSurvives | XploitSub.py:53 | a `#` after leading spaces is not a comment: `"  #admin\n"` yields `"#admin"` |
| Wordlist.CommentsAndBlanksDropped | XploitSub.py:53 | a comment line, whitespace-only lines and the empty line yield no candidates |
| Engine.FqdnUnder | XploitSub.py:66-70 | a valid label joined to the domain is a valid label, a dot and the domain |
| Engine.FqdnInjective | XploitSub.py:66 | different labels give different full names under one domain |
| Engine.CheckWhileStopped | XploitSub.py:63-64 | once the stop flag is set a check changes nothing |
| Engine.CheckRejectsInvalid | XploitSub.py:68-70 | an empty label or one holding `.`, `/` or a space changes neither the set nor the counter |
| Engine.CheckCountsOnce | XploitSub.py:72-92 | a valid label checked while running raises the counter by exactly one whatever the outcome; it adds exactly its full name on `Found` and nothing otherwise |
| Engine.CheckPreservesConsistent | XploitSub.py:72-92 | a check keeps the size of the found set at most the counter and keeps every found name a valid label under the domain |
| Engine.StopIdempotent | XploitSub.py:107 | setting the flag twice is setting it once; checks after it change nothing; the set and counter are kept |
| Engine.CountValid | XploitSub.py:86-88 | the number of counted attempts is at most the number of candidates |
| Engine.FoundNamesCons | XploitSub.py:73-75 | the names found from a list are those of its tail plus the head's full name when that resolves |
| Engine.DrainAppend | XploitSub.py:96-100 | draining a concatenation is draining the two parts in sequence |
| Engine.DrainSnoc | XploitSub.py:96-100 | one more dequeued item is one more check after the earlier ones |
| Engine.DrainWhileStopped | XploitSub.py:96-99 | with the flag set, the worker loop changes nothing |
| Engine.DrainCounts | XploitSub.py:94-103 | a drain with the flag clear adds the number of valid candidates to the counter and exactly the resolved names to the set, and leaves the flag clear |
| Engine.DrainPreservesConsistent | XploitSub.py:94-103 | a drain keeps the size of the found set at most the counter and every name under the domain |
| Engine.DrainMonotone | XploitSub.py:94-103 | a drain never removes names, never lowers the counter and does not touch the flag |
| Engine.CountValidAppend | XploitSub.py:86-88 | valid candidates of a concatenation are those of the parts added together |
| Engine.CountValidPermutation | XploitSub.py:86-88 | reordering the candidates does not change how many are counted |
| Engine.DrainPermutation | XploitSub.py:94-103 | the final set and counter do not depend on the order in which candidates are taken |
| Enumeration.ThreadCap | XploitSub.py:23 | `min(threads, 50)`: at most 50 and at most the request, and equal to one of them |
| Enumeration.WorkerCount | XploitSub.py:149 | `len(range(min(cap, n)))`: never above the candidate count or the cap; zero only when the cap is not positive or there are no candidates |
| Enumeration.Processed | XploitSub.py:96-98 | the first worker takes all queued candidates unless the signal comes first, in which case it takes exactly as many as were checked before it |
| Enumeration.XploitSub.constructor | XploitSub.py:20-30 | the thread count is clamped; the set, the counter, the flag and the queue start empty, zero, clear and empty |
| Enumeration.XploitSub.CheckSubdomain | XploitSub.py:61-92 | the new state is `Check` of the old; it is skipped exactly when stopped and rejected exactly when the label is invalid; otherwise it resolves the full name; progress is reported exactly when the new count is a multiple of 100, with the counts |
| Enumeration.XploitSub.ShowResults | XploitSub.py:113-124 | the report holds the counter, the size of the set and the set's names strictly ascending, exactly once each |
| Enumeration.XploitSub.SignalHandler | XploitSub.py:105-111 | the new state is the old with the flag set; the report printed is the sorted listing of the current state |
| Enumeration.XploitSub.TakeAndCheck | XploitSub.py:98-100 | the head of the queue is removed before it is checked; the state advances by one `Check` |
| Enumeration.XploitSub.WorkerStep | XploitSub.py:96-100 | one more turn of the worker extends the drain by the dequeued item; the flag is set exactly when the signal arrives at that count |
| Enumeration.XploitSub.Worker | XploitSub.py:94-103 | items leave the queue from the front in order; exactly the taken ones are drained; the count taken is all of them or the count at the signal; nothing is taken when already stopped |
| Enumeration.XploitSub.Enumerate | XploitSub.py:126-169 | empty wordlist: nothing changes and no worker starts; otherwise the queue is the candidates in order and `WorkerCount` workers start; the state is the drain of the taken prefix; a completed run counts the valid candidates and finds exactly the resolved names; the report is the sorted listing |
| Url.StripWww | XploitSub.py:175-176 | removes one leading `www.` when present, else returns the location unchanged |
| Url.StripWwwPrefix | XploitSub.py:175-176 | `www.` followed by anything loses exactly the `www.` |
| Url.BeforeColon | XploitSub.py:177 | `split(':')[0]`: a prefix with no `:`, followed by a `:` or the end |
| Url.BeforeColonNone | XploitSub.py:177 | a host without a colon is kept whole |
| Url.BeforeColonSplit | XploitSub.py:177 | a host without a colon followed by `:port` yields the host, whatever the rest |
| Url.DomainFromNetloc | XploitSub.py:171-177 | the domain holds no `:` and is a prefix of the location with one leading `www.` removed, cut just before a `:` or at the end |
| Url.WwwStrippedOnce | XploitSub.py:175-177 | only one `www.` is removed: `www.www.example.com` gives `www.example.com` |
| Url.PortDropped | XploitSub.py:175-177 | `www.example.com:8080` gives `example.com` |
| Scenarios.StripLine | XploitSub.py:53 | a word with non-space ends and a newline strips to the word |
| Scenarios.LoadFive | XploitSub.py:53 | five lines of which the first, fourth and fifth pass give those three stripped, in order |
| Scenarios.WwwLine | XploitSub.py:53 | `"www\n"` is kept as `www` |
| Scenarios.MailLine | XploitSub.py:53 | `"mail\n"` is kept as `mail` |
| Scenarios.MissingLine | XploitSub.py:53 | `"doesnotexist123xyz\n"` is kept as `doesnotexist123xyz` |
| Scenarios.Candidates | XploitSub.py:53 | the five-line wordlist with a comment and a blank line gives the three labels in order |
| Scenarios.DrainThree | XploitSub.py:94-103 | three valid labels of which the first two resolve: three counted, two names found, and both found within the first two |
| Scenarios.ScenarioLookups | XploitSub.py:66-76 | the three labels are valid; the stub finds `www` and `mail` under `example.com` and not the third |
| Scenarios.NamesSorted | XploitSub.py:121 | the sorted listing of the two found names is `mail.example.com` then `www.example.com` |
| Scenarios.ScenarioDrains | XploitSub.py:94-103 | the wordlist's candidates and the stub give three counted and exactly the two names, also within the first two |
| Scenarios.FoundSetListing | XploitSub.py:121 | any strictly ascending listing of the two found names is `Names`, and there are two |
| Scenarios.ScenarioThree | XploitSub.py:53-103 | the concrete wordlist and stub meet the facts both runs rely on |
| Scenarios.CompleteRun | XploitSub.py:126-169 | the run ends `Completed` with 3 tested, 2 found, listed `mail.example.com`, `www.example.com` |
| Scenarios.RunToEnd | XploitSub.py:126-169 | any wordlist and resolver with those facts complete with that report |
| Scenarios.RunToEndUnsorted | XploitSub.py:126-169 | such a run completes and reports the two names after three attempts |
| Scenarios.InterruptedRun | XploitSub.py:105-111 | a signal after two lookups ends `Interrupted` with 2 tested and the two names sorted |
| Scenarios.RunInterrupted | XploitSub.py:105-111 | any wordlist and resolver with those facts, interrupted after two lookups, give that report |
| Scenarios.RunInterruptedUnsorted | XploitSub.py:105-111 | such a run is interrupted and reports the two names after two attempts |
| Scenarios.WorkerBound | XploitSub.py:149 | 1000 requested threads start 5 workers for 5 candidates and 50 for 80; 0 threads start none |

## Left out

- DNS resolution (XploitSub.py:73) is the parameter `resolve`; the timeout passed to it is not modelled.
- Threads, the lock, daemon flags and `time.sleep` polling (XploitSub.py:27, 102, 150-153, 157-158) are not modelled. The workers run one after another, so there are no interleavings and no races.
- Enumeration.XploitSub.Worker returns when the queue is empty. The daemon thread in the source sleeps and polls until the process ends.
- Enumeration.XploitSub.Enumerate: the wait loop (XploitSub.py:157-158) is not modelled as a loop. In the model, with at least one worker, the queue is empty or the flag is set once the sequential workers have run, and every item taken has by then been checked; in the source an empty queue does not mean that, as the next line says. With no worker (a thread count of 0 or less) the source polls until an interrupt; the model ends with `Stalled`, or with `Interrupted` when a signal is given.
- Enumeration.XploitSub.Enumerate: the source's completion report can miss checks still in flight. `queue.empty()` (XploitSub.py:157) holds once the last item has been taken by `get_nowait()` (XploitSub.py:98), before it is checked, and no `join()` waits for the workers. So `show_results` (XploitSub.py:169) can print while up to `threads` lookups are still running, and those daemon threads end with the process. The model's `Completed` counts (every valid candidate counted, every resolved name found) hold only because its workers run one after another to the end.
- Enumeration.XploitSub.Enumerate requires a fresh object (flag clear, queue empty), as `main` builds one per run.
- Enumeration.XploitSub.Enumerate: the report on interrupt is the state when the handler runs. Checks that other threads finish after it are not modelled.
- Signal registration and `KeyboardInterrupt` (XploitSub.py:132-133, 159-160) are reduced to the parameter `signalAfter`.
- Elapsed time and its formatting (XploitSub.py:90-92, 109-110, 163-165) are wall-clock floats, so they are not modelled. The progress event carries only the two counts.
- Printing, the banner and the "Found" and error lines (XploitSub.py:32-47, 76, 84-85, 108, 115-124, 138, 141, 168) are output only. `Report` stands for the final block.
- Opening the file, its decoding and `sys.exit` (XploitSub.py:52, 54-59) are file I/O. `LoadWordlist` takes the lines as the file iterator yields them, newlines included.
- `urlparse` (XploitSub.py:173) is a library call. `DomainFromNetloc` starts from the network location.
- `main` and `argparse` (XploitSub.py:179 on) are command-line glue. So is the unused `requests` import.
- Text.IsSpace follows `str.isspace()` for the characters listed. Python's Unicode database is not part of this model.
