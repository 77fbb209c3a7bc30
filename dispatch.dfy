/**
 * Go's crawl (go_solution/main.go:110-144, 219-252) run one task at a time:
 * the claim guard of scrapePage over the global visitedUrls ledger, the
 * WaitGroup-counted spawning of child tasks in scrape, and main's wait for
 * the counter to reach zero. Goroutines become tasks on a FIFO worklist;
 * the claim is one atomic step, as the mutex makes it in the code.
 */
module Dispatch {
  import opened Wrappers
  import opened Strings
  import opened Html
  import opened Urls
  import opened Names
  import opened Extract

  /** `maxRecursion`: tasks at this depth or deeper are dropped by the guard. */
  const MaxRecursion: nat := 20

  /** One `go scrape(url, depth, ...)`. */
  datatype Task = Task(url: string, depth: nat)

  /** What scrapePage got from a claimed page: nothing (fetch, status or parse failed), or its extraction. */
  datatype Outcome = Failed | Scraped(text: string, images: seq<string>, links: seq<string>)

  /** A claimed page: the "Scraping:" line printed for it, and what came of it. */
  datatype Visit = Visit(url: string, depth: nat, outcome: Outcome)

  /** The crawl's shared state: the ledger, the outstanding tasks, and the pages claimed so far. */
  datatype Ledger = Ledger(visited: set<string>, pending: seq<Task>, log: seq<Visit>)

  // ---------------------------------------------------------------------
  // One task, as a function of the state
  // ---------------------------------------------------------------------

  /** normalizeURL against the page being scraped. */
  function PageNormalizer<U>(lib: UrlLib<U>, pageUrl: string): Normalizer {
    rel => Normalize(lib, pageUrl, rel)
  }

  /** What scrapePage produces for a page it has claimed. */
  function PageOutcome<U>(site: Site, lib: UrlLib<U>, url: string): (o: Outcome)
    ensures o.Failed? <==> site(url).None?
  {
    match site(url)
    case None => Failed
    case Some(doc) =>
      var normalize := PageNormalizer(lib, url);
      Scraped(CleanText(PageText(doc)), Images(normalize, doc), Dedup(Hrefs(normalize, doc)))
  }

  /** A scraped page's links are its normalised hrefs, each once. */
  lemma PageOutcomeLinks<U>(site: Site, lib: UrlLib<U>, url: string)
    requires site(url).Some?
    ensures var o := PageOutcome(site, lib, url);
      && o.Scraped?
      && NoDup(o.links)
      && forall l :: l in o.links <==> l in Hrefs(PageNormalizer(lib, url), site(url).value)
  {
    DedupOrder(Hrefs(PageNormalizer(lib, url), site(url).value));
  }

  /** The links scrape spawns tasks for: none when scrapePage returned an error. */
  function Links(o: Outcome): seq<string> {
    if o.Scraped? then o.links else []
  }

  /** The guard of scrapePage lets a task through: its URL is new and its depth is under the cap. */
  predicate Claimable(visited: set<string>, t: Task) {
    t.url !in visited && t.depth < MaxRecursion
  }

  /** One task per link, in link order, all at `depth`. */
  function Spawn(links: seq<string>, depth: nat): (ts: seq<Task>)
    ensures |ts| == |links|
    ensures forall i :: 0 <= i < |ts| ==> ts[i] == Task(links[i], depth)
  {
    if links == [] then [] else Spawn(links[..|links| - 1], depth) + [Task(links[|links| - 1], depth)]
  }

  /** Running task `t` (already taken off the worklist) against state `s`, when its page comes out as `o`. */
  function Perform(s: Ledger, t: Task, o: Outcome): Ledger {
    if Claimable(s.visited, t) then
      Ledger(s.visited + {t.url}, s.pending + Spawn(Links(o), t.depth + 1), s.log + [Visit(t.url, t.depth, o)])
    else s
  }

  /** The dispatcher's step: take the oldest outstanding task and run it. */
  function Step(s: Ledger, o: Outcome): Ledger
    requires s.pending != []
  {
    Perform(s.(pending := s.pending[1..]), s.pending[0], o)
  }

  // ---------------------------------------------------------------------
  // What holds of every state the crawl reaches
  // ---------------------------------------------------------------------

  /** The URLs of the claimed pages, in claim order. */
  function LogUrls(log: seq<Visit>): (r: seq<string>)
    ensures |r| == |log|
    ensures forall i :: 0 <= i < |log| ==> r[i] == log[i].url
  {
    if log == [] then [] else LogUrls(log[..|log| - 1]) + [log[|log| - 1].url]
  }

  /** Some claimed page links to `url` from one level above `depth`. */
  ghost predicate Justified(log: seq<Visit>, url: string, depth: nat) {
    exists i :: 0 <= i < |log| && url in Links(log[i].outcome) && depth == log[i].depth + 1
  }

  /** No task deeper than the cap is ever created. */
  ghost predicate DepthsBounded(pending: seq<Task>) {
    forall t :: t in pending ==> t.depth <= MaxRecursion
  }

  /** visitedUrls holds exactly the claimed URLs, each claimed once. */
  ghost predicate LedgerMatches(s: Ledger) {
    NoDup(LogUrls(s.log)) && forall u :: u in s.visited <==> u in LogUrls(s.log)
  }

  /** Every claimed page was under the cap. */
  ghost predicate LogDepths(log: seq<Visit>) {
    forall i :: 0 <= i < |log| ==> log[i].depth < MaxRecursion
  }

  /** Every claimed page was scraped as scrapePage does. */
  ghost predicate Recorded<U>(site: Site, lib: UrlLib<U>, log: seq<Visit>) {
    forall i :: 0 <= i < |log| ==> log[i].outcome == PageOutcome(site, lib, log[i].url)
  }

  /** Before the first claim only the seed task exists; afterwards the seed is the first page claimed. */
  ghost predicate Seeded(seed: string, s: Ledger) {
    && (s.log == [] ==> s.pending == [Task(seed, 0)])
    && (s.log != [] ==> s.log[0].url == seed && s.log[0].depth == 0)
  }

  /** Each page after the seed, and each outstanding task, was spawned from a page claimed before it. */
  ghost predicate Derived(s: Ledger) {
    LogDerived(s.log) && PendingDerived(s.log, s.pending)
  }

  /** Each page after the first was linked from a page claimed before it, one level up. */
  ghost predicate LogDerived(log: seq<Visit>) {
    forall j {:trigger log[..j]} :: 0 < j < |log| ==> Justified(log[..j], log[j].url, log[j].depth)
  }

  /** Once a page is claimed, each outstanding task was linked from a claimed page, one level up. */
  ghost predicate PendingDerived(log: seq<Visit>, pending: seq<Task>) {
    log != [] ==> forall t :: t in pending ==> Justified(log, t.url, t.depth)
  }

  /** Every link of a claimed page below the cap is claimed already or still has its task outstanding. */
  ghost predicate Complete(s: Ledger) {
    forall i, l :: 0 <= i < |s.log| && l in Links(s.log[i].outcome) && s.log[i].depth + 1 < MaxRecursion ==>
      l in s.visited || Task(l, s.log[i].depth + 1) in s.pending
  }

  /** The invariant of the crawl started from `seed`. */
  ghost predicate Inv(seed: string, s: Ledger) {
    && DepthsBounded(s.pending)
    && LedgerMatches(s)
    && LogDepths(s.log)
    && Seeded(seed, s)
    && Derived(s)
    && Complete(s)
  }

  /** The state main starts the crawl in, after `wg.Add(1); go scrape(url, 0, ...)`. */
  lemma InitInv(seed: string)
    ensures Inv(seed, Ledger({}, [Task(seed, 0)], []))
  {
  }

  /** Appending a page keeps the URLs of the earlier ones. */
  lemma LogUrlsSnoc(log: seq<Visit>, v: Visit)
    ensures LogUrls(log + [v]) == LogUrls(log) + [v.url]
  {
    assert (log + [v])[..|log|] == log;
  }

  /** Nothing is visited before the first claim. */
  lemma EmptyLedger(s: Ledger)
    requires LedgerMatches(s)
    ensures s.log == [] ==> s.visited == {}
  {
    assert s.log == [] ==> LogUrls(s.log) == [];
  }

  /** A task is outstanding exactly when it is the head or in the rest of the worklist. */
  lemma InHeadOrTail(ts: seq<Task>, u: Task)
    requires ts != []
    ensures u in ts <==> u == ts[0] || u in ts[1..]
  {
    assert ts == [ts[0]] + ts[1..];
  }

  /** A task the guard refuses changes nothing but the worklist. */
  lemma SkipInv(seed: string, s: Ledger, o: Outcome)
    requires Inv(seed, s) && s.pending != [] && !Claimable(s.visited, s.pending[0])
    ensures Inv(seed, Step(s, o))
  {
    var s' := Step(s, o);
    assert s' == s.(pending := s.pending[1..]);
    EmptyLedger(s);
    SkipComplete(s, o);
  }

  /** A refused task leaves every link below the cap accounted for. */
  lemma SkipComplete(s: Ledger, o: Outcome)
    requires Complete(s) && s.pending != [] && !Claimable(s.visited, s.pending[0])
    ensures Complete(Step(s, o))
  {
    var s' := Step(s, o);
    assert s' == s.(pending := s.pending[1..]);
    forall i, l | 0 <= i < |s'.log| && l in Links(s'.log[i].outcome) && s'.log[i].depth + 1 < MaxRecursion
      ensures l in s'.visited || Task(l, s'.log[i].depth + 1) in s'.pending
    {
      var u := Task(l, s.log[i].depth + 1);
      assert l in s.visited || u in s.pending;
      InHeadOrTail(s.pending, u);
    }
  }

  /** A claimed task keeps the ledger exact: its URL was new, so it is logged once. */
  lemma ClaimLedger(s: Ledger, o: Outcome)
    requires LedgerMatches(s) && s.pending != [] && Claimable(s.visited, s.pending[0])
    ensures LedgerMatches(Step(s, o))
  {
    var t := s.pending[0];
    var s' := Step(s, o);
    var v := Visit(t.url, t.depth, o);
    assert s'.log == s.log + [v] && s'.visited == s.visited + {t.url};
    LogUrlsSnoc(s.log, v);
    var us := LogUrls(s.log);
    assert t.url !in us;
    assert NoDup(us + [t.url]) by {
      forall i, j | 0 <= i < j < |us| + 1 ensures (us + [t.url])[i] != (us + [t.url])[j] {
        if j == |us| {
          assert (us + [t.url])[i] == us[i];
        }
      }
    }
  }

  /** A claimed task is under the cap, starts from the seed when it is the first, and spawns one level deeper. */
  lemma ClaimDepths(seed: string, s: Ledger, o: Outcome)
    requires DepthsBounded(s.pending) && LogDepths(s.log) && Seeded(seed, s)
    requires s.pending != [] && Claimable(s.visited, s.pending[0])
    ensures var s' := Step(s, o); LogDepths(s'.log) && Seeded(seed, s') && DepthsBounded(s'.pending)
  {
    var t := s.pending[0];
    var s' := Step(s, o);
    var v := Visit(t.url, t.depth, o);
    var sp := Spawn(Links(o), t.depth + 1);
    assert s' == Ledger(s.visited + {t.url}, s.pending[1..] + sp, s.log + [v]);
    if s.log == [] {
      assert t == Task(seed, 0);
    }
    forall x | x in s'.pending ensures x.depth <= MaxRecursion {
      if x !in s.pending[1..] {
        assert x in sp;
        var k :| 0 <= k < |sp| && sp[k] == x;
      }
    }
  }

  /** A link found in a log is still found once another page is appended. */
  lemma JustifiedSnoc(log: seq<Visit>, v: Visit, url: string, depth: nat)
    requires Justified(log, url, depth)
    ensures Justified(log + [v], url, depth)
  {
    var i :| 0 <= i < |log| && url in Links(log[i].outcome) && depth == log[i].depth + 1;
    assert (log + [v])[i] == log[i];
  }

  /** Appending the page of an outstanding task keeps every page after the seed traceable. */
  lemma DerivedLog(log: seq<Visit>, t: Task, v: Visit)
    requires LogDerived(log)
    requires log != [] ==> Justified(log, t.url, t.depth)
    requires v.url == t.url && v.depth == t.depth
    ensures LogDerived(log + [v])
  {
    var log' := log + [v];
    forall j | 0 < j < |log'| ensures Justified(log'[..j], log'[j].url, log'[j].depth) {
      if j < |log| {
        assert log'[..j] == log[..j] && log'[j] == log[j];
      } else {
        assert log'[..j] == log;
      }
    }
  }

  /** The tasks of a claimed page's links, and those already outstanding, stay traceable. */
  lemma DerivedPending(log: seq<Visit>, rest: seq<Task>, v: Visit)
    requires PendingDerived(log, rest)
    requires log == [] ==> rest == []
    ensures PendingDerived(log + [v], rest + Spawn(Links(v.outcome), v.depth + 1))
  {
    var sp := Spawn(Links(v.outcome), v.depth + 1);
    forall x | x in rest + sp ensures Justified(log + [v], x.url, x.depth) {
      if x in rest {
        JustifiedSnoc(log, v, x.url, x.depth);
      } else {
        var k :| 0 <= k < |sp| && sp[k] == x;
        assert (log + [v])[|log|] == v;
      }
    }
  }

  /** The state after a claimed task, written out. */
  lemma ClaimStep(s: Ledger, o: Outcome)
    requires s.pending != [] && Claimable(s.visited, s.pending[0])
    ensures Step(s, o) == Ledger(
      s.visited + {s.pending[0].url},
      s.pending[1..] + Spawn(Links(o), s.pending[0].depth + 1),
      s.log + [Visit(s.pending[0].url, s.pending[0].depth, o)])
  {
  }

  /** Claiming the head of the worklist keeps every page and every task traceable to an earlier page. */
  lemma ClaimTraced(log: seq<Visit>, pending: seq<Task>, v: Visit)
    requires LogDerived(log) && PendingDerived(log, pending) && pending != []
    requires log == [] ==> |pending| == 1
    requires v.url == pending[0].url && v.depth == pending[0].depth
    ensures LogDerived(log + [v])
    ensures PendingDerived(log + [v], pending[1..] + Spawn(Links(v.outcome), v.depth + 1))
  {
    HeadDerived(log, pending);
    DerivedLog(log, pending[0], v);
    DerivedPending(log, pending[1..], v);
  }

  /** A claimed task keeps every page and every task traceable to an earlier page. */
  lemma ClaimDerived(seed: string, s: Ledger, o: Outcome)
    requires Seeded(seed, s) && Derived(s) && s.pending != [] && Claimable(s.visited, s.pending[0])
    ensures Derived(Step(s, o))
  {
    ClaimStep(s, o);
    ClaimTraced(s.log, s.pending, Visit(s.pending[0].url, s.pending[0].depth, o));
  }

  /** The head of the worklist is traceable, and so is the rest; before the first claim there is no rest. */
  lemma HeadDerived(log: seq<Visit>, pending: seq<Task>)
    requires PendingDerived(log, pending) && pending != []
    ensures log != [] ==> Justified(log, pending[0].url, pending[0].depth)
    ensures PendingDerived(log, pending[1..])
  {
    assert pending[0] in pending;
    assert forall x :: x in pending[1..] ==> x in pending;
  }

  /** A claimed task keeps every link below the cap accounted for. */
  lemma ClaimComplete(s: Ledger, o: Outcome)
    requires Complete(s) && s.pending != [] && Claimable(s.visited, s.pending[0])
    ensures Complete(Step(s, o))
  {
    var t := s.pending[0];
    var s' := Step(s, o);
    var v := Visit(t.url, t.depth, o);
    var sp := Spawn(Links(o), t.depth + 1);
    assert s' == Ledger(s.visited + {t.url}, s.pending[1..] + sp, s.log + [v]);
    forall i, l | 0 <= i < |s'.log| && l in Links(s'.log[i].outcome) && s'.log[i].depth + 1 < MaxRecursion
      ensures l in s'.visited || Task(l, s'.log[i].depth + 1) in s'.pending
    {
      if i < |s.log| {
        assert s'.log[i] == s.log[i];
        var u := Task(l, s.log[i].depth + 1);
        assert l in s.visited || u in s.pending;
        InHeadOrTail(s.pending, u);
        assert l in s.visited || u == t || u in s.pending[1..];
      } else {
        var k :| 0 <= k < |Links(o)| && Links(o)[k] == l;
        assert sp[k] == Task(l, t.depth + 1);
      }
    }
  }

  /** Running a task keeps every claimed page recorded as scrapePage makes it. */
  lemma RecordedPerform<U>(site: Site, lib: UrlLib<U>, s: Ledger, t: Task, o: Outcome)
    requires Recorded(site, lib, s.log)
    requires Claimable(s.visited, t) ==> o == PageOutcome(site, lib, t.url)
    ensures Recorded(site, lib, Perform(s, t, o).log)
  {
  }

  /** Every step of the dispatcher preserves the invariant. */
  lemma StepInv(seed: string, s: Ledger, o: Outcome)
    requires Inv(seed, s) && s.pending != []
    ensures Inv(seed, Step(s, o))
  {
    if Claimable(s.visited, s.pending[0]) {
      ClaimLedger(s, o);
      ClaimDepths(seed, s, o);
      ClaimDerived(seed, s, o);
      ClaimComplete(s, o);
    } else {
      SkipInv(seed, s, o);
    }
  }

  /**
   * When no task is outstanding the crawl is closed under links: every
   * link of a claimed page one level under the cap was claimed too, and
   * the seed was claimed first.
   */
  lemma FinalClosed(seed: string, s: Ledger)
    requires Inv(seed, s) && s.pending == []
    ensures |s.log| > 0 && s.log[0].url == seed && s.log[0].depth == 0
    ensures forall i, l :: 0 <= i < |s.log| && l in Links(s.log[i].outcome) && s.log[i].depth + 1 < MaxRecursion ==>
      l in s.visited
  {
    assert s.log != [];
  }

  // ---------------------------------------------------------------------
  // Termination: tasks only ever spawn tasks one level deeper
  // ---------------------------------------------------------------------

  /** The number of tasks at depth `k`. */
  function CountAt(ts: seq<Task>, k: nat): nat {
    if ts == [] then 0 else (if ts[0].depth == k then 1 else 0) + CountAt(ts[1..], k)
  }

  /** Counting distributes over concatenation. */
  lemma {:induction false} CountAppend(a: seq<Task>, b: seq<Task>, k: nat)
    ensures CountAt(a + b, k) == CountAt(a, k) + CountAt(b, k)
    decreases |a|
  {
    if a == [] {
      assert a + b == b;
    } else {
      assert (a + b)[1..] == a[1..] + b;
      CountAppend(a[1..], b, k);
    }
  }

  /**
   * The worklist is in breadth-first order: depths never decrease along it,
   * and none is more than one level below the head's.
   */
  ghost predicate Layered(ts: seq<Task>) {
    forall i, j :: 0 <= i <= j < |ts| ==> ts[i].depth <= ts[j].depth <= ts[0].depth + 1
  }

  /** The depth of the oldest outstanding task. */
  function HeadDepth(ts: seq<Task>): nat {
    if ts == [] then 0 else ts[0].depth
  }

  /** How many levels the head is above the cap's level; zero once nothing is outstanding. */
  function Rank(ts: seq<Task>): nat {
    if ts == [] || ts[0].depth > MaxRecursion then 0 else MaxRecursion + 1 - ts[0].depth
  }

  /** No task of `ts` is at depth `k`. */
  lemma {:induction false} CountNone(ts: seq<Task>, k: nat)
    requires forall i :: 0 <= i < |ts| ==> ts[i].depth != k
    ensures CountAt(ts, k) == 0
    decreases |ts|
  {
    if ts != [] {
      CountNone(ts[1..], k);
    }
  }

  /** Dropping the head and appending tasks one level under it keeps a worklist in breadth-first order. */
  lemma QueueLayered(ts: seq<Task>, sp: seq<Task>)
    requires Layered(ts) && ts != []
    requires forall k :: 0 <= k < |sp| ==> sp[k].depth == ts[0].depth + 1
    ensures Layered(ts[1..] + sp)
  {
    var d := ts[0].depth;
    var rest := ts[1..];
    var ts' := rest + sp;
    assert forall k :: 0 <= k < |rest| ==> rest[k] == ts[k + 1];
    assert forall k :: 0 <= k < |ts'| ==> d <= ts'[k].depth <= d + 1;
    forall i, j | 0 <= i <= j < |ts'| ensures ts'[i].depth <= ts'[j].depth <= ts'[0].depth + 1 {
      if i < |rest| {
        assert rest[i].depth >= rest[0].depth;
      }
      if i < |rest| && j < |rest| {
        assert ts[i + 1].depth <= ts[j + 1].depth;
      }
    }
  }

  /**
   * Dropping the head (at depth `d`) and appending tasks at depth `d + 1`
   * either moves the head to a deeper level or empties the worklist, or
   * keeps the head's level with one task fewer at that level.
   */
  lemma QueueRank(ts: seq<Task>, sp: seq<Task>)
    requires Layered(ts) && ts != [] && DepthsBounded(ts) && DepthsBounded(ts[1..] + sp)
    requires forall k :: 0 <= k < |sp| ==> sp[k].depth == ts[0].depth + 1
    ensures var ts' := ts[1..] + sp;
      || Rank(ts') < Rank(ts)
      || (Rank(ts') == Rank(ts) && CountAt(ts', HeadDepth(ts')) < CountAt(ts, HeadDepth(ts)))
  {
    var d := ts[0].depth;
    var rest := ts[1..];
    var ts' := rest + sp;
    assert ts[0] in ts;
    if ts' != [] {
      assert ts'[0] in ts';
      if rest != [] {
        assert ts'[0] == ts[1];
      } else {
        assert ts'[0] == sp[0];
      }
      if ts'[0].depth == d {
        CountAppend(rest, sp, d);
        CountNone(sp, d);
      }
    }
  }

  /** Spawning one level under the head keeps the worklist in breadth-first order. */
  lemma StepLayered(s: Ledger, o: Outcome)
    requires Layered(s.pending) && s.pending != []
    ensures Layered(Step(s, o).pending)
  {
    var t := s.pending[0];
    var sp := if Claimable(s.visited, t) then Spawn(Links(o), t.depth + 1) else [];
    assert Step(s, o).pending == s.pending[1..] + sp;
    QueueLayered(s.pending, sp);
  }

  /** The dispatcher's step as QueueRank sees it: the measure of the loop in Run goes down. */
  lemma StepRank(s: Ledger, o: Outcome)
    requires Layered(s.pending) && DepthsBounded(s.pending) && s.pending != []
    requires DepthsBounded(Step(s, o).pending)
    ensures var ts := Step(s, o).pending;
      || Rank(ts) < Rank(s.pending)
      || (Rank(ts) == Rank(s.pending) && CountAt(ts, HeadDepth(ts)) < CountAt(s.pending, HeadDepth(s.pending)))
  {
    var t := s.pending[0];
    var sp := if Claimable(s.visited, t) then Spawn(Links(o), t.depth + 1) else [];
    assert Step(s, o).pending == s.pending[1..] + sp;
    QueueRank(s.pending, sp);
  }

  // ---------------------------------------------------------------------
  // The dispatcher as the code runs it
  // ---------------------------------------------------------------------

  /**
   * What one task did at the level of the state: an unclaimable task left
   * it alone; a claimed one added its URL and its visit, and spawned tasks
   * for its links unless the page failed.
   */
  lemma PerformRecap(s0: Ledger, t: Task, o: Outcome, s1: Ledger, links: seq<string>, failed: bool)
    requires Claimable(s0.visited, t) ==>
      && s1.visited == s0.visited + {t.url} && s1.log == s0.log + [Visit(t.url, t.depth, o)]
      && links == Links(o) && failed == o.Failed?
    requires !Claimable(s0.visited, t) ==> s1.visited == s0.visited && s1.log == s0.log && links == [] && !failed
    requires s1.pending == if failed then s0.pending else s0.pending + Spawn(links, t.depth + 1)
    ensures s1 == Perform(s0, t, o)
  {
    if failed || !Claimable(s0.visited, t) {
      assert s0.pending + Spawn([], t.depth + 1) == s0.pending;
    }
  }

  /** The globals of main.go and the WaitGroup of main, driven one task at a time. */
  class Crawler<U> {
    const site: Site
    const lib: UrlLib<U>
    var visited: set<string>
    var pending: seq<Task>
    var outstanding: int
    var log: seq<Visit>

    function State(): Ledger
      reads this
    {
      Ledger(visited, pending, log)
    }

    constructor (site: Site, lib: UrlLib<U>)
      ensures this.site == site && this.lib == lib
      ensures State() == Ledger({}, [], []) && outstanding == 0
    {
      this.site, this.lib := site, lib;
      visited, pending, outstanding, log := {}, [], 0, [];
    }

    /** The check-and-claim of scrapePage, atomic under `mu`. */
    method Claim(url: string, depth: nat) returns (claimed: bool)
      modifies this`visited
      ensures claimed == Claimable(old(visited), Task(url, depth))
      ensures visited == if claimed then old(visited) + {url} else old(visited)
    {
      if url in visited || depth >= MaxRecursion {
        return false;
      }
      visited := visited + {url};
      return true;
    }

    /**
     * scrapePage: no links and no error when the guard refuses; otherwise
     * the page is claimed and announced before it is fetched, and a failed
     * fetch, status or parse is an error that leaves it claimed.
     */
    method ScrapePage(url: string, depth: nat) returns (links: seq<string>, failed: bool, ghost o: Outcome)
      modifies this`visited, this`log
      ensures if Claimable(old(visited), Task(url, depth)) then
          && o == PageOutcome(site, lib, url)
          && visited == old(visited) + {url} && log == old(log) + [Visit(url, depth, o)]
          && links == Links(o) && failed == o.Failed?
        else
          visited == old(visited) && log == old(log) && links == [] && !failed
    {
      var claimed := Claim(url, depth);
      if !claimed {
        return [], false, Failed;
      }
      var page: Outcome;
      match site(url) {
        case None =>
          page := Failed;
        case Some(doc) =>
          var text, images, found := ExtractPage(PageNormalizer(lib, url), doc);
          page := Scraped(text, images, found);
      }
      log := log + [Visit(url, depth, page)];
      o := page;
      if page.Failed? {
        return [], true, o;
      }
      return page.links, false, o;
    }

    /**
     * scrape: the task is counted in `outstanding` while it runs; each link
     * is counted (`wg.Add(1)`) as its task is spawned at `depth + 1`, and the
     * task's own count is released (`wg.Done()`) as it ends.
     */
    method RunTask(t: Task) returns (ghost o: Outcome)
      requires outstanding == |pending| + 1
      modifies this`visited, this`pending, this`outstanding, this`log
      ensures State() == Perform(old(State()), t, o)
      ensures Claimable(old(visited), t) ==> o == PageOutcome(site, lib, t.url)
      ensures outstanding == |pending|
    {
      ghost var s0 := State();
      var links, failed;
      links, failed, o := ScrapePage(t.url, t.depth);
      if !failed {
        SpawnAll(links, t.depth + 1);
      }
      outstanding := outstanding - 1;
      PerformRecap(s0, t, o, State(), links, failed);
    }

    /** The loop of scrape over the found links: `wg.Add(1)` and a task at `depth` for each. */
    method SpawnAll(links: seq<string>, depth: nat)
      modifies this`outstanding, this`pending
      ensures pending == old(pending) + Spawn(links, depth)
      ensures outstanding == old(outstanding) + |links|
    {
      for i := 0 to |links|
        invariant outstanding == old(outstanding) + i
        invariant pending == old(pending) + Spawn(links[..i], depth)
      {
        assert links[..i + 1][..i] == links[..i];
        outstanding := outstanding + 1;
        pending := pending + [Task(links[i], depth)];
      }
      assert links[..|links|] == links;
    }

    /** main: count and start the seed task, then wait until the counter is back to zero. */
    method Run(seed: string)
      requires State() == Ledger({}, [], []) && outstanding == 0
      modifies this`visited, this`pending, this`outstanding, this`log
      ensures Inv(seed, State()) && Recorded(site, lib, log)
      ensures pending == [] && outstanding == 0
    {
      outstanding := outstanding + 1;
      pending := [Task(seed, 0)];
      InitInv(seed);
      while outstanding > 0
        invariant outstanding == |pending|
        invariant Inv(seed, State()) && Recorded(site, lib, log) && Layered(pending)
        decreases Rank(pending), CountAt(pending, HeadDepth(pending))
      {
        ghost var before := State();
        var t := pending[0];
        pending := pending[1..];
        ghost var o := RunTask(t);
        assert State() == Step(before, o);
        StepInv(seed, before, o);
        StepLayered(before, o);
        StepRank(before, o);
        RecordedPerform(site, lib, before.(pending := before.pending[1..]), t, o);
      }
    }
  }

  /**
   * The whole run of main.go: the domain folder is computed first and an
   * error ends the run before any page is scraped; otherwise the crawl
   * claims the seed first, claims each URL at most once, records what
   * scrapePage made of each, reaches every page only through a link of a
   * page claimed before it, and misses no link one level under the cap.
   */
  method ScrapeSite<U>(site: Site, lib: UrlLib<U>, etld: string -> Option<string>, seed: string)
    returns (folder: Result<string, string>, log: seq<Visit>, visited: set<string>)
    ensures folder == GoDomainFolder(etld, seed)
    ensures folder.Err? ==> log == [] && visited == {}
    ensures folder.Ok? ==> |log| > 0 && log[0] == Visit(seed, 0, PageOutcome(site, lib, seed))
    ensures NoDup(LogUrls(log)) && forall u :: u in visited <==> u in LogUrls(log)
    ensures forall i :: 0 <= i < |log| ==>
      log[i].depth < MaxRecursion && log[i].outcome == PageOutcome(site, lib, log[i].url)
    ensures forall j {:trigger log[..j]} :: 0 < j < |log| ==> Justified(log[..j], log[j].url, log[j].depth)
    ensures forall i, l :: 0 <= i < |log| && l in Links(log[i].outcome) && log[i].depth + 1 < MaxRecursion ==>
      l in visited
  {
    folder := GoDomainFolder(etld, seed);
    if folder.Err? {
      return folder, [], {};
    }
    var c := new Crawler(site, lib);
    c.Run(seed);
    FinalClosed(seed, c.State());
    log, visited := c.log, c.visited;
  }
}
