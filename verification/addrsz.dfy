/**
 * The scanner variant of `addrsz.py`: a per-address response cache in front of
 * the fetcher, and a checkpoint holding only the last address and the count.
 */
module Addrsz {
  import opened Base
  import opened Records
  import opened Fetcher
  import opened Report
  import opened Resume

  /** The record `save_progress` writes after every address. */
  datatype Checkpoint = Checkpoint(address: string, numTransactions: int)

  /** The `cache_<addr>.json` files: the saved initial response per address. */
  type Cache = map<string, Response>

  /** What `fetch_transactions` returns and the cache files afterwards. */
  datatype CachedFetch = CachedFetch(outcome: FetchOutcome, cache: Cache)

  /**
   * `fetch_transactions` with its cache: a cached address returns the saved
   * `txs`, whatever the count, without a request; otherwise the address is
   * fetched fresh, and only a fetch that got every page saves the initial
   * offset-0 response (not the pages) under the address.
   */
  function FetchCached(cache: Cache, addr: string, p: Provider, requested: int, trace: seq<Attempt>): (r: CachedFetch)
    ensures addr in cache ==> r.outcome == Fetched(cache[addr].txs) && r.cache == cache
    ensures addr !in cache ==> r.outcome == FetchFresh(p, requested, trace)
    ensures addr !in cache && r.outcome.Fetched? ==>
      p.first.Some? && r.cache == cache[addr := p.first.value]
    ensures addr !in cache && !r.outcome.Fetched? ==> r.cache == cache
  {
    if addr in cache then CachedFetch(Fetched(cache[addr].txs), cache)
    else
      var outcome := FetchFresh(p, requested, trace);
      if outcome.Fetched? then CachedFetch(outcome, cache[addr := p.first.value])
      else CachedFetch(outcome, cache)
  }

  /**
   * After a fetch that completed, every later fetch of the same address returns
   * the first response's `txs`, whatever count, provider or attempts it is given.
   */
  lemma SecondFetchHitsCache(cache: Cache, addr: string, p: Provider, requested: int, trace: seq<Attempt>,
                             p': Provider, requested': int, trace': seq<Attempt>)
    requires addr !in cache
    requires FetchCached(cache, addr, p, requested, trace).outcome.Fetched?
    ensures var later := FetchCached(cache, addr, p, requested, trace).cache;
      p.first.Some? && FetchCached(later, addr, p', requested', trace').outcome == Fetched(p.first.value.txs)
  {
  }

  /**
   * The cache can lose transactions: an address with 150 transactions fetched
   * in two pages yields both pages the first time, but only the first page's
   * transactions once it is cached.
   */
  lemma CacheHitCanReturnFewer(t0: Tx, t1: Tx)
    ensures var p := Provider(Some(Response(150, [t0])), o => if o == 0 then [t0] else [t1]);
      var first := FetchCached(map[], "a", p, 150, [Succeeded, Succeeded]);
      && first.outcome == Fetched([t0, t1])
      && FetchCached(first.cache, "a", p, 150, []).outcome == Fetched([t0])
  {
    var p := Provider(Some(Response(150, [t0])), o => if o == 0 then [t0] else [t1]);
    assert Range(200, 150) == [];
    assert PageOffsets(Clamp(150, 150)) == [0, 100];
    var trace := [Succeeded, Succeeded];
    assert trace[1..] == [Succeeded];
    assert [0, 100][1..] == [100];
    assert FetchPages(p.page, [100], [Succeeded]) == Done([t1], 1);
  }

  /**
   * `analyze_address`: a report is written exactly when the fetch returned a
   * non-empty list in which reuse was found, and it holds that list's lines.
   */
  function AnalyzeAddress(fetched: Option<seq<Tx>>): (report: Option<seq<ReportLine>>)
    ensures report.Some? <==> fetched.Some? && fetched.value != [] && Scan(fetched.value).found
    ensures report.Some? ==> report.value == Scan(fetched.value).lines && |report.value| > 0
  {
    match fetched
    case None => None
    case Some(txs) =>
      if |txs| == 0 then None
      else
        var findings := Scan(txs);
        if findings.found then Some(findings.lines) else None
  }

  /** What one finished address leaves behind: the cache after its fetch and its report, if any. */
  datatype Visited = Visited(cache: Cache, report: Option<seq<ReportLine>>)

  /** One address of the loop, given the cache before it: `None` while its fetch is still retrying. */
  type Step = (Cache, string) -> Option<Visited>

  /** `analyze_address(addr, n)` against `net`: fetch through the cache, then analyse. */
  function Visit(net: Network, n: int, cache: Cache, addr: string): (v: Option<Visited>)
    ensures v.None? <==>
      && addr !in cache
      && net.provider(addr).first.Some?
      && Count(net.attempts(addr), Succeeded) < |PageOffsets(Clamp(n, net.provider(addr).first.value.ntx))|
  {
    var fetch := FetchCached(cache, addr, net.provider(addr), n, net.attempts(addr));
    if fetch.outcome.Retrying? then None
    else Some(Visited(fetch.cache, AnalyzeAddress(Returned(fetch.outcome))))
  }

  /** The step `main` runs for every address. */
  function Analyzer(net: Network, n: int): Step {
    (cache, addr) => Visit(net, n, cache, addr)
  }

  /** `after` keeps every entry of `before` unchanged. */
  ghost predicate Extends(before: Cache, after: Cache) {
    forall a :: a in before ==> a in after && after[a] == before[a]
  }

  /** A step that only adds cache entries and writes only non-empty reports. */
  ghost predicate Sound(step: Step) {
    forall cache, addr :: step(cache, addr).Some? ==>
      && Extends(cache, step(cache, addr).value.cache)
      && (step(cache, addr).value.report.Some? ==> |step(cache, addr).value.report.value| > 0)
  }

  /** The step of `main` never changes a cached entry and never writes an empty report. */
  lemma AnalyzerSound(net: Network, n: int)
    ensures Sound(Analyzer(net, n))
  {
    forall cache, addr | Analyzer(net, n)(cache, addr).Some?
      ensures Extends(cache, Analyzer(net, n)(cache, addr).value.cache)
    {
      var fetch := FetchCached(cache, addr, net.provider(addr), n, net.attempts(addr));
      assert Analyzer(net, n)(cache, addr).value.cache == fetch.cache;
    }
  }

  /** The state of a batch run: addresses finished, reports written, cache, last checkpoint. */
  datatype Run = Run(
    scanned: seq<string>,
    reports: seq<(string, seq<ReportLine>)>,
    cache: Cache,
    saved: Option<Checkpoint>,
    hung: bool)   // the fetch of the next address is still retrying

  /**
   * The loop `for addr in addresses[start_index:]`, over the stripped lines:
   * fetch each address through the cache, analyse it, save the checkpoint.
   */
  function ScanAll(addrs: seq<string>, n: int, step: Step, cache: Cache, saved: Option<Checkpoint>): (run: Run)
    ensures |run.scanned| <= |addrs|
    ensures forall k :: 0 <= k < |run.scanned| ==> run.scanned[k] == addrs[k]
    ensures !run.hung <==> |run.scanned| == |addrs|
    decreases |addrs|
  {
    if |addrs| == 0 then Run([], [], cache, saved, false)
    else
      var addr := addrs[0];
      match step(cache, addr)
      case None => Run([], [], cache, saved, true)
      case Some(v) =>
        var rest := ScanAll(addrs[1..], n, step, v.cache, Some(Checkpoint(addr, n)));
        var written := if v.report.Some? then [(addr, v.report.value)] else [];
        Run([addr] + rest.scanned, written + rest.reports, rest.cache, rest.saved, rest.hung)
  }

  /**
   * Every line is scanned, stripped and in order, unless the fetch of some
   * address never returns; the checkpoint names the last finished address.
   */
  lemma {:induction false} ScanAllVisitsInOrder(addrs: seq<string>, n: int, step: Step, cache: Cache, saved: Option<Checkpoint>)
    ensures var run := ScanAll(addrs, n, step, cache, saved);
      && (forall k :: 0 <= k < |run.scanned| ==> run.scanned[k] == addrs[k])
      && (!run.hung <==> |run.scanned| == |addrs|)
      && (run.hung ==> step(run.cache, addrs[|run.scanned|]).None?)
      && (|run.scanned| == 0 ==> run.saved == saved)
      && (|run.scanned| > 0 ==> run.saved == Some(Checkpoint(run.scanned[|run.scanned| - 1], n)))
    decreases |addrs|
  {
    if |addrs| > 0 {
      var addr := addrs[0];
      if step(cache, addr).Some? {
        ScanAllVisitsInOrder(addrs[1..], n, step, step(cache, addr).value.cache, Some(Checkpoint(addr, n)));
      }
    }
  }

  /** The cache only grows: entries are added, never changed or removed. */
  lemma {:induction false} ScanAllKeepsCache(addrs: seq<string>, n: int, step: Step, cache: Cache, saved: Option<Checkpoint>)
    requires Sound(step)
    ensures Extends(cache, ScanAll(addrs, n, step, cache, saved).cache)
    decreases |addrs|
  {
    if |addrs| > 0 {
      var addr := addrs[0];
      if step(cache, addr).Some? {
        var next := step(cache, addr).value.cache;
        ScanAllKeepsCache(addrs[1..], n, step, next, Some(Checkpoint(addr, n)));
        assert Extends(cache, next);
      }
    }
  }

  /** Each report written belongs to an address scanned in this run and holds at least one line. */
  lemma {:induction false} ScanAllReports(addrs: seq<string>, n: int, step: Step, cache: Cache, saved: Option<Checkpoint>)
    requires Sound(step)
    ensures var run := ScanAll(addrs, n, step, cache, saved);
      && |run.reports| <= |run.scanned|
      && forall k :: 0 <= k < |run.reports| ==> run.reports[k].0 in run.scanned && |run.reports[k].1| > 0
    decreases |addrs|
  {
    if |addrs| > 0 {
      var addr := addrs[0];
      if step(cache, addr).Some? {
        ScanAllReports(addrs[1..], n, step, step(cache, addr).value.cache, Some(Checkpoint(addr, n)));
      }
    }
  }

  /** The outcome of `main`: the lookup of the checkpoint failed, or a run from `start`. */
  datatype Batch = Aborted | Ran(start: nat, run: Run)

  /**
   * `main` after the prompts: `load_progress()` is `None` without a progress
   * file, and then the run starts at 0; otherwise at the checkpoint's line.
   */
  function Main(stored: Option<Checkpoint>, lines: seq<string>, n: int, net: Network, cache: Cache): (b: Batch)
    requires n >= 1
    ensures b.Aborted? <==> stored.Some? && stored.value.address + "\n" !in lines
    ensures b.Ran? ==> b.start <= |lines|
  {
    var checkpoint := if stored.Some? then Some(stored.value.address) else None;
    match StartIndex(checkpoint, lines)
    case LookupFailed => Aborted
    case StartAt(i) => Ran(i, ScanAll(StripAll(lines[i..]), n, Analyzer(net, n), cache, stored))
  }

  /** Without a progress file the run starts at the first line. */
  lemma FreshStart(lines: seq<string>, n: int, net: Network, cache: Cache)
    requires n >= 1
    ensures var b := Main(None, lines, n, net, cache);
      b.Ran? && b.start == 0 && b.run == ScanAll(StripAll(lines), n, Analyzer(net, n), cache, None)
  {
    assert lines[0..] == lines;
  }

  /**
   * Resuming from a checkpoint for address `a` (as saved: stripped) starts at
   * the first line `a + "\n"`, and `a` itself is the first address scanned
   * again; a missing line aborts the run.
   */
  lemma ResumeRescansCheckpoint(stored: Checkpoint, lines: seq<string>, n: int, net: Network, cache: Cache)
    requires n >= 1
    requires Stripped(stored.address)
    ensures var b := Main(Some(stored), lines, n, net, cache);
      && (b.Aborted? <==> stored.address + "\n" !in lines)
      && (b.Ran? ==>
            && lines[b.start] == stored.address + "\n"
            && (forall j :: 0 <= j < b.start ==> lines[j] != stored.address + "\n")
            && (|b.run.scanned| > 0 ==> b.run.scanned[0] == stored.address))
  {
    var b := Main(Some(stored), lines, n, net, cache);
    if b.Ran? {
      ScanAllVisitsInOrder(StripAll(lines[b.start..]), n, Analyzer(net, n), cache, Some(stored));
      StripLine(stored.address);
    }
  }

  /**
   * Unlike the counting variant, any stored checkpoint is used, so one whose
   * address is empty makes the run start at the first blank line, and aborts
   * when the file has none.
   */
  lemma EmptyCheckpointSeeksBlankLine(lines: seq<string>, n: int, net: Network, cache: Cache)
    requires n >= 1
    ensures var b := Main(Some(Checkpoint("", n)), lines, n, net, cache);
      && (b.Aborted? <==> "\n" !in lines)
      && (b.Ran? ==> lines[b.start] == "\n")
  {
    assert "" + "\n" == "\n";
  }
}
