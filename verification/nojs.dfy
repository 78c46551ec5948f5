/**
 * The scanner variant of `no-js.py`: no cache, and a checkpoint that carries
 * running totals of addresses checked and addresses with reuse found.
 */
module NoJs {
  import opened Base
  import opened Records
  import opened Fetcher
  import opened Report
  import opened Resume

  /** The record `save_progress` writes after every address. */
  datatype Checkpoint = Checkpoint(address: string, numTransactions: int, checked: int, found: int)

  /** What `main` reads from `load_progress()`: the address, if any, and the two counters. */
  datatype Progress = Progress(address: Option<string>, checked: int, found: int)

  /** `load_progress`: the stored record, or no address and both counters at 0. */
  function LoadProgress(stored: Option<Checkpoint>): (p: Progress)
    ensures stored.None? ==> p.address.None? && p.checked == 0 && p.found == 0
    ensures stored.Some? ==>
      p.address == Some(stored.value.address) && p.checked == stored.value.checked && p.found == stored.value.found
  {
    match stored
    case None => Progress(None, 0, 0)
    case Some(c) => Progress(Some(c.address), c.checked, c.found)
  }

  /** `if progress.get("address")`: an address counts only when present and non-empty. */
  function ResumeAddress(p: Progress): (a: Option<string>)
    ensures a.None? <==> p.address.None? || p.address == Some("")
    ensures a.Some? ==> a == p.address
  {
    if p.address.Some? && p.address.value != "" then p.address else None
  }

  /** The counters `analyze_address` returns and the report file it writes, if any. */
  datatype Analysis = Analysis(checked: int, found: int, report: Option<seq<ReportLine>>)

  /**
   * `analyze_address` given what `fetch_transactions` returned: nothing changes
   * for `None` or an empty list; otherwise `checked` goes up by one, and `found`
   * goes up by one, with a report written, exactly when some transaction shows reuse.
   */
  function AnalyzeAddress(fetched: Option<seq<Tx>>, checked: int, found: int): (a: Analysis)
    ensures (fetched.None? || fetched == Some([])) ==> a == Analysis(checked, found, None)
    ensures fetched.Some? && fetched.value != [] ==> a.checked == checked + 1
    ensures a.found == found || a.found == found + 1
    ensures a.found == found + 1 <==> fetched.Some? && Scan(fetched.value).found
    ensures a.report.Some? <==> a.found == found + 1
    ensures a.report.Some? ==> a.report.value == Scan(fetched.value).lines && |a.report.value| > 0
  {
    match fetched
    case None => Analysis(checked, found, None)
    case Some(txs) =>
      if |txs| == 0 then Analysis(checked, found, None)
      else
        var findings := Scan(txs);
        if findings.found then Analysis(checked + 1, found + 1, Some(findings.lines))
        else Analysis(checked + 1, found, None)
  }

  /** One address of the loop, given the counters before it: `None` while its fetch is still retrying. */
  type Step = (string, int, int) -> Option<Analysis>

  /** `analyze_address(addr, n, checked, found)` against `net`: fetch the address, then analyse it. */
  function Visit(net: Network, n: int, addr: string, checked: int, found: int): (v: Option<Analysis>)
    ensures v.None? <==>
      && net.provider(addr).first.Some?
      && Count(net.attempts(addr), Succeeded) < |PageOffsets(Clamp(n, net.provider(addr).first.value.ntx))|
  {
    var outcome := FetchAddress(net, addr, n);
    if outcome.Retrying? then None else Some(AnalyzeAddress(Returned(outcome), checked, found))
  }

  /** The step `main` runs for every address. */
  function Analyzer(net: Network, n: int): Step {
    (addr, checked, found) => Visit(net, n, addr, checked, found)
  }

  /**
   * How one finished address may move the totals: `checked` by at most one,
   * `found` by at most as much, and a non-empty report exactly when `found` moves.
   */
  predicate Counted(a: Analysis, checked: int, found: int) {
    && checked <= a.checked <= checked + 1
    && 0 <= a.found - found <= a.checked - checked
    && (a.report.Some? <==> a.found == found + 1)
    && (a.report.Some? ==> |a.report.value| > 0)
  }

  /** A step that moves the totals only as `analyze_address` does. */
  ghost predicate Counts(step: Step) {
    forall addr, checked, found :: step(addr, checked, found).Some? ==> Counted(step(addr, checked, found).value, checked, found)
  }

  /** `analyze_address` moves the totals as `Counted` allows. */
  lemma AnalyzerCounts(net: Network, n: int)
    ensures Counts(Analyzer(net, n))
  {
    forall addr, checked, found | Analyzer(net, n)(addr, checked, found).Some?
      ensures Counted(Analyzer(net, n)(addr, checked, found).value, checked, found)
    {
      var outcome := FetchAddress(net, addr, n);
      var a := AnalyzeAddress(Returned(outcome), checked, found);
      assert Analyzer(net, n)(addr, checked, found).value == a;
    }
  }

  /** An address whose fetch returns transactions is counted as checked. */
  lemma FetchedIsChecked(net: Network, n: int, addr: string, checked: int, found: int)
    requires var f := FetchAddress(net, addr, n); f.Fetched? && f.txs != []
    ensures var v := Analyzer(net, n)(addr, checked, found);
      v.Some? && v.value.checked == checked + 1
  {
  }

  /** The state of a batch run: addresses finished, reports written, counters, last checkpoint. */
  datatype Run = Run(
    scanned: seq<string>,
    reports: seq<(string, seq<ReportLine>)>,
    checked: int,
    found: int,
    saved: Option<Checkpoint>,
    hung: bool)   // the fetch of the next address is still retrying

  /**
   * The loop `for addr in addresses[start_index:]`, over the stripped lines:
   * analyse each address and save the checkpoint after it.
   */
  function ScanAll(addrs: seq<string>, n: int, step: Step, checked: int, found: int, saved: Option<Checkpoint>): (run: Run)
    ensures |run.scanned| <= |addrs|
    ensures forall k :: 0 <= k < |run.scanned| ==> run.scanned[k] == addrs[k]
    ensures !run.hung <==> |run.scanned| == |addrs|
    decreases |addrs|
  {
    if |addrs| == 0 then Run([], [], checked, found, saved, false)
    else
      var addr := addrs[0];
      match step(addr, checked, found)
      case None => Run([], [], checked, found, saved, true)
      case Some(a) =>
        var rest := ScanAll(addrs[1..], n, step, a.checked, a.found, Some(Checkpoint(addr, n, a.checked, a.found)));
        var written := if a.report.Some? then [(addr, a.report.value)] else [];
        Run([addr] + rest.scanned, written + rest.reports, rest.checked, rest.found, rest.saved, rest.hung)
  }

  /**
   * Every line is scanned, stripped and in order, unless the step for some
   * address never returns; then the run stops at that address.
   */
  lemma {:induction false} ScanAllVisitsInOrder(addrs: seq<string>, n: int, step: Step, checked: int, found: int, saved: Option<Checkpoint>)
    ensures var run := ScanAll(addrs, n, step, checked, found, saved);
      && (forall k :: 0 <= k < |run.scanned| ==> run.scanned[k] == addrs[k])
      && (!run.hung <==> |run.scanned| == |addrs|)
      && (run.hung ==> step(addrs[|run.scanned|], run.checked, run.found).None?)
    decreases |addrs|
  {
    if |addrs| > 0 {
      var addr := addrs[0];
      if step(addr, checked, found).Some? {
        var a := step(addr, checked, found).value;
        ScanAllVisitsInOrder(addrs[1..], n, step, a.checked, a.found, Some(Checkpoint(addr, n, a.checked, a.found)));
      }
    }
  }

  /**
   * The totals only grow, `checked` by at most one per finished address and
   * `found` by at most as much as `checked`.
   */
  lemma {:induction false} ScanAllCounters(addrs: seq<string>, n: int, step: Step, checked: int, found: int, saved: Option<Checkpoint>)
    requires Counts(step)
    ensures var run := ScanAll(addrs, n, step, checked, found, saved);
      && checked <= run.checked <= checked + |run.scanned|
      && 0 <= run.found - found <= run.checked - checked
    decreases |addrs|
  {
    if |addrs| > 0 {
      var addr := addrs[0];
      if step(addr, checked, found).Some? {
        var a := step(addr, checked, found).value;
        assert Counted(a, checked, found);
        ScanAllCounters(addrs[1..], n, step, a.checked, a.found, Some(Checkpoint(addr, n, a.checked, a.found)));
      }
    }
  }

  /** One non-empty report is written per increment of `found`. */
  lemma {:induction false} ScanAllReports(addrs: seq<string>, n: int, step: Step, checked: int, found: int, saved: Option<Checkpoint>)
    requires Counts(step)
    ensures var run := ScanAll(addrs, n, step, checked, found, saved);
      && |run.reports| == run.found - found
      && (forall k :: 0 <= k < |run.reports| ==> |run.reports[k].1| > 0)
    decreases |addrs|
  {
    if |addrs| > 0 {
      var addr := addrs[0];
      if step(addr, checked, found).Some? {
        var a := step(addr, checked, found).value;
        assert Counted(a, checked, found);
        ScanAllReports(addrs[1..], n, step, a.checked, a.found, Some(Checkpoint(addr, n, a.checked, a.found)));
      }
    }
  }

  /**
   * The checkpoint left behind names the last finished address with the final
   * totals; when no address finished, the stored one is left as it was.
   */
  lemma {:induction false} ScanAllSavesLast(addrs: seq<string>, n: int, step: Step, checked: int, found: int, saved: Option<Checkpoint>)
    ensures var run := ScanAll(addrs, n, step, checked, found, saved);
      && (|run.scanned| == 0 ==> run.saved == saved)
      && (|run.scanned| > 0 ==> run.saved == Some(Checkpoint(run.scanned[|run.scanned| - 1], n, run.checked, run.found)))
    decreases |addrs|
  {
    if |addrs| > 0 {
      var addr := addrs[0];
      if step(addr, checked, found).Some? {
        var a := step(addr, checked, found).value;
        ScanAllSavesLast(addrs[1..], n, step, a.checked, a.found, Some(Checkpoint(addr, n, a.checked, a.found)));
      }
    }
  }

  /**
   * What `load_progress` reads back from the checkpoint a run leaves: the last
   * finished address and the totals the run ended with.
   */
  lemma ReloadAfterRun(addrs: seq<string>, n: int, step: Step, checked: int, found: int, saved: Option<Checkpoint>)
    ensures var run := ScanAll(addrs, n, step, checked, found, saved);
      |run.scanned| > 0 ==>
        LoadProgress(run.saved) == Progress(Some(run.scanned[|run.scanned| - 1]), run.checked, run.found)
  {
    ScanAllSavesLast(addrs, n, step, checked, found, saved);
  }

  /** When the first address finishes, the final `checked` is at least the one it leaves. */
  lemma FirstStepCounts(addrs: seq<string>, n: int, step: Step, checked: int, found: int, saved: Option<Checkpoint>)
    requires Counts(step)
    requires |addrs| > 0 && step(addrs[0], checked, found).Some?
    ensures var run := ScanAll(addrs, n, step, checked, found, saved);
      |run.scanned| > 0 && run.checked >= step(addrs[0], checked, found).value.checked
  {
    var a := step(addrs[0], checked, found).value;
    ScanAllCounters(addrs[1..], n, step, a.checked, a.found, Some(Checkpoint(addrs[0], n, a.checked, a.found)));
  }

  /** The outcome of `main`: the lookup of the checkpoint failed, or a run from `start`. */
  datatype Batch = Aborted | Ran(start: nat, run: Run)

  /**
   * `main` after the prompts: restore the counters, find the start index, run
   * the loop over `addresses[start_index:]` from the restored counters.
   */
  function Main(stored: Option<Checkpoint>, lines: seq<string>, n: int, net: Network): (b: Batch)
    requires n >= 1
    ensures b.Aborted? <==> stored.Some? && stored.value.address != "" && stored.value.address + "\n" !in lines
    ensures b.Ran? ==> b.start <= |lines|
  {
    var progress := LoadProgress(stored);
    match StartIndex(ResumeAddress(progress), lines)
    case LookupFailed => Aborted
    case StartAt(i) => Ran(i, ScanAll(StripAll(lines[i..]), n, Analyzer(net, n), progress.checked, progress.found, stored))
  }

  /** Without a checkpoint the run starts at the first line with both counters at 0. */
  lemma FreshStart(lines: seq<string>, n: int, net: Network)
    requires n >= 1
    ensures var b := Main(None, lines, n, net);
      && b.Ran? && b.start == 0
      && b.run == ScanAll(StripAll(lines), n, Analyzer(net, n), 0, 0, None)
  {
    assert lines[0..] == lines;
  }

  /**
   * Resuming from a checkpoint for address `a` (as saved: stripped, non-empty)
   * starts at the first line `a + "\n"`, and the first address scanned is `a`
   * itself: the checkpointed address is processed again, not skipped.
   */
  lemma ResumeRescansCheckpoint(stored: Checkpoint, lines: seq<string>, n: int, net: Network)
    requires n >= 1
    requires stored.address != "" && Stripped(stored.address)
    requires stored.address + "\n" in lines
    ensures var b := Main(Some(stored), lines, n, net);
      && b.Ran?
      && lines[b.start] == stored.address + "\n"
      && (forall j :: 0 <= j < b.start ==> lines[j] != stored.address + "\n")
      && (|b.run.scanned| > 0 ==> b.run.scanned[0] == stored.address)
      && (!b.run.hung <==> |b.run.scanned| == |lines| - b.start)
  {
    var b := Main(Some(stored), lines, n, net);
    var progress := LoadProgress(Some(stored));
    assert ResumeAddress(progress) == Some(stored.address);
    ScanAllVisitsInOrder(StripAll(lines[b.start..]), n, Analyzer(net, n), stored.checked, stored.found, Some(stored));
    StripLine(stored.address);
  }

  /**
   * When the checkpointed address's fetch returns transactions, resuming counts
   * it again: `checked` ends above the restored total. That is a second count
   * when the earlier run's fetch of the address also returned transactions.
   */
  lemma ResumeCountsCheckpointAgain(stored: Checkpoint, lines: seq<string>, n: int, net: Network)
    requires n >= 1
    requires stored.address != "" && Stripped(stored.address)
    requires stored.address + "\n" in lines
    requires var f := FetchAddress(net, stored.address, n); f.Fetched? && f.txs != []
    ensures var b := Main(Some(stored), lines, n, net);
      b.Ran? && |b.run.scanned| > 0 && b.run.checked >= stored.checked + 1
  {
    var b := Main(Some(stored), lines, n, net);
    var progress := LoadProgress(Some(stored));
    assert ResumeAddress(progress) == Some(stored.address);
    var addrs := StripAll(lines[b.start..]);
    assert addrs[0] == stored.address by { StripLine(stored.address); }
    var step := Analyzer(net, n);
    assert b.run == ScanAll(addrs, n, step, stored.checked, stored.found, Some(stored));
    FetchedIsChecked(net, n, stored.address, stored.checked, stored.found);
    AnalyzerCounts(net, n);
    FirstStepCounts(addrs, n, step, stored.checked, stored.found, Some(stored));
  }

  /** A checkpointed address whose line (with its newline) is not in the list aborts the run. */
  lemma MissingCheckpointAborts(stored: Checkpoint, lines: seq<string>, n: int, net: Network)
    requires n >= 1
    requires stored.address != ""
    requires stored.address + "\n" !in lines
    ensures Main(Some(stored), lines, n, net) == Aborted
  {
  }

  /**
   * A checkpoint whose address is the empty string is not a resume point: the
   * run starts at the first line, yet keeps the stored counters.
   */
  lemma EmptyAddressRestartsWithCounters(stored: Checkpoint, lines: seq<string>, n: int, net: Network)
    requires n >= 1
    requires stored.address == ""
    ensures var b := Main(Some(stored), lines, n, net);
      && b.Ran? && b.start == 0
      && b.run == ScanAll(StripAll(lines), n, Analyzer(net, n), stored.checked, stored.found, Some(stored))
  {
    assert lines[0..] == lines;
  }
}
