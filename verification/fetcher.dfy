/**
 * The network-free part of `fetch_transactions`: the requested count is
 * clamped to the provider's `n_tx`, pages are requested at offsets
 * `0, 100, …` below the clamped count, and each page is retried until one
 * attempt succeeds, whose transactions are appended exactly once.
 *
 * The remote provider is a parameter (`Provider`), and the outcome of every
 * attempt of the retry loop is read from a finite trace: when the trace runs out
 * before the last page arrives, the source would still be retrying, which is
 * reported as `Retrying` rather than as a result.
 */
module Fetcher {
  import opened Base
  import opened Records

  /** The step between the offsets at which pages are requested. */
  const PageSize := 100

  /** The count actually fetched: the request, lowered to `n_tx` when it asks for more. */
  function Clamp(requested: int, ntx: int): (count: int)
    ensures count <= requested && count <= ntx
    ensures count == requested || count == ntx
  {
    if requested > ntx then ntx else requested
  }

  /** Python's `range(start, stop, 100)`. */
  function Range(start: int, stop: int): (offsets: seq<int>)
    ensures forall k :: 0 <= k < |offsets| ==> offsets[k] == start + PageSize * k
    ensures forall k :: 0 <= k < |offsets| ==> offsets[k] < stop
    ensures start < stop ==> stop <= start + PageSize * |offsets|
    decreases stop - start
  {
    if start >= stop then [] else [start] + Range(start + PageSize, stop)
  }

  /** The page offsets requested for `count` transactions: `range(0, count, 100)`. */
  function PageOffsets(count: int): (offsets: seq<int>)
    ensures forall k :: 0 <= k < |offsets| ==> offsets[k] == PageSize * k && offsets[k] < count
    ensures count > 0 ==> count <= PageSize * |offsets|
  {
    Range(0, count)
  }

  /**
   * The offsets are exactly the multiples of 100 strictly below `count`, in
   * increasing order; there are `ceil(count / 100)` of them (none when `count <= 0`).
   */
  lemma PageOffsetsExact(count: int)
    ensures forall o :: o in PageOffsets(count) <==> 0 <= o < count && o % PageSize == 0
    ensures StrictlyIncreasing(PageOffsets(count))
    ensures |PageOffsets(count)| == if count <= 0 then 0 else (count + PageSize - 1) / PageSize
  {
    var offsets := PageOffsets(count);
    forall o | 0 <= o < count && o % PageSize == 0
      ensures o in offsets
    {
      var k := o / PageSize;
      assert o == PageSize * k;
      assert k < |offsets|;
      assert offsets[k] == o;
    }
    forall o | o in offsets
      ensures 0 <= o < count && o % PageSize == 0
    {
      var k :| 0 <= k < |offsets| && offsets[k] == o;
      assert o == PageSize * k;
    }
    if count > 0 {
      var m := |offsets|;
      assert count <= PageSize * m;
      assert offsets[m - 1] == PageSize * (m - 1) < count;
      assert PageSize * m <= count + PageSize - 1 < PageSize * (m + 1);
    }
  }

  /** Requesting 250 transactions of an address with 120 fetches two pages, at 0 and 100. */
  lemma ClampedToTwoPages()
    ensures PageOffsets(Clamp(250, 120)) == [0, 100]
  {
    assert Clamp(250, 120) == 120;
    assert Range(200, 120) == [];
    assert Range(100, 120) == [100];
  }

  /** An address with no transactions fetches no page at all. */
  lemma NoTransactionsNoPages(requested: int)
    ensures PageOffsets(Clamp(requested, 0)) == []
  {
  }

  /** The transactions of one page per offset, concatenated in offset order. */
  function Pages(page: int -> seq<Tx>, offsets: seq<int>): seq<Tx> {
    if |offsets| == 0 then [] else page(offsets[0]) + Pages(page, offsets[1..])
  }

  /** The outcome of the paging loop. */
  datatype Paging =
    | Done(txs: seq<Tx>, used: nat)     // every page arrived after `used` attempts
    | Stalled(partial: seq<Tx>)         // the attempts ran out: the source keeps retrying

  /**
   * `for offset in …: while True: try … extend … break except: sleep`: the
   * attempts in `trace` are consumed in order; a failed attempt appends nothing
   * and retries the same offset, a successful one appends that page and moves on.
   */
  function FetchPages(page: int -> seq<Tx>, offsets: seq<int>, trace: seq<Attempt>): (r: Paging)
    ensures r.Done? <==> Count(trace, Succeeded) >= |offsets|
    ensures r.Done? ==> r.txs == Pages(page, offsets) && r.used <= |trace|
    ensures r.Stalled? ==> r.partial == Pages(page, offsets[..Count(trace, Succeeded)])
    decreases |trace|
  {
    if |offsets| == 0 then Done([], 0)
    else if |trace| == 0 then Stalled([])
    else if trace[0] == Failed then
      match FetchPages(page, offsets, trace[1..])
      case Done(txs, used) => Done(txs, used + 1)
      case Stalled(partial) => Stalled(partial)
    else
      match FetchPages(page, offsets[1..], trace[1..])
      case Done(txs, used) => Done(page(offsets[0]) + txs, used + 1)
      case Stalled(partial) =>
        var n := Count(trace[1..], Succeeded);
        assert offsets[..n + 1][1..] == offsets[1..][..n];
        Stalled(page(offsets[0]) + partial)
  }

  /**
   * A run of failed attempts before the first success changes nothing but the
   * number of attempts used: two failures at some offset followed by a success
   * still append that page once.
   */
  lemma {:induction false} FailuresAppendNothing(page: int -> seq<Tx>, offsets: seq<int>, failures: nat, trace: seq<Attempt>)
    requires |offsets| > 0
    ensures var r := FetchPages(page, offsets, seq(failures, _ => Failed) + trace);
      var s := FetchPages(page, offsets, trace);
      && r.Done? == s.Done?
      && (r.Done? ==> r.txs == s.txs && r.used == s.used + failures)
      && (r.Stalled? ==> r.partial == s.partial)
    decreases failures
  {
    if failures > 0 {
      var longer := seq(failures, _ => Failed) + trace;
      var shorter := seq(failures - 1, _ => Failed) + trace;
      assert longer[0] == Failed && longer[1..] == shorter;
      FailuresAppendNothing(page, offsets, failures - 1, trace);
    } else {
      assert seq(failures, _ => Failed) + trace == trace;
    }
  }

  /**
   * Two pages where the request at offset 100 fails twice and then succeeds:
   * both pages arrive once each, after four attempts.
   */
  lemma RetriedPageAppendedOnce(page: int -> seq<Tx>)
    ensures FetchPages(page, [0, 100], [Succeeded, Failed, Failed, Succeeded]) == Done(page(0) + page(100), 4)
  {
    var trace := [Succeeded, Failed, Failed, Succeeded];
    assert trace[1..] == seq(2, _ => Failed) + [Succeeded];
    FailuresAppendNothing(page, [100], 2, [Succeeded]);
    assert [0, 100][1..] == [100];
    assert [100][1..] == [];
    assert FetchPages(page, [100], [Succeeded]) == Done(page(100), 1);
  }

  /** The outcome of `fetch_transactions` on a fresh (uncached) address. */
  datatype FetchOutcome =
    | Unavailable            // the initial request failed: the function returns None
    | Fetched(txs: seq<Tx>)  // the function returns this list
    | Retrying               // a page request is still being retried

  /** What the function returns, when it returns. */
  function Returned(f: FetchOutcome): Option<seq<Tx>>
    requires !f.Retrying?
  {
    if f.Fetched? then Some(f.txs) else None
  }

  /**
   * `fetch_transactions` without a cache: the initial offset-0 response gives
   * `n_tx`; the clamped count decides the offsets; the paging loop fetches them.
   */
  function FetchFresh(p: Provider, requested: int, trace: seq<Attempt>): (f: FetchOutcome)
    ensures p.first.None? <==> f.Unavailable?
    ensures p.first.Some? ==>
      var offsets := PageOffsets(Clamp(requested, p.first.value.ntx));
      && (f.Fetched? <==> Count(trace, Succeeded) >= |offsets|)
      && (f.Fetched? ==> f.txs == Pages(p.page, offsets))
  {
    match p.first
    case None => Unavailable
    case Some(data) =>
      match FetchPages(p.page, PageOffsets(Clamp(requested, data.ntx)), trace)
      case Done(txs, _) => Fetched(txs)
      case Stalled(_) => Retrying
  }

  /**
   * Everything the network does during a batch run: the provider seen for each
   * address and the outcomes of the page-request attempts made for it.
   */
  datatype Network = Network(provider: string -> Provider, attempts: string -> seq<Attempt>)

  /** `fetch_transactions(addr, requested)` without a cache, against `net`. */
  function FetchAddress(net: Network, addr: string, requested: int): FetchOutcome {
    FetchFresh(net.provider(addr), requested, net.attempts(addr))
  }
}
