# R-value reuse scanner, modelled in Dafny

The repository holds two batch scanners, `no-js.py` and `addrsz.py`. Each takes
a file of Bitcoin addresses and downloads each address's transactions from a
block explorer, up to a requested number, with requests at offsets 0, 100, 200
and so on. In each transaction it looks for
ECDSA signatures that share an R value, which means a reused nonce. An address
with such a transaction gets a report file. After every address the scanner
saves a checkpoint, and a later run resumes from it.

The two scripts share the detector and the paging loop:

- `no-js.py` keeps running counters: addresses checked and vulnerable addresses found.
- `addrsz.py` has no counters. It keeps a per-address cache of the first response.

The model is split into these modules:

- `Records`: the transaction records the explorer returns. Entries have an
  optional `script`. A transaction has optional `inputs` and `out` lists. A
  `Provider` stands for the explorer's answers for one address: the offset-0
  response, if the request succeeded, and a function from offset to page.
- `Detector`: `check_r_reuse_in_tx`.
  - The scripts of the inputs, then of the outputs.
  - The `[10:74]` slice of every script longer than 74 characters.
  - The insertion-ordered `duplicates` dictionary. It is modelled as an
    association list `seq<Group>` in first-seen order.
  - The comprehension that keeps only keys with more than one position.
- `Fetcher`: `fetch_transactions` without a cache.
  - The clamp of the requested count to `n_tx`.
  - The `range(0, count, 100)` offsets.
  - The retry loop. An address's page requests draw their outcomes, in order,
    from one finite trace of `Succeeded`/`Failed` attempts. The initial offset-0
    request is `Provider.first`. When the trace runs out before every page
    arrives, the fetch is `Retrying`, which stands for the endless retry.
- `Report`: the loop of `analyze_address` that builds `results` and `reused_found`.
  Report lines stay structured (`TxHeader`, `RLine`) rather than formatted text.
- `Resume`: `list.index`, `str.strip` and the start index in `main`.
- `NoJs` and `Addrsz`: the two scripts' own parts: `load_progress`,
  `analyze_address`, the cache, the address loop with its checkpoints, and `main`.
  The address loop takes the work done for one address as a `Step` parameter.
  `Analyzer(net, n)` is the step `main` passes: fetch the address, then analyse it.
  The lines are stripped before the loop, which is the same as stripping each one
  inside it, because `str.strip` is pure.

`addrsz.py:68-87` and `addrsz.py:22-65` repeat `no-js.py:58-77` and
`no-js.py:23-56` line for line, except for the cache. The shared members cite
the `no-js.py` lines.

Two behaviours of the code are worth stating up front.

- On resume, the scripts start at the checkpointed line itself (`no-js.py:128`,
  `no-js.py:145`), so that address is scanned again. In `no-js.py`, when its
  fetch returns a non-empty list, `checked` goes up above the restored total
  (`no-js.py:98`). That is a second count when the earlier run's fetch of the
  address also returned transactions.
- Positions index the list of eligible R values (`no-js.py:64-67`), not the
  list of scripts.

## Model

| member | source | states |
|---|---|---|
| Detector.ScriptsOfConcat | no-js.py:59-61 | Taking the scripts of a concatenation gives the concatenation of the scripts taken from each part, so all scripts are the inputs' scripts followed by the outputs' scripts |
| Detector.ScriptsOfSnoc | no-js.py:59-60 | An entry with a `script` appends that script to the earlier entries' scripts. An entry without one appends nothing |
| Detector.RValuesConcat | no-js.py:64 | The R values of concatenated script lists are the concatenation of each list's R values |
| Detector.RValuesSnoc | no-js.py:64 | Appending a script longer than 74 characters appends exactly its characters 10 to 73. A shorter script appends nothing |
| Detector.AccumulateGrouped | no-js.py:66-71 | After the grouping loop: every R value is a key, and keys are pairwise distinct. Each key's position list is exactly the ascending list of indices where it occurs. Keys are in order of first occurrence |
| Detector.ReusedMembers | no-js.py:73 | The filtered dictionary holds exactly the entries with more than one position |
| Detector.ReusedKeepsOrder | no-js.py:73 | Filtering keeps the keys distinct and keeps first-seen order |
| Detector.ReusedComplete | no-js.py:66-73 | Every R value that occurs at two indices is a key of the result |
| Detector.ReusedIndexLists | no-js.py:73 | Each kept key's positions are still exactly its occurrences |
| Detector.CheckRReuse | no-js.py:58-74 | No more groups than eligible R values, and every group has at least two positions. Detector.DetectorSpec gives the full result |
| Detector.DetectorSpec | no-js.py:58-74 | For any transaction, each reported group has at least two positions. Those positions are exactly the indices of its R value among the eligible scripts. Each R value is 64 characters long. Every R value occurring twice is reported. Keys are distinct and in first-seen order |
| Detector.PositionsDisjoint | no-js.py:66-73 | No position appears in two reported groups |
| Detector.OneSharedRValue | no-js.py:58-74 | Inputs `a, b` and output `a`, all longer than 74 characters with different R values, give exactly one group: `a`'s R value at positions `[0, 2]` |
| Fetcher.Clamp | no-js.py:35-36 | The count is at most both the requested number and `n_tx`, and equals one of them |
| Fetcher.PageOffsets | no-js.py:38 | The k-th offset is 100k and below the count, and the offsets reach the count |
| Fetcher.Range | no-js.py:38 | `range(start, stop, 100)`: the k-th offset is `start + 100k`. Every offset is below `stop`, and the offsets reach `stop` |
| Fetcher.PageOffsetsExact | no-js.py:35-38 | An offset is fetched if and only if it is a multiple of 100 in `[0, count)`. The offsets strictly increase, and there are `ceil(count/100)` of them |
| Fetcher.ClampedToTwoPages | no-js.py:35-38 | Requesting 250 transactions of an address with 120 fetches offsets 0 and 100 |
| Fetcher.NoTransactionsNoPages | no-js.py:35-38 | An address with no transactions fetches no page, whatever was requested |
| Fetcher.FetchPages | no-js.py:38-50 | The page loop finishes if and only if the attempts contain a success per page. Then it returns the pages in offset order, each exactly once. Otherwise it has collected exactly the pages that succeeded so far |
| Fetcher.FailuresAppendNothing | no-js.py:39-50 | Failed attempts before the next success change nothing: the result is as if they were absent |
| Fetcher.RetriedPageAppendedOnce | no-js.py:38-50 | Two pages with attempts success, failure, failure, success give page 0 then page 100, each once, after four attempts |
| Fetcher.FetchFresh | no-js.py:23-56 | `None` exactly when the offset-0 request fails. Otherwise the fetch returns exactly when every clamped page succeeded, and what it returns is the concatenated pages |
| Report.Scan | no-js.py:87-96 | Reuse is flagged exactly when the result lines are non-empty, and the first line is then a transaction header |
| Report.ScanFindsReuse | no-js.py:87-93 | Reuse is flagged if and only if some transaction of the list has a reused R value |
| Report.ScanWellFormed | no-js.py:94-96 | Every R-value line of a report lists at least two positions |
| Report.ScanConcat | no-js.py:90-96 | Scanning two lists one after the other gives the concatenated lines and the disjunction of the two flags |
| Report.TxBlock | no-js.py:91-96 | A transaction without reuse contributes nothing. One with reuse contributes its header, then one line per reused R value, in the detector's order |
| Resume.IndexOf | no-js.py:128 | `list.index`: the first index holding the value. Nothing if and only if the value is absent |
| Resume.Strip | no-js.py:146 | The result has no leading or trailing whitespace |
| Resume.StripSlice | no-js.py:146 | The result is a slice of the input, and only whitespace was cut off at either end |
| Resume.StripLine | no-js.py:145-146 | Stripping a saved address plus its newline gives back the address |
| Resume.StartIndex | no-js.py:127-130 | Start at 0 without a checkpoint. Otherwise start at the first line equal to the address plus `"\n"`, and fail if there is no such line |
| Resume.LastLineWithoutNewline | no-js.py:125-128 | A checkpointed address that is the file's last line, without a newline, is not found |
| NoJs.AnalyzeAddress | no-js.py:79-111 | A `None` or empty fetch changes nothing. Otherwise `checked` goes up by one. `found` goes up by one, and a non-empty report is written, exactly when the scan finds reuse |
| NoJs.Visit | no-js.py:23-56 | The work for one address never finishes exactly when its offset-0 request succeeds and its attempts hold fewer successes than there are pages to fetch for the clamped count |
| NoJs.AnalyzerCounts | no-js.py:79-111 | For every address and every pair of totals, one finished address moves `checked` by at most one. `found` moves by at most as much, and a non-empty report is written exactly when `found` moves |
| NoJs.FetchedIsChecked | no-js.py:79-98 | An address whose fetch returns a non-empty list raises `checked` by one |
| NoJs.ScanAll | no-js.py:145-151 | The processed addresses are a prefix of the stripped lines, in order, and all are processed unless some address hangs. Counters, reports and checkpoints are stated by the NoJs.ScanAll* lemmas below |
| NoJs.ScanAllVisitsInOrder | no-js.py:145-148 | Addresses are processed in order. All are processed unless some address's step never returns, and then the run stops at that address |
| NoJs.ScanAllCounters | no-js.py:142-148 | `checked` grows by at most one per address. `found` never grows more than `checked` |
| NoJs.ScanAllReports | no-js.py:99-103 | One non-empty report is written per increment of `found` |
| NoJs.ScanAllSavesLast | no-js.py:148-149 | The checkpoint holds the last processed address with the counters after it |
| NoJs.ReloadAfterRun | no-js.py:8-21 | After a run that finished some address, `load_progress` reads back the last finished address and the totals the run ended with |
| NoJs.Main | no-js.py:113-151 | The run aborts exactly when a non-empty stored address has no matching line. Otherwise it starts within the file. The lemmas below state where it starts and what it does |
| NoJs.FreshStart | no-js.py:127-143 | Without a progress file the run starts at line 0 with both counters 0 |
| NoJs.ResumeRescansCheckpoint | no-js.py:127-148 | With a checkpoint, the run starts at the first line equal to the checkpointed address plus a newline. That address is processed first, again |
| NoJs.ResumeCountsCheckpointAgain | no-js.py:142-148 | When the checkpointed address's fetch returns transactions, `checked` ends above the restored value. The address is counted again, which is a second count when the earlier run's fetch of it also returned transactions |
| NoJs.MissingCheckpointAborts | no-js.py:127-128 | A checkpointed address with no matching line aborts the run |
| NoJs.EmptyAddressRestartsWithCounters | no-js.py:127-143 | An empty checkpointed address is falsy: the run restarts at line 0 but keeps the stored counters |
| Addrsz.FetchCached | addrsz.py:22-65 | A cached address returns the cached `txs` without a request. Otherwise the fetch is the uncached one. The offset-0 response is cached only when every page was fetched |
| Addrsz.SecondFetchHitsCache | addrsz.py:22-59 | After a completed fetch, any later fetch of the address returns the first response's transactions, whatever the count or network |
| Addrsz.CacheHitCanReturnFewer | addrsz.py:22-59 | An address of 150 transactions yields both pages when first fetched, but only the first page once cached |
| Addrsz.AnalyzeAddress | addrsz.py:90-113 | A report is written exactly when the fetch returned a non-empty list with reuse. It holds that list's lines |
| Addrsz.Visit | addrsz.py:22-56 | The work for one address never finishes exactly when the address is not cached, its offset-0 request succeeds, and its attempts hold fewer successes than there are pages to fetch for the clamped count. A cached address never waits |
| Addrsz.AnalyzerSound | addrsz.py:22-65 | Fetching through the cache never changes an existing entry, and a written report is never empty |
| Addrsz.ScanAll | addrsz.py:147-153 | The processed addresses are a prefix of the stripped lines, in order, and all are processed unless some address hangs. The cache and reports are stated by the Addrsz.ScanAll* lemmas below |
| Addrsz.ScanAllVisitsInOrder | addrsz.py:147-151 | Addresses are processed in order. All are processed unless some address's step never returns. The checkpoint names the last processed address |
| Addrsz.ScanAllKeepsCache | addrsz.py:22-59 | Cache entries are never changed or removed during a run |
| Addrsz.ScanAllReports | addrsz.py:109-112 | Every report belongs to a processed address and has at least one line |
| Addrsz.Main | addrsz.py:118-153 | The run aborts exactly when there is a stored checkpoint whose address has no matching line. Otherwise it starts within the file |
| Addrsz.FreshStart | addrsz.py:132-135 | Without a progress file the run starts at line 0 |
| Addrsz.ResumeRescansCheckpoint | addrsz.py:132-148 | A run resumes at the first line equal to the checkpointed address plus a newline. It aborts when there is none. The checkpointed address is processed again first |
| Addrsz.EmptyCheckpointSeeksBlankLine | addrsz.py:123-133 | Any stored checkpoint is used. An empty address makes the run start at the first blank line, and abort without one |

## Left out

- HTTP, JSON decoding and gzip are not modelled. The explorer is a `Provider` per address, and each request's success or failure is an attempt trace.
- The 5-second sleeps, all printing and the `input()` prompts are not modelled. The validated transaction count is a parameter `n >= 1`.
- Reading and writing the progress, cache and report files is not modelled. Files are values passed in and returned.
- Report lines are not rendered to text. They are kept as `TxHeader`/`RLine` values.
- The `except` branch of `check_r_reuse_in_tx` is not modelled. On well-typed records, slicing and grouping cannot raise.
- Errors other than request failures are not modelled. Examples are a response without `n_tx` or `txs`, or a progress file missing a key. They propagate out of the scripts.
- Fetcher.FetchPages: the source retries forever. The model gives each address one finite trace of attempts, used up in order across all of that address's pages, and reports `Stalled` when the trace runs out.
- Fetcher.Network: the provider and the attempt trace are functions of the address. An address listed twice in one run gets the same answers and the same trace both times, where the scripts send fresh requests.
- NoJs.ScanAllCounters: bounds `checked` instead of stating exactly when it grows. The exact rule is stated once per address by NoJs.AnalyzeAddress.
- Resume.Strip: the whitespace set is the Python `str.isspace` code points as a fixed list, with no other Unicode handling.
- `key_to_address.py` is not part of this model.
