/**
 * The analysis loop of `analyze_address`, shared by both scanners: run the
 * detector on every transaction, note whether any reuse was found, and collect
 * the report lines, one header per offending transaction followed by one line
 * per reused R-value. Lines are kept as values; their text is not rendered.
 */
module Report {
  import opened Records
  import opened Detector

  /** One line of the per-address report file. */
  datatype ReportLine =
    | TxHeader(hash: string)                    // "Transaction <hash> has reused R-values:"
    | RLine(r: string, positions: seq<nat>)     // "  R-value: <r> reused at positions: <positions>"

  /** What the detector says about one transaction: its hash and its reused R-values. */
  datatype Verdict = Verdict(hash: string, reused: seq<Group>)

  /** `check_r_reuse_in_tx(tx)`, kept next to the transaction's hash. */
  function Detect(tx: Tx): Verdict {
    Verdict(tx.hash, CheckRReuse(tx))
  }

  /** The verdicts of a list of transactions, in order. */
  function DetectAll(txs: seq<Tx>): (vs: seq<Verdict>)
    ensures |vs| == |txs|
    ensures forall i :: 0 <= i < |txs| ==> vs[i] == Detect(txs[i])
  {
    seq(|txs|, i requires 0 <= i < |txs| => Detect(txs[i]))
  }

  /** Whether the detector reports anything for this transaction (`if reused_r:`). */
  predicate HasReuse(tx: Tx) {
    |CheckRReuse(tx)| > 0
  }

  /** One line per reused R-value, in order. */
  function RLines(groups: seq<Group>): (lines: seq<ReportLine>)
    ensures |lines| == |groups|
    ensures forall k :: 0 <= k < |groups| ==> lines[k] == RLine(groups[k].r, groups[k].positions)
  {
    if |groups| == 0 then [] else [RLine(groups[0].r, groups[0].positions)] + RLines(groups[1..])
  }

  /** The lines one verdict adds: none, or a header and one line per reused R-value. */
  function Block(v: Verdict): seq<ReportLine> {
    if |v.reused| == 0 then [] else [TxHeader(v.hash)] + RLines(v.reused)
  }

  /** The state of the loop after some transactions: `reused_found` and `results`. */
  datatype Findings = Findings(found: bool, lines: seq<ReportLine>)

  /** The loop body applied to every verdict in turn. */
  function Collect(vs: seq<Verdict>): Findings {
    if |vs| == 0 then Findings(false, [])
    else
      var rest := Collect(vs[1..]);
      Findings(|vs[0].reused| > 0 || rest.found, Block(vs[0]) + rest.lines)
  }

  /**
   * `reused_found` is set exactly when some line was produced, and then the
   * first line is a transaction header.
   */
  lemma {:induction false} CollectShape(vs: seq<Verdict>)
    ensures Collect(vs).found <==> |Collect(vs).lines| > 0
    ensures |Collect(vs).lines| > 0 ==> Collect(vs).lines[0].TxHeader?
  {
    if |vs| > 0 {
      CollectShape(vs[1..]);
    }
  }

  /**
   * `for tx in transactions: reused_r = check_r_reuse_in_tx(tx) …`: `reused_found`
   * is set exactly when some line was produced, and then the first line is a
   * transaction header.
   */
  function Scan(txs: seq<Tx>): (f: Findings)
    ensures f.found <==> |f.lines| > 0
    ensures |f.lines| > 0 ==> f.lines[0].TxHeader?
  {
    CollectShape(DetectAll(txs));
    Collect(DetectAll(txs))
  }

  /** Reuse is found for a list of transactions iff the detector reports something for one of them. */
  lemma ScanFindsReuse(txs: seq<Tx>)
    ensures Scan(txs).found <==> exists i :: 0 <= i < |txs| && HasReuse(txs[i])
  {
    CollectFindsReuse(DetectAll(txs));
  }

  lemma {:induction false} CollectFindsReuse(vs: seq<Verdict>)
    ensures Collect(vs).found <==> exists i :: 0 <= i < |vs| && |vs[i].reused| > 0
  {
    if |vs| > 0 {
      CollectFindsReuse(vs[1..]);
      if Collect(vs[1..]).found {
        var i :| 0 <= i < |vs[1..]| && |vs[1..][i].reused| > 0;
        assert vs[i + 1] == vs[1..][i];
      }
      if exists i :: 1 <= i < |vs| && |vs[i].reused| > 0 {
        var i :| 1 <= i < |vs| && |vs[i].reused| > 0;
        assert vs[1..][i - 1] == vs[i];
      }
    }
  }

  /** Every reported R-value line names at least two positions. */
  ghost predicate WellFormed(lines: seq<ReportLine>) {
    forall k :: 0 <= k < |lines| && lines[k].RLine? ==> |lines[k].positions| >= 2
  }

  /** Every R-value line in an address's report lists at least two positions. */
  lemma ScanWellFormed(txs: seq<Tx>)
    ensures WellFormed(Scan(txs).lines)
  {
    var vs := DetectAll(txs);
    forall i | 0 <= i < |vs|
      ensures forall k :: 0 <= k < |vs[i].reused| ==> |vs[i].reused[k].positions| >= 2
    {
      DetectorSpec(txs[i]);
    }
    CollectWellFormed(vs);
  }

  lemma {:induction false} CollectWellFormed(vs: seq<Verdict>)
    requires forall i, k :: 0 <= i < |vs| && 0 <= k < |vs[i].reused| ==> |vs[i].reused[k].positions| >= 2
    ensures WellFormed(Collect(vs).lines)
  {
    if |vs| > 0 {
      assert forall i :: 0 <= i < |vs| - 1 ==> vs[1..][i] == vs[i + 1];
      CollectWellFormed(vs[1..]);
      var head := Block(vs[0]);
      assert WellFormed(head);
    }
  }

  /**
   * The report of a list of transactions is the report of its first part
   * followed by the report of the rest: one block per transaction, in order.
   */
  lemma {:induction false} CollectConcat(a: seq<Verdict>, b: seq<Verdict>)
    ensures Collect(a + b).lines == Collect(a).lines + Collect(b).lines
  {
    if |a| > 0 {
      assert (a + b)[0] == a[0] && (a + b)[1..] == a[1..] + b;
      CollectConcat(a[1..], b);
    } else {
      assert a + b == b;
    }
  }

  lemma {:induction false} CollectConcatFound(a: seq<Verdict>, b: seq<Verdict>)
    ensures Collect(a + b).found == (Collect(a).found || Collect(b).found)
  {
    if |a| > 0 {
      assert (a + b)[0] == a[0] && (a + b)[1..] == a[1..] + b;
      CollectConcatFound(a[1..], b);
    } else {
      assert a + b == b;
    }
  }

  lemma DetectAllConcat(a: seq<Tx>, b: seq<Tx>)
    ensures DetectAll(a + b) == DetectAll(a) + DetectAll(b)
  {
    var l := DetectAll(a + b);
    var r := DetectAll(a) + DetectAll(b);
    forall i | 0 <= i < |l|
      ensures l[i] == r[i]
    {
      if i < |a| {
        assert (a + b)[i] == a[i];
      } else {
        assert (a + b)[i] == b[i - |a|];
      }
    }
  }

  /** The report of `a + b` is the report of `a` followed by that of `b`. */
  lemma ScanConcat(a: seq<Tx>, b: seq<Tx>)
    ensures Scan(a + b).lines == Scan(a).lines + Scan(b).lines
    ensures Scan(a + b).found == (Scan(a).found || Scan(b).found)
  {
    DetectAllConcat(a, b);
    CollectConcat(DetectAll(a), DetectAll(b));
    CollectConcatFound(DetectAll(a), DetectAll(b));
  }

  /**
   * A transaction's block is its header followed by one line per reused
   * R-value, in first-seen order; a transaction without reuse adds nothing.
   */
  lemma TxBlock(tx: Tx)
    ensures !HasReuse(tx) ==> Scan([tx]).lines == []
    ensures HasReuse(tx) ==>
      && |Scan([tx]).lines| == 1 + |CheckRReuse(tx)|
      && Scan([tx]).lines[0] == TxHeader(tx.hash)
      && (forall k :: 0 <= k < |CheckRReuse(tx)| ==>
            Scan([tx]).lines[k + 1] == RLine(CheckRReuse(tx)[k].r, CheckRReuse(tx)[k].positions))
  {
    var vs := DetectAll([tx]);
    assert vs == [Detect(tx)];
    assert vs[1..] == [];
    assert Collect(vs) == Findings(|vs[0].reused| > 0 || Collect([]).found, Block(vs[0]) + Collect([]).lines);
    assert Scan([tx]).lines == Block(Detect(tx));
  }
}
