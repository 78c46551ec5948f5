/**
 * The R-value reuse detector of `check_r_reuse_in_tx`: collect the scripts of a
 * transaction, slice a candidate R-value out of every long-enough script, and
 * group equal R-values by their positions in the list of R-values.
 */
module Detector {
  import opened Base
  import opened Records

  /** A script contributes an R-value only when it is longer than this. */
  const MinScriptLength := 74
  /** The R-value is the script's characters `[RStart, REnd)`. */
  const RStart := 10
  const REnd := 74

  /** The `script` of every entry that has one, in order. */
  function ScriptsOf(entries: seq<Entry>): (scripts: seq<string>)
    ensures |scripts| <= |entries|
  {
    if |entries| == 0 then []
    else
      (match entries[0].script
       case Some(s) => [s]
       case None => [])
      + ScriptsOf(entries[1..])
  }

  /** The inputs' scripts followed by the outputs' scripts; a missing list counts as empty. */
  function AllScripts(tx: Tx): seq<string> {
    ScriptsOf(tx.inputs.GetOr([])) + ScriptsOf(tx.outputs.GetOr([]))
  }

  /** Collecting scripts distributes over concatenation of entry lists, so order is kept. */
  lemma {:induction false} ScriptsOfConcat(a: seq<Entry>, b: seq<Entry>)
    ensures ScriptsOf(a + b) == ScriptsOf(a) + ScriptsOf(b)
  {
    if |a| > 0 {
      assert (a + b)[1..] == a[1..] + b;
      ScriptsOfConcat(a[1..], b);
    } else {
      assert a + b == b;
    }
  }

  /** An entry with a `script` adds it after the earlier entries' scripts; one without adds nothing. */
  lemma ScriptsOfSnoc(entries: seq<Entry>, e: Entry)
    ensures ScriptsOf(entries + [e]) == ScriptsOf(entries) + (if e.script.Some? then [e.script.value] else [])
  {
    ScriptsOfConcat(entries, [e]);
    assert ScriptsOf([e]) == (if e.script.Some? then [e.script.value] else []) by {
      assert [e][1..] == [];
    }
  }

  /** Whether a script is long enough to carry an R-value. */
  predicate Eligible(script: string) {
    |script| > MinScriptLength
  }

  /** The R-value slices of the eligible scripts, in order. */
  function RValues(scripts: seq<string>): (rs: seq<string>)
    ensures |rs| <= |scripts|
    ensures forall k :: 0 <= k < |rs| ==> |rs[k]| == REnd - RStart
  {
    if |scripts| == 0 then []
    else
      (if Eligible(scripts[0]) then [scripts[0][RStart..REnd]] else [])
      + RValues(scripts[1..])
  }

  lemma {:induction false} RValuesConcat(a: seq<string>, b: seq<string>)
    ensures RValues(a + b) == RValues(a) + RValues(b)
  {
    if |a| > 0 {
      assert (a + b)[1..] == a[1..] + b;
      RValuesConcat(a[1..], b);
    } else {
      assert a + b == b;
    }
  }

  /**
   * Appending one more script appends its R-value exactly when it is longer
   * than 74 characters, and that R-value is its characters `[10, 74)`.
   */
  lemma RValuesSnoc(scripts: seq<string>, s: string)
    ensures |s| > MinScriptLength ==> RValues(scripts + [s]) == RValues(scripts) + [s[RStart..REnd]]
    ensures |s| <= MinScriptLength ==> RValues(scripts + [s]) == RValues(scripts)
  {
    RValuesConcat(scripts, [s]);
    assert RValues([s]) == (if Eligible(s) then [s[RStart..REnd]] else []) + RValues([]);
  }

  /** One entry of the duplicates dictionary: an R-value and the positions it occurs at. */
  datatype Group = Group(r: string, positions: seq<nat>)

  /** The keys of an association list, in order. */
  function Keys(groups: seq<Group>): (keys: seq<string>)
    ensures |keys| == |groups|
    ensures forall k :: 0 <= k < |groups| ==> keys[k] == groups[k].r
  {
    seq(|groups|, k requires 0 <= k < |groups| => groups[k].r)
  }

  /** The index of the entry whose key is `r`, if any (the dictionary lookup `r in duplicates`). */
  function FindKey(groups: seq<Group>, r: string): (k: Option<nat>)
    ensures k.Some? ==> k.value < |groups| && groups[k.value].r == r
    ensures k.None? ==> r !in Keys(groups)
  {
    if |groups| == 0 then None
    else if groups[0].r == r then Some(0)
    else
      match FindKey(groups[1..], r)
      case Some(k) => Some(k + 1)
      case None =>
        assert Keys(groups) == [groups[0].r] + Keys(groups[1..]);
        None
  }

  /**
   * One step of the grouping loop: append position `idx` to the entry of `r`,
   * or add a new entry `r: [idx]` at the end when `r` is not yet a key.
   */
  function Insert(groups: seq<Group>, r: string, idx: nat): seq<Group> {
    match FindKey(groups, r)
    case Some(k) => groups[k := Group(r, groups[k].positions + [idx])]
    case None => groups + [Group(r, [idx])]
  }

  /** `positions` lists, in increasing order, exactly the indices of `rs` holding `r`. */
  ghost predicate IndexList(rs: seq<string>, r: string, positions: seq<nat>) {
    && StrictlyIncreasing(positions)
    && (forall j :: 0 <= j < |positions| ==> positions[j] < |rs| && rs[positions[j]] == r)
    && (forall i :: 0 <= i < |rs| && rs[i] == r ==> i in positions)
  }

  /**
   * `groups` is the duplicates dictionary of `rs`: one entry per distinct value,
   * each holding exactly that value's indices, entries in first-seen order.
   */
  ghost predicate Grouped(rs: seq<string>, groups: seq<Group>) {
    && Ordered(groups)
    && (forall k :: 0 <= k < |groups| ==> IndexList(rs, groups[k].r, groups[k].positions))
    && (forall i :: 0 <= i < |rs| ==> rs[i] in Keys(groups))
  }

  /** Entries are ordered by the first position of their value. */
  ghost predicate FirstSeenOrder(groups: seq<Group>) {
    && (forall k :: 0 <= k < |groups| ==> |groups[k].positions| > 0)
    && (forall k, l :: 0 <= k < l < |groups| ==> groups[k].positions[0] < groups[l].positions[0])
  }

  /** The keys of `groups` extended by an entry for a new key `r`. */
  lemma KeysAppend(groups: seq<Group>, g: Group)
    ensures Keys(groups + [g]) == Keys(groups) + [g.r]
  {
  }

  /** Appending an occurrence of `r` extends its index list by the new index. */
  lemma IndexListGrow(rs: seq<string>, r: string, positions: seq<nat>)
    requires IndexList(rs, r, positions)
    ensures IndexList(rs + [r], r, positions + [|rs|])
  {
    var rs', ps' := rs + [r], positions + [|rs|];
    forall i | 0 <= i < |rs'| && rs'[i] == r
      ensures i in ps'
    {
      if i < |rs| {
        assert rs[i] == r;
        assert i in positions;
      } else {
        assert ps'[|positions|] == i;
      }
    }
  }

  /** Appending any other value leaves the index list of `r` as it was. */
  lemma IndexListKeep(rs: seq<string>, r: string, positions: seq<nat>, x: string)
    requires IndexList(rs, r, positions)
    requires x != r
    ensures IndexList(rs + [x], r, positions)
  {
    var rs' := rs + [x];
    forall i | 0 <= i < |rs'| && rs'[i] == r
      ensures i in positions
    {
      assert rs[i] == r;
    }
  }

  lemma InsertNewKeepsGrouped(rs: seq<string>, groups: seq<Group>, r: string)
    requires Grouped(rs, groups)
    requires r !in Keys(groups)
    ensures Grouped(rs + [r], groups + [Group(r, [|rs|])])
  {
    var rs' := rs + [r];
    var n := |rs|;
    var groups' := groups + [Group(r, [n])];
    forall k | 0 <= k < |groups|
      ensures IndexList(rs', groups'[k].r, groups'[k].positions)
    {
      assert Keys(groups)[k] == groups[k].r;
      IndexListKeep(rs, groups[k].r, groups[k].positions, r);
    }
    assert r !in rs;
    IndexListGrow(rs, r, []);
    KeysAppend(groups, Group(r, [n]));
    forall i | 0 <= i < |rs'|
      ensures rs'[i] in Keys(groups')
    {
      if i < n {
        assert rs[i] in Keys(groups);
      }
    }
    forall k, l | 0 <= k < l < |groups'|
      ensures groups'[k].r != groups'[l].r
    {
      if l == |groups| {
        assert Keys(groups)[k] == groups[k].r;
      }
    }
    forall k | 0 <= k < |groups|
      ensures groups'[k].positions[0] < n
    {
      assert IndexList(rs, groups[k].r, groups[k].positions);
    }
  }

  lemma InsertOldKeepsGrouped(rs: seq<string>, groups: seq<Group>, k: nat)
    requires Grouped(rs, groups)
    requires k < |groups|
    ensures Grouped(rs + [groups[k].r], groups[k := Group(groups[k].r, groups[k].positions + [|rs|])])
  {
    var r := groups[k].r;
    var rs' := rs + [r];
    var n := |rs|;
    var groups' := groups[k := Group(r, groups[k].positions + [n])];
    forall l | 0 <= l < |groups'|
      ensures IndexList(rs', groups'[l].r, groups'[l].positions)
    {
      if l == k {
        IndexListGrow(rs, r, groups[k].positions);
      } else {
        IndexListKeep(rs, groups[l].r, groups[l].positions, r);
      }
    }
    assert Keys(groups') == Keys(groups);
    forall i | 0 <= i < |rs'|
      ensures rs'[i] in Keys(groups')
    {
      if i < n {
        assert rs[i] in Keys(groups);
      } else {
        assert Keys(groups)[k] == r;
      }
    }
    forall l | 0 <= l < |groups'|
      ensures groups'[l].positions[0] == groups[l].positions[0]
    {
    }
  }

  lemma InsertKeepsGrouped(rs: seq<string>, groups: seq<Group>, r: string)
    requires Grouped(rs, groups)
    ensures Grouped(rs + [r], Insert(groups, r, |rs|))
  {
    match FindKey(groups, r)
    case None =>
      InsertNewKeepsGrouped(rs, groups, r);
    case Some(k) =>
      InsertOldKeepsGrouped(rs, groups, k);
  }

  /**
   * The grouping loop over `enumerate(rs)`, as a fold over ever longer prefixes:
   * the dictionary after the last index is the previous one with that index inserted.
   */
  function Accumulate(rs: seq<string>): (groups: seq<Group>)
    ensures |groups| <= |rs|
  {
    if |rs| == 0 then []
    else Insert(Accumulate(rs[..|rs| - 1]), rs[|rs| - 1], |rs| - 1)
  }

  /** The grouping loop builds exactly the duplicates dictionary of its input. */
  lemma {:induction false} AccumulateGrouped(rs: seq<string>)
    ensures Grouped(rs, Accumulate(rs))
  {
    if |rs| > 0 {
      var prefix, last := rs[..|rs| - 1], rs[|rs| - 1];
      assert rs == prefix + [last];
      var groups := Accumulate(prefix);
      assert Accumulate(rs) == Insert(groups, last, |prefix|);
      AccumulateGrouped(prefix);
      InsertKeepsGrouped(prefix, groups, last);
    }
  }

  /** The dictionary comprehension keeping only entries with more than one position. */
  function Reused(groups: seq<Group>): (kept: seq<Group>)
    ensures |kept| <= |groups|
  {
    if |groups| == 0 then []
    else
      (if |groups[0].positions| > 1 then [groups[0]] else []) + Reused(groups[1..])
  }

  /** The kept entries are exactly the entries with more than one position. */
  lemma {:induction false} ReusedMembers(groups: seq<Group>)
    ensures forall k :: 0 <= k < |Reused(groups)| ==> Reused(groups)[k] in groups && |Reused(groups)[k].positions| > 1
    ensures forall k :: 0 <= k < |groups| && |groups[k].positions| > 1 ==> groups[k] in Reused(groups)
  {
    if |groups| > 0 {
      var rest := groups[1..];
      ReusedMembers(rest);
      var kept := Reused(groups);
      var tail := Reused(rest);
      if |groups[0].positions| > 1 {
        assert kept == [groups[0]] + tail;
      } else {
        assert kept == tail;
      }
      forall k | 0 <= k < |kept|
        ensures kept[k] in groups
      {
        if kept[k] != groups[0] {
          assert kept[k] in tail;
        }
      }
      forall k | 1 <= k < |groups| && |groups[k].positions| > 1
        ensures groups[k] in kept
      {
        assert groups[k] == rest[k - 1];
      }
    }
  }

  /** Entries with pairwise distinct keys, ordered by first position. */
  ghost predicate Ordered(groups: seq<Group>) {
    && FirstSeenOrder(groups)
    && (forall k, l :: 0 <= k < l < |groups| ==> groups[k].r != groups[l].r)
  }

  /** Every entry kept from the tail comes after the head and has another key. */
  lemma HeadPrecedesReusedTail(groups: seq<Group>)
    requires Ordered(groups)
    requires |groups| > 0
    ensures forall l :: 0 <= l < |Reused(groups[1..])| ==>
      && |Reused(groups[1..])[l].positions| > 0
      && groups[0].positions[0] < Reused(groups[1..])[l].positions[0]
      && groups[0].r != Reused(groups[1..])[l].r
  {
    var rest := groups[1..];
    var tail := Reused(rest);
    ReusedMembers(rest);
    forall l | 0 <= l < |tail|
      ensures |tail[l].positions| > 0
      ensures groups[0].positions[0] < tail[l].positions[0] && groups[0].r != tail[l].r
    {
      assert tail[l] in rest;
      var m :| 0 <= m < |rest| && rest[m] == tail[l];
      assert groups[m + 1] == tail[l];
    }
  }

  lemma {:induction false} ReusedKeepsOrder(groups: seq<Group>)
    requires Ordered(groups)
    ensures Ordered(Reused(groups))
  {
    if |groups| > 0 {
      var rest := groups[1..];
      assert Ordered(rest);
      ReusedKeepsOrder(rest);
      var tail := Reused(rest);
      if |groups[0].positions| > 1 {
        HeadPrecedesReusedTail(groups);
        assert Reused(groups) == [groups[0]] + tail;
      } else {
        assert Reused(groups) == tail;
      }
    }
  }

  /**
   * `check_r_reuse_in_tx`: the R-values reused inside one transaction, each with
   * the positions where it occurs, in first-seen order.
   */
  function CheckRReuse(tx: Tx): (reused: seq<Group>)
    ensures |reused| <= |RValues(AllScripts(tx))|
    ensures forall k :: 0 <= k < |reused| ==> |reused[k].positions| > 1
  {
    ReusedMembers(Accumulate(RValues(AllScripts(tx))));
    Reused(Accumulate(RValues(AllScripts(tx))))
  }

  /**
   * What `check_r_reuse_in_tx` returns, stated against the transaction's list of
   * R-values `rs`: every returned R-value occurs in `rs` at least twice and is
   * listed with exactly its indices into `rs` (not into the list of scripts), in
   * increasing order; every R-value occurring twice is returned; no R-value is
   * returned twice; and groups come in the order their R-values first occur.
   */
  lemma DetectorSpec(tx: Tx)
    ensures var rs := RValues(AllScripts(tx));
      var reused := CheckRReuse(tx);
      && (forall k :: 0 <= k < |reused| ==> |reused[k].positions| >= 2)
      && (forall k :: 0 <= k < |reused| ==> IndexList(rs, reused[k].r, reused[k].positions))
      && (forall k :: 0 <= k < |reused| ==> reused[k].r in rs && |reused[k].r| == REnd - RStart)
      && (forall i, j :: 0 <= i < j < |rs| && rs[i] == rs[j] ==> rs[i] in Keys(reused))
      && (forall k, l :: 0 <= k < l < |reused| ==> reused[k].r != reused[l].r)
      && FirstSeenOrder(reused)
  {
    var rs := RValues(AllScripts(tx));
    var groups := Accumulate(rs);
    AccumulateGrouped(rs);
    var reused := Reused(groups);
    ReusedKeepsOrder(groups);
    ReusedComplete(rs, groups);
    ReusedIndexLists(rs, groups);
    ReusedMembers(groups);
    forall k | 0 <= k < |reused|
      ensures reused[k].r in rs
    {
      assert reused[k] in groups;
      assert reused[k].positions[0] in reused[k].positions;
    }
  }

  /** A sequence holding two different values has more than one element. */
  lemma TwoMembers(ps: seq<nat>, i: nat, j: nat)
    requires i in ps && j in ps && i != j
    ensures |ps| > 1
  {
    var a :| 0 <= a < |ps| && ps[a] == i;
    var b :| 0 <= b < |ps| && ps[b] == j;
    assert a != b;
  }

  /** An R-value occurring at indices `i < j` is a key of the filtered dictionary. */
  lemma PairKept(rs: seq<string>, groups: seq<Group>, i: nat, j: nat)
    requires forall x :: 0 <= x < |rs| ==> rs[x] in Keys(groups)
    requires forall k :: 0 <= k < |groups| ==> IndexList(rs, groups[k].r, groups[k].positions)
    requires i < j < |rs| && rs[i] == rs[j]
    ensures rs[i] in Keys(Reused(groups))
  {
    assert rs[i] in Keys(groups);
    var k :| 0 <= k < |groups| && Keys(groups)[k] == rs[i];
    var ps := groups[k].positions;
    assert IndexList(rs, groups[k].r, ps);
    TwoMembers(ps, i, j);
    ReusedMembers(groups);
    var kept := Reused(groups);
    assert groups[k] in kept;
    var m :| 0 <= m < |kept| && kept[m] == groups[k];
    assert Keys(kept)[m] == rs[i];
  }

  /** Every R-value occurring at two indices survives the filter. */
  lemma ReusedComplete(rs: seq<string>, groups: seq<Group>)
    requires Grouped(rs, groups)
    ensures forall i, j :: 0 <= i < j < |rs| && rs[i] == rs[j] ==> rs[i] in Keys(Reused(groups))
  {
    forall i, j | 0 <= i < j < |rs| && rs[i] == rs[j]
      ensures rs[i] in Keys(Reused(groups))
    {
      PairKept(rs, groups, i, j);
    }
  }

  /** Every surviving entry still lists exactly the indices of its R-value. */
  lemma ReusedIndexLists(rs: seq<string>, groups: seq<Group>)
    requires Grouped(rs, groups)
    ensures forall k :: 0 <= k < |Reused(groups)| ==> IndexList(rs, Reused(groups)[k].r, Reused(groups)[k].positions)
  {
    var kept := Reused(groups);
    ReusedMembers(groups);
    forall k | 0 <= k < |kept|
      ensures IndexList(rs, kept[k].r, kept[k].positions)
    {
      assert kept[k] in groups;
    }
  }

  /** No position belongs to two reported R-values. */
  lemma PositionsDisjoint(tx: Tx)
    ensures var reused := CheckRReuse(tx);
      forall k, l, p :: 0 <= k < l < |reused| && p in reused[k].positions ==> p !in reused[l].positions
  {
    var rs := RValues(AllScripts(tx));
    var reused := CheckRReuse(tx);
    DetectorSpec(tx);
    forall k, l, p | 0 <= k < l < |reused| && p in reused[k].positions
      ensures p !in reused[l].positions
    {
      assert IndexList(rs, reused[k].r, reused[k].positions);
      assert IndexList(rs, reused[l].r, reused[l].positions);
    }
  }

  lemma AccumulateTwo(x: string, y: string)
    requires x != y
    ensures Accumulate([x, y]) == [Group(x, [0]), Group(y, [1])]
  {
    assert [x, y][..1] == [x];
    assert Accumulate([x]) == [Group(x, [0])];
  }

  lemma AccumulateThree(x: string, y: string)
    requires x != y
    ensures Accumulate([x, y, x]) == [Group(x, [0, 2]), Group(y, [1])]
  {
    assert [x, y, x][..2] == [x, y];
    AccumulateTwo(x, y);
    var two := [Group(x, [0]), Group(y, [1])];
    assert FindKey(two, x) == Some(0);
    assert [0] + [2] == [0, 2];
    assert Insert(two, x, 2) == [Group(x, [0, 2]), Group(y, [1])];
  }

  /** The grouping of `[x, y, x]` for two different R-values. */
  lemma GroupTwoOfThree(x: string, y: string)
    requires x != y
    ensures Reused(Accumulate([x, y, x])) == [Group(x, [0, 2])]
  {
    AccumulateThree(x, y);
    var three := [Group(x, [0, 2]), Group(y, [1])];
    assert three[1..] == [Group(y, [1])];
    assert Reused([Group(y, [1])]) == [];
  }

  /** The scripts of a transaction with inputs `a, b` and output `a`. */
  lemma ScriptsOfThree(a: string, b: string)
    ensures AllScripts(Tx("h", Some([Entry(Some(a)), Entry(Some(b))]), Some([Entry(Some(a))]))) == [a, b, a]
  {
    var ins := [Entry(Some(a)), Entry(Some(b))];
    assert ins[1..] == [Entry(Some(b))];
    assert ScriptsOf([Entry(Some(b))]) == [b];
    assert ScriptsOf([Entry(Some(a))]) == [a];
  }

  /**
   * Two inputs and one output, all longer than 74 characters, where the first
   * input and the output share their R-value and the second input differs: one
   * group, at positions 0 and 2.
   */
  lemma OneSharedRValue(a: string, b: string)
    requires |a| > MinScriptLength && |b| > MinScriptLength
    requires a[RStart..REnd] != b[RStart..REnd]
    ensures CheckRReuse(Tx("h", Some([Entry(Some(a)), Entry(Some(b))]), Some([Entry(Some(a))])))
         == [Group(a[RStart..REnd], [0, 2])]
  {
    ScriptsOfThree(a, b);
    RValuesSnoc([], a);
    RValuesSnoc([a], b);
    RValuesSnoc([a, b], a);
    assert [] + [a] == [a] && [a] + [b] == [a, b] && [a, b] + [a] == [a, b, a];
    var ra := a[RStart..REnd];
    var rb := b[RStart..REnd];
    assert RValues([a, b, a]) == [ra, rb, ra];
    GroupTwoOfThree(ra, rb);
  }
}
