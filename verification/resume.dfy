/**
 * Where a batch run starts in the address list: `addresses.index(address + "\n")`
 * for a checkpointed address, else 0. Also `str.strip`, applied to each line
 * before it is scanned.
 */
module Resume {
  import opened Base

  /** `list.index`: the first position holding `x`, or `None` where Python raises `ValueError`. */
  function IndexOf(lines: seq<string>, x: string): (r: Option<nat>)
    ensures r.Some? ==> r.value < |lines| && lines[r.value] == x
    ensures r.Some? ==> forall j :: 0 <= j < r.value ==> lines[j] != x
    ensures r.None? <==> x !in lines
  {
    if |lines| == 0 then None
    else if lines[0] == x then Some(0)
    else
      match IndexOf(lines[1..], x)
      case Some(i) => Some(i + 1)
      case None => None
  }

  /** The characters `str.isspace` accepts, which `str.strip()` removes. */
  predicate IsSpace(c: char) {
    var n := c as int;
    || n == 0x20 || 0x09 <= n <= 0x0d || 0x1c <= n <= 0x1f
    || n == 0x85 || n == 0xa0 || n == 0x1680 || 0x2000 <= n <= 0x200a
    || n == 0x2028 || n == 0x2029 || n == 0x202f || n == 0x205f || n == 0x3000
  }

  /** Neither the first nor the last character is whitespace. */
  predicate Stripped(s: string) {
    |s| > 0 ==> !IsSpace(s[0]) && !IsSpace(s[|s| - 1])
  }

  /** `str.lstrip()`: the suffix left after dropping every leading whitespace character. */
  function StripLeft(s: string): (r: string)
    ensures |r| <= |s| && r == s[|s| - |r|..]
    ensures forall k :: 0 <= k < |s| - |r| ==> IsSpace(s[k])
    ensures |r| > 0 ==> !IsSpace(r[0])
  {
    if |s| > 0 && IsSpace(s[0]) then StripLeft(s[1..]) else s
  }

  /** `str.rstrip()`: the prefix left after dropping every trailing whitespace character. */
  function StripRight(s: string): (r: string)
    ensures |r| <= |s| && r == s[..|r|]
    ensures forall k :: |r| <= k < |s| ==> IsSpace(s[k])
    ensures |r| > 0 ==> !IsSpace(r[|r| - 1])
  {
    if |s| > 0 && IsSpace(s[|s| - 1]) then StripRight(s[..|s| - 1]) else s
  }

  /** `str.strip()`: `str.lstrip()` followed by `str.rstrip()`. */
  function Strip(s: string): (r: string)
    ensures Stripped(r) && |r| <= |s|
  {
    StripRight(StripLeft(s))
  }

  /** What `str.strip()` returns is a slice of its input with only whitespace cut off at either end. */
  lemma StripSlice(s: string)
    ensures exists i, j ::
      && 0 <= i <= j <= |s|
      && Strip(s) == s[i..j]
      && (forall k :: 0 <= k < i ==> IsSpace(s[k]))
      && (forall k :: j <= k < |s| ==> IsSpace(s[k]))
  {
    var left := StripLeft(s);
    var r := StripRight(left);
    var i := |s| - |left|;
    var j := i + |r|;
    assert r == s[i..j];
    forall k | j <= k < |s|
      ensures IsSpace(s[k])
    {
      assert s[k] == left[k - i];
    }
  }

  /** Every line of the address file with `str.strip()` applied, in order. */
  function StripAll(lines: seq<string>): (addrs: seq<string>)
    ensures |addrs| == |lines|
    ensures forall k :: 0 <= k < |lines| ==> addrs[k] == Strip(lines[k])
  {
    seq(|lines|, k requires 0 <= k < |lines| => Strip(lines[k]))
  }

  /** A stripped address read back from its line, with the newline, is the address itself. */
  lemma StripLine(a: string)
    requires Stripped(a)
    ensures Strip(a + "\n") == a
  {
    var line := a + "\n";
    if |a| == 0 {
      assert StripLeft(line) == StripLeft("");
    } else {
      assert StripLeft(line) == line;
      assert line[..|line| - 1] == a;
      assert StripRight(line) == StripRight(a);
      assert StripRight(a) == a;
    }
  }

  /** Where the batch loop starts, or that the lookup of the checkpoint failed. */
  datatype Start = StartAt(index: nat) | LookupFailed

  /**
   * The start index: 0 without a checkpoint, otherwise the first line equal to
   * the checkpointed address followed by a newline; a failed lookup ends the run.
   */
  function StartIndex(checkpoint: Option<string>, lines: seq<string>): (s: Start)
    ensures checkpoint.None? ==> s == StartAt(0)
    ensures checkpoint.Some? ==> (s.LookupFailed? <==> checkpoint.value + "\n" !in lines)
    ensures checkpoint.Some? && s.StartAt? ==>
      s.index < |lines| && lines[s.index] == checkpoint.value + "\n"
      && forall j :: 0 <= j < s.index ==> lines[j] != checkpoint.value + "\n"
  {
    match checkpoint
    case None => StartAt(0)
    case Some(a) =>
      match IndexOf(lines, a + "\n")
      case Some(i) => StartAt(i)
      case None => LookupFailed
  }

  /** A checkpointed address on the last line, with no newline after it, is not found. */
  lemma LastLineWithoutNewline(before: seq<string>, a: string)
    requires forall k :: 0 <= k < |before| ==> before[k] != a + "\n"
    ensures StartIndex(Some(a), before + [a]) == LookupFailed
  {
    var lines := before + [a];
    assert a != a + "\n" by { assert |a| != |a + "\n"|; }
    assert a + "\n" !in lines;
  }
}
