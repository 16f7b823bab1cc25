/** The string operations the controller relies on: `string.Join`,
    concatenation of a list of strings, and "occurs in". */
module Text {

  /** `part` occurs in `s` starting at index `k`. */
  predicate OccursAt(s: string, part: string, k: nat) {
    k + |part| <= |s| && s[k..k + |part|] == part
  }

  /** `part` occurs somewhere in `s`. */
  ghost predicate Contains(s: string, part: string) {
    exists k: nat :: OccursAt(s, part, k)
  }

  /** Whatever surrounds it, a string contains its own middle part. */
  lemma ContainsMiddle(pre: string, part: string, post: string)
    ensures Contains(pre + part + post, part)
  {
    assert OccursAt(pre + part + post, part, |pre|);
  }

  /** A string contains what it ends with. */
  lemma ContainsSuffix(pre: string, part: string)
    ensures Contains(pre + part, part)
  {
    assert OccursAt(pre + part, part, |pre|);
  }

  /** `string.Join(sep, parts)`: the parts in order with `sep` between
      each two neighbours. */
  function Join(sep: string, parts: seq<string>): string
    decreases |parts|
  {
    if |parts| == 0 then ""
    else if |parts| == 1 then parts[0]
    else parts[0] + sep + Join(sep, parts[1..])
  }

  /** The parts written one after another, with nothing between them. */
  function Concat(parts: seq<string>): string
    decreases |parts|
  {
    if parts == [] then "" else parts[0] + Concat(parts[1..])
  }

  /** `sep` written `n` times. */
  function Repeat(sep: string, n: nat): string {
    if n == 0 then "" else sep + Repeat(sep, n - 1)
  }

  lemma {:induction false} ConcatAppend(xs: seq<string>, ys: seq<string>)
    ensures Concat(xs + ys) == Concat(xs) + Concat(ys)
    decreases |xs|
  {
    if xs == [] {
      assert xs + ys == ys;
    } else {
      assert (xs + ys)[1..] == xs[1..] + ys;
      ConcatAppend(xs[1..], ys);
    }
  }

  /** A join of n >= 1 parts holds the parts' characters and exactly
      n - 1 separators. */
  lemma {:induction false} JoinLength(sep: string, parts: seq<string>)
    requires |parts| >= 1
    ensures |Join(sep, parts)| == |Concat(parts)| + (|parts| - 1) * |sep|
    decreases |parts|
  {
    if |parts| > 1 {
      JoinLength(sep, parts[1..]);
    } else {
      assert parts[1..] == [];
    }
  }

  /** Joining n >= 1 empty parts leaves only the n - 1 separators. */
  lemma {:induction false} JoinOfEmpties(sep: string, parts: seq<string>)
    requires |parts| >= 1
    requires forall k :: 0 <= k < |parts| ==> parts[k] == ""
    ensures Join(sep, parts) == Repeat(sep, |parts| - 1)
    decreases |parts|
  {
    if |parts| > 1 {
      JoinOfEmpties(sep, parts[1..]);
    }
  }
}
