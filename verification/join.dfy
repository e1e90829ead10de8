/** `list_to_comma_string`: Python's `", ".join(images)`. */
module Joining {

  /** The separator placed between two consecutive images. */
  const Separator: string := ", "

  /** The summed length of all strings of `xs`. */
  function TotalLength(xs: seq<string>): nat
  {
    if |xs| == 0 then 0 else |xs[0]| + TotalLength(xs[1..])
  }

  /** `Separator.join(xs)`: the strings of `xs` with one separator between each
      consecutive pair and none before the first or after the last. */
  function Join(xs: seq<string>): (r: string)
    ensures |xs| > 0 ==> |r| == TotalLength(xs) + |Separator| * (|xs| - 1)
  {
    if |xs| == 0 then ""
    else if |xs| == 1 then xs[0]
    else xs[0] + Separator + Join(xs[1..])
  }

  /** Where the `i`-th string starts inside `Join(xs)`: after all earlier strings and
      one separator for each of them. */
  function Offset(xs: seq<string>, i: nat): nat
    requires i <= |xs|
  {
    TotalLength(xs[..i]) + |Separator| * i
  }

  /** The edge cases of `str.join`: nothing joins to the empty string and a single
      string joins to itself, with no separator added. */
  lemma JoinSmall(x: string)
    ensures Join([]) == ""
    ensures Join([x]) == x
  {
  }

  /** Joining grows one element at a time at the end: appending `y` to a non-empty list
      appends the separator and then `y` to the joined string. */
  lemma {:induction false} JoinSnoc(xs: seq<string>, y: string)
    requires |xs| > 0
    ensures Join(xs + [y]) == Join(xs) + Separator + y
  {
    if |xs| == 1 {
      assert xs + [y] == [xs[0], y];
      assert [xs[0], y][1..] == [y];
    } else {
      assert (xs + [y])[1..] == xs[1..] + [y];
      JoinSnoc(xs[1..], y);
    }
  }

  /** The joined string is empty exactly when there was nothing to join, or a single
      empty string: any second element brings a separator with it. */
  lemma JoinEmptyIff(xs: seq<string>)
    ensures Join(xs) == "" <==> |xs| == 0 || (|xs| == 1 && xs[0] == "")
  {
    if |xs| > 1 {
      assert |Join(xs)| >= |Separator|;
    }
  }

  /** The offset of element `i` of a non-empty list is the first element, one separator,
      and the offset of element `i - 1` of the rest. */
  lemma OffsetStep(xs: seq<string>, i: nat)
    requires 1 <= i <= |xs|
    ensures Offset(xs, i) == |xs[0]| + |Separator| + Offset(xs[1..], i - 1)
  {
    assert xs[..i][1..] == xs[1..][..i - 1];
  }

  /** A slice lying in the second part of a concatenation is a slice of that part. */
  lemma SliceShift(a: string, b: string, lo: nat, hi: nat)
    requires lo <= hi <= |b|
    ensures (a + b)[|a| + lo..|a| + hi] == b[lo..hi]
  {
  }

  /** Adding one string at the end adds its length to the total. */
  lemma {:induction false} TotalLengthSnoc(xs: seq<string>, y: string)
    ensures TotalLength(xs + [y]) == TotalLength(xs) + |y|
  {
    if |xs| == 0 {
      assert xs + [y] == [y];
    } else {
      assert (xs + [y])[1..] == xs[1..] + [y];
      TotalLengthSnoc(xs[1..], y);
    }
  }

  /** Consecutive offsets are one element and one separator apart. */
  lemma OffsetNext(xs: seq<string>, i: nat)
    requires i < |xs|
    ensures Offset(xs, i + 1) == Offset(xs, i) + |xs[i]| + |Separator|
  {
    assert xs[..i + 1] == xs[..i] + [xs[i]];
    TotalLengthSnoc(xs[..i], xs[i]);
  }

  /** Every element of `xs` sits, unchanged, at its offset inside `Join(xs)`, and a
      separator follows every element but the last; together with the length in
      `Join`'s contract and `OffsetNext` this pins the joined string down character by
      character. */
  lemma {:induction false} JoinPieces(xs: seq<string>, i: nat)
    requires i < |xs|
    ensures Offset(xs, i) + |xs[i]| <= |Join(xs)|
    ensures Join(xs)[Offset(xs, i)..Offset(xs, i) + |xs[i]|] == xs[i]
    ensures i + 1 < |xs| ==> Offset(xs, i) + |xs[i]| + |Separator| <= |Join(xs)|
    ensures i + 1 < |xs| ==>
      Join(xs)[Offset(xs, i) + |xs[i]|..Offset(xs, i) + |xs[i]| + |Separator|] == Separator
  {
    var s := Join(xs);
    if i == 0 {
      assert xs[..0] == [];
      assert Offset(xs, 0) == 0;
      if |xs| > 1 {
        assert s == xs[0] + Separator + Join(xs[1..]);
      }
    } else {
      var head := xs[0] + Separator;
      var rest := xs[1..];
      var s' := Join(rest);
      assert s == head + s';
      JoinPieces(rest, i - 1);
      OffsetStep(xs, i);
      var o := Offset(rest, i - 1);
      var e := o + |xs[i]|;
      assert Offset(xs, i) == |head| + o;
      SliceShift(head, s', o, e);
      if i + 1 < |xs| {
        SliceShift(head, s', e, e + |Separator|);
      }
    }
  }
}
