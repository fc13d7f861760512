/** The number sequences that topology templates generate. */
module TemplateSeq {
  import opened Wrappers

  /** An argument, if it converts to a number. */
  datatype Arg = Number(value: int) | NotANumber

  datatype Range = Range(start: int, end: int, step: int)

  /** The remainder that truncates towards zero. */
  function Rem(a: int, b: int): int
    requires b != 0
  {
    var p, q := if a < 0 then -a else a, if b < 0 then -b else b;
    if a < 0 then -(p % q) else p % q
  }

  /** One argument is the end, two are start and end, the third is the step. */
  function RangeOf(args: seq<Arg>): Result<Range> {
    if |args| == 0 || |args| > 3 || (exists i :: 0 <= i < |args| && args[i].NotANumber?) then Err
    else if |args| == 1 then Ok(Range(1, args[0].value, 1))
    else Ok(Range(args[0].value, args[1].value, if |args| == 3 then args[2].value else 1))
  }

  /** The step taken: towards the end, whatever the sign of the one given. */
  function Towards(r: Range): int {
    if (r.end < r.start && r.step > 0) || (r.end > r.start && r.step < 0) then -r.step else r.step
  }

  /** start and step are 1 unless they are given. */
  lemma Defaults(args: seq<Arg>, start: int, end: int, step: int)
    ensures RangeOf([Number(end)]) == Ok(Range(1, end, 1))
    ensures RangeOf([Number(start), Number(end)]) == Ok(Range(start, end, 1))
    ensures RangeOf([Number(start), Number(end), Number(step)]) == Ok(Range(start, end, step))
    ensures RangeOf(args).Err? <==> |args| !in {1, 2, 3} || NotANumber in args
  {
  }

  predicate Between(a: int, x: int, b: int) {
    a <= x <= b || b <= x <= a
  }

  /** start, start + d, start + 2 d and so on, for as long as the end is not passed. */
  ghost predicate Steps(r: Range, numbers: seq<int>) {
    && numbers != []
    && (forall i :: 0 <= i < |numbers| ==> numbers[i] == r.start + i * Towards(r))
    && (forall i :: 0 <= i < |numbers| ==> Between(r.start, numbers[i], r.end))
    && (r.start != r.end ==> !Between(r.start, numbers[|numbers| - 1] + Towards(r), r.end))
  }

  /** The aligned end is a whole number of steps away, and less than a step from the end. */
  lemma Aligned(r: Range) returns (m: nat)
    requires r.step != 0
    ensures r.end - Rem(r.end - r.start, Towards(r)) == r.start + m * Towards(r)
    ensures Between(r.start, r.start + m * Towards(r), r.end)
    ensures r.start != r.end ==> !Between(r.start, r.start + m * Towards(r) + Towards(r), r.end)
    ensures r.start == r.end ==> m == 0
  {
    hide Rem, Towards;
    var d, gap := Towards(r), r.end - r.start;
    TowardsEnd(r);
    RemBySign(gap, d);
    if gap == 0 {
      m := 0;
    } else if gap > 0 {
      m := Whole(gap, d);
    } else {
      m := Whole(-gap, -d);
      Negated(m, d);
    }
  }

  lemma TowardsEnd(r: Range)
    requires r.step != 0
    ensures Towards(r) != 0 && (r.end > r.start ==> Towards(r) > 0) && (r.end < r.start ==> Towards(r) < 0)
  {
  }

  lemma RemBySign(gap: int, d: int)
    requires d != 0
    ensures gap == 0 ==> Rem(gap, d) == 0
    ensures gap > 0 && d > 0 ==> Rem(gap, d) == gap % d
    ensures gap < 0 && d < 0 ==> Rem(gap, d) == -(-gap % -d)
  {
  }

  lemma Whole(gap: nat, d: int) returns (m: nat)
    requires d > 0
    ensures m * d == gap - gap % d && m * d <= gap < m * d + d
  {
    m := gap / d;
    assert gap == d * m + gap % d;
  }

  lemma Negated(m: nat, d: int)
    ensures m * d == -(m * -d)
  {
  }

  /** A whole number of steps before the last one is no further than the last. */
  lemma StepsBetween(start: int, d: int, i: nat, m: nat, end: int)
    requires i <= m && Between(start, start + m * d, end)
    requires d > 0 ==> end >= start
    requires d < 0 ==> end <= start
    ensures Between(start, start + i * d, end)
  {
    SameSign(i, d);
    SameSign(m - i, d);
    assert m * d == i * d + (m - i) * d;
  }

  lemma SameSign(i: nat, d: int)
    ensures if d >= 0 then i * d >= 0 else i * d <= 0
  {
  }

  lemma StepMore(start: int, d: int, i: nat)
    ensures start + i * d + d == start + (i + 1) * d
  {
  }

  /** Counting up, in steps, and down whatever the sign of the step; the end need not be met. */
  lemma Examples()
    ensures Steps(Range(1, 8, 1), [1, 2, 3, 4, 5, 6, 7, 8])
    ensures Steps(Range(4, 9, 2), [4, 6, 8])
    ensures Steps(Range(8, 4, 2), [8, 6, 4]) && Steps(Range(8, 4, -2), [8, 6, 4])
    ensures Steps(Range(4, 8, -2), [4, 6, 8]) && Steps(Range(5, 5, 3), [5])
  {
  }

  method Seq(args: seq<Arg>) returns (r: Result<seq<int>>)
    ensures r.Err? <==> RangeOf(args).Err?
    ensures r.Ok? && RangeOf(args).value.step == 0 ==> r.value == []
    ensures r.Ok? && RangeOf(args).value.step != 0 ==> Steps(RangeOf(args).value, r.value)
  {
    hide Between, Rem;
    var range := RangeOf(args);
    if range.Err? {
      return Err;
    }
    var start, end, step := range.value.start, range.value.end, range.value.step;
    if step == 0 {
      return Ok([]);
    }
    if end < start && step > 0 {
      step := -step;
    }
    if end > start && step < 0 {
      step := -step;
    }
    ghost var m := Aligned(range.value);
    end := end - Rem(end - start, step);
    var numbers, last := [start], start;
    while last != end
      invariant 0 < |numbers| <= m + 1
      invariant last == numbers[|numbers| - 1] == start + (|numbers| - 1) * step
      invariant forall i :: 0 <= i < |numbers| ==> numbers[i] == start + i * step
      decreases m + 1 - |numbers|
    {
      Reached(start, step, |numbers| - 1, m);
      StepMore(start, step, |numbers| - 1);
      last := numbers[|numbers| - 1] + step;
      numbers := numbers + [last];
    }
    Reached(start, step, |numbers| - 1, m);
    forall i | 0 <= i < |numbers| ensures Between(start, numbers[i], range.value.end) {
      StepsBetween(start, step, i, m, range.value.end);
    }
    r := Ok(numbers);
  }

  /** The m-th number is reached after m steps and not before. */
  lemma Reached(start: int, d: int, i: nat, m: nat)
    requires d != 0 && i <= m
    ensures start + i * d == start + m * d <==> i == m
  {
    if i < m {
      assert m * d - i * d == (m - i) * d;
    }
  }

  /** The specification leaves no choice: it has one answer. */
  lemma StepsUnique(r: Range, a: seq<int>, b: seq<int>)
    requires r.step != 0 && Steps(r, a) && Steps(r, b)
    ensures a == b
  {
    if r.start == r.end {
      OneOnly(r, a);
      OneOnly(r, b);
    } else {
      NoLonger(r, a, b);
      NoLonger(r, b, a);
    }
  }

  lemma Next(r: Range, a: seq<int>, i: nat)
    requires Steps(r, a) && i + 1 < |a|
    ensures a[i] == r.start + i * Towards(r) && Between(r.start, a[i] + Towards(r), r.end)
  {
    StepMore(r.start, Towards(r), i);
    assert Between(r.start, a[i + 1], r.end);
  }

  lemma OneOnly(r: Range, a: seq<int>)
    requires r.step != 0 && Steps(r, a) && r.start == r.end
    ensures |a| == 1
  {
    if |a| > 1 {
      Next(r, a, 0);
    }
  }

  lemma NoLonger(r: Range, a: seq<int>, b: seq<int>)
    requires Steps(r, a) && Steps(r, b) && r.start != r.end
    ensures |b| <= |a|
  {
    if |b| > |a| {
      Next(r, b, |a| - 1);
    }
  }
}
