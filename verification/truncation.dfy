/** The greedy pairwise truncation `_truncate_seq_pair` (run_race.single.py:268-282):
    while the pair is over budget, drop the last element of the strictly longer
    list, or of the second list when both are equally long. */
module Truncation {
  import opened Wrappers

  datatype Pair<T> = Pair(a: seq<T>, b: seq<T>)

  function Min(x: int, y: int): int { if x <= y then x else y }
  function Max(x: int, y: int): int { if x >= y then x else y }

  /** One run of the loop, one recursive call per iteration. A negative budget
      can never be met: the loop empties both lists and then pops from the
      empty second list, which raises. */
  function Truncate<T>(a: seq<T>, b: seq<T>, maxLength: int): (r: Result<Pair<T>, Exception>)
    ensures r.Success? <==> maxLength >= 0
    ensures r.Success? ==> |r.value.a| <= |a| && r.value.a == a[..|r.value.a|]
    ensures r.Success? ==> |r.value.b| <= |b| && r.value.b == b[..|r.value.b|]
    ensures r.Success? ==> |r.value.a| + |r.value.b| == Min(|a| + |b|, maxLength)
    ensures |a| + |b| <= maxLength ==> r == Success(Pair(a, b))
    decreases |a| + |b|
  {
    if |a| + |b| <= maxLength then Success(Pair(a, b))
    else if |a| > |b| then Truncate(a[..|a| - 1], b, maxLength)
    else if |b| == 0 then Failure(IndexError("pop from empty list"))
    else Truncate(a, b[..|b| - 1], maxLength)
  }

  /** How many elements of the first list survive, stated without the loop:
      the longer list is cut down to the shorter one, and from there the two
      shrink alternately, the first list keeping the odd element. */
  function KeptA(lenA: nat, lenB: nat, budget: nat): nat
  {
    if lenA + lenB <= budget then lenA
    else Min(lenA, Max(budget - lenB, (budget + 1) / 2))
  }

  /** How many elements of the second list survive. */
  function KeptB(lenA: nat, lenB: nat, budget: nat): (k: nat)
    ensures k <= lenB
    ensures KeptA(lenA, lenB, budget) + k == Min(lenA + lenB, budget)
  {
    if lenA + lenB <= budget then lenB
    else budget - KeptA(lenA, lenB, budget)
  }

  /** One iteration of the loop does not change the closed-form outcome. */
  lemma StepKeepsOutcome(lenA: nat, lenB: nat, budget: nat)
    requires lenA + lenB > budget
    ensures lenA > lenB ==>
      KeptA(lenA - 1, lenB, budget) == KeptA(lenA, lenB, budget)
    ensures lenA <= lenB ==>
      lenB > 0 && KeptA(lenA, lenB - 1, budget) == KeptA(lenA, lenB, budget)
  {
  }

  /** The loop ends exactly where the closed form says: its result does not
      depend on the order of the pops beyond the tie-break. */
  lemma {:induction false} TruncateClosedForm<T>(a: seq<T>, b: seq<T>, budget: nat)
    ensures Truncate(a, b, budget) ==
      Success(Pair(a[..KeptA(|a|, |b|, budget)], b[..KeptB(|a|, |b|, budget)]))
    decreases |a| + |b|
  {
    if |a| + |b| <= budget {
    } else if |a| > |b| {
      var a' := a[..|a| - 1];
      StepKeepsOutcome(|a|, |b|, budget);
      TruncateClosedForm(a', b, budget);
      assert a'[..KeptA(|a'|, |b|, budget)] == a[..KeptA(|a|, |b|, budget)];
    } else {
      var b' := b[..|b| - 1];
      StepKeepsOutcome(|a|, |b|, budget);
      TruncateClosedForm(a, b', budget);
      assert b'[..KeptB(|a|, |b'|, budget)] == b[..KeptB(|a|, |b|, budget)];
    }
  }

  /** After an engaged truncation the kept lengths differ by at most one unless
      the shorter list was short enough to survive whole. */
  lemma TruncateBalances<T>(a: seq<T>, b: seq<T>, budget: nat)
    requires |a| + |b| > budget
    ensures var r := Truncate(a, b, budget).value;
      || (|r.a| == |a| && |r.a| <= |r.b|)
      || (|r.b| == |b| && |r.b| <= |r.a|)
      || |r.a| == |r.b|
      || |r.a| == |r.b| + 1
  {
  }

  /** Equal lengths pop from the second list first: two lists of five cut to
      nine lose one element of the second, cut to eight lose one of each. */
  lemma TieBreak<T>(a: seq<T>, b: seq<T>)
    requires |a| == 5 && |b| == 5
    ensures Truncate(a, b, 9) == Success(Pair(a, b[..4]))
    ensures Truncate(a, b, 8) == Success(Pair(a[..4], b[..4]))
  {
  }

  /** The in-place loop, counting its pops. */
  method TruncateSeqPair<T>(tokensA: seq<T>, tokensB: seq<T>, maxLength: int)
    returns (r: Result<Pair<T>, Exception>, pops: nat)
    ensures r == Truncate(tokensA, tokensB, maxLength)
    ensures r.Success? ==> pops == Max(0, |tokensA| + |tokensB| - maxLength)
  {
    var a, b := tokensA, tokensB;
    pops := 0;
    while |a| + |b| > maxLength
      invariant Truncate(a, b, maxLength) == Truncate(tokensA, tokensB, maxLength)
      invariant pops + |a| + |b| == |tokensA| + |tokensB|
      decreases |a| + |b|
    {
      if |a| > |b| {
        a := a[..|a| - 1];
      } else if |b| == 0 {
        return Failure(IndexError("pop from empty list")), pops;
      } else {
        b := b[..|b| - 1];
      }
      pops := pops + 1;
    }
    r := Success(Pair(a, b));
  }
}
