/** `accuracy` (run_race.single.py:285-287): the number of rows of logits
    whose first maximal entry sits at the row's label. Logits are modelled as
    integers, a totally ordered stand-in for the floats the model produces. */
module Metrics {
  import opened Wrappers

  /** `np.argmax` of one row: the first index holding the maximum. */
  function ArgMax(row: seq<int>): (k: nat)
    requires |row| > 0
    ensures k < |row|
    ensures forall j :: 0 <= j < |row| ==> row[j] <= row[k]
    ensures forall j :: 0 <= j < k ==> row[j] < row[k]
    decreases |row|
  {
    if |row| == 1 then 0
    else
      var k := ArgMax(row[..|row| - 1]);
      if row[|row| - 1] > row[k] then |row| - 1 else k
  }

  /** The first-maximum index is the only index satisfying ArgMax's contract. */
  lemma ArgMaxUnique(row: seq<int>, k: nat)
    requires k < |row|
    requires forall j :: 0 <= j < |row| ==> row[j] <= row[k]
    requires forall j :: 0 <= j < k ==> row[j] < row[k]
    ensures ArgMax(row) == k
  {
  }

  /** The rows whose first-maximum index is their label. */
  function CorrectRows(out: seq<seq<int>>, labels: seq<int>): set<nat>
    requires |out| == |labels|
    requires forall i :: 0 <= i < |out| ==> |out[i]| > 0
  {
    set i: nat | i < |out| && ArgMax(out[i]) == labels[i]
  }

  /** Extending the rows by one adds that row's index exactly when it is right. */
  lemma CorrectRowsSnoc(out: seq<seq<int>>, labels: seq<int>)
    requires |out| == |labels| && |out| > 0
    requires forall i :: 0 <= i < |out| ==> |out[i]| > 0
    ensures var k := |out| - 1;
      && k !in CorrectRows(out[..k], labels[..k])
      && CorrectRows(out, labels)
         == CorrectRows(out[..k], labels[..k]) + (if ArgMax(out[k]) == labels[k] then {k} else {})
  {
  }

  /** The number of rows predicted correctly: `np.sum(outputs == labels)`. */
  function CountCorrect(out: seq<seq<int>>, labels: seq<int>): (n: nat)
    requires |out| == |labels|
    requires forall i :: 0 <= i < |out| ==> |out[i]| > 0
    ensures n <= |out|
    ensures n == |out| <==> forall i :: 0 <= i < |out| ==> ArgMax(out[i]) == labels[i]
    ensures n == 0 <==> forall i :: 0 <= i < |out| ==> ArgMax(out[i]) != labels[i]
    decreases |out|
  {
    if |out| == 0 then 0
    else
      var k := |out| - 1;
      CountCorrect(out[..k], labels[..k]) + (if ArgMax(out[k]) == labels[k] then 1 else 0)
  }

  /** The count is the number of rows predicted correctly. */
  lemma {:induction false} CountCorrectCountsCorrectRows(out: seq<seq<int>>, labels: seq<int>)
    requires |out| == |labels|
    requires forall i :: 0 <= i < |out| ==> |out[i]| > 0
    ensures CountCorrect(out, labels) == |CorrectRows(out, labels)|
    decreases |out|
  {
    if |out| == 0 {
      assert CorrectRows(out, labels) == {};
    } else {
      var k := |out| - 1;
      CorrectRowsSnoc(out, labels);
      CountCorrectCountsCorrectRows(out[..k], labels[..k]);
    }
  }

  /** `accuracy(out, labels)`. numpy's argmax raises on an empty row. */
  function Accuracy(out: seq<seq<int>>, labels: seq<int>): (r: Result<nat, Exception>)
    requires |out| == |labels|
    ensures r.Success? <==> forall i :: 0 <= i < |out| ==> |out[i]| > 0
    ensures r.Success? ==> r.value == |CorrectRows(out, labels)| && r.value <= |out|
    ensures r.Success? ==> (r.value == |out| <==> forall i :: 0 <= i < |out| ==> ArgMax(out[i]) == labels[i])
  {
    if exists i :: 0 <= i < |out| && |out[i]| == 0 then Failure(ValueError("attempt to get argmax of an empty sequence"))
    else
      CountCorrectCountsCorrectRows(out, labels);
      Success(CountCorrect(out, labels))
  }

  /** Counting batch by batch and adding up, as the evaluation loop does
      (run_race.single.py:668-671), gives the count over all rows. */
  lemma {:induction false} CountCorrectAdditive(out1: seq<seq<int>>, labels1: seq<int>,
                                                out2: seq<seq<int>>, labels2: seq<int>)
    requires |out1| == |labels1| && |out2| == |labels2|
    requires forall i :: 0 <= i < |out1| ==> |out1[i]| > 0
    requires forall i :: 0 <= i < |out2| ==> |out2[i]| > 0
    ensures CountCorrect(out1 + out2, labels1 + labels2)
         == CountCorrect(out1, labels1) + CountCorrect(out2, labels2)
    decreases |out2|
  {
    if |out2| == 0 {
      assert out1 + out2 == out1;
      assert labels1 + labels2 == labels1;
    } else {
      var k := |out2| - 1;
      var n := |out1| + k;
      var out, labels := out1 + out2, labels1 + labels2;
      assert forall i :: 0 <= i < |out| ==> |out[i]| > 0;
      var hit := if ArgMax(out2[k]) == labels2[k] then 1 else 0;
      assert out[..n] == out1 + out2[..k];
      assert forall i :: 0 <= i < |out[..n]| ==> |out[..n][i]| > 0;
      assert forall i :: 0 <= i < k ==> |out2[..k][i]| > 0;
      assert labels[..n] == labels1 + labels2[..k];
      assert out[n] == out2[k] && labels[n] == labels2[k];
      assert CountCorrect(out, labels) == CountCorrect(out[..n], labels[..n]) + hit;
      assert CountCorrect(out2, labels2) == CountCorrect(out2[..k], labels2[..k]) + hit;
      CountCorrectAdditive(out1, labels1, out2[..k], labels2[..k]);
    }
  }

  /** Logits [[1, 9], [8, 2]] with labels [1, 0]: both rows are right. */
  lemma TwoRowsBothCorrect()
    ensures Accuracy([[1, 9], [8, 2]], [1, 0]) == Success(2)
  {
  }

  /** Ties go to the first maximal index, as numpy's argmax does. */
  lemma TieGoesToFirst()
    ensures Accuracy([[5, 5, 5, 5]], [0]) == Success(1)
    ensures Accuracy([[5, 5, 5, 5]], [3]) == Success(0)
  {
    ArgMaxUnique([5, 5, 5, 5], 0);
  }
}
