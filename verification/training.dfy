/** The optimizer-step counter of the training loop
    (run_race.single.py:438-440, 571-576, 604-614, 694-695). The model, the
    loss and the optimizer are not modelled; only the counters are.
    Line 694 compares the global step with the loop index `step`; the
    `--step` option of line 422 is parsed but never read. So with
    accumulation 2 the first epoch stops after two batches, and with
    accumulation 3 the second epoch stops roughly halfway. */
module Training {
  import opened Wrappers

  /** Where one epoch stopped: the global step counter and how many batches
      it consumed. */
  datatype EpochEnd = EpochEnd(globalStep: nat, batchesRun: nat)

  /** Multiplying by a non-negative number keeps the order. */
  lemma MulMono(a: int, b: int, d: int)
    requires a <= b && d >= 0
    ensures a * d <= b * d
  {
  }

  /** Division by a positive divisor is fixed by quotient and remainder. */
  lemma DivModUnique(x: int, d: int, q: int, r: int)
    requires d > 0 && 0 <= r < d && x == q * d + r
    ensures x / d == q && x % d == r
  {
    var q', r' := x / d, x % d;
    if q' > q {
      MulMono(q + 1, q', d);
    } else if q' < q {
      MulMono(q' + 1, q, d);
    }
  }

  /** Counting multiples of `d` up to `n + 1`: one more exactly when `n + 1`
      is itself a multiple. */
  lemma DivStep(n: nat, d: nat)
    requires d > 0
    ensures (n + 1) / d == n / d + (if (n + 1) % d == 0 then 1 else 0)
  {
    var q, r := n / d, n % d;
    if r + 1 == d {
      DivModUnique(n + 1, d, q + 1, 0);
    } else {
      DivModUnique(n + 1, d, q, r + 1);
    }
  }

  /** The check of line 694 fires after the 0-based batch `s` of an epoch that
      began at batch `step` with counter `globalStep`: the counter, advanced by
      every multiple of `accumulation` among the batch numbers `step+1..s+1`,
      equals `s`, and `s` is not the first batch. The check reads the loop
      index `step`; the `--step` option parsed at line 422 is never read. */
  predicate BreaksAt(globalStep: int, step: int, s: int, accumulation: int)
    requires accumulation >= 1
  {
    s != 0 && globalStep + (s + 1) / accumulation - step / accumulation == s
  }

  /** Folding batch `step` into the counter moves the start of the epoch
      by one batch without changing where the check fires. */
  lemma BreaksShift(globalStep: int, step: int, accumulation: int, g: int)
    requires accumulation >= 1
    requires g == globalStep + (step + 1) / accumulation - step / accumulation
    ensures forall s :: BreaksAt(g, step + 1, s, accumulation) == BreaksAt(globalStep, step, s, accumulation)
  {
  }

  /** The inner loop of one epoch from batch `step` on, with
      `gradient_accumulation_steps = accumulation`: the optimizer steps after
      every batch whose 1-based number is a multiple of `accumulation`, and the
      epoch ends early once the global step equals the 0-based batch number
      (line 694). */
  function RunEpochFrom(globalStep: nat, step: nat, numBatches: nat, accumulation: nat): (e: EpochEnd)
    requires accumulation >= 1 && step <= numBatches
    ensures step <= e.batchesRun <= numBatches
    ensures e.globalStep == globalStep + e.batchesRun / accumulation - step / accumulation
    ensures e.batchesRun < numBatches ==> e.batchesRun >= 2 && e.globalStep == e.batchesRun - 1
    decreases numBatches - step
  {
    if step == numBatches then EpochEnd(globalStep, step)
    else
      DivStep(step, accumulation);
      var g := if (step + 1) % accumulation == 0 then globalStep + 1 else globalStep;
      if step != 0 && g == step then EpochEnd(g, step + 1)
      else RunEpochFrom(g, step + 1, numBatches, accumulation)
  }

  /** The epoch stops at the first batch where the check of line 694 holds:
      if it stops early, the check held after its last batch, and it held
      after none of the batches before. */
  lemma {:induction false} EpochStopsAtFirstBreak(globalStep: nat, step: nat, numBatches: nat, accumulation: nat)
    requires accumulation >= 1 && step <= numBatches
    ensures var e := RunEpochFrom(globalStep, step, numBatches, accumulation);
      && (e.batchesRun < numBatches ==> BreaksAt(globalStep, step, e.batchesRun - 1, accumulation))
      && forall s :: step <= s < e.batchesRun - 1 ==> !BreaksAt(globalStep, step, s, accumulation)
    decreases numBatches - step
  {
    if step < numBatches {
      DivStep(step, accumulation);
      var g := if (step + 1) % accumulation == 0 then globalStep + 1 else globalStep;
      BreaksShift(globalStep, step, accumulation, g);
      if !(step != 0 && g == step) {
        EpochStopsAtFirstBreak(g, step + 1, numBatches, accumulation);
      }
    }
  }

  /** A quotient by a positive divisor is at most the dividend. */
  lemma DivAtMost(n: nat, d: nat)
    requires d >= 1
    ensures n / d <= n
  {
    var q, r := n / d, n % d;
    MulMono(1, d, q);
  }

  /** One whole epoch adds between zero and `numBatches` optimizer steps. */
  lemma EpochAddsAtMostBatches(globalStep: nat, numBatches: nat, accumulation: nat)
    requires accumulation >= 1
    ensures globalStep <= RunEpochFrom(globalStep, 0, numBatches, accumulation).globalStep
                       <= globalStep + numBatches
  {
    var e := RunEpochFrom(globalStep, 0, numBatches, accumulation);
    DivModUnique(0, accumulation, 0, 0);
    DivAtMost(e.batchesRun, accumulation);
  }

  lemma MulPred(a: nat, b: nat)
    requires a >= 1
    ensures (a - 1) * b + b == a * b
  {
  }

  /** All epochs, the global step carried across them: the counter never
      decreases, and each epoch adds at most one step per batch. */
  function RunEpochs(globalStep: nat, epochs: nat, numBatches: nat, accumulation: nat): (r: nat)
    requires accumulation >= 1
    ensures globalStep <= r <= globalStep + epochs * numBatches
    decreases epochs
  {
    if epochs == 0 then globalStep
    else
      var e := RunEpochFrom(globalStep, 0, numBatches, accumulation);
      EpochAddsAtMostBatches(globalStep, numBatches, accumulation);
      MulPred(epochs, numBatches);
      RunEpochs(e.globalStep, epochs - 1, numBatches, accumulation)
  }

  /** A run: the accumulation setting is checked before anything else. */
  function Train(accumulation: int, epochs: nat, numBatches: nat): (r: Result<nat, Exception>)
    ensures r.Success? <==> accumulation >= 1
  {
    if accumulation < 1 then Failure(ValueError("Invalid gradient_accumulation_steps parameter, should be >= 1"))
    else Success(RunEpochs(0, epochs, numBatches, accumulation))
  }

  /** Without accumulation the counter is always ahead of the batch number, so
      no epoch stops early and every batch is an optimizer step. */
  lemma NoAccumulationEpoch(globalStep: nat, step: nat, numBatches: nat)
    requires step <= numBatches && globalStep >= step
    ensures RunEpochFrom(globalStep, step, numBatches, 1)
         == EpochEnd(globalStep + numBatches - step, numBatches)
  {
  }

  lemma {:induction false} NoAccumulationRun(globalStep: nat, epochs: nat, numBatches: nat)
    ensures RunEpochs(globalStep, epochs, numBatches, 1) == globalStep + epochs * numBatches
    decreases epochs
  {
    if epochs > 0 {
      NoAccumulationEpoch(globalStep, 0, numBatches);
      NoAccumulationRun(globalStep + numBatches, epochs - 1, numBatches);
      assert (epochs - 1) * numBatches + numBatches == epochs * numBatches;
    }
  }

  /** With accumulation 1 a run of `epochs` epochs of `numBatches` batches
      takes exactly `epochs * numBatches` optimizer steps. */
  lemma TrainWithoutAccumulation(epochs: nat, numBatches: nat)
    ensures Train(1, epochs, numBatches) == Success(epochs * numBatches)
  {
    NoAccumulationRun(0, epochs, numBatches);
  }

  /** The first epoch of a run: every batch is used, except with an
      accumulation of exactly 2, where the check of line 694 fires after the
      second batch (global step 1 equals batch number 1). */
  lemma FirstEpochLength(numBatches: nat, accumulation: nat)
    requires accumulation >= 1
    ensures RunEpochFrom(0, 0, numBatches, accumulation).batchesRun
         == if accumulation == 2 && numBatches >= 2 then 2 else numBatches
  {
  }

  /** With accumulation 3 and nine batches the first epoch runs whole: the
      counter lags the batch number and leaves the epoch at 3. */
  lemma FirstEpochWhole()
    ensures RunEpochFrom(0, 0, 9, 3) == EpochEnd(3, 9)
  {
  }

  /** Starting the second epoch at counter 3, the counter reaches 4 at batch
      2 and the check fires after batch 4: five of the nine batches are used. */
  lemma SecondEpochCut()
    ensures RunEpochFrom(3, 0, 9, 3) == EpochEnd(4, 5)
  {
  }

  /** Two epochs of nine batches with accumulation 3 make 4 optimizer steps,
      not the 6 that nine batches per epoch would give. */
  lemma TwoEpochsOfNine()
    ensures Train(3, 2, 9) == Success(4)
  {
    FirstEpochWhole();
    SecondEpochCut();
  }
}
