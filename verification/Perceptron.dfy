/** The global perceptron branch predictor, with a speculative history register.

    Main results: after every predict/update pair the speculative history equals the real one, and
    training moves the output for the recorded history towards the outcome by exactly the number of
    weights that are not saturated, whatever the history has become since. */
module Perceptron {
  import opened Bits

  const HISTORY: nat := 24
  const PERCEPTRONS: nat := 163
  const MAX_WEIGHT: int := 127
  const MIN_WEIGHT: int := -128
  const THETA: int := 60
  const ENTRIES: nat := 100

  // ----- Output and training of one perceptron ----------------------------------------------

  /** Bit i of a history register. */
  predicate BitOf(history: nat, i: nat) {
    history / Pow2(i) % 2 == 1
  }

  /** Bias plus the first n weights, each counted for a taken branch and against a branch not taken. */
  function Output(ws: seq<int>, history: nat, n: nat): int
    requires n < |ws|
  {
    if n == 0 then ws[0] else Output(ws, history, n - 1) + if BitOf(history, n - 1) then ws[n] else -ws[n]
  }

  /** The direction in which weight i is trained: towards the outcome where the history bit is set,
      away from it where it is clear; the bias towards the outcome. */
  predicate Strengthens(history: nat, i: nat, taken: bool) {
    if i == 0 then taken else BitOf(history, i - 1) == taken
  }

  function Nudge(w: int, up: bool): (w': int)
    ensures MIN_WEIGHT <= w <= MAX_WEIGHT ==> MIN_WEIGHT <= w' <= MAX_WEIGHT
  {
    if up then (if w + 1 > MAX_WEIGHT then MAX_WEIGHT else w + 1)
      else (if w - 1 < MIN_WEIGHT then MIN_WEIGHT else w - 1)
  }

  function Trained(ws: seq<int>, history: nat, taken: bool): seq<int> {
    seq(|ws|, i requires 0 <= i < |ws| => Nudge(ws[i], Strengthens(history, i, taken)))
  }

  /** How many of the bias and the first n weights can still move in their training direction. */
  function Movable(ws: seq<int>, history: nat, taken: bool, n: nat): (count: nat)
    requires n < |ws|
  {
    (if n == 0 then 0 else Movable(ws, history, taken, n - 1)) +
    if ws[n] == (if Strengthens(history, n, taken) then MAX_WEIGHT else MIN_WEIGHT) then 0 else 1
  }

  predicate WeightsOk(ws: seq<int>) {
    |ws| == HISTORY + 1 && forall i :: 0 <= i < |ws| ==> MIN_WEIGHT <= ws[i] <= MAX_WEIGHT
  }

  /** Training moves the output for the recorded history towards the outcome, by exactly the number of
      weights that are not saturated. */
  lemma {:induction false} TrainingMovesTowards(ws: seq<int>, history: nat, taken: bool, n: nat)
    requires WeightsOk(ws) && n <= HISTORY
    ensures Output(Trained(ws, history, taken), history, n) ==
      Output(ws, history, n) + (if taken then 1 else -1) * Movable(ws, history, taken, n)
  {
    if n > 0 {
      TrainingMovesTowards(ws, history, taken, n - 1);
    }
  }

  lemma TrainedOk(ws: seq<int>, history: nat, taken: bool)
    requires WeightsOk(ws)
    ensures WeightsOk(Trained(ws, history, taken))
  {}

  /** Outputs stay within what 25 weights can reach. */
  lemma {:induction false} OutputBounds(ws: seq<int>, history: nat, n: nat)
    requires WeightsOk(ws) && n <= HISTORY
    ensures -128 * (n + 1) <= Output(ws, history, n) <= 128 * (n + 1)
  {
    if n > 0 {
      OutputBounds(ws, history, n - 1);
    }
  }

  /** Training is skipped exactly for a right prediction with an output beyond the threshold. */
  predicate Trains(output: int, taken: bool) {
    !(output > THETA && taken) && !(output < -THETA && !taken)
  }

  /** A misprediction always trains. */
  lemma MispredictionTrains(output: int, taken: bool)
    requires taken != (output >= 0)
    ensures Trains(output, taken)
  {}

  /** Training is left out exactly for a right prediction with an output further than 60 from zero. */
  lemma SkipsExactly(output: int, taken: bool)
    ensures !Trains(output, taken) <==> taken == (output >= 0) && (output > 60 || output < -60)
  {}

  // ----- History registers ------------------------------------------------------------------

  /** A 64-bit register with one more outcome shifted in. */
  function ShiftIn(history: nat, taken: bool): (h: nat)
    ensures h < WORD
  {
    (2 * history + if taken then 1 else 0) % WORD
  }

  /** The register after a sequence of outcomes, the last one most recent. */
  function Register(outcomes: seq<bool>): (h: nat)
    ensures h < WORD
  {
    if outcomes == [] then 0 else ShiftIn(Register(outcomes[..|outcomes| - 1]), outcomes[|outcomes| - 1])
  }

  /** The outcome i branches ago; not taken before the first branch. */
  predicate TakenAgo(outcomes: seq<bool>, i: nat) {
    i < |outcomes| && outcomes[|outcomes| - 1 - i]
  }

  lemma ShiftedBit(h: nat, taken: bool, i: nat)
    ensures Bit(ShiftIn(h, taken), i) == if i >= 64 then 0 else if i > 0 then Bit(h, i - 1) else if taken then 1 else 0
  {
    var x := 2 * h + if taken then 1 else 0;
    Pow64();
    LowBit(x, 64, ShiftIn(h, taken), i);
    assert x / 2 == h;
  }

  /** Bit i of the register is the outcome i branches ago, for the last 64 branches. */
  lemma {:induction false} RegisterBit(outcomes: seq<bool>, i: nat)
    ensures Bit(Register(outcomes), i) == if i < 64 && TakenAgo(outcomes, i) then 1 else 0
  {
    if outcomes == [] {
      BitOfZero(i);
    } else {
      var before, taken := outcomes[..|outcomes| - 1], outcomes[|outcomes| - 1];
      ShiftedBit(Register(before), taken, i);
      if i > 0 {
        var j := i - 1;
        RegisterBit(before, j);
      }
    }
  }

  /** Bias plus the first n weights, weight i + 1 counted for or against by the outcome i branches ago. */
  function Vote(ws: seq<int>, outcomes: seq<bool>, n: nat): int
    requires n < |ws|
  {
    if n == 0 then ws[0] else Vote(ws, outcomes, n - 1) + if TakenAgo(outcomes, n - 1) then ws[n] else -ws[n]
  }

  /** The output for the register is the vote of the last outcomes. */
  lemma {:induction false} OutputIsVote(ws: seq<int>, outcomes: seq<bool>, n: nat)
    requires n < |ws| && n <= 64
    ensures Output(ws, Register(outcomes), n) == Vote(ws, outcomes, n)
  {
    if n > 0 {
      var k := n - 1;
      OutputIsVote(ws, outcomes, k);
      RegisterBit(outcomes, k);
      BitMeans(Register(outcomes), k);
    }
  }

  /** A weight is trained up exactly when its outcome agrees with the new one, the bias when that is taken. */
  lemma TrainedByOutcomes(ws: seq<int>, outcomes: seq<bool>, taken: bool, i: nat)
    requires i < |ws| <= HISTORY + 1
    ensures Trained(ws, Register(outcomes), taken)[i] ==
      Nudge(ws[i], if i == 0 then taken else TakenAgo(outcomes, i - 1) == taken)
  {
    if i > 0 {
      RegisterBit(outcomes, i - 1);
      BitMeans(Register(outcomes), i - 1);
    }
  }

  // ----- The predictor as the program runs it -----------------------------------------------

  /** What a prediction leaves behind for its update. */
  datatype State = State(prediction: bool, output: int, history: nat, perceptron: nat)

  class Predictor {
    const weights: array2<int>
    const states: array<State>
    var counter: nat
    var u: nat
    var specHistory: nat
    var history: nat
    /** The outcomes of all branches so far. */
    ghost var outcomes: seq<bool>
    /** A prediction waits for its update. */
    ghost var pending: bool

    constructor ()
      ensures Valid() && !pending && outcomes == [] && fresh(weights) && fresh(states)
    {
      weights := new int[PERCEPTRONS, HISTORY + 1]((p, i) => 0);
      states := new State[ENTRIES](i => State(false, 0, 0, 0));
      counter, u, specHistory, history := 0, 0, 0, 0;
      outcomes, pending := [], false;
    }

    ghost predicate Shaped()
    {
      weights.Length0 == PERCEPTRONS && weights.Length1 == HISTORY + 1 && states.Length == ENTRIES
    }

    ghost function Weights(p: nat): (ws: seq<int>)
      reads weights
      requires Shaped() && p < PERCEPTRONS
      ensures |ws| == HISTORY + 1 && forall i :: 0 <= i < |ws| ==> ws[i] == weights[p, i]
    {
      seq(HISTORY + 1, i requires 0 <= i < HISTORY + 1 && Shaped() reads weights => weights[p, i])
    }

    /** Between pairs the two registers agree; inside one the speculative register is one prediction
        ahead. */
    ghost predicate Valid()
      reads this, weights, states
    {
      && Shaped() && counter < ENTRIES && u < ENTRIES
      && (forall p :: 0 <= p < PERCEPTRONS ==> WeightsOk(Weights(p)))
      && history == Register(outcomes)
      && (if pending
          then
            && states[u].history == history && states[u].perceptron < PERCEPTRONS
            && states[u].output == Output(Weights(states[u].perceptron), history, HISTORY)
            && states[u].prediction == (states[u].output >= 0)
            && specHistory == ShiftIn(history, states[u].prediction)
          else specHistory == history)
    }

    method DotProduct(index: nat) returns (output: int)
      requires Valid() && index < PERCEPTRONS
      ensures output == Output(Weights(index), specHistory, HISTORY)
    {
      output := weights[index, 0];
      var mask: nat := 1;
      var i := 0;
      while i < HISTORY
        invariant 0 <= i <= HISTORY && mask == Pow2(i) && output == Output(Weights(index), specHistory, i)
      {
        if specHistory / mask % 2 == 1 {
          output := output + weights[index, i + 1];
        } else {
          output := output - weights[index, i + 1];
        }
        mask := 2 * mask;
        i := i + 1;
      }
    }

    /** Predict from the history of real outcomes, and guess one more into the speculative register. */
    method PredictBranch(address: nat) returns (taken: bool)
      requires Valid() && !pending
      modifies this`counter, this`u, this`specHistory, this`pending, states
      ensures Valid() && pending && outcomes == old(outcomes)
      ensures states[u].perceptron == address % PERCEPTRONS && states[u].history == Register(outcomes)
      ensures taken == (Vote(Weights(address % PERCEPTRONS), outcomes, HISTORY) >= 0)
    {
      u := counter;
      counter := counter + 1;
      if counter >= ENTRIES {
        counter := 0;
      }
      var index := address % PERCEPTRONS;
      var output := DotProduct(index);
      OutputIsVote(Weights(index), outcomes, HISTORY);
      states[u] := State(output >= 0, output, specHistory, index);
      specHistory := (2 * specHistory + if states[u].prediction then 1 else 0) % WORD;
      pending := true;
      taken := states[u].prediction;
    }

    /** Train the perceptron of a prediction on the history it saw. */
    method Train(p: nat, seen: nat, taken: bool)
      requires Shaped() && p < PERCEPTRONS && WeightsOk(Weights(p))
      modifies weights
      ensures Weights(p) == Trained(old(Weights(p)), seen, taken)
      ensures forall q :: 0 <= q < PERCEPTRONS && q != p ==> Weights(q) == old(Weights(q))
    {
      ghost var was := Weights(p);
      if taken {
        weights[p, 0] := weights[p, 0] + 1;
      } else {
        weights[p, 0] := weights[p, 0] - 1;
      }
      if weights[p, 0] > MAX_WEIGHT {
        weights[p, 0] := MAX_WEIGHT;
      }
      if weights[p, 0] < MIN_WEIGHT {
        weights[p, 0] := MIN_WEIGHT;
      }
      var mask: nat := 1;
      var i := 0;
      while i < HISTORY
        invariant 0 <= i <= HISTORY && mask == Pow2(i)
        invariant forall j :: 0 <= j <= HISTORY ==>
          weights[p, j] == if j <= i then Nudge(was[j], Strengthens(seen, j, taken)) else was[j]
        invariant forall q, j :: 0 <= q < PERCEPTRONS && q != p && 0 <= j <= HISTORY ==>
          weights[q, j] == old(weights[q, j])
      {
        if (seen / mask % 2 == 1) == taken {
          weights[p, i + 1] := weights[p, i + 1] + 1;
          if weights[p, i + 1] > MAX_WEIGHT {
            weights[p, i + 1] := MAX_WEIGHT;
          }
        } else {
          weights[p, i + 1] := weights[p, i + 1] - 1;
          if weights[p, i + 1] < MIN_WEIGHT {
            weights[p, i + 1] := MIN_WEIGHT;
          }
        }
        mask := 2 * mask;
        i := i + 1;
      }
    }

    /** Record an outcome, repair the speculative register, and train on what the prediction saw. */
    method LastBranchResult(taken: bool)
      requires Valid() && pending
      modifies this`specHistory, this`history, this`outcomes, this`pending, weights
      ensures Valid() && !pending && outcomes == old(outcomes) + [taken]
      ensures specHistory == history == Register(outcomes)
      ensures forall p :: 0 <= p < PERCEPTRONS && !(p == states[u].perceptron && Trains(states[u].output, taken)) ==>
        Weights(p) == old(Weights(p))
      ensures Trains(states[u].output, taken) ==>
        Weights(states[u].perceptron) == Trained(old(Weights(states[u].perceptron)), Register(old(outcomes)), taken)
    {
      history := (2 * history + if taken then 1 else 0) % WORD;
      outcomes := outcomes + [taken];
      assert outcomes[..|outcomes| - 1] == old(outcomes);
      if states[u].prediction != taken {
        specHistory := history;
      }
      pending := false;
      var y := if states[u].output > THETA then 1 else if states[u].output < -THETA then 0 else 2;
      if (y == 1 && taken) || (y == 0 && !taken) {
        return;
      }
      TrainedOk(Weights(states[u].perceptron), states[u].history, taken);
      Train(states[u].perceptron, states[u].history, taken);
    }
  }
}
