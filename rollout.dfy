/** Value types of the PAAC coordinator's rollout bookkeeping (3-atari/2-paac/main.py),
    the continuation mask, the events the coordinator logs, and counts over them. */
module Rollout {

  /** A stacked observation of FrameStack frames of FrameSize x FrameSize pixels, flattened. */
  type Observation = seq<real>
  type Action = int
  /** The network's parameters together with its optimizer's state. */
  type Params = seq<real>

  const FrameStack: nat := 4
  const FrameSize: nat := 84

  /** The all-zero observation the coordinator starts every worker from. */
  function ZeroObservation(): (h: Observation)
    ensures |h| == FrameStack * FrameSize * FrameSize
    ensures forall k :: 0 <= k < |h| ==> h[k] == 0.0
  {
    seq(FrameStack * FrameSize * FrameSize, _ => 0.0)
  }

  /** What one worker's channel returns for one action: (next_history, reward, dead, done). */
  datatype Outcome = Outcome(nextHistory: Observation, reward: real, dead: bool, done: bool)

  /** What one forward pass of the network yields for the whole batch. */
  datatype Forward = Forward(policies: seq<seq<real>>, values: seq<real>)

  /** One memory.push: the step's batch, each field indexed by worker. */
  datatype Entry = Entry(histories: seq<Observation>, policies: seq<seq<real>>, values: seq<real>,
                         actions: seq<Action>, rewards: seq<real>, masks: seq<int>)

  /** The coordinator's outside effects, in the order it performs them. */
  datatype Event =
    | Printed(steps: nat, worker: nat, score: real)   // the console line for a finished episode
    | Scalar(steps: nat, score: real)                 // the 'log/score' scalar, worker 0 only
    | Trained(cycle: nat, transitions: seq<Entry>)    // one call of train_model
    | Saved(cycle: nat, params: Params)               // one checkpoint written

  datatype Kind = PrintKind | ScalarKind | TrainKind | SaveKind

  /** The configuration and the collaborators the coordinator calls but whose code is not modelled:
      the network's forward pass, the action sampler (get_action, `tick` standing for its random
      state), the environment behind worker `j`'s channel and the training step. */
  datatype Config = Config(
    numEnvs: nat, numStep: nat, saveInterval: nat,
    net: (Params, seq<Observation>) -> Forward,
    sample: (nat, Forward, nat) -> Action,
    env: (nat, nat, Action) -> Outcome,
    train: (Params, seq<Entry>) -> Params)

  /** The continuation mask `1 - dead`: zero exactly when a life was lost, whatever `done` says. */
  function MaskOf(dead: bool): (m: int)
    ensures m == 0 <==> dead
    ensures m == 1 <==> !dead
  {
    1 - (if dead then 1 else 0)
  }

  /** Element-wise sum of two score vectors (numpy's `+=` on equal shapes). */
  function Plus(a: seq<real>, b: seq<real>): seq<real>
    requires |a| == |b|
  {
    seq(|a|, i requires 0 <= i < |a| => a[i] + b[i])
  }

  /** The events of one step's reset loop over the first `n` workers: each done worker prints its
      score before reset; worker 0 also writes the scalar log. */
  function DoneLog(steps: nat, summed: seq<real>, dones: seq<bool>, n: nat): seq<Event>
    requires n <= |summed| && n <= |dones|
    decreases n
  {
    if n == 0 then []
    else
      var w := n - 1;
      DoneLog(steps, summed, dones, w) +
        (if dones[w] then [Printed(steps, w, summed[w])] + (if w == 0 then [Scalar(steps, summed[w])] else [])
         else [])
  }

  /** A worker's score is printed exactly when it is done, with the score that includes the step's reward. */
  lemma {:induction false} DoneLogPrinted(steps: nat, summed: seq<real>, dones: seq<bool>, n: nat,
                                          g: nat, w: nat, v: real)
    requires n <= |summed| && n <= |dones|
    ensures Printed(g, w, v) in DoneLog(steps, summed, dones, n)
            <==> g == steps && w < n && dones[w] && v == summed[w]
  {
    if n > 0 {
      DoneLogPrinted(steps, summed, dones, n - 1, g, w, v);
    }
  }

  /** Only worker 0's finished score reaches the scalar log. */
  lemma {:induction false} DoneLogScalar(steps: nat, summed: seq<real>, dones: seq<bool>, n: nat,
                                         g: nat, v: real)
    requires n <= |summed| && n <= |dones|
    ensures Scalar(g, v) in DoneLog(steps, summed, dones, n)
            <==> g == steps && 0 < n && dones[0] && v == summed[0]
  {
    if n > 0 {
      DoneLogScalar(steps, summed, dones, n - 1, g, v);
    }
  }

  /** How many of the first `n` workers are done. */
  function DoneWorkers(dones: seq<bool>, n: nat): nat
    requires n <= |dones|
  {
    if n == 0 then 0 else DoneWorkers(dones, n - 1) + (if dones[n - 1] then 1 else 0)
  }

  function KindOf(e: Event): Kind {
    match e
    case Printed(_, _, _) => PrintKind
    case Scalar(_, _) => ScalarKind
    case Trained(_, _) => TrainKind
    case Saved(_, _) => SaveKind
  }

  /** How many events of kind `k` the log holds. */
  function Count(events: seq<Event>, k: Kind): nat {
    if events == [] then 0
    else Count(events[..|events| - 1], k) + (if KindOf(events[|events| - 1]) == k then 1 else 0)
  }

  lemma {:induction false} CountAppend(a: seq<Event>, b: seq<Event>, k: Kind)
    ensures Count(a + b, k) == Count(a, k) + Count(b, k)
  {
    if b != [] {
      var b' := b[..|b| - 1];
      assert (a + b)[..|a + b| - 1] == a + b';
      assert (a + b)[|a + b| - 1] == b[|b| - 1];
      CountAppend(a, b', k);
    } else {
      assert a + b == a;
    }
  }

  lemma CountSnoc(events: seq<Event>, e: Event)
    ensures forall k :: Count(events + [e], k) == Count(events, k) + (if KindOf(e) == k then 1 else 0)
  {
    assert (events + [e])[..|events|] == events;
  }

  /** The reset loop prints exactly one console line per done worker, and writes one scalar
      exactly when worker 0 is done. */
  lemma {:induction false} DoneLogCounts(steps: nat, summed: seq<real>, dones: seq<bool>, n: nat)
    requires n <= |summed| && n <= |dones|
    ensures Count(DoneLog(steps, summed, dones, n), PrintKind) == DoneWorkers(dones, n)
    ensures Count(DoneLog(steps, summed, dones, n), ScalarKind) == (if n > 0 && dones[0] then 1 else 0)
  {
    if n > 0 {
      var w := n - 1;
      DoneLogCounts(steps, summed, dones, w);
      var scalar := if w == 0 then [Scalar(steps, summed[w])] else [];
      var tail := if dones[w] then [Printed(steps, w, summed[w])] + scalar else [];
      CountAppend(DoneLog(steps, summed, dones, w), tail, PrintKind);
      CountAppend(DoneLog(steps, summed, dones, w), tail, ScalarKind);
      CountAppend([Printed(steps, w, summed[w])], scalar, PrintKind);
      CountAppend([Printed(steps, w, summed[w])], scalar, ScalarKind);
      assert Count([Printed(steps, w, summed[w])], PrintKind) == 1;
      assert Count([Printed(steps, w, summed[w])], ScalarKind) == 0;
      if w == 0 {
        assert Count(scalar, ScalarKind) == 1 && Count(scalar, PrintKind) == 0;
      }
    }
  }

  /** The reset loop only prints and writes scalars, all at the step count it was given. */
  lemma {:induction false} DoneLogKinds(steps: nat, summed: seq<real>, dones: seq<bool>, n: nat)
    requires n <= |summed| && n <= |dones|
    ensures forall e :: e in DoneLog(steps, summed, dones, n) ==> (e.Printed? || e.Scalar?) && e.steps == steps
  {
    if n > 0 {
      DoneLogKinds(steps, summed, dones, n - 1);
    }
  }

  /** A log with no event of kind `k` counts none. */
  lemma {:induction false} CountAbsent(events: seq<Event>, k: Kind)
    requires forall e :: e in events ==> KindOf(e) != k
    ensures Count(events, k) == 0
  {
    if events != [] {
      var prefix := events[..|events| - 1];
      assert forall e :: e in prefix ==> e in events;
      CountAbsent(prefix, k);
    }
  }

  /** The number of cycles among 1..k whose number is a multiple of `interval`. */
  function CheckpointCycles(k: nat, interval: nat): nat
    requires interval > 0
  {
    if k == 0 then 0 else CheckpointCycles(k - 1, interval) + (if k % interval == 0 then 1 else 0)
  }

  /** After k cycles, k / interval checkpoints have been written. */
  lemma {:induction false} CheckpointCyclesClosedForm(k: nat, interval: nat)
    requires interval > 0
    ensures CheckpointCycles(k, interval) == k / interval
  {
    if k > 0 {
      CheckpointCyclesClosedForm(k - 1, interval);
      var q, r := (k - 1) / interval, (k - 1) % interval;
      if r + 1 < interval {
        DivMod(k, interval, q, r + 1);
      } else {
        MulSucc(q, interval);
        DivMod(k, interval, q + 1, 0);
      }
    }
  }

  lemma DivMod(k: nat, d: nat, q: nat, r: nat)
    requires d > 0 && k == q * d + r && r < d
    ensures k / d == q && k % d == r
  {
    var q', r' := k / d, k % d;
    assert (q - q') * d == r' - r;
    if q > q' {
      MulAtLeast(q - q', d);
    } else if q < q' {
      MulAtLeast(q' - q, d);
    }
  }

  lemma MulSucc(c: int, d: int)
    ensures (c + 1) * d == c * d + d
  {
  }

  lemma MulAtLeast(x: int, d: nat)
    requires x >= 1
    ensures x * d >= d
  {
  }
}
