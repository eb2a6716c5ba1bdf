/** The coordinator's state as a value, and what one step, one cycle and k cycles of main()'s loop
    (3-atari/2-paac/main.py:75-129) make of it; the lemmas state what that bookkeeping guarantees. */
module Bookkeeping {
  import opened Rollout
  import opened Episodes

  /** The coordinator's variables; `trace` (every row of answers received) and `events` (what was
      logged, trained and saved) record what it did. */
  datatype Snapshot = Snapshot(count: nat, globalSteps: nat, score: seq<real>, memory: seq<Entry>,
                               histories: seq<Observation>, params: Params,
                               trace: seq<seq<Outcome>>, events: seq<Event>)

  /** The state set up before the loop (lines 75-79); before the first cycle there is no memory. */
  function Initial(cfg: Config, p: Params): Snapshot {
    Snapshot(0, 0, seq(cfg.numEnvs, _ => 0.0), [], seq(cfg.numEnvs, _ => ZeroObservation()), p, [], [])
  }

  /** One score and one history per worker. */
  predicate Shaped(cfg: Config, s: Snapshot) {
    |s.score| == cfg.numEnvs && |s.histories| == cfg.numEnvs
  }

  /** get_action (line 90): one sampled action per worker. */
  function Actions(cfg: Config, tick: nat, fwd: Forward): seq<Action> {
    seq(cfg.numEnvs, j requires 0 <= j < cfg.numEnvs => cfg.sample(tick, fwd, j))
  }

  /** The answers of the workers' channels to `actions`, channel j answering `actions[j]`. */
  function Answers(cfg: Config, tick: nat, actions: seq<Action>): seq<Outcome> {
    seq(|actions|, j requires 0 <= j < |actions| => cfg.env(tick, j, actions[j]))
  }

  function NextHistories(row: seq<Outcome>): seq<Observation> {
    seq(|row|, j requires 0 <= j < |row| => row[j].nextHistory)
  }

  function Rewards(row: seq<Outcome>): seq<real> {
    seq(|row|, j requires 0 <= j < |row| => row[j].reward)
  }

  function Masks(row: seq<Outcome>): seq<int> {
    seq(|row|, j requires 0 <= j < |row| => MaskOf(row[j].dead))
  }

  function Dones(row: seq<Outcome>): seq<bool> {
    seq(|row|, j requires 0 <= j < |row| => row[j].done)
  }

  /** The scores after the reset loop (lines 105-112). */
  function ResetDone(summed: seq<real>, dones: seq<bool>): seq<real>
    requires |summed| == |dones|
  {
    seq(|summed|, j requires 0 <= j < |summed| => if dones[j] then 0.0 else summed[j])
  }

  /** The global step index of step `t` of the current cycle. */
  function Tick(cfg: Config, s: Snapshot, t: nat): nat
    requires s.count > 0
  {
    (s.count - 1) * cfg.numStep + t
  }

  /** Step `t` of the `num_step` loop (lines 89-118). */
  function Step(cfg: Config, s: Snapshot, t: nat): (r: Snapshot)
    requires Shaped(cfg, s) && s.count > 0
    ensures Shaped(cfg, r)
    ensures r.count == s.count && r.globalSteps == s.globalSteps && r.params == s.params
    ensures |r.memory| == |s.memory| + 1 && r.memory[..|s.memory|] == s.memory
    ensures |r.trace| == |s.trace| + 1 && r.trace[..|s.trace|] == s.trace
    ensures |r.trace[|s.trace|]| == cfg.numEnvs
  {
    var tick := Tick(cfg, s, t);
    var fwd := cfg.net(s.params, s.histories);
    var actions := Actions(cfg, tick, fwd);
    var row := Answers(cfg, tick, actions);
    var summed := Plus(s.score, Rewards(row));
    s.(score := ResetDone(summed, Dones(row)),
       memory := s.memory + [Entry(NextHistories(row), fwd.policies, fwd.values, actions, Rewards(row), Masks(row))],
       histories := NextHistories(row),
       trace := s.trace + [row],
       events := s.events + DoneLog(s.globalSteps, summed, Dones(row), cfg.numEnvs))
  }

  /** The first `k` steps of a cycle. */
  function Steps(cfg: Config, s: Snapshot, k: nat): (r: Snapshot)
    requires Shaped(cfg, s) && s.count > 0
    ensures Shaped(cfg, r)
    ensures r.count == s.count && r.globalSteps == s.globalSteps && r.params == s.params
    ensures |r.memory| == |s.memory| + k && |r.trace| == |s.trace| + k
    ensures Rect(s.trace, cfg.numEnvs) ==> Rect(r.trace, cfg.numEnvs)
    decreases k
  {
    if k == 0 then s else Step(cfg, Steps(cfg, s, k - 1), k - 1)
  }

  /** The head of a cycle (lines 82-84). */
  function Begin(cfg: Config, s: Snapshot): Snapshot {
    s.(count := s.count + 1, memory := [], globalSteps := s.globalSteps + cfg.numEnvs * cfg.numStep)
  }

  /** The end of a cycle (lines 121-129): one training call on the memory, then a checkpoint when
      the cycle's number is a multiple of save_interval. */
  function Finish(cfg: Config, s: Snapshot): Snapshot
    requires cfg.saveInterval > 0
  {
    var p := cfg.train(s.params, s.memory);
    var trained := s.events + [Trained(s.count, s.memory)];
    s.(params := p, events := if s.count % cfg.saveInterval == 0 then trained + [Saved(s.count, p)] else trained)
  }

  /** One pass of the `while True` body (lines 82-129). */
  function Cycle(cfg: Config, s: Snapshot): (r: Snapshot)
    requires Shaped(cfg, s) && cfg.saveInterval > 0
    ensures Shaped(cfg, r)
    ensures r.count == s.count + 1 && r.globalSteps == s.globalSteps + cfg.numEnvs * cfg.numStep
    ensures |r.memory| == cfg.numStep && |r.trace| == |s.trace| + cfg.numStep
    ensures Rect(s.trace, cfg.numEnvs) ==> Rect(r.trace, cfg.numEnvs)
  {
    Finish(cfg, Steps(cfg, Begin(cfg, s), cfg.numStep))
  }

  /** `k` passes of the loop: each begins one more cycle and pushes num_step more rows. */
  function Cycles(cfg: Config, s: Snapshot, k: nat): (r: Snapshot)
    requires Shaped(cfg, s) && cfg.saveInterval > 0
    ensures Shaped(cfg, r)
    ensures r.count == s.count + k
    ensures Rect(s.trace, cfg.numEnvs) ==> Rect(r.trace, cfg.numEnvs)
    decreases k
  {
    if k == 0 then s else Cycle(cfg, Cycles(cfg, s, k - 1))
  }

  // ---------------------------------------------------------------------------------------------
  // What the bookkeeping guarantees

  /** Entry `e` is the batch of global step `tick`, and `row` is what the channels returned for it:
      worker j was sent `e.actions[j]`, and the j-th history, reward and mask all come from
      channel j's answer. The mask depends on `dead` only. */
  ghost predicate Received(cfg: Config, tick: nat, e: Entry, row: seq<Outcome>) {
    var n := cfg.numEnvs;
    |e.histories| == n && |e.actions| == n && |e.rewards| == n && |e.masks| == n && |row| == n &&
    forall j :: 0 <= j < n ==>
      e.actions[j] == cfg.sample(tick, Forward(e.policies, e.values), j) &&
      row[j] == cfg.env(tick, j, e.actions[j]) &&
      e.histories[j] == row[j].nextHistory &&
      e.rewards[j] == row[j].reward &&
      e.masks[j] == MaskOf(row[j].dead)
  }

  /** The memory holds the batches of the trace's steps from `tick0` on, one entry per step. */
  ghost predicate Recorded(cfg: Config, tick0: nat, memory: seq<Entry>, trace: seq<seq<Outcome>>) {
    |trace| == tick0 + |memory| &&
    forall t :: 0 <= t < |memory| ==> Received(cfg, tick0 + t, memory[t], trace[tick0 + t])
  }

  /** Each step's network input is the histories pushed at the step before, the first step's
      being `start`; all steps use parameters `p`. */
  ghost predicate Chained(cfg: Config, p: Params, start: seq<Observation>, memory: seq<Entry>) {
    forall t {:trigger InputOf(start, memory, t)} :: 0 <= t < |memory| ==>
      Forward(memory[t].policies, memory[t].values) == cfg.net(p, InputOf(start, memory, t))
  }

  /** The histories the network is fed at step t: those pushed at step t - 1, `start` at step 0. */
  function InputOf(start: seq<Observation>, memory: seq<Entry>, t: nat): seq<Observation>
    requires t <= |memory|
  {
    if t == 0 then start else memory[t - 1].histories
  }

  /** The log of the last `steps` steps of the trace, all at step count `steps0`. */
  ghost function CycleEvents(steps0: nat, trace: seq<seq<Outcome>>, n: nat, steps: nat): seq<Event>
    requires steps <= |trace| && Rect(trace, n)
    decreases steps
  {
    if steps == 0 then []
    else
      CycleEvents(steps0, trace[..|trace| - 1], n, steps - 1)
        + DoneLog(steps0, Pending(trace, n), LastDones(trace, n), n)
  }

  /** The state between two cycles: the counters agree (count cycles begun, global_steps =
      count * num_envs * num_step), each score is the reward sum of its worker's open episode,
      the memory holds the last cycle's num_step batches exactly as received, and there has been
      one training call per cycle and one checkpoint per multiple of save_interval. */
  ghost predicate Between(cfg: Config, s: Snapshot) {
    var n, steps := cfg.numEnvs, cfg.numStep;
    cfg.saveInterval > 0 && Shaped(cfg, s) &&
    s.globalSteps == s.count * (n * steps) &&
    |s.trace| == s.count * steps && Rect(s.trace, n) &&
    (forall w :: 0 <= w < n ==> s.score[w] == Accumulated(Column(s.trace, n, w))) &&
    (if s.count == 0 then s.memory == []
     else |s.memory| == steps && Recorded(cfg, (s.count - 1) * steps, s.memory, s.trace)) &&
    Count(s.events, TrainKind) == s.count &&
    Count(s.events, SaveKind) == CheckpointCycles(s.count, cfg.saveInterval)
  }

  /** Score update of one step: a done worker's score becomes 0, any other's grows by the reward it
      received; the reward pushed into memory is the one received, whatever the reset did; and a
      worker's score is printed exactly when it is done, with the value before the reset. */
  lemma StepScore(cfg: Config, s: Snapshot, t: nat, w: nat, g: nat, v: real)
    requires Shaped(cfg, s) && s.count > 0 && w < cfg.numEnvs
    ensures var r := Step(cfg, s, t);
            var o := r.trace[|s.trace|][w];
            r.memory[|s.memory|].rewards[w] == o.reward &&
            r.score[w] == (if o.done then 0.0 else s.score[w] + o.reward) &&
            ((Printed(g, w, v) in r.events[|s.events|..])
               <==> (g == s.globalSteps && o.done && v == s.score[w] + o.reward))
  {
    var r := Step(cfg, s, t);
    var tick := Tick(cfg, s, t);
    var row := Answers(cfg, tick, Actions(cfg, tick, cfg.net(s.params, s.histories)));
    var summed := Plus(s.score, Rewards(row));
    assert r.events[|s.events|..] == DoneLog(s.globalSteps, summed, Dones(row), cfg.numEnvs);
    DoneLogPrinted(s.globalSteps, summed, Dones(row), cfg.numEnvs, g, w, v);
  }

  /** Only worker 0's finished score goes to the scalar log. */
  lemma StepScalar(cfg: Config, s: Snapshot, t: nat, g: nat, v: real)
    requires Shaped(cfg, s) && s.count > 0
    ensures var r := Step(cfg, s, t);
            (Scalar(g, v) in r.events[|s.events|..])
              <==> (cfg.numEnvs > 0 && g == s.globalSteps && r.trace[|s.trace|][0].done
                    && v == s.score[0] + r.trace[|s.trace|][0].reward)
  {
    var r := Step(cfg, s, t);
    var tick := Tick(cfg, s, t);
    var row := Answers(cfg, tick, Actions(cfg, tick, cfg.net(s.params, s.histories)));
    var summed := Plus(s.score, Rewards(row));
    assert r.events[|s.events|..] == DoneLog(s.globalSteps, summed, Dones(row), cfg.numEnvs);
    DoneLogScalar(s.globalSteps, summed, Dones(row), cfg.numEnvs, g, v);
  }

  lemma {:induction false} ExtendRecorded(cfg: Config, tick0: nat, memory: seq<Entry>, trace: seq<seq<Outcome>>,
                                          e: Entry, row: seq<Outcome>)
    requires Recorded(cfg, tick0, memory, trace) && Received(cfg, |trace|, e, row)
    ensures Recorded(cfg, tick0, memory + [e], trace + [row])
  {
    forall t | 0 <= t < |memory| + 1
      ensures Received(cfg, tick0 + t, (memory + [e])[t], (trace + [row])[tick0 + t])
    {
      if t < |memory| {
        assert (memory + [e])[t] == memory[t] && (trace + [row])[tick0 + t] == trace[tick0 + t];
      }
    }
  }

  lemma {:induction false} ExtendChained(cfg: Config, p: Params, start: seq<Observation>, memory: seq<Entry>, e: Entry)
    requires Chained(cfg, p, start, memory)
    requires Forward(e.policies, e.values) == cfg.net(p, InputOf(start, memory, |memory|))
    ensures Chained(cfg, p, start, memory + [e])
  {
    var m := memory + [e];
    forall t | 0 <= t < |m|
      ensures Forward(m[t].policies, m[t].values) == cfg.net(p, InputOf(start, m, t))
    {
      if t < |memory| {
        assert m[t] == memory[t];
        assert InputOf(start, m, t) == InputOf(start, memory, t);
      } else {
        assert m[t] == e;
        assert InputOf(start, m, t) == InputOf(start, memory, |memory|);
      }
    }
  }

  /** One more step appends that step's reset-loop log. */
  lemma {:induction false} ExtendCycleEvents(steps0: nat, trace: seq<seq<Outcome>>, row: seq<Outcome>, n: nat,
                                             t: nat, summed: seq<real>, dones: seq<bool>)
    requires t <= |trace| && Rect(trace, n) && |row| == n
    requires |summed| == n && |dones| == n
    requires forall w :: 0 <= w < n ==> summed[w] == Accumulated(Column(trace, n, w)) + row[w].reward
    requires forall w :: 0 <= w < n ==> dones[w] == row[w].done
    ensures Rect(trace + [row], n)
    ensures CycleEvents(steps0, trace + [row], n, t + 1)
            == CycleEvents(steps0, trace, n, t) + DoneLog(steps0, summed, dones, n)
  {
    var tr := trace + [row];
    assert tr[..|tr| - 1] == trace;
    assert Pending(tr, n) == summed;
    assert LastDones(tr, n) == dones;
  }

  /** What the steps of a cycle so far have done, `b` being the state at the cycle's head. */
  ghost predicate Rolled(cfg: Config, b: Snapshot, k: nat, r: Snapshot) {
    Kept(cfg, b, k, r) && Logged(cfg, b, k, r)
  }

  /** After k steps: the trace has grown by k rows, the memory holds their k batches, and each
      step fed the network the histories of the step before. */
  ghost predicate Kept(cfg: Config, b: Snapshot, k: nat, r: Snapshot) {
    Rect(r.trace, cfg.numEnvs) && |r.trace| == |b.trace| + k && r.trace[..|b.trace|] == b.trace &&
    |r.memory| == k && Recorded(cfg, |b.trace|, r.memory, r.trace) &&
    Chained(cfg, b.params, b.histories, r.memory) &&
    r.histories == InputOf(b.histories, r.memory, k)
  }

  /** After k steps: each score is its worker's accumulated reward, and the log has grown by the
      reset-loop logs of the k steps. */
  ghost predicate Logged(cfg: Config, b: Snapshot, k: nat, r: Snapshot) {
    var n := cfg.numEnvs;
    Rect(r.trace, n) && k <= |r.trace| && |r.score| == n &&
    (forall w :: 0 <= w < n ==> r.score[w] == Accumulated(Column(r.trace, n, w))) &&
    r.events == b.events + CycleEvents(b.globalSteps, r.trace, n, k)
  }

  /** The batch a step pushes is index-aligned with the answers it received: worker j was sent
      `actions[j]`, and the j-th history, reward and mask are channel j's answer; the network was
      fed the histories of the step before, which the step then replaces by the new ones. */
  lemma StepReceived(cfg: Config, s: Snapshot, t: nat)
    requires Shaped(cfg, s) && s.count > 0
    ensures var r := Step(cfg, s, t);
            var e := r.memory[|s.memory|];
            Received(cfg, Tick(cfg, s, t), e, r.trace[|s.trace|]) &&
            Forward(e.policies, e.values) == cfg.net(s.params, s.histories) &&
            r.histories == e.histories
  {
  }

  /** One step moves each worker's score as its episode's reward sum. */
  lemma StepAccumulates(cfg: Config, s: Snapshot, t: nat)
    requires Shaped(cfg, s) && s.count > 0 && Rect(s.trace, cfg.numEnvs)
    requires forall w :: 0 <= w < cfg.numEnvs ==> s.score[w] == Accumulated(Column(s.trace, cfg.numEnvs, w))
    ensures var r := Step(cfg, s, t);
            Rect(r.trace, cfg.numEnvs) &&
            forall w :: 0 <= w < cfg.numEnvs ==> r.score[w] == Accumulated(Column(r.trace, cfg.numEnvs, w))
  {
    var r := Step(cfg, s, t);
    var row := r.trace[|s.trace|];
    assert r.trace == s.trace + [row];
    forall w | 0 <= w < cfg.numEnvs
      ensures r.score[w] == Accumulated(Column(r.trace, cfg.numEnvs, w))
    {
      AccumulatedStep(s.trace, row, cfg.numEnvs, w);
    }
  }

  /** One step logs the pending scores of its done workers, all at the cycle's global_steps. */
  lemma StepLogs(cfg: Config, s: Snapshot, t: nat, k: nat)
    requires Shaped(cfg, s) && s.count > 0 && Rect(s.trace, cfg.numEnvs) && k <= |s.trace|
    requires forall w :: 0 <= w < cfg.numEnvs ==> s.score[w] == Accumulated(Column(s.trace, cfg.numEnvs, w))
    ensures var r := Step(cfg, s, t);
            Rect(r.trace, cfg.numEnvs) &&
            CycleEvents(s.globalSteps, r.trace, cfg.numEnvs, k + 1)
              == CycleEvents(s.globalSteps, s.trace, cfg.numEnvs, k) + r.events[|s.events|..]
  {
    var r := Step(cfg, s, t);
    var n := cfg.numEnvs;
    var tick := Tick(cfg, s, t);
    var row := Answers(cfg, tick, Actions(cfg, tick, cfg.net(s.params, s.histories)));
    assert r.trace == s.trace + [row];
    var summed := Plus(s.score, Rewards(row));
    assert r.events[|s.events|..] == DoneLog(s.globalSteps, summed, Dones(row), n);
    ExtendCycleEvents(s.globalSteps, s.trace, row, n, k, summed, Dones(row));
  }

  /** One step pushes the batch of the step's global index and feeds the network the histories
      of the step before. */
  lemma StepKeeps(cfg: Config, b: Snapshot, k: nat, s: Snapshot)
    requires Shaped(cfg, s) && s.count > 0 && |b.trace| == (s.count - 1) * cfg.numStep
    requires Kept(cfg, b, k, s) && s.params == b.params
    ensures Kept(cfg, b, k + 1, Step(cfg, s, k))
  {
    var r := Step(cfg, s, k);
    var e := r.memory[|s.memory|];
    var row := r.trace[|s.trace|];
    assert r.memory == s.memory + [e] && r.trace == s.trace + [row];
    StepReceived(cfg, s, k);
    assert Tick(cfg, s, k) == |s.trace|;
    ExtendRecorded(cfg, |b.trace|, s.memory, s.trace, e, row);
    ExtendChained(cfg, b.params, b.histories, s.memory, e);
    assert r.trace[..|b.trace|] == s.trace[..|b.trace|];
  }

  /** One step keeps the scores and the log of the cycle so far. */
  lemma StepLogged(cfg: Config, b: Snapshot, k: nat, s: Snapshot)
    requires Shaped(cfg, s) && s.count > 0
    requires Logged(cfg, b, k, s) && s.globalSteps == b.globalSteps
    ensures Logged(cfg, b, k + 1, Step(cfg, s, k))
  {
    StepAccumulates(cfg, s, k);
    StepLogs(cfg, s, k, k);
  }

  /** The steps of a cycle keep the rollout's record. */
  lemma {:induction false} StepsRoll(cfg: Config, b: Snapshot, k: nat)
    requires Shaped(cfg, b) && b.count > 0 && |b.trace| == (b.count - 1) * cfg.numStep && b.memory == []
    requires Rect(b.trace, cfg.numEnvs)
    requires forall w :: 0 <= w < cfg.numEnvs ==> b.score[w] == Accumulated(Column(b.trace, cfg.numEnvs, w))
    ensures Rolled(cfg, b, k, Steps(cfg, b, k))
    decreases k
  {
    if k == 0 {
      assert b.trace[..|b.trace|] == b.trace;
    } else {
      StepsRoll(cfg, b, k - 1);
      StepKeeps(cfg, b, k - 1, Steps(cfg, b, k - 1));
      StepLogged(cfg, b, k - 1, Steps(cfg, b, k - 1));
    }
  }

  /** The counters' relation survives one cycle. */
  lemma NextCounters(count: nat, n: nat, steps: nat, ticks: int, globalSteps: int)
    requires ticks == count * steps && globalSteps == count * (n * steps)
    ensures ticks + steps == (count + 1) * steps
    ensures globalSteps + n * steps == (count + 1) * (n * steps)
  {
    MulSucc(count, steps);
    MulSucc(count, n * steps);
  }

  /** A cycle keeps the state between cycles consistent. */
  lemma CycleKeepsBetween(cfg: Config, s: Snapshot)
    requires Between(cfg, s)
    ensures Between(cfg, Cycle(cfg, s))
  {
    var b := Begin(cfg, s);
    var m := Steps(cfg, b, cfg.numStep);
    StepsRoll(cfg, b, cfg.numStep);
    FinishKeepsBetween(cfg, s, m);
  }

  /** The end of a cycle whose steps have kept the rollout's record restores the state between cycles. */
  lemma FinishKeepsBetween(cfg: Config, s: Snapshot, m: Snapshot)
    requires Between(cfg, s)
    requires Rolled(cfg, Begin(cfg, s), cfg.numStep, m) && Shaped(cfg, m)
    requires m.count == s.count + 1 && m.globalSteps == s.globalSteps + cfg.numEnvs * cfg.numStep
    ensures Between(cfg, Finish(cfg, m))
  {
    var n, steps := cfg.numEnvs, cfg.numStep;
    var r := Finish(cfg, m);
    NextCounters(s.count, n, steps, |s.trace|, s.globalSteps);
    assert Recorded(cfg, (r.count - 1) * steps, r.memory, r.trace);
    RolloutQuiet(s.events, s.globalSteps + n * steps, m.trace, n, steps, m.events);
    FinishTallies(cfg, m, s.count);
  }

  /** A rollout's log adds no training call and no checkpoint to the events before it. */
  lemma RolloutQuiet(events: seq<Event>, steps0: nat, trace: seq<seq<Outcome>>, n: nat, steps: nat, after: seq<Event>)
    requires steps <= |trace| && Rect(trace, n)
    requires after == events + CycleEvents(steps0, trace, n, steps)
    ensures Count(after, TrainKind) == Count(events, TrainKind)
    ensures Count(after, SaveKind) == Count(events, SaveKind)
  {
    CycleEventsQuiet(steps0, trace, n, steps);
    CountAppend(events, CycleEvents(steps0, trace, n, steps), TrainKind);
    CountAppend(events, CycleEvents(steps0, trace, n, steps), SaveKind);
  }

  /** The end of cycle c + 1 adds one training call, and one checkpoint when c + 1 is a multiple of
      save_interval. */
  lemma FinishTallies(cfg: Config, m: Snapshot, c: nat)
    requires cfg.saveInterval > 0 && m.count == c + 1
    requires Count(m.events, TrainKind) == c && Count(m.events, SaveKind) == CheckpointCycles(c, cfg.saveInterval)
    ensures Count(Finish(cfg, m).events, TrainKind) == m.count
    ensures Count(Finish(cfg, m).events, SaveKind) == CheckpointCycles(m.count, cfg.saveInterval)
  {
    var r := Finish(cfg, m);
    var trained := m.events + [Trained(m.count, m.memory)];
    CountSnoc(m.events, Trained(m.count, m.memory));
    if m.count % cfg.saveInterval == 0 {
      CountSnoc(trained, Saved(m.count, r.params));
    }
  }

  /** A rollout's log holds console lines and scalars only, all at step count `steps0`. */
  lemma {:induction false} CycleEventsAt(steps0: nat, trace: seq<seq<Outcome>>, n: nat, steps: nat)
    requires steps <= |trace| && Rect(trace, n)
    ensures forall e :: e in CycleEvents(steps0, trace, n, steps) ==> (e.Printed? || e.Scalar?) && e.steps == steps0
  {
    if steps > 0 {
      CycleEventsAt(steps0, trace[..|trace| - 1], n, steps - 1);
      DoneLogKinds(steps0, Pending(trace, n), LastDones(trace, n), n);
    }
  }

  /** Logging during a rollout neither trains nor saves. */
  lemma CycleEventsQuiet(steps0: nat, trace: seq<seq<Outcome>>, n: nat, steps: nat)
    requires steps <= |trace| && Rect(trace, n)
    ensures Count(CycleEvents(steps0, trace, n, steps), TrainKind) == 0
    ensures Count(CycleEvents(steps0, trace, n, steps), SaveKind) == 0
  {
    CycleEventsAt(steps0, trace, n, steps);
    CountAbsent(CycleEvents(steps0, trace, n, steps), TrainKind);
    CountAbsent(CycleEvents(steps0, trace, n, steps), SaveKind);
  }

  /** What one cycle does: count and global_steps advance by 1 and num_envs * num_step; a fresh
      memory receives exactly num_step batches, each index-aligned with the answers of global
      steps |trace| onwards; each step feeds the network the histories pushed by the step before;
      the log gets the finished scores of the steps, all at the new global_steps, then exactly one
      training call on the full memory, then a checkpoint exactly when count % save_interval == 0. */
  lemma CycleContents(cfg: Config, s: Snapshot)
    requires Between(cfg, s)
    ensures var r := Cycle(cfg, s);
            r.count == s.count + 1 &&
            r.globalSteps == s.globalSteps + cfg.numEnvs * cfg.numStep &&
            |r.memory| == cfg.numStep && |r.trace| == |s.trace| + cfg.numStep &&
            r.trace[..|s.trace|] == s.trace &&
            Recorded(cfg, |s.trace|, r.memory, r.trace) &&
            Chained(cfg, s.params, s.histories, r.memory) &&
            r.histories == InputOf(s.histories, r.memory, cfg.numStep) &&
            r.params == cfg.train(s.params, r.memory) &&
            r.events == s.events + CycleEvents(r.globalSteps, r.trace, cfg.numEnvs, cfg.numStep)
                        + [Trained(r.count, r.memory)]
                        + (if r.count % cfg.saveInterval == 0 then [Saved(r.count, r.params)] else [])
  {
    var b := Begin(cfg, s);
    StepsRoll(cfg, b, cfg.numStep);
  }

  /** The state main() has reached when its k-th cycle is over: count == k, global_steps ==
      k * num_envs * num_step, k training calls and k / save_interval checkpoints. */
  lemma {:induction false} CyclesFromInitial(cfg: Config, p: Params, k: nat)
    requires cfg.saveInterval > 0
    ensures var r := Cycles(cfg, Initial(cfg, p), k);
            Between(cfg, r) && r.count == k && r.globalSteps == k * (cfg.numEnvs * cfg.numStep) &&
            Count(r.events, TrainKind) == k && Count(r.events, SaveKind) == k / cfg.saveInterval
  {
    if k == 0 {
      var s := Initial(cfg, p);
      assert Rect(s.trace, cfg.numEnvs);
    } else {
      CyclesFromInitial(cfg, p, k - 1);
      CycleKeepsBetween(cfg, Cycles(cfg, Initial(cfg, p), k - 1));
    }
    CheckpointCyclesClosedForm(k, cfg.saveInterval);
  }

  /** Every score a cycle logs carries the global_steps value set at that cycle's head. */
  lemma CycleLogsAtHead(cfg: Config, s: Snapshot)
    requires Between(cfg, s)
    ensures var r := Cycle(cfg, s);
            |s.events| <= |r.events| && r.events[..|s.events|] == s.events &&
            forall i :: |s.events| <= i < |r.events| && (r.events[i].Printed? || r.events[i].Scalar?) ==>
              r.events[i].steps == r.globalSteps
  {
    var r := Cycle(cfg, s);
    CycleContents(cfg, s);
    var logged := CycleEvents(r.globalSteps, r.trace, cfg.numEnvs, cfg.numStep);
    CycleEventsAt(r.globalSteps, r.trace, cfg.numEnvs, cfg.numStep);
    var tail := [Trained(r.count, r.memory)]
                + (if r.count % cfg.saveInterval == 0 then [Saved(r.count, r.params)] else []);
    SuffixAt(r.events, s.events, logged, tail, r.globalSteps);
  }

  /** The events after `prefix` that are console lines or scalars all come from `logged`. */
  lemma SuffixAt(events: seq<Event>, prefix: seq<Event>, logged: seq<Event>, tail: seq<Event>, g: nat)
    requires events == prefix + logged + tail
    requires forall e :: e in logged ==> (e.Printed? || e.Scalar?) && e.steps == g
    requires forall e :: e in tail ==> e.Trained? || e.Saved?
    ensures |prefix| <= |events| && events[..|prefix|] == prefix
    ensures forall i :: |prefix| <= i < |events| && (events[i].Printed? || events[i].Scalar?) ==> events[i].steps == g
  {
    var middle := |prefix| + |logged|;
    forall i | |prefix| <= i < middle
      ensures (events[i].Printed? || events[i].Scalar?) && events[i].steps == g
    {
      assert events[i] == logged[i - |prefix|] && logged[i - |prefix|] in logged;
    }
    forall i | middle <= i < |events|
      ensures events[i].Trained? || events[i].Saved?
    {
      assert events[i] == tail[i - middle] && tail[i - middle] in tail;
    }
    assert events[..|prefix|] == prefix;
  }
}
