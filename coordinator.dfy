/** The PAAC coordinator of main() (3-atari/2-paac/main.py:75-129) as an object whose fields the
    loop updates in place: the score array, the cycle and step counters, the cycle's memory, the
    current histories and the network's parameters. Each method's new state is the Bookkeeping
    function of its old state, so everything proved there holds of the object. */
module Paac {
  import opened Rollout
  import opened Episodes
  import opened Bookkeeping

  class Coordinator {
    const cfg: Config
    /** Per-worker episodic score (line 76), updated in place. */
    const score: array<real>
    var count: nat
    var globalSteps: nat
    /** The current cycle's memory; empty before the first cycle. */
    var memory: seq<Entry>
    var histories: seq<Observation>
    var params: Params
    /** Every row of outcomes the channels have returned, one row per global step. */
    ghost var trace: seq<seq<Outcome>>
    /** The console lines, scalar logs, training calls and checkpoints so far, in order. */
    ghost var events: seq<Event>

    /** The object's state as a value. */
    ghost function State(): Snapshot
      reads this, score
    {
      Snapshot(count, globalSteps, score[..], memory, histories, params, trace, events)
    }

    /** The state between two cycles. */
    ghost predicate Valid()
      reads this, score
    {
      Between(cfg, State())
    }

    /** The state main() sets up before its loop (lines 75-79); `initial` is the freshly built network. */
    constructor (cfg: Config, initial: Params)
      requires cfg.saveInterval > 0
      ensures this.cfg == cfg && fresh(score)
      ensures State() == Initial(cfg, initial)
      ensures Valid()
    {
      this.cfg := cfg;
      globalSteps := 0;
      score := new real[cfg.numEnvs](_ => 0.0);
      count := 0;
      histories := seq(cfg.numEnvs, _ => ZeroObservation());
      memory := [];
      params := initial;
      trace := [];
      events := [];
      new;
      assert score[..] == seq(cfg.numEnvs, _ => 0.0);
      CyclesFromInitial(cfg, initial, 0);
    }

    /** Send each worker its action and receive its answer, worker by worker, over
        zip(parent_conns, actions) (lines 93-100). */
    method Exchange(tick: nat, actions: seq<Action>)
      returns (nextHistories: seq<Observation>, rewards: seq<real>, masks: seq<int>, dones: seq<bool>)
      ensures |nextHistories| == |rewards| == |masks| == |dones|
              == if |actions| < cfg.numEnvs then |actions| else cfg.numEnvs
      ensures forall j :: 0 <= j < |dones| ==>
                var o := cfg.env(tick, j, actions[j]);
                nextHistories[j] == o.nextHistory && rewards[j] == o.reward &&
                masks[j] == MaskOf(o.dead) && dones[j] == o.done
    {
      var width := if |actions| < cfg.numEnvs then |actions| else cfg.numEnvs;
      nextHistories, rewards, masks, dones := [], [], [], [];
      for j := 0 to width
        invariant |nextHistories| == |rewards| == |masks| == |dones| == j
        invariant forall i :: 0 <= i < j ==>
                    var o := cfg.env(tick, i, actions[i]);
                    nextHistories[i] == o.nextHistory && rewards[i] == o.reward &&
                    masks[i] == MaskOf(o.dead) && dones[i] == o.done
      {
        var o := cfg.env(tick, j, actions[j]);
        nextHistories := nextHistories + [o.nextHistory];
        rewards := rewards + [o.reward];
        masks := masks + [MaskOf(o.dead)];
        dones := dones + [o.done];
      }
    }

    /** Add the step's rewards to the scores, then log and reset the score of every done worker
        (lines 102-112). */
    method UpdateScores(rewards: seq<real>, dones: seq<bool>)
      requires score.Length == |rewards| == |dones|
      modifies score, this`events
      ensures forall j :: 0 <= j < score.Length ==>
                score[j] == if dones[j] then 0.0 else old(score[j]) + rewards[j]
      ensures events == old(events) + DoneLog(globalSteps, Plus(old(score[..]), rewards), dones, |dones|)
      ensures score[..] == ResetDone(Plus(old(score[..]), rewards), dones)
    {
      forall j | 0 <= j < score.Length {
        score[j] := score[j] + rewards[j];
      }
      ghost var summed := score[..];
      assert summed == Plus(old(score[..]), rewards);
      ghost var events0 := events;
      for w := 0 to score.Length
        invariant forall j :: 0 <= j < w ==> score[j] == if dones[j] then 0.0 else summed[j]
        invariant forall j :: w <= j < score.Length ==> score[j] == summed[j]
        invariant events == events0 + DoneLog(globalSteps, summed, dones, w)
      {
        if dones[w] {
          events := events + [Printed(globalSteps, w, score[w])];
          if w == 0 {
            events := events + [Scalar(globalSteps, score[w])];
          }
          score[w] := 0.0;
        }
      }
      assert score[..] == ResetDone(summed, dones);
    }

    /** One pass of the `num_step` loop (lines 89-118): forward pass, action sampling, the exchange
        with the workers, the score update and one memory push. */
    method Step(t: nat)
      requires count > 0 && Shaped(cfg, State())
      modifies this, score
      ensures State() == Bookkeeping.Step(cfg, old(State()), t)
    {
      ghost var s := State();
      var tick := (count - 1) * cfg.numStep + t;
      var fwd := cfg.net(params, histories);
      var actions := Actions(cfg, tick, fwd);
      var nextHistories, rewards, masks, dones := Exchange(tick, actions);
      ghost var row := Answers(cfg, tick, actions);
      ExchangeAnswers(cfg, tick, actions, nextHistories, rewards, masks, dones);
      UpdateScores(rewards, dones);
      memory := memory + [Entry(nextHistories, fwd.policies, fwd.values, actions, rewards, masks)];
      histories := nextHistories;
      trace := trace + [row];
    }

    /** One pass of the `while True` body (lines 82-129): a new memory, num_step steps, one
        training call on the transitions, and a checkpoint every save_interval cycles. */
    method Cycle()
      requires Valid()
      modifies this, score
      ensures State() == Bookkeeping.Cycle(cfg, old(State()))
      ensures Valid()
    {
      ghost var s := State();
      count := count + 1;
      memory := [];
      globalSteps := globalSteps + cfg.numEnvs * cfg.numStep;
      assert State() == Begin(cfg, s);
      Gather();
      TrainAndSave();
      CycleKeepsBetween(cfg, s);
    }

    /** The `num_step` loop of a cycle (lines 88-118). Its variable `t` is not the worker loop's
        `w`, so it runs exactly num_step times. */
    method Gather()
      requires count > 0 && Shaped(cfg, State())
      modifies this, score
      ensures State() == Steps(cfg, old(State()), cfg.numStep)
    {
      ghost var b := State();
      for t := 0 to cfg.numStep
        invariant State() == Steps(cfg, b, t)
      {
        Step(t);
      }
    }

    /** The end of a cycle (lines 121-129): train on the transitions, then save a checkpoint when
        count is a multiple of save_interval. */
    method TrainAndSave()
      requires cfg.saveInterval > 0
      modifies this
      ensures State() == Finish(cfg, old(State()))
    {
      var transitions := memory;
      params := cfg.train(params, transitions);
      events := events + [Trained(count, transitions)];
      if count % cfg.saveInterval == 0 {
        events := events + [Saved(count, params)];
      }
    }

    /** `k` passes of the loop. */
    method Run(k: nat)
      requires Valid()
      modifies this, score
      ensures State() == Cycles(cfg, old(State()), k)
      ensures Valid()
    {
      ghost var s := State();
      for c := 0 to k
        invariant State() == Cycles(cfg, s, c) && Valid()
      {
        Cycle();
      }
    }
  }

  /** What the exchange loop collected is, field by field, the channels' answers to the actions. */
  lemma ExchangeAnswers(cfg: Config, tick: nat, actions: seq<Action>, nextHistories: seq<Observation>,
                        rewards: seq<real>, masks: seq<int>, dones: seq<bool>)
    requires |nextHistories| == |rewards| == |masks| == |dones| == |actions|
    requires forall j :: 0 <= j < |dones| ==>
               var o := cfg.env(tick, j, actions[j]);
               nextHistories[j] == o.nextHistory && rewards[j] == o.reward &&
               masks[j] == MaskOf(o.dead) && dones[j] == o.done
    ensures var row := Answers(cfg, tick, actions);
            nextHistories == NextHistories(row) && rewards == Rewards(row) &&
            masks == Masks(row) && dones == Dones(row)
  {
    var row := Answers(cfg, tick, actions);
    assert nextHistories == NextHistories(row);
    assert rewards == Rewards(row);
    assert masks == Masks(row);
    assert dones == Dones(row);
  }

  /** main() run for k cycles: count == k, global_steps == k * num_envs * num_step, k training
      calls, one per cycle, and k / save_interval checkpoints. */
  method Launch(cfg: Config, initial: Params, k: nat) returns (c: Coordinator)
    requires cfg.saveInterval > 0
    ensures c.cfg == cfg && c.State() == Cycles(cfg, Initial(cfg, initial), k) && c.Valid()
    ensures c.count == k && c.globalSteps == k * (cfg.numEnvs * cfg.numStep)
    ensures Count(c.events, TrainKind) == k
    ensures Count(c.events, SaveKind) == k / cfg.saveInterval
  {
    c := new Coordinator(cfg, initial);
    c.Run(k);
    CyclesFromInitial(cfg, initial, k);
  }
}
