# PAAC coordinator: rollout bookkeeping

The PAAC trainer's `main()` (`3-atari/2-paac/main.py`) drives a batch of `num_envs` Atari
workers. Before its loop it zeroes `global_steps`, a per-worker `score` array, `count`, and an
all-zero stack of `histories` (lines 75-79). Each pass of its `while True` loop is one
*cycle* (lines 81-129):
- it raises `count` by one, starts a fresh `Memory`, and adds `num_envs * num_step` to
  `global_steps`;
- it runs `num_step` *steps*, in each of which it:
  - runs the network on the current histories and samples one action per worker;
  - sends each worker its action and receives `(next_history, reward, dead, done)`, worker by
    worker;
  - adds the rewards to the scores;
  - for every worker that is done, prints its score (worker 0 also logs it as a scalar) and
    resets the score to 0;
  - pushes the batch `(next_histories, policies, values, actions, rewards, 1 - dead)` into the
    memory and carries `next_histories` over as the new histories;
- after the steps it trains the network once on the memory, and it saves a checkpoint when
  `count % save_interval == 0`.

The model has four modules:

- `Rollout`: the value types (an `Outcome` per worker answer, an `Entry` per memory push, the
  `Event`s the coordinator causes), the continuation mask, the reset loop's log and counts
  of events.
- `Episodes`: what the score accumulator makes of one worker's reward stream. The score is the
  reward sum of the episode still open. The value printed at `done` is the whole finished
  episode's return.
- `Bookkeeping`: the coordinator's state as a value (`Snapshot`) and the functions `Step`,
  `Steps`, `Cycle` and `Cycles` that say what a step, a cycle and k cycles make of it.
  `Between` is the invariant that holds between cycles. The lemmas state the bookkeeping's
  guarantees over these functions.
- `Paac`: the class `Coordinator`. Its fields are the source's variables: `score` is an
  `array<real>` updated in place; `count`, `globalSteps`, `memory`, `histories` and the network
  parameters are reassigned. A ghost `trace` records every row of answers received, and a ghost
  `events` records the console lines, scalar logs, training calls and checkpoints. Each method
  ensures that the object's new `State()` is the `Bookkeeping` function of its old state. So
  every lemma about those functions holds of the object.

The network's forward pass, `get_action`, each worker's environment and `train_model` are
collaborators whose code is not part of this model. They are the function-valued fields of
`Config`. The environment and the sampler take the global step index as an argument, standing
for their own internal state (random generators, emulator state).

In the source, the inner loop `for i in range(args.num_envs)` (line 105) reuses the variable
`i` of the outer loop `for i in range(args.num_step)` (line 88). Python's `for` takes its next
value from the `range` iterator, so the reuse does not change how often the outer loop runs.
The model gives the two loops separate variables (`t` in `Coordinator.Gather`, `w` in
`Coordinator.UpdateScores`). `Steps`, `Cycle` and `CycleContents` state that a cycle makes
exactly `num_step` pushes.

The comment at line 104 says only the first environment's death is printed. The code prints
the score of every done worker and writes only worker 0's score to the scalar log. The model
follows the code.

## Model

| member | source | states |
|---|---|---|
| `Rollout.ZeroObservation` | 3-atari/2-paac/main.py:79 | the initial history of a worker is 4 x 84 x 84 values, all zero |
| `Rollout.MaskOf` | 3-atari/2-paac/main.py:99 | the mask `1 - dead` is 0 exactly when a life was lost and 1 otherwise; it takes `dead` only, so `done` cannot affect it |
| `Rollout.DoneLogPrinted` | 3-atari/2-paac/main.py:105-112 | the reset loop prints worker w's score, at the given global_steps, exactly when w is done, and the printed value is the score after this step's reward was added (before the reset) |
| `Rollout.DoneLogScalar` | 3-atari/2-paac/main.py:110-111 | a scalar log is written exactly when worker 0 is done, with worker 0's pending score; no other worker reaches the scalar log |
| `Rollout.DoneLogCounts` | 3-atari/2-paac/main.py:105-112 | the reset loop prints exactly one console line per done worker (as many as there are done workers among the first n) and writes exactly one scalar when worker 0 is done, none otherwise |
| `Rollout.DoneLogKinds` | 3-atari/2-paac/main.py:105-112 | the reset loop only prints and writes scalars, all carrying the global_steps value of the cycle |
| `Rollout.CheckpointCyclesClosedForm` | 3-atari/2-paac/main.py:127 | the number of cycles among 1..k with `count % save_interval == 0` is `k / save_interval` |
| `Episodes.EpisodeStart` | 3-atari/2-paac/main.py:112 | the open episode starts just after the last done step, and no step after it is done |
| `Episodes.AccumulatedIsOpenEpisode` | 3-atari/2-paac/main.py:102-112 | the running score of a worker equals the sum of the rewards received since its last `done` |
| `Episodes.FinishedEpisode` | 3-atari/2-paac/main.py:102-112 | the score printed on a done step is the whole finished episode's return, this step's reward included |
| `Episodes.AccumulatedNonNegative` | 3-atari/2-paac/main.py:102-112 | with non-negative rewards a score is never negative |
| `Episodes.AccumulatedStep` | 3-atari/2-paac/main.py:102-112 | one more row of answers turns a worker's score into 0 if it is done, otherwise into the old score plus its reward |
| `Episodes.PendingIsEpisodeReturn` | 3-atari/2-paac/main.py:102-112 | in a trace, a done worker's pending score at the last step is the return of the episode that step ends |
| `Bookkeeping.Step` | 3-atari/2-paac/main.py:89-118 | a step keeps one score and one history per worker, leaves count, global_steps and the parameters alone, and appends exactly one memory entry and one trace row (num_envs wide) without touching earlier entries |
| `Bookkeeping.Steps` | 3-atari/2-paac/main.py:88-118 | the first k steps append exactly k entries to the memory and k rows to the trace |
| `Bookkeeping.Cycle` | 3-atari/2-paac/main.py:82-129 | a cycle adds one to count and num_envs * num_step to global_steps, and leaves a memory of exactly num_step entries |
| `Bookkeeping.Cycles` | 3-atari/2-paac/main.py:81-129 | k passes of the loop add k to count |
| `Bookkeeping.StepScore` | 3-atari/2-paac/main.py:102-117 | a done worker's score becomes 0, any other's becomes old score + reward; the reward pushed into memory is the raw reward received; the worker's score is printed exactly when it is done, with old score + reward, at the current global_steps |
| `Bookkeeping.StepScalar` | 3-atari/2-paac/main.py:105-112 | a step writes a scalar log exactly when worker 0 is done, with worker 0's old score + reward |
| `Bookkeeping.StepReceived` | 3-atari/2-paac/main.py:89-100 | the pushed entry is index-aligned with the answers: action j was sampled for worker j and sent on channel j, and history, reward and mask j all come from channel j's answer; the network was fed the histories of the step before, and the new histories are the pushed ones |
| `Bookkeeping.StepAccumulates` | 3-atari/2-paac/main.py:102-112 | if every score is its worker's accumulated reward before a step, it still is after it |
| `Bookkeeping.StepLogs` | 3-atari/2-paac/main.py:105-112 | a step's log is the reset-loop log of its pending scores and done flags, at the cycle's global_steps |
| `Bookkeeping.StepKeeps` | 3-atari/2-paac/main.py:88-118 | after each step the memory holds the batches of exactly the steps so far, each as received, and each step's network input is the previous step's pushed histories |
| `Bookkeeping.StepLogged` | 3-atari/2-paac/main.py:102-112 | each step keeps the scores equal to the accumulated rewards and appends its own reset-loop log |
| `Bookkeeping.StepsRoll` | 3-atari/2-paac/main.py:88-118 | after k steps of a cycle: k entries, each the batch received at its global step; the observation chain; scores as accumulated rewards; the log as the k steps' reset-loop logs |
| `Bookkeeping.NextCounters` | 3-atari/2-paac/main.py:82-84 | if global_steps == count * num_envs * num_step before a cycle's head, the relation holds again after it |
| `Bookkeeping.CycleKeepsBetween` | 3-atari/2-paac/main.py:81-129 | the invariant between cycles is preserved: counters related, scores as open-episode sums, memory as the last cycle's batches, one training call per cycle, one checkpoint per multiple of save_interval |
| `Bookkeeping.FinishKeepsBetween` | 3-atari/2-paac/main.py:121-129 | the end of a cycle restores the invariant between cycles from the steps' record |
| `Bookkeeping.RolloutQuiet` | 3-atari/2-paac/main.py:88-118 | no training call and no checkpoint happen during the steps of a cycle |
| `Bookkeeping.FinishTallies` | 3-atari/2-paac/main.py:121-129 | the end of cycle c + 1 adds one training call, and a checkpoint exactly when c + 1 is a multiple of save_interval |
| `Bookkeeping.CycleEventsAt` | 3-atari/2-paac/main.py:105-111 | the steps of a cycle log only console lines and scalars, all at the cycle's global_steps |
| `Bookkeeping.CycleContents` | 3-atari/2-paac/main.py:82-129 | one cycle in full: counters advanced; a fresh memory of exactly num_step batches, each as received at its global step; step t + 1 fed the histories pushed at step t; the log grows by the steps' finished scores, then one training call on the full memory, then a checkpoint exactly when count % save_interval == 0 |
| `Bookkeeping.CyclesFromInitial` | 3-atari/2-paac/main.py:75-84 | after k cycles from the initial state: the invariant holds, count == k, global_steps == k * num_envs * num_step, k training calls and k / save_interval checkpoints |
| `Bookkeeping.CycleLogsAtHead` | 3-atari/2-paac/main.py:109-111 | every score a cycle logs carries the global_steps value set at the cycle's head (k * num_envs * num_step in cycle k, by `CyclesFromInitial`), and the earlier log is untouched |
| `Paac.Coordinator.constructor` | 3-atari/2-paac/main.py:75-79 | the object starts in the initial state: zero counters, zero scores, zero histories, no memory, and the invariant holds |
| `Paac.Coordinator.Exchange` | 3-atari/2-paac/main.py:93-100 | the loop over zip(channels, actions) collects min(num_envs, len(actions)) answers, and element j of each list comes from channel j's answer to `actions[j]`, the mask being `1 - dead` |
| `Paac.ExchangeAnswers` | 3-atari/2-paac/main.py:93-100 | the four lists the exchange loop collects are, field by field, the channels' answers to the actions |
| `Paac.Coordinator.UpdateScores` | 3-atari/2-paac/main.py:102-112 | the score array is updated in place: done workers become 0, others old score + reward; the log grows by the reset loop's lines |
| `Paac.Coordinator.Step` | 3-atari/2-paac/main.py:89-118 | the object's new state is `Bookkeeping.Step` of its old state |
| `Paac.Coordinator.Gather` | 3-atari/2-paac/main.py:88-118 | the step loop, with its own variable, runs exactly num_step steps: the new state is `Bookkeeping.Steps` of the old one for num_step |
| `Paac.Coordinator.TrainAndSave` | 3-atari/2-paac/main.py:121-129 | the new state is `Bookkeeping.Finish` of the old one: one training call on the memory, then a checkpoint when count % save_interval == 0 |
| `Paac.Coordinator.Cycle` | 3-atari/2-paac/main.py:82-129 | the new state is `Bookkeeping.Cycle` of the old one and the invariant between cycles still holds |
| `Paac.Coordinator.Run` | 3-atari/2-paac/main.py:81-129 | k passes of the loop: the new state is `Bookkeeping.Cycles` of the old one for k, and the invariant holds |
| `Paac.Launch` | 3-atari/2-paac/main.py:75-129 | main() run for k cycles ends with count == k, global_steps == k * num_envs * num_step, k training calls and k / save_interval checkpoints |

## Left out

- Argument parsing, `gym.make`, seeding, device selection and printing the sizes (lines 19-50): setup with no bookkeeping in it. Options given without `type=` (`num_envs`, `num_step`, `save_interval`) would arrive as strings from the command line; the model takes them as numbers.
- The `ActorCritic` network, the RMSprop optimizer, `get_action` and `train_model` (lines 13-15, 51-52, 89-90, 122): their code is not part of this model. They are oracles in `Config`, and the optimizer's state is folded into the parameters that `train` returns.
- `EnvWorker` processes and `Pipe` communication (lines 11, 16, 58-70, 95-96): process concurrency. Each channel becomes a deterministic function of the global step index, the worker index and the action.
- `Memory` internals and `memory.sample()` (lines 17, 83, 117, 121): memory.py is not part of this model. The memory is an append-only sequence of entries, and `sample()` is taken to return that sequence unchanged.
- The entropy diagnostic (lines 107-108): floating point computed only for printing. The console line is modelled as (global_steps, worker, score).
- Printing, tensorboard writes, timing, the checkpoint path and `torch.save` (lines 53-56, 86, 109-111, 124-129): I/O. They are kept only as ghost events: a console line, a scalar log and a checkpoint carrying the saved parameters.
- The non-terminating `while True` (line 81): modelled as k cycles (`Coordinator.Run`, `Launch`).
- `save_interval == 0` would raise ZeroDivisionError at line 127: the constructor and the cycle functions require `save_interval > 0`. `saveInterval` is a `nat`, so a negative `save_interval` is not modelled either. In Python it would also save every |save_interval| cycles, because `count % -k == 0` holds exactly when k divides count.
- Tensor shapes and conversions (lines 79, 114-116): an observation is a flat sequence of reals, actions are integers and the per-step batch is a record of sequences.
- Bookkeeping.Actions: `get_action` is assumed to return exactly one action per worker, and the model does not cover the other cases. With k < num_envs actions, `zip` (line 94) collects only k answers (the shortened exchange is what `Coordinator.Exchange` models). Then `score += np.array(rewards)` at line 102 fails with a broadcast error for k = 0 and for 2 <= k < num_envs. For k = 1 it adds worker 0's reward to every score, and `dones[1]` at line 106 then raises IndexError. With more actions than workers the source does not fail: `zip` ignores the extra actions, but line 117 pushes the whole, wider `actions` list into memory.
- Rewards and scores are numpy float64 in the source (line 76); the model uses exact `real`. Nothing proved depends on rounding: `Accumulated` and `Total` add the rewards in the order the source does.
