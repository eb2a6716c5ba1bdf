/** The reward stream of one worker and what the coordinator's score accumulator makes of it
    (3-atari/2-paac/main.py:102-112): a step adds its reward, and a `done` step then resets to 0. */
module Episodes {
  import opened Rollout

  /** Sum of the rewards of a stream of outcomes. */
  function Total(s: seq<Outcome>): real {
    if s == [] then 0.0 else Total(s[..|s| - 1]) + s[|s| - 1].reward
  }

  /** The score a worker holds after the stream `s`, starting from np.zeros: each step first adds
      the reward (line 102), then a done step resets the score to 0 (line 112). */
  function Accumulated(s: seq<Outcome>): real {
    if s == [] then 0.0
    else if s[|s| - 1].done then 0.0
    else Accumulated(s[..|s| - 1]) + s[|s| - 1].reward
  }

  /** Where the episode still open at the end of `s` begins: just past the last done step. */
  function EpisodeStart(s: seq<Outcome>): (k: nat)
    ensures k <= |s|
    ensures k > 0 ==> s[k - 1].done
    ensures forall t :: k <= t < |s| ==> !s[t].done
  {
    if s == [] then 0
    else if s[|s| - 1].done then |s|
    else EpisodeStart(s[..|s| - 1])
  }

  lemma {:induction false} TotalSnoc(s: seq<Outcome>, o: Outcome)
    ensures Total(s + [o]) == Total(s) + o.reward
  {
    assert (s + [o])[..|s + [o]| - 1] == s;
  }

  /** The running score is the sum of the rewards of the open episode, every step since the
      last done flag. */
  lemma {:induction false} AccumulatedIsOpenEpisode(s: seq<Outcome>)
    ensures Accumulated(s) == Total(s[EpisodeStart(s)..])
  {
    if s != [] && !s[|s| - 1].done {
      var p := s[..|s| - 1];
      var k := EpisodeStart(p);
      AccumulatedIsOpenEpisode(p);
      assert s[k..] == p[k..] + [s[|s| - 1]];
      TotalSnoc(p[k..], s[|s| - 1]);
    }
  }

  /** The score logged on a done step, taken after the addition and before the reset, is the whole
      finished episode's undiscounted return, this step's reward included. */
  lemma {:induction false} FinishedEpisode(s: seq<Outcome>)
    requires s != [] && s[|s| - 1].done
    ensures var p := s[..|s| - 1];
            Accumulated(p) + s[|s| - 1].reward == Total(s[EpisodeStart(p)..])
  {
    var p := s[..|s| - 1];
    var k := EpisodeStart(p);
    AccumulatedIsOpenEpisode(p);
    assert s[k..] == p[k..] + [s[|s| - 1]];
    TotalSnoc(p[k..], s[|s| - 1]);
  }

  /** With non-negative rewards the score never goes negative. */
  lemma {:induction false} AccumulatedNonNegative(s: seq<Outcome>)
    requires forall t :: 0 <= t < |s| ==> s[t].reward >= 0.0
    ensures Accumulated(s) >= 0.0
  {
    if s != [] && !s[|s| - 1].done {
      AccumulatedNonNegative(s[..|s| - 1]);
    }
  }

  /** Every step of the trace holds one outcome per worker. */
  ghost predicate Rect(trace: seq<seq<Outcome>>, n: nat) {
    forall t :: 0 <= t < |trace| ==> |trace[t]| == n
  }

  /** Worker w's own stream of outcomes out of the trace. */
  function Column(trace: seq<seq<Outcome>>, n: nat, w: nat): seq<Outcome>
    requires Rect(trace, n) && w < n
  {
    seq(|trace|, t requires 0 <= t < |trace| => trace[t][w])
  }

  /** One more step of the trace moves each worker's score by the rule of lines 102 and 112. */
  lemma {:induction false} AccumulatedStep(trace: seq<seq<Outcome>>, row: seq<Outcome>, n: nat, w: nat)
    requires Rect(trace, n) && |row| == n && w < n
    ensures Rect(trace + [row], n)
    ensures Accumulated(Column(trace + [row], n, w))
            == if row[w].done then 0.0 else Accumulated(Column(trace, n, w)) + row[w].reward
  {
    var c := Column(trace + [row], n, w);
    assert c[..|c| - 1] == Column(trace, n, w);
    assert c[|c| - 1] == row[w];
  }

  /** The scores of the trace's last step after the addition and before the reset. */
  function Pending(trace: seq<seq<Outcome>>, n: nat): seq<real>
    requires |trace| > 0 && Rect(trace, n)
  {
    var prior := trace[..|trace| - 1];
    seq(n, w requires 0 <= w < n => Accumulated(Column(prior, n, w)) + trace[|trace| - 1][w].reward)
  }

  /** The done flags of the trace's last step. */
  function LastDones(trace: seq<seq<Outcome>>, n: nat): seq<bool>
    requires |trace| > 0 && Rect(trace, n)
  {
    seq(n, w requires 0 <= w < n => trace[|trace| - 1][w].done)
  }

  /** A done worker's pending score is the return of the episode it just finished. */
  lemma {:induction false} PendingIsEpisodeReturn(trace: seq<seq<Outcome>>, n: nat, w: nat)
    requires |trace| > 0 && Rect(trace, n) && w < n && trace[|trace| - 1][w].done
    ensures var c := Column(trace, n, w);
            Pending(trace, n)[w] == Total(c[EpisodeStart(c[..|c| - 1])..])
  {
    var c := Column(trace, n, w);
    assert c[..|c| - 1] == Column(trace[..|trace| - 1], n, w);
    FinishedEpisode(c);
  }
}
