/** The backward recursions of reinforcement learning: generalised advantage estimation
    (crates/ssm-ai/src/ppo.rs:309-333) and discounted returns
    (crates/ssm-ai/src/vectorized_env.rs:143-157). */
module Advantage {
  /** The inputs of an episode: the value estimates and done flags may be longer than the rewards. */
  datatype Episode = Episode(rewards: seq<real>, values: seq<real>, dones: seq<bool>) {
    predicate Valid() { |rewards| <= |values| && |rewards| <= |dones| }
  }

  function Mask(done: bool): real {
    if done then 0.0 else 1.0
  }

  /** What the value estimate of the next step adds to the target. */
  function Bootstrap(gamma: real, nextValue: real, done: bool): real {
    gamma * nextValue * Mask(done)
  }

  /** The one-step error at `t`; nothing follows a done step or the last one. */
  function Delta(e: Episode, gamma: real, t: nat): real
    requires e.Valid() && t < |e.rewards|
  {
    var nextValue := if t + 1 < |e.rewards| then e.values[t + 1] else 0.0;
    e.rewards[t] + Bootstrap(gamma, nextValue, e.dones[t]) - e.values[t]
  }

  function Times(x: real, y: real): real {
    x * y
  }

  function Decay(gamma: real, lam: real): real {
    gamma * lam
  }

  /** What the estimate one step later contributes. */
  function Carry(gamma: real, lam: real, done: bool, gae: real): real {
    Decay(gamma, lam) * Mask(done) * gae
  }

  lemma CarryUntilDone(gamma: real, lam: real, gae: real)
    ensures Carry(gamma, lam, true, gae) == 0.0
    ensures Carry(gamma, lam, false, gae) == Times(Decay(gamma, lam), gae)
    ensures forall nextValue :: Bootstrap(gamma, nextValue, true) == 0.0
  {
  }

  // ---------------------------------------------------------------------
  // Closed forms
  // ---------------------------------------------------------------------

  function Pow(x: real, k: nat): real {
    if k == 0 then 1.0 else x * Pow(x, k - 1)
  }

  function Term(xs: seq<real>, x: real, t: nat, k: nat): real
    requires t + k < |xs|
  {
    Pow(x, k) * xs[t + k]
  }

  /** xs[t] + x * xs[t + 1] + ... , `m` terms. */
  function Discounted(xs: seq<real>, x: real, t: nat, m: nat): real
    requires t + m <= |xs|
  {
    if m == 0 then 0.0 else Discounted(xs, x, t, m - 1) + Term(xs, x, t, m - 1)
  }

  function Deltas(e: Episode, gamma: real): seq<real>
    requires e.Valid()
  {
    seq(|e.rewards|, t requires 0 <= t < |e.rewards| => Delta(e, gamma, t))
  }

  /** How many steps from `t` on count: up to and including the first done one. */
  function Cut(dones: seq<bool>, n: nat, t: nat): (m: nat)
    requires t <= n <= |dones|
    ensures t + m <= n
    ensures forall k :: t <= k < t + m - 1 ==> !dones[k]
    ensures t + m < n ==> 0 < m && dones[t + m - 1]
    decreases n - t
  {
    if t == n then 0 else if dones[t] then 1 else 1 + Cut(dones, n, t + 1)
  }

  lemma {:induction false} DiscountedUnfolds(xs: seq<real>, x: real, t: nat, m: nat)
    requires t + m + 1 <= |xs|
    ensures Discounted(xs, x, t, m + 1) == xs[t] + Times(x, Discounted(xs, x, t + 1, m))
  {
    if m == 0 {
      assert Discounted(xs, x, t, 0) == 0.0 && Pow(x, 0) == 1.0;
    } else {
      DiscountedUnfolds(xs, x, t, m - 1);
      assert Term(xs, x, t, m) == x * Term(xs, x, t + 1, m - 1) by {
        assert Pow(x, m) == x * Pow(x, m - 1);
        assert (x * Pow(x, m - 1)) * xs[t + m] == x * (Pow(x, m - 1) * xs[t + m]);
      }
    }
  }

  /** The advantage at `t`: the discounted sum of the errors from `t` up to and including
      the first done step. */
  function Advantage(e: Episode, gamma: real, lam: real, t: nat): real
    requires e.Valid() && t <= |e.rewards|
  {
    Discounted(Deltas(e, gamma), Decay(gamma, lam), t, Cut(e.dones, |e.rewards|, t))
  }

  lemma OneTerm(xs: seq<real>, x: real, t: nat)
    requires t < |xs|
    ensures Discounted(xs, x, t, 1) == xs[t]
  {
    assert Discounted(xs, x, t, 0) == 0.0 && Pow(x, 0) == 1.0;
  }

  /** The closed form obeys the backward recursion. */
  lemma {:induction false} AdvantageRecursion(e: Episode, gamma: real, lam: real, t: nat)
    requires e.Valid() && t < |e.rewards|
    ensures Advantage(e, gamma, lam, t) ==
      Delta(e, gamma, t) + Carry(gamma, lam, e.dones[t], Advantage(e, gamma, lam, t + 1))
  {
    var xs, x := Deltas(e, gamma), Decay(gamma, lam);
    var rest := Advantage(e, gamma, lam, t + 1);
    CarryUntilDone(gamma, lam, rest);
    assert xs[t] == Delta(e, gamma, t);
    if e.dones[t] {
      assert Cut(e.dones, |e.rewards|, t) == 1;
      OneTerm(xs, x, t);
    } else {
      var m := Cut(e.dones, |e.rewards|, t + 1);
      assert Cut(e.dones, |e.rewards|, t) == m + 1;
      DiscountedUnfolds(xs, x, t, m);
      assert rest == Discounted(xs, x, t + 1, m);
    }
  }

  method ComputeGae(e: Episode, gamma: real, lam: real) returns (advantages: array<real>)
    requires e.Valid()
    ensures fresh(advantages) && advantages.Length == |e.rewards|
    ensures forall t :: 0 <= t < |e.rewards| ==> advantages[t] == Advantage(e, gamma, lam, t)
  {
    var n := |e.rewards|;
    advantages := new real[n](_ => 0.0);
    var gae := 0.0;
    var t := n;
    while t > 0
      invariant 0 <= t <= n && gae == Advantage(e, gamma, lam, t)
      invariant forall i :: t <= i < n ==> advantages[i] == Advantage(e, gamma, lam, i)
    {
      t := t - 1;
      AdvantageRecursion(e, gamma, lam, t);
      var nextValue := if t + 1 < n then e.values[t + 1] else 0.0;
      var delta := e.rewards[t] + Bootstrap(gamma, nextValue, e.dones[t]) - e.values[t];
      gae := delta + Carry(gamma, lam, e.dones[t], gae);
      advantages[t] := gae;
    }
  }

  /** Two episodes that agree from `t` up to a done step have the same advantage at `t`,
      whatever comes later. */
  lemma {:induction false} AdvantageStopsAtDone(a: Episode, b: Episode, gamma: real, lam: real, t: nat, d: nat)
    requires a.Valid() && b.Valid() && t <= d < |a.rewards| && d < |b.rewards|
    requires forall k :: t <= k <= d ==>
      a.rewards[k] == b.rewards[k] && a.values[k] == b.values[k] && a.dones[k] == b.dones[k]
    requires a.dones[d]
    ensures Advantage(a, gamma, lam, t) == Advantage(b, gamma, lam, t)
    decreases d - t
  {
    AdvantageRecursion(a, gamma, lam, t);
    AdvantageRecursion(b, gamma, lam, t);
    if a.dones[t] {
      CarryUntilDone(gamma, lam, Advantage(a, gamma, lam, t + 1));
      CarryUntilDone(gamma, lam, Advantage(b, gamma, lam, t + 1));
    } else {
      AdvantageStopsAtDone(a, b, gamma, lam, t + 1, d);
    }
  }

  // ---------------------------------------------------------------------
  // Returns
  // ---------------------------------------------------------------------

  /** The discounted sum of all rewards from `t` on. */
  function Return(rewards: seq<real>, gamma: real, t: nat): real
    requires t <= |rewards|
  {
    Discounted(rewards, gamma, t, |rewards| - t)
  }

  function Discount(reward: real, gamma: real, rest: real): real {
    reward + Times(gamma, rest)
  }

  lemma ReturnRecursion(rewards: seq<real>, gamma: real, t: nat)
    requires t < |rewards|
    ensures Return(rewards, gamma, t) == Discount(rewards[t], gamma, Return(rewards, gamma, t + 1))
  {
    DiscountedUnfolds(rewards, gamma, t, |rewards| - t - 1);
  }

  method ComputeReturns(rewards: seq<real>, gamma: real) returns (returned: array<real>)
    ensures fresh(returned) && returned.Length == |rewards|
    ensures forall t :: 0 <= t < |rewards| ==> returned[t] == Return(rewards, gamma, t)
  {
    var n := |rewards|;
    returned := new real[n](_ => 0.0);
    if n == 0 {
      return;
    }
    returned[n - 1] := rewards[n - 1];
    OneTerm(rewards, gamma, n - 1);
    var i := n - 1;
    while i > 0
      invariant 0 <= i < n
      invariant forall t :: i <= t < n ==> returned[t] == Return(rewards, gamma, t)
    {
      i := i - 1;
      ReturnRecursion(rewards, gamma, i);
      returned[i] := Discount(rewards[i], gamma, returned[i + 1]);
    }
  }

  /** With lambda 1 and no done step the errors telescope: advantage plus value estimate is
      the discounted return. */
  lemma {:induction false} AdvantagePlusValueIsReturn(e: Episode, gamma: real, t: nat)
    requires e.Valid() && t < |e.rewards| && (forall k :: 0 <= k < |e.rewards| ==> !e.dones[k])
    ensures Advantage(e, gamma, 1.0, t) + e.values[t] == Return(e.rewards, gamma, t)
    decreases |e.rewards| - t
  {
    AdvantageRecursion(e, gamma, 1.0, t);
    ReturnRecursion(e.rewards, gamma, t);
    var rest := Advantage(e, gamma, 1.0, t + 1);
    CarryUntilDone(gamma, 1.0, rest);
    assert Decay(gamma, 1.0) == gamma;
    if t + 1 < |e.rewards| {
      AdvantagePlusValueIsReturn(e, gamma, t + 1);
      assert gamma * (rest + e.values[t + 1]) == gamma * rest + gamma * e.values[t + 1];
    } else {
      assert rest == 0.0 && Return(e.rewards, gamma, t + 1) == 0.0;
    }
  }

  /** One step of the recursion in figures: the reward, the discounted next value and the
      discounted, decayed next advantage, both dropped after a done step, less the value. */
  lemma {:induction false} AdvantageStep(e: Episode, gamma: real, lam: real, t: nat)
    requires e.Valid() && t < |e.rewards|
    ensures var nextValue := if t + 1 < |e.rewards| then e.values[t + 1] else 0.0;
      var next := Advantage(e, gamma, lam, t + 1);
      Advantage(e, gamma, lam, t) ==
        if e.dones[t] then e.rewards[t] - e.values[t]
        else e.rewards[t] + gamma * nextValue - e.values[t] + gamma * lam * next
    ensures Advantage(e, gamma, lam, |e.rewards|) == 0.0
  {
    AdvantageRecursion(e, gamma, lam, t);
  }

  /** The return in figures. */
  lemma {:induction false} ReturnStep(rewards: seq<real>, gamma: real, t: nat)
    requires t < |rewards|
    ensures Return(rewards, gamma, t) == rewards[t] + gamma * Return(rewards, gamma, t + 1)
    ensures Return(rewards, gamma, |rewards|) == 0.0
  {
    ReturnRecursion(rewards, gamma, t);
  }
}
