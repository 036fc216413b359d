/** Coroutines that share one RetryPolicy, whose attempt counter each of them resets and raises. */
module RetryInterleaving {
  import opened Wrappers
  import opened Reliability

  datatype Phase = NotStarted | InFlight | Sleeping | Finished(result: Outcome)

  /** The shared counter, where each coroutine is, and how many vendor calls each has made. */
  datatype World = World(attempts: int, phases: seq<Phase>, calls: seq<nat>) {
    predicate Valid() {
      |calls| == |phases|
    }
  }

  /** A coroutine that continues; the reply is used if its vendor call is in flight. */
  datatype Turn = Turn(coroutine: nat, reply: Outcome)

  /** No coroutine has started; the counter holds what earlier runs left in it. */
  function Idle(n: nat, attempts: nat): World {
    World(attempts, seq(n, _ => NotStarted), seq(n, _ => 0))
  }

  predicate Enabled(w: World, turn: Turn) {
    w.Valid() && turn.coroutine < |w.phases| && !w.phases[turn.coroutine].Finished?
  }

  function CallsOut(w: World, i: nat, attempts: int): World
    requires w.Valid() && i < |w.phases|
  {
    World(attempts, w.phases[i := InFlight], w.calls[i := w.calls[i] + 1])
  }

  /** Runs the coroutine up to its next await: of the vendor call or of the backoff sleep. */
  function Step(retries: int, w: World, turn: Turn): (w': World)
    requires Enabled(w, turn)
    ensures w'.Valid() && |w'.phases| == |w.phases|
  {
    var i := turn.coroutine;
    match w.phases[i]
    case NotStarted => CallsOut(w, i, 1)
    case Sleeping => CallsOut(w, i, w.attempts + 1)
    case InFlight =>
      (match turn.reply
       case Returned => w.(phases := w.phases[i := Finished(Returned)])
       case Unexpected => w.(phases := w.phases[i := Finished(Failed(UNEXPECTED))])
       case Failed(error) =>
         if !error.retryable || w.attempts >= retries then w.(phases := w.phases[i := Finished(turn.reply)])
         else w.(phases := w.phases[i := Sleeping]))
  }

  /** Every turn goes to a coroutine that has not finished. */
  predicate Possible(retries: int, w: World, turns: seq<Turn>)
    decreases |turns|
  {
    turns == [] || (Enabled(w, turns[0]) && Possible(retries, Step(retries, w, turns[0]), turns[1..]))
  }

  function Interleaved(retries: int, w: World, turns: seq<Turn>): World
    requires Possible(retries, w, turns)
    decreases |turns|
  {
    if turns == [] then w else Interleaved(retries, Step(retries, w, turns[0]), turns[1..])
  }

  // ----- Every interleaving ends --------------------------------------------------------

  function Sum(phases: seq<Phase>, weight: Phase -> nat): nat {
    if phases == [] then 0 else Sum(phases[..|phases| - 1], weight) + weight(phases[|phases| - 1])
  }

  function Unstarted(p: Phase): nat {
    if p.NotStarted? then 1 else 0
  }

  /** While the counter is below the limit, a failed call goes to sleep. */
  function Below(p: Phase): nat {
    if p.InFlight? then 2 else if p.Sleeping? then 1 else 0
  }

  /** Once the counter has reached the limit, a woken call ends with its reply. */
  function Reached(p: Phase): nat {
    if p.Sleeping? then 2 else if p.InFlight? then 1 else 0
  }

  lemma {:induction false} SumMoved(phases: seq<Phase>, i: nat, p: Phase, weight: Phase -> nat)
    requires i < |phases|
    ensures Sum(phases[i := p], weight) == Sum(phases, weight) - weight(phases[i]) + weight(p)
  {
    var n := |phases| - 1;
    if i < n {
      assert phases[i := p][..n] == phases[..n][i := p];
      SumMoved(phases[..n], i, p, weight);
    } else {
      assert phases[i := p][..n] == phases[..n];
    }
  }

  lemma {:induction false} SumBounded(phases: seq<Phase>, weight: Phase -> nat, most: nat)
    requires forall p :: weight(p) <= most
    ensures Sum(phases, weight) <= most * |phases|
  {
    if phases == [] {
    } else {
      SumBounded(phases[..|phases| - 1], weight, most);
    }
  }

  function Monus(x: int, y: int): nat {
    if x >= y then x - y else 0
  }

  /** What x raises of the counter are worth among n coroutines: each more than all the weights. */
  function RaisesWorth(x: nat, n: nat): nat {
    x * (2 * n + 1)
  }

  /** What a start is worth: more than all that can follow it before the next start. */
  function StartWorth(retries: int, n: nat): nat {
    RaisesWorth(Monus(retries, 1) + 1, n)
  }

  function StartsWorth(x: nat, retries: int, n: nat): nat {
    x * StartWorth(retries, n)
  }

  function Weights(retries: int, w: World): nat {
    if w.attempts < retries then Sum(w.phases, Below) else Sum(w.phases, Reached)
  }

  /** Unstarted coroutines, then raises left, then weights that swap once the limit is reached. */
  function Rank(retries: int, w: World): nat {
    StartsWorth(Sum(w.phases, Unstarted), retries, |w.phases|)
      + RaisesWorth(Monus(retries, w.attempts), |w.phases|) + Weights(retries, w)
  }

  lemma WeightsBounded(retries: int, w: World)
    ensures Weights(retries, w) <= 2 * |w.phases|
  {
    SumBounded(w.phases, Below, 2);
    SumBounded(w.phases, Reached, 2);
  }

  lemma Times(x: nat, y: nat)
    requires x >= 1
    ensures x * y == (x - 1) * y + y
  {}

  lemma WorthNext(x: nat, retries: int, n: nat)
    requires x >= 1
    ensures RaisesWorth(x, n) == RaisesWorth(x - 1, n) + 2 * n + 1
    ensures StartsWorth(x, retries, n) == StartsWorth(x - 1, retries, n) + StartWorth(retries, n)
  {
    Times(x, 2 * n + 1);
    Times(x, StartWorth(retries, n));
  }

  lemma StepDescends(retries: int, w: World, turn: Turn)
    requires Enabled(w, turn)
    ensures Rank(retries, Step(retries, w, turn)) < Rank(retries, w)
  {
    var i, w', n := turn.coroutine, Step(retries, w, turn), |w.phases|;
    SumMoved(w.phases, i, w'.phases[i], Unstarted);
    SumMoved(w.phases, i, w'.phases[i], Below);
    SumMoved(w.phases, i, w'.phases[i], Reached);
    WeightsBounded(retries, w');
    assert w'.phases == w.phases[i := w'.phases[i]];
    hide Sum, StartsWorth, RaisesWorth;
    if w.phases[i].NotStarted? {
      WorthNext(Sum(w.phases, Unstarted), retries, n);
      WorthNext(Monus(retries, 1) + 1, retries, n);
    } else if w.phases[i].Sleeping? && w.attempts < retries {
      WorthNext(Monus(retries, w.attempts), retries, n);
    }
  }

  lemma {:induction false} RankBoundsLength(retries: int, w: World, turns: seq<Turn>)
    requires w.Valid() && Possible(retries, w, turns)
    ensures |turns| <= Rank(retries, w)
    decreases |turns|
  {
    if turns == [] {
    } else {
      StepDescends(retries, w, turns[0]);
      hide Rank, Step;
      RankBoundsLength(retries, Step(retries, w, turns[0]), turns[1..]);
    }
  }

  lemma {:induction false} AllUnstarted(phases: seq<Phase>)
    requires forall i :: 0 <= i < |phases| ==> phases[i].NotStarted?
    ensures Sum(phases, Unstarted) == |phases| && Sum(phases, Below) == Sum(phases, Reached) == 0
  {
    if phases == [] {
    } else {
      AllUnstarted(phases[..|phases| - 1]);
    }
  }

  /** However n coroutines interleave, and whatever the vendor replies, they take at most this
      many turns together. */
  lemma {:induction false} EveryInterleavingEnds(retries: int, n: nat, attempts: nat, turns: seq<Turn>)
    requires Possible(retries, Idle(n, attempts), turns)
    ensures |turns| <= n * (Monus(retries, 1) + 1) * (2 * n + 1) + Monus(retries, attempts) * (2 * n + 1)
  {
    var w := Idle(n, attempts);
    hide Possible, Sum;
    RankBoundsLength(retries, w, turns);
    AllUnstarted(w.phases);
    assert Rank(retries, w) == StartsWorth(n, retries, n) + RaisesWorth(Monus(retries, attempts), n);
    hide Rank;
  }

  /** Nothing gets stuck: an interleaving that cannot go on has finished every coroutine. */
  lemma StuckOnlyWhenFinished(retries: int, w: World)
    requires w.Valid() && forall turn :: !Enabled(w, turn)
    ensures forall i :: 0 <= i < |w.phases| ==> w.phases[i].Finished?
  {
    forall i | 0 <= i < |w.phases| ensures w.phases[i].Finished? {
      assert !Enabled(w, Turn(i, Returned));
    }
  }

  // ----- How many vendor calls one coroutine can make -------------------------------------

  /** Coroutines that have started. */
  function Started(w: World): int {
    |w.phases| - Sum(w.phases, Unstarted)
  }

  /** Raises still possible before the limit; one if the coroutine sleeps and must still wake. */
  function Raises(retries: int, w: World, i: nat): nat
    requires i < |w.phases|
  {
    var left := Monus(retries, w.attempts);
    if w.phases[i].Sleeping? && left == 0 then 1 else left
  }

  /** Each start gives a coroutine at most retries - 1 more calls after its first. */
  predicate CallsEarned(retries: int, w: World, i: nat)
    requires w.Valid() && i < |w.phases|
  {
    && (w.phases[i].NotStarted? ==> w.calls[i] == 0)
    && (w.phases[i].Sleeping? ==> retries >= 2)
    && (!w.phases[i].NotStarted? ==>
          && Started(w) >= 1 && w.attempts >= 1
          && w.calls[i] + Raises(retries, w, i) <= 1 + Started(w) * Monus(retries, 1))
  }

  lemma ProductAtLeast(x: int, y: nat)
    requires x >= 1
    ensures x * y >= y
  {}

  lemma StepEarns(retries: int, w: World, turn: Turn, i: nat)
    requires Enabled(w, turn) && i < |w.phases| && CallsEarned(retries, w, i)
    ensures CallsEarned(retries, Step(retries, w, turn), i)
  {
    var j, w', m := turn.coroutine, Step(retries, w, turn), Monus(retries, 1);
    SumMoved(w.phases, j, w'.phases[j], Unstarted);
    SumBounded(w.phases, Unstarted, 1);
    assert w'.phases == w.phases[j := w'.phases[j]];
    hide Sum;
    if w.phases[j].NotStarted? {
      Times(Started(w'), m);
      ProductAtLeast(Started(w'), m);
    }
  }

  lemma {:induction false} RunEarns(retries: int, w: World, turns: seq<Turn>, i: nat)
    requires Possible(retries, w, turns) && w.Valid() && i < |w.phases| && CallsEarned(retries, w, i)
    ensures Interleaved(retries, w, turns).Valid() && |Interleaved(retries, w, turns).phases| == |w.phases|
    ensures CallsEarned(retries, Interleaved(retries, w, turns), i)
    decreases |turns|
  {
    hide CallsEarned, Step;
    if turns == [] {
    } else {
      StepEarns(retries, w, turns[0], i);
      RunEarns(retries, Step(retries, w, turns[0]), turns[1..], i);
    }
  }

  lemma Mono(x: int, y: nat, z: nat)
    requires x <= y
    ensures x * z <= y * z
    ensures y * z >= 0
  {}

  /** With n coroutines sharing the counter, each makes at most 1 + n * (retries - 1) calls. */
  lemma CallsBounded(retries: int, n: nat, attempts: nat, turns: seq<Turn>, i: nat)
    requires Possible(retries, Idle(n, attempts), turns) && i < n
    ensures var w := Interleaved(retries, Idle(n, attempts), turns);
            |w.calls| == n && w.calls[i] <= 1 + n * Monus(retries, 1)
  {
    RunEarns(retries, Idle(n, attempts), turns, i);
    var w := Interleaved(retries, Idle(n, attempts), turns);
    hide Interleaved, Possible;
    Mono(Started(w), n, Monus(retries, 1));
    ProductAtLeast(1, Monus(retries, 1));
  }

  // The bound is attained: whenever the first coroutine is out of attempts, the next one starts.

  const RATE_LIMITED := Failed(DomainError("rate_limited", true))

  /** The first coroutine fails and wakes m times. */
  function FailAndWake(m: nat): seq<Turn> {
    if m == 0 then [] else [Turn(0, RATE_LIMITED), Turn(0, RATE_LIMITED)] + FailAndWake(m - 1)
  }

  function Round(retries: nat, k: nat): seq<Turn>
    requires retries >= 1
  {
    [Turn(k, RATE_LIMITED)] + FailAndWake(retries - 1)
  }

  /** Coroutines from..n start in turn, and each start is followed by the retries it allows. */
  function Schedule(retries: nat, from: nat, n: nat): seq<Turn>
    requires from <= n && retries >= 1
    decreases n - from
  {
    if from == n then []
    else Round(retries, from) + Schedule(retries, from + 1, n)
  }

  lemma {:induction false} Continues(retries: int, w: World, first: seq<Turn>, then_: seq<Turn>)
    requires Possible(retries, w, first) && Possible(retries, Interleaved(retries, w, first), then_)
    ensures Possible(retries, w, first + then_)
    ensures Interleaved(retries, w, first + then_) == Interleaved(retries, Interleaved(retries, w, first), then_)
    decreases |first|
  {
    if first == [] {
      assert first + then_ == then_;
    } else {
      hide Step;
      assert (first + then_)[1..] == first[1..] + then_;
      Continues(retries, Step(retries, w, first[0]), first[1..], then_);
    }
  }

  lemma {:induction false} FailsAndWakes(retries: int, w: World, m: nat)
    requires w.Valid() && |w.phases| > 0 && w.phases[0] == InFlight && w.attempts + m <= retries
    ensures Possible(retries, w, FailAndWake(m))
    ensures Interleaved(retries, w, FailAndWake(m)) == World(w.attempts + m, w.phases, w.calls[0 := w.calls[0] + m])
    decreases m
  {
    if m == 0 {
    } else {
      var t := Turn(0, RATE_LIMITED);
      var asleep := Step(retries, w, t);
      var awake := Step(retries, asleep, t);
      assert awake == World(w.attempts + 1, w.phases, w.calls[0 := w.calls[0] + 1]);
      FailsAndWakes(retries, awake, m - 1);
      var turns := FailAndWake(m);
      assert turns[1..] == [t] + FailAndWake(m - 1) && turns[1..][1..] == FailAndWake(m - 1);
    }
  }

  /** The first k coroutines in flight, and the first one's calls after k rounds. */
  predicate AfterRounds(retries: nat, n: nat, k: nat, w: World) {
    && w.Valid() && |w.phases| == n && w.attempts <= retries
    && (forall i :: 0 <= i < n ==> w.phases[i] == if i < k then InFlight else NotStarted)
    && (n > 0 ==> w.calls[0] == if k == 0 then 0 else 1 + k * Monus(retries, 1))
  }

  lemma OneRound(retries: nat, n: nat, k: nat, w: World)
    requires retries >= 1 && k < n && AfterRounds(retries, n, k, w)
    ensures Possible(retries, w, Round(retries, k))
    ensures AfterRounds(retries, n, k + 1, Interleaved(retries, w, Round(retries, k)))
  {
    var started := Step(retries, w, Turn(k, RATE_LIMITED));
    FailsAndWakes(retries, started, retries - 1);
    assert Round(retries, k)[1..] == FailAndWake(retries - 1);
    Times(k + 1, Monus(retries, 1));
    hide FailAndWake;
  }

  lemma {:induction false} Rounds(retries: nat, n: nat, k: nat, w: World)
    requires retries >= 1 && k <= n && AfterRounds(retries, n, k, w)
    ensures Possible(retries, w, Schedule(retries, k, n))
    ensures AfterRounds(retries, n, n, Interleaved(retries, w, Schedule(retries, k, n)))
    decreases n - k
  {
    if k < n {
      OneRound(retries, n, k, w);
      hide AfterRounds, FailAndWake, Round, Interleaved, Possible, Step;
      Rounds(retries, n, k + 1, Interleaved(retries, w, Round(retries, k)));
      Continues(retries, w, Round(retries, k), Schedule(retries, k + 1, n));
    }
  }

  /** For every n and retries there is an interleaving in which one coroutine makes that many
      calls, more than retries as soon as n and retries are at least 2. */
  lemma CallsBoundAttained(retries: nat, n: nat)
    requires retries >= 1 && n >= 1
    ensures Possible(retries, Idle(n, 0), Schedule(retries, 0, n))
    ensures var w := Interleaved(retries, Idle(n, 0), Schedule(retries, 0, n));
            |w.calls| == n && w.calls[0] == 1 + n * (retries - 1)
  {
    Rounds(retries, n, 0, Idle(n, 0));
  }

  // ----- Alone, a coroutine runs the sequential retry loop --------------------------------

  const RETRY_ONLY := (retry: Retry) => Settings(Some(retry), None, None, None)

  /** The turns of a lone coroutine: it calls, and it takes the vendor's reply. */
  function SoloTurns(retry: Retry, oracle: Oracle, s: State): seq<Turn>
    requires s.attempts >= 0
    decreases retry.retries - s.attempts
  {
    var (after, outcome) := CoreCall(RETRY_ONLY(retry), oracle, s.(attempts := s.attempts + 1));
    var turns := [Turn(0, outcome), Turn(0, outcome)];
    if outcome.Failed? && outcome.error.retryable && after.attempts < retry.retries
    then turns + SoloTurns(retry, oracle, Slept(retry, oracle, after))
    else turns
  }

  lemma TwoTurns(retries: int, w: World, t: Turn, rest: seq<Turn>)
    requires Enabled(w, t) && Enabled(Step(retries, w, t), t)
    requires Possible(retries, Step(retries, Step(retries, w, t), t), rest)
    ensures Possible(retries, w, [t, t] + rest)
    ensures Interleaved(retries, w, [t, t] + rest) == Interleaved(retries, Step(retries, Step(retries, w, t), t), rest)
  {
    assert ([t, t] + rest)[1..] == [t] + rest && ([t] + rest)[1..] == rest;
    hide Step;
  }

  /** Alone, it does what the sequential loop does: same counter, outcome and number of calls. */
  lemma {:induction false} SoloMatches(retry: Retry, oracle: Oracle, s: State, w: World)
    requires s.attempts >= 0 && |w.phases| == |w.calls| == 1
    requires (w.phases[0].NotStarted? && s.attempts == 0) || (w.phases[0].Sleeping? && s.attempts == w.attempts)
    ensures var turns, (after, outcome) := SoloTurns(retry, oracle, s), Attempts(RETRY_ONLY(retry), oracle, s);
            && Possible(retry.retries, w, turns) && |after.log| >= |s.log|
            && Interleaved(retry.retries, w, turns)
               == World(after.attempts, [Finished(outcome)], [w.calls[0] + |after.log| - |s.log|])
    decreases retry.retries - s.attempts
  {
    var (mid, outcome) := CoreCall(RETRY_ONLY(retry), oracle, s.(attempts := s.attempts + 1));
    assert |mid.log| == |s.log| + 1;
    var t := Turn(0, outcome);
    var called := World(mid.attempts, [InFlight], [w.calls[0] + 1]);
    assert Step(retry.retries, w, t) == called;
    var replied := Step(retry.retries, called, t);
    hide CoreCall, Backoff;
    if replied.phases[0].Sleeping? {
      var rest := Slept(retry, oracle, mid);
      assert replied == World(mid.attempts, [Sleeping], called.calls);
      hide Possible, Interleaved;
      SoloMatches(retry, oracle, rest, replied);
      TwoTurns(retry.retries, w, t, SoloTurns(retry, oracle, rest));
    } else {
      assert replied == World(mid.attempts, [replied.phases[0]], called.calls);
      TwoTurns(retry.retries, w, t, []);
      assert SoloTurns(retry, oracle, s) == [t, t] + [];
    }
  }
}
