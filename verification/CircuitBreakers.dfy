/**
 The circuit breaker, and what a worker that asks its gate before every attempt can do to
 it: the openings come no closer together than their growing cooldowns.
 */
module CircuitBreakers {

  datatype State = Closed | Open | HalfOpen

  datatype Breaker = Breaker(threshold: nat, state: State, failures: nat, blocks: nat, openSince: real, cooldown: real)

  const BASE_DELAY: real := 0.5

  function New(threshold: nat): Breaker { Breaker(threshold, Closed, 0, 0, 0.0, 0.0) }

  function Power2(n: nat): nat { if n == 0 then 1 else 2 * Power2(n - 1) }

  /** The cooldown after the n-th failure: doubling from one second, at most sixteen. */
  function CooldownAfter(n: nat): real { Power2(if n < 5 then n else 5) as real * BASE_DELAY }

  /** The cooldowns are half a second, one, two, four, eight, sixteen, and sixteen from then on. */
  lemma CooldownDoubles(n: nat)
    ensures CooldownAfter(0) == 0.5 && CooldownAfter(1) == 1.0
    ensures n < 5 ==> CooldownAfter(n + 1) == 2.0 * CooldownAfter(n)
    ensures n >= 5 ==> CooldownAfter(n) == 16.0
  {
    assert Power2(1) == 2;
    assert Power2(5) == 32;
  }

  function Asked(b: Breaker, now: real): (Breaker, bool) {
    if b.state == Open then
      if now - b.openSince >= b.cooldown then (b.(state := HalfOpen), true) else (b, false)
    else (b, true)
  }

  function Succeeded(b: Breaker): Breaker {
    b.(failures := 0, state := if b.state == HalfOpen then Closed else b.state)
  }

  function Opened(b: Breaker, now: real): Breaker {
    b.(state := Open, failures := 0, cooldown := CooldownAfter(b.blocks), openSince := now)
  }

  function Failed(b: Breaker, now: real): Breaker {
    if b.failures + 1 >= b.threshold then Opened(b.(blocks := b.blocks + 1), now)
    else b.(failures := b.failures + 1, blocks := b.blocks + 1)
  }

  class CircuitBreaker {
    const failureThreshold: nat
    var state: State
    var failureCount: nat
    var blockCount: nat
    var openSince: real
    var cooldown: real

    function View(): Breaker
      reads this
    {
      Breaker(failureThreshold, state, failureCount, blockCount, openSince, cooldown)
    }

    constructor (failureThreshold: nat)
      ensures View() == New(failureThreshold)
      ensures this.failureThreshold == failureThreshold && state == Closed && failureCount == 0 && blockCount == 0
    {
      this.failureThreshold := failureThreshold;
      state, failureCount, blockCount := Closed, 0, 0;
      openSince, cooldown := 0.0, 0.0;
    }

    method AllowRequest(now: real) returns (allowed: bool)
      modifies `state
      ensures (View(), allowed) == Asked(old(View()), now)
      ensures allowed <==> !(old(state) == Open && now < openSince + cooldown)
      ensures state == if old(state) == Open && allowed then HalfOpen else old(state)
    {
      if state == Closed { return true; }
      if state == Open {
        if now - openSince >= cooldown {
          state := HalfOpen;
          return true;
        }
        return false;
      }
      return true;
    }

    method RecordSuccess()
      modifies `state, `failureCount
      ensures View() == Succeeded(old(View()))
      ensures failureCount == 0
      ensures state == if old(state) == HalfOpen then Closed else old(state)
    {
      failureCount := 0;
      if state == HalfOpen { state := Closed; }
    }

    method RecordFailure(now: real)
      modifies this
      ensures View() == Failed(old(View()), now)
      ensures blockCount == old(blockCount) + 1
      ensures old(failureCount) + 1 >= failureThreshold ==> state == Open && failureCount == 0 && openSince == now
      ensures old(failureCount) + 1 >= failureThreshold ==> cooldown == CooldownAfter(blockCount)
      ensures old(failureCount) + 1 < failureThreshold ==> state == old(state) && failureCount == old(failureCount) + 1
      ensures old(failureCount) + 1 < failureThreshold ==> openSince == old(openSince) && cooldown == old(cooldown)
    {
      failureCount := failureCount + 1;
      blockCount := blockCount + 1;
      if failureCount >= failureThreshold { OpenNow(now); }
    }

    method OpenNow(now: real)
      modifies this
      ensures View() == Opened(old(View()), now)
      ensures state == Open && failureCount == 0 && blockCount == old(blockCount)
      ensures openSince == now && cooldown == CooldownAfter(blockCount)
    {
      state := Open;
      failureCount := 0;
      var exponent := if blockCount < 5 then blockCount else 5;
      var power := 1;
      for i := 0 to exponent
        invariant power == Power2(i)
      {
        power := 2 * power;
      }
      cooldown := power as real * BASE_DELAY;
      openSince := now;
    }
  }

  /**
   The gate in every state: only an open breaker whose cooldown is not over refuses, and only an open one
   changes, to half open, when it lets a request through.
   */
  lemma GateRefusesIff(b: Breaker, now: real)
    ensures !Asked(b, now).1 <==> b.state == Open && now < b.openSince + b.cooldown
    ensures Asked(b, now).0 == b.(state := if b.state == Open && Asked(b, now).1 then HalfOpen else b.state)
  {
  }

  // -------------------------------------------------------- the worker's turns

  /** What a worker does after its gate let it through. */
  datatype Outcome = NoAttempt | Success(at: real) | Failure(at: real)

  /** One turn of the worker's loop: the gate, and the outcome if the gate lets it through. */
  datatype Turn = Turn(gate: real, outcome: Outcome)

  ghost function Ends(turn: Turn): real {
    if turn.outcome.NoAttempt? then turn.gate else turn.outcome.at
  }

  /** Moments never run backwards. */
  ghost predicate Timed(turns: seq<Turn>) {
    && (forall i :: 0 <= i < |turns| ==> turns[i].gate <= Ends(turns[i]))
    && (forall i :: 0 < i < |turns| ==> Ends(turns[i - 1]) <= turns[i].gate)
  }

  /** The breaker and the moments at which it was opened. */
  datatype Story = Story(breaker: Breaker, openings: seq<real>)

  ghost function Play(s: Story, turn: Turn): Story {
    var (b, allowed) := Asked(s.breaker, turn.gate);
    if !allowed then s
    else match turn.outcome
      case NoAttempt => s.(breaker := b)
      case Success(_) => s.(breaker := Succeeded(b))
      case Failure(at) =>
        var f := Failed(b, at);
        Story(f, if f.state == Open then s.openings + [at] else s.openings)
  }

  ghost function Plays(b: Breaker, turns: seq<Turn>): Story {
    if turns == [] then Story(b, []) else Play(Plays(b, turns[..|turns| - 1]), turns[|turns| - 1])
  }

  // -------------------------------------------------------- the gate over a run

  /** The last opening is the one the breaker remembers, and a breaker that is not open has served its cooldown. */
  ghost predicate Remembers(s: Story, now: real) {
    var b, n := s.breaker, |s.openings|;
    && (b.state == Open ==> n > 0)
    && (n > 0 ==> b.openSince == s.openings[n - 1])
    && (n > 0 && b.state != Open ==> b.openSince + b.cooldown <= now)
    && (n > 0 && b.threshold == 1 ==> b.blocks == n && b.cooldown == CooldownAfter(n))
    && (n == 0 && b.threshold == 1 ==> b.blocks == 0)
    && (b.threshold == 1 ==> b.failures == 0)
  }

  lemma PlayRemembers(s: Story, now: real, turn: Turn)
    requires Remembers(s, now) && now <= turn.gate <= Ends(turn)
    ensures Remembers(Play(s, turn), Ends(turn)) && Play(s, turn).breaker.threshold == s.breaker.threshold
  {
  }

  lemma {:induction false} PlaysRemember(threshold: nat, turns: seq<Turn>)
    requires Timed(turns) && turns != []
    ensures Remembers(Plays(New(threshold), turns), Ends(turns[|turns| - 1]))
    ensures Plays(New(threshold), turns).breaker.threshold == threshold
    decreases |turns|
  {
    var k := |turns| - 1;
    if k == 0 {
      assert turns[..0] == [];
      PlayRemembers(Plays(New(threshold), []), turns[0].gate, turns[0]);
    } else {
      PlaysRemember(threshold, turns[..k]);
      PlayRemembers(Plays(New(threshold), turns[..k]), Ends(turns[k - 1]), turns[k]);
    }
  }

  /**
   Over any run: a gate lets its turn through exactly when nothing was opened yet or the cooldown of the
   last opening is over, whatever turns, with or without an attempt, came since. With threshold one the
   n-th opening's cooldown is that of n failures.
   */
  lemma GateFollowsLastOpening(threshold: nat, turns: seq<Turn>, now: real)
    requires Timed(turns) && (turns != [] ==> Ends(turns[|turns| - 1]) <= now)
    ensures var s := Plays(New(threshold), turns);
      var n := |s.openings|;
      && (Asked(s.breaker, now).1 <==> n == 0 || s.openings[n - 1] + s.breaker.cooldown <= now)
      && (threshold == 1 && n > 0 ==> s.breaker.cooldown == CooldownAfter(n))
  {
    if turns != [] { PlaysRemember(threshold, turns); }
  }

  lemma {:induction false} OpeningsGrow(threshold: nat, turns: seq<Turn>, k: nat)
    requires k <= |turns|
    ensures Plays(New(threshold), turns[..k]).openings <= Plays(New(threshold), turns).openings
    decreases |turns|
  {
    if k == |turns| {
      assert turns[..k] == turns;
    } else {
      var shorter := turns[..|turns| - 1];
      OpeningsGrow(threshold, shorter, k);
      assert shorter[..k] == turns[..k];
    }
  }

  /**
   Once a gate has let a turn through, every later gate does the same until the breaker is opened again:
   a half open breaker never refuses, however many turns bring no attempt.
   */
  lemma {:induction false} ThroughUntilNextOpening(threshold: nat, turns: seq<Turn>, k: nat, j: nat)
    requires k <= j < |turns|
    requires Asked(Plays(New(threshold), turns[..k]).breaker, turns[k].gate).1
    requires Plays(New(threshold), turns[..j]).openings == Plays(New(threshold), turns[..k]).openings
    ensures Asked(Plays(New(threshold), turns[..j]).breaker, turns[j].gate).1
    decreases j
  {
    if k < j {
      var upTo := turns[..j];
      OpeningsGrow(threshold, upTo, j - 1);
      OpeningsGrow(threshold, upTo[..j - 1], k);
      assert upTo[..j - 1] == turns[..j - 1] && upTo[..j - 1][..k] == turns[..k];
      ThroughUntilNextOpening(threshold, turns, k, j - 1);
    }
  }

  // -------------------------------------------------------- pacing

  /** Cooldowns are served: an opening comes only after the cooldown of the one before it. */
  ghost predicate Spaced(openings: seq<real>) {
    forall i :: 0 < i < |openings| ==> openings[i - 1] + CooldownAfter(i) <= openings[i]
  }

  ghost predicate Served(s: Story, now: real) {
    var n := |s.openings|;
    && s.breaker.threshold == 1 && s.breaker.failures == 0 && s.breaker.blocks == n
    && Spaced(s.openings)
    && (s.breaker.state == Open ==>
          n > 0 && s.breaker.openSince == s.openings[n - 1] && s.breaker.cooldown == CooldownAfter(n))
    && (s.breaker.state != Open && n > 0 ==> s.openings[n - 1] + CooldownAfter(n) <= now)
  }

  lemma SpacedGrows(openings: seq<real>, at: real)
    requires Spaced(openings)
    requires openings != [] ==> openings[|openings| - 1] + CooldownAfter(|openings|) <= at
    ensures Spaced(openings + [at])
  {
  }

  lemma PlayServes(s: Story, now: real, turn: Turn)
    requires Served(s, now) && now <= turn.gate <= Ends(turn)
    ensures Served(Play(s, turn), Ends(turn))
  {
    if Asked(s.breaker, turn.gate).1 && turn.outcome.Failure? { SpacedGrows(s.openings, turn.outcome.at); }
  }

  lemma {:induction false} PlaysServe(turns: seq<Turn>)
    requires Timed(turns) && turns != []
    ensures Served(Plays(New(1), turns), Ends(turns[|turns| - 1]))
    decreases |turns|
  {
    var k := |turns| - 1;
    if k == 0 {
      assert turns[..0] == [];
      PlayServes(Plays(New(1), []), turns[0].gate, turns[0]);
    } else {
      PlaysServe(turns[..k]);
      PlayServes(Plays(New(1), turns[..k]), Ends(turns[k - 1]), turns[k]);
    }
  }

  /** The least time between the first opening and the n-th. */
  ghost function Pace(n: nat): real
    requires n > 0
  {
    if n == 1 then 0.0 else Pace(n - 1) + CooldownAfter(n - 1)
  }

  lemma {:induction false} SpacedApart(openings: seq<real>, n: nat)
    requires Spaced(openings) && 0 < n <= |openings|
    ensures openings[0] + Pace(n) <= openings[n - 1]
  {
    if n > 1 { SpacedApart(openings, n - 1); }
  }

  /** The pace in closed form. */
  lemma {:induction false} PaceIs(n: nat)
    requires n > 0
    ensures n <= 6 ==> Pace(n) == (Power2(n - 1) - 1) as real
    ensures n >= 6 ==> Pace(n) == (31 + 16 * (n - 6)) as real
  {
    if n > 1 {
      PaceIs(n - 1);
      assert Power2(5) == 32;
    }
  }

  /** With threshold one, a gated worker's n-th opening comes at least Pace(n) after its first. */
  lemma OpeningsArePaced(turns: seq<Turn>, n: nat)
    requires Timed(turns) && 0 < n <= |Plays(New(1), turns).openings|
    ensures var openings := Plays(New(1), turns).openings;
      && openings[0] + Pace(n) <= openings[n - 1]
      && (n <= 6 ==> openings[0] + (Power2(n - 1) - 1) as real <= openings[n - 1])
      && (n >= 6 ==> openings[0] + (31 + 16 * (n - 6)) as real <= openings[n - 1])
  {
    assert turns != [];
    PlaysServe(turns);
    SpacedApart(Plays(New(1), turns).openings, n);
    PaceIs(n);
  }

  /** The turn that fails again at the first moment the gate opens. */
  ghost function Eager(n: nat): Turn {
    var at := if n == 0 then 0.0 else Pace(n) + CooldownAfter(n);
    Turn(at, Failure(at))
  }

  ghost function EagerTurns(n: nat): seq<Turn> { seq(n, i requires 0 <= i => Eager(i)) }

  /** The pace can be kept exactly, so no greater bound holds. */
  lemma {:induction false} PaceIsTight(n: nat)
    requires n > 0
    ensures var s := Plays(New(1), EagerTurns(n));
      && |s.openings| == n && s.openings[0] == 0.0 && s.openings[n - 1] == Pace(n)
      && s.breaker == Breaker(1, Open, 0, n, Pace(n), CooldownAfter(n))
  {
    var turns := EagerTurns(n);
    assert turns[..n - 1] == EagerTurns(n - 1);
    if n == 1 {
      assert turns[..0] == [];
    } else {
      PaceIsTight(n - 1);
      assert turns[n - 1] == Eager(n - 1);
      assert Pace(n) == Pace(n - 1) + CooldownAfter(n - 1);
    }
  }

  // -------------------------------------------------------- any threshold

  /** Failures in a row, at these moments. */
  ghost function AfterFailures(b: Breaker, moments: seq<real>): Breaker {
    if moments == [] then b
    else Failed(AfterFailures(b, moments[..|moments| - 1]), moments[|moments| - 1])
  }

  /**
   A closed breaker opens with exactly the failure that completes its threshold, whenever the failures
   come, and from that failure's moment on it cools down.
   */
  lemma {:induction false} OpensAtThreshold(b: Breaker, moments: seq<real>)
    requires b.state == Closed && b.failures == 0 && b.threshold > 0 && |moments| <= b.threshold
    ensures var c := AfterFailures(b, moments);
      && c.threshold == b.threshold && c.blocks == b.blocks + |moments|
      && (|moments| < b.threshold ==> c.state == Closed && c.failures == |moments|)
      && (|moments| == b.threshold ==> c.state == Open && c.failures == 0)
      && (|moments| == b.threshold ==> c.openSince == moments[|moments| - 1])
      && (|moments| == b.threshold ==> c.cooldown == CooldownAfter(b.blocks + |moments|))
    decreases |moments|
  {
    if moments != [] { OpensAtThreshold(b, moments[..|moments| - 1]); }
  }

  /** An open breaker lets a request through exactly from the end of its cooldown on, and a success then closes it. */
  lemma ReopensAfterCooldown(b: Breaker, now: real)
    requires b.state == Open
    ensures Asked(b, now).1 <==> b.openSince + b.cooldown <= now
    ensures Asked(b, now).1 ==> Succeeded(Asked(b, now).0).state == Closed
    ensures !Asked(b, now).1 ==> Asked(b, now).0 == b
  {
  }
}
