/**
 The token bucket over real time: how much any window can be granted, exactly when a request
 is granted, and that looking at the bucket never changes what it grants.

 The refill between two moments is the difference of a supply function; for the
 bucket of the program it is the elapsed time times the rate (RateSupplies). The theorems
 hold for every supply that never falls.
 */
module TokenBuckets {

  /** The tokens supplied up to a moment. */
  type Supply = real -> real

  function RateSupply(rate: real): Supply { (t: real) => t * rate }

  lemma RateSupplies(rate: real, from: real, to: real)
    ensures RateSupply(rate)(to) - RateSupply(rate)(from) == (to - from) * rate
  {
  }

  ghost predicate Steady(supply: Supply) { forall s, t :: s <= t ==> supply(s) <= supply(t) }

  lemma RateIsSteady(rate: real)
    requires rate >= 0.0
    ensures Steady(RateSupply(rate))
  {
    forall s: real, t: real | s <= t ensures RateSupply(rate)(s) <= RateSupply(rate)(t) {
      assert (t - s) * rate >= 0.0;
    }
  }

  datatype Bucket = Bucket(capacity: real, tokens: real, last: real, consumed: nat, rejected: nat)

  function Min(a: real, b: real): real { if a < b then a else b }

  /** What the bucket holds at a moment. */
  function Level(supply: Supply, b: Bucket, now: real): real {
    Min(b.capacity, b.tokens + (supply(now) - supply(b.last)))
  }

  function Refilled(supply: Supply, b: Bucket, now: real): Bucket {
    b.(tokens := Level(supply, b, now), last := now)
  }

  function AfterRequest(supply: Supply, b: Bucket, now: real, amount: real): (Bucket, bool) {
    var r := Refilled(supply, b, now);
    if r.tokens >= amount then (r.(tokens := r.tokens - amount, consumed := r.consumed + 1), true)
    else (r.(rejected := r.rejected + 1), false)
  }

  class TokenBucket {
    const rate: real
    const capacity: real
    var tokens: real
    var lastRefill: real
    var totalConsumed: nat
    var totalRejected: nat

    function View(): Bucket
      reads this
    {
      Bucket(capacity, tokens, lastRefill, totalConsumed, totalRejected)
    }

    constructor (rate: real, capacity: real, now: real)
      ensures this.rate == rate && View() == Bucket(capacity, capacity, now, 0, 0)
    {
      this.rate, this.capacity := rate, capacity;
      tokens, lastRefill := capacity, now;
      totalConsumed, totalRejected := 0, 0;
    }

    method Refill(now: real)
      modifies `tokens, `lastRefill
      ensures View() == Refilled(RateSupply(rate), old(View()), now)
      ensures var refilled := old(tokens) + (now - old(lastRefill)) * rate;
        tokens == (if refilled < capacity then refilled else capacity) && lastRefill == now
    {
      RateSupplies(rate, lastRefill, now);
      var elapsed := now - lastRefill;
      var added := elapsed * rate;
      tokens := Min(capacity, tokens + added);
      lastRefill := now;
    }

    method Consume(now: real, amount: real) returns (granted: bool)
      modifies this
      ensures (View(), granted) == AfterRequest(RateSupply(rate), old(View()), now, amount)
      ensures totalConsumed == old(totalConsumed) + if granted then 1 else 0
      ensures totalRejected == old(totalRejected) + if granted then 0 else 1
      ensures tokens == Level(RateSupply(rate), old(View()), now) - (if granted then amount else 0.0)
    {
      Refill(now);
      if tokens >= amount {
        tokens := tokens - amount;
        totalConsumed := totalConsumed + 1;
        return true;
      }
      totalRejected := totalRejected + 1;
      return false;
    }

    method FillLevel(now: real) returns (fraction: real)
      requires capacity != 0.0
      modifies this
      ensures View() == Refilled(RateSupply(rate), old(View()), now)
      ensures fraction == Level(RateSupply(rate), old(View()), now) / capacity
    {
      Refill(now);
      fraction := tokens / capacity;
    }

    method Available(now: real) returns (available: real)
      modifies this
      ensures View() == Refilled(RateSupply(rate), old(View()), now)
      ensures available == Level(RateSupply(rate), old(View()), now)
    {
      Refill(now);
      available := tokens;
    }
  }

  // -------------------------------------------------------- runs

  datatype Op = Request(at: real, amount: real) | Read(at: real)

  /** Moments never run backwards, and nobody asks for a negative amount. */
  ghost predicate Timed(ops: seq<Op>, from: real) {
    ops == [] ||
    (from <= ops[0].at && (ops[0].Request? ==> ops[0].amount >= 0.0) && Timed(ops[1..], ops[0].at))
  }

  ghost predicate Sound(b: Bucket) { 0.0 <= b.tokens <= b.capacity }

  ghost function Step(supply: Supply, b: Bucket, op: Op): Bucket {
    if op.Read? then Refilled(supply, b, op.at) else AfterRequest(supply, b, op.at, op.amount).0
  }

  ghost function Run(supply: Supply, b: Bucket, ops: seq<Op>): Bucket
    decreases |ops|
  {
    if ops == [] then b else Run(supply, Step(supply, b, ops[0]), ops[1..])
  }

  /** What one operation takes out of the bucket. */
  ghost function Taken(supply: Supply, b: Bucket, op: Op): real {
    if op.Request? && AfterRequest(supply, b, op.at, op.amount).1 then op.amount else 0.0
  }

  /** The sum of all amounts granted between two moments, both included. */
  ghost function GrantedIn(supply: Supply, b: Bucket, ops: seq<Op>, t0: real, t1: real): real
    decreases |ops|
  {
    if ops == [] then 0.0
    else
      (if t0 <= ops[0].at <= t1 then Taken(supply, b, ops[0]) else 0.0)
      + GrantedIn(supply, Step(supply, b, ops[0]), ops[1..], t0, t1)
  }

  /** One operation conserves tokens up to the refill, and keeps the level in range. */
  lemma StepBounds(supply: Supply, b: Bucket, op: Op)
    requires Steady(supply) && Sound(b) && b.last <= op.at && (op.Request? ==> op.amount >= 0.0)
    ensures var c := Step(supply, b, op);
      && Sound(c) && c.last == op.at && c.capacity == b.capacity
      && Taken(supply, b, op) >= 0.0
      && c.tokens + Taken(supply, b, op) == Level(supply, b, op.at)
      && c.tokens + Taken(supply, b, op) <= b.tokens + (supply(op.at) - supply(b.last))
  {
  }

  /** The level stays between zero and the capacity. */
  lemma {:induction false} LevelInRange(supply: Supply, b: Bucket, ops: seq<Op>)
    requires Steady(supply) && Sound(b) && Timed(ops, b.last)
    ensures Sound(Run(supply, b, ops)) && Run(supply, b, ops).capacity == b.capacity
    decreases |ops|
  {
    if ops != [] {
      StepBounds(supply, b, ops[0]);
      LevelInRange(supply, Step(supply, b, ops[0]), ops[1..]);
    }
  }

  lemma {:induction false} NothingAfter(supply: Supply, b: Bucket, ops: seq<Op>, t0: real, t1: real)
    requires Steady(supply) && Sound(b) && Timed(ops, b.last) && (ops != [] ==> t1 < ops[0].at)
    ensures GrantedIn(supply, b, ops, t0, t1) == 0.0
    decreases |ops|
  {
    if ops != [] {
      StepBounds(supply, b, ops[0]);
      NothingAfter(supply, Step(supply, b, ops[0]), ops[1..], t0, t1);
    }
  }

  lemma {:induction false} GrantedFromNow(supply: Supply, b: Bucket, ops: seq<Op>, t0: real, t1: real)
    requires Steady(supply) && Sound(b) && Timed(ops, b.last) && t0 <= b.last <= t1
    ensures GrantedIn(supply, b, ops, t0, t1) <= b.tokens + (supply(t1) - supply(b.last))
    decreases |ops|
  {
    if ops == [] || t1 < ops[0].at {
      NothingAfter(supply, b, ops, t0, t1);
    } else {
      StepBounds(supply, b, ops[0]);
      GrantedFromNow(supply, Step(supply, b, ops[0]), ops[1..], t0, t1);
    }
  }

  lemma {:induction false} SupplyBound(supply: Supply, b: Bucket, ops: seq<Op>, t0: real, t1: real)
    requires Steady(supply) && Sound(b) && Timed(ops, b.last) && t0 <= t1
    ensures GrantedIn(supply, b, ops, t0, t1) <= b.capacity + (supply(t1) - supply(t0))
    decreases |ops|
  {
    if ops == [] || t1 < ops[0].at {
      NothingAfter(supply, b, ops, t0, t1);
    } else {
      StepBounds(supply, b, ops[0]);
      if ops[0].at < t0 {
        SupplyBound(supply, Step(supply, b, ops[0]), ops[1..], t0, t1);
      } else {
        GrantedFromNow(supply, Step(supply, b, ops[0]), ops[1..], t0, t1);
      }
    }
  }

  /** In any window of any run, no more is granted than the capacity plus the refill of the window. */
  lemma WindowBound(rate: real, b: Bucket, ops: seq<Op>, t0: real, t1: real)
    requires rate >= 0.0 && Sound(b) && Timed(ops, b.last) && t0 <= t1
    ensures GrantedIn(RateSupply(rate), b, ops, t0, t1) <= b.capacity + (t1 - t0) * rate
  {
    RateIsSteady(rate);
    RateSupplies(rate, t0, t1);
    SupplyBound(RateSupply(rate), b, ops, t0, t1);
  }

  /** The bound is reached: a full bucket emptied at once, and again when the refill has come. */
  lemma WindowBoundIsTight(supply: Supply, b: Bucket, t0: real, t1: real)
    requires Steady(supply) && Sound(b) && b.tokens == b.capacity && b.last <= t0 <= t1
    requires supply(t1) - supply(t0) <= b.capacity
    ensures var ops := [Request(t0, b.capacity), Request(t1, supply(t1) - supply(t0))];
      Timed(ops, b.last) && GrantedIn(supply, b, ops, t0, t1) == b.capacity + (supply(t1) - supply(t0))
  {
    var first, second := Request(t0, b.capacity), Request(t1, supply(t1) - supply(t0));
    var ops := [first, second];
    assert ops[1..] == [second] && [second][1..] == [];
    StepBounds(supply, b, first);
    var c := Step(supply, b, first);
    assert c.tokens == 0.0 && Taken(supply, b, first) == b.capacity;
    assert GrantedIn(supply, c, [second], t0, t1)
      == Taken(supply, c, second) + GrantedIn(supply, Step(supply, c, second), [], t0, t1);
  }

  /**
   A request is granted exactly if it fits the capacity and the wait since the last
   operation has refilled what was missing.
   */
  lemma GrantedIff(rate: real, b: Bucket, now: real, amount: real)
    requires rate >= 0.0 && Sound(b) && b.last <= now
    ensures AfterRequest(RateSupply(rate), b, now, amount).1
      <==> amount <= b.capacity && amount - b.tokens <= (now - b.last) * rate
  {
    RateSupplies(rate, b.last, now);
  }

  // -------------------------------------------------------- observation

  ghost function WithoutReads(ops: seq<Op>): seq<Op> {
    if ops == [] then [] else (if ops[0].Read? then [] else [ops[0]]) + WithoutReads(ops[1..])
  }

  /** The answers to the requests of a run, in order. */
  ghost function Answers(supply: Supply, b: Bucket, ops: seq<Op>): seq<bool>
    decreases |ops|
  {
    if ops == [] then []
    else
      (if ops[0].Read? then [] else [AfterRequest(supply, b, ops[0].at, ops[0].amount).1])
      + Answers(supply, Step(supply, b, ops[0]), ops[1..])
  }

  ghost function Granted(answers: seq<bool>): nat {
    if answers == [] then 0 else (if answers[0] then 1 else 0) + Granted(answers[1..])
  }

  /** The counters: one granted or rejected for each request of a run, and none for a read. */
  lemma {:induction false} CountersCountAnswers(supply: Supply, b: Bucket, ops: seq<Op>)
    ensures |Answers(supply, b, ops)| == |WithoutReads(ops)|
    ensures Run(supply, b, ops).consumed == b.consumed + Granted(Answers(supply, b, ops))
    ensures Run(supply, b, ops).consumed + Run(supply, b, ops).rejected
         == b.consumed + b.rejected + |Answers(supply, b, ops)|
    decreases |ops|
  {
    if ops != [] {
      var after, rest := Step(supply, b, ops[0]), ops[1..];
      CountersCountAnswers(supply, after, rest);
      var answers := Answers(supply, after, rest);
      assert !ops[0].Read? ==> ([AfterRequest(supply, b, ops[0].at, ops[0].amount).1] + answers)[1..] == answers;
      assert [] + answers == answers;
    }
  }

  /** `b` is `c` as a read would have left it. */
  ghost predicate Observed(supply: Supply, b: Bucket, c: Bucket) {
    c.last <= b.last && b == Refilled(supply, c, b.last)
  }

  lemma ObservedTwice(supply: Supply, b: Bucket, c: Bucket, now: real)
    requires Steady(supply) && Observed(supply, b, c) && b.last <= now
    ensures Refilled(supply, b, now) == Refilled(supply, c, now)
  {
  }

  lemma {:induction false} ObservedRuns(supply: Supply, b: Bucket, c: Bucket, ops: seq<Op>)
    requires Steady(supply) && Sound(b) && Sound(c) && Observed(supply, b, c) && Timed(ops, b.last)
    ensures Answers(supply, b, ops) == Answers(supply, c, WithoutReads(ops))
    ensures Observed(supply, Run(supply, b, ops), Run(supply, c, WithoutReads(ops)))
    decreases |ops|
  {
    if ops != [] {
      var op, rest := ops[0], ops[1..];
      ObservedTwice(supply, b, c, op.at);
      StepBounds(supply, b, op);
      if op.Read? {
        assert WithoutReads(ops) == WithoutReads(rest);
        ObservedRuns(supply, Step(supply, b, op), c, rest);
      } else {
        StepBounds(supply, c, op);
        assert Step(supply, b, op) == Step(supply, c, op);
        ObservedRuns(supply, Step(supply, b, op), Step(supply, c, op), rest);
        assert WithoutReads(ops) == [op] + WithoutReads(rest);
        assert WithoutReads(ops)[1..] == WithoutReads(rest);
      }
    }
  }

  /** Reading the fill level or the available tokens, however often, changes no answer to any request. */
  lemma ReadsChangeNoAnswer(rate: real, b: Bucket, ops: seq<Op>)
    requires rate >= 0.0 && Sound(b) && Timed(ops, b.last)
    ensures Answers(RateSupply(rate), b, ops) == Answers(RateSupply(rate), b, WithoutReads(ops))
  {
    RateIsSteady(rate);
    ObservedRuns(RateSupply(rate), b, b, ops);
  }
}
