/**
 How fresh the entries of gossip views are. Each entry gets the position of its post in
 the run; an exchange can replace an entry by an older one, and this says exactly when.
 */
module GossipFreshness {
  import opened Common
  import opened Gossip

  /** The views with the position of each entry's post instead of its value. */
  ghost function Dated(ops: seq<Op>): ViewsOf<nat>
    decreases |ops|
  {
    if ops == [] then map[] else DateStep(Dated(ops[..|ops| - 1]), ops[|ops| - 1], |ops| - 1)
  }

  ghost function DateStep(dates: ViewsOf<nat>, op: Op, now: nat): ViewsOf<nat> {
    match op
    case Post(node, _) => Posted(dates, node, now)
    case Meet(a, b) => Exchanged(dates, a, b, map[])
  }

  lemma DatedLast(ops: seq<Op>, op: Op)
    ensures Dated(ops + [op]) == DateStep(Dated(ops), op, |ops|)
  {
    assert (ops + [op])[..|ops|] == ops;
  }

  /** The value at a position of the run that is a post of `x`. */
  ghost predicate PostAt(ops: seq<Op>, at: nat, x: int, info: Info) { at < |ops| && ops[at] == Post(x, info) }

  /** The dates belong to the views: the same entries, each with the position of the post of its value. */
  ghost predicate Dates(ops: seq<Op>, views: Views, dates: ViewsOf<nat>) {
    && views.Keys == dates.Keys
    && (forall y, x :: Knows(views, y, x) <==> y in dates && x in dates[y])
    && (forall y, x :: Knows(views, y, x) ==> PostAt(ops, dates[y][x], x, views[y][x]))
  }

  /** What an exchange leaves: at both nodes the second one's entry if it has one, else the first one's. */
  lemma ExchangeTakes<T>(views: ViewsOf<T>, a: int, b: int, y: int, x: int)
    ensures var v, w := ViewOf(views, y), ViewOf(Exchanged(views, a, b, map[]), y);
      if y != a && y != b then v == w
      else if x in ViewOf(views, b) then x in w && w[x] == ViewOf(views, b)[x]
      else if x in ViewOf(views, a) then x in w && w[x] == ViewOf(views, a)[x]
      else x !in w
  {
  }

  lemma DatesStep(ops: seq<Op>, views: Views, dates: ViewsOf<nat>, op: Op)
    requires Dates(ops, views, dates)
    ensures Dates(ops + [op], Apply(views, op), DateStep(dates, op, |ops|))
  {
    var now, later, newer := |ops|, Apply(views, op), DateStep(dates, op, |ops|);
    forall y, x
      ensures Knows(later, y, x) <==> y in newer && x in newer[y]
      ensures Knows(later, y, x) ==> PostAt(ops + [op], newer[y][x], x, later[y][x])
    {
      DatesStepAt(ops, views, dates, op, y, x);
    }
  }

  lemma DatesStepAt(ops: seq<Op>, views: Views, dates: ViewsOf<nat>, op: Op, y: int, x: int)
    requires Dates(ops, views, dates)
    ensures var later, newer := Apply(views, op), DateStep(dates, op, |ops|);
      && (Knows(later, y, x) <==> y in newer && x in newer[y])
      && (Knows(later, y, x) ==> PostAt(ops + [op], newer[y][x], x, later[y][x]))
  {
    assert forall u, v :: Knows(views, u, v) ==> PostAt(ops + [op], dates[u][v], v, views[u][v]);
    if op.Meet? {
      ExchangeTakes(views, op.a, op.b, y, x);
      ExchangeTakes(dates, op.a, op.b, y, x);
    }
  }

  /** In every run, each stored entry is the value of the post that its date points to. */
  lemma {:induction false} DatesErase(ops: seq<Op>)
    ensures Dates(ops, Exec(ops), Dated(ops))
    decreases |ops|
  {
    if ops != [] {
      var k := |ops| - 1;
      var before, last := ops[..k], ops[k];
      DatesErase(before);
      assert ops == before + [last];
      ExecLast(before, last);
      DatedLast(before, last);
      DatesStep(before, Exec(before), Dated(before), last);
    }
  }

  // -------------------------------------------------------- one exchange

  /** No node's entry for any node is lost or has an older post afterwards. */
  ghost predicate NoneOlder(dates: ViewsOf<nat>, later: ViewsOf<nat>) {
    forall y, x :: x in ViewOf(dates, y) ==> x in ViewOf(later, y) && ViewOf(dates, y)[x] <= ViewOf(later, y)[x]
  }

  /** For every node that both know, the second one's copy is at least as new as the first one's. */
  ghost predicate SecondIsFresh(dates: ViewsOf<nat>, a: int, b: int) {
    forall x :: x in ViewOf(dates, a) && x in ViewOf(dates, b) ==> ViewOf(dates, a)[x] <= ViewOf(dates, b)[x]
  }

  /** An exchange makes no entry older, at either node, exactly if the second node's copies are as new. */
  lemma ExchangeKeepsFreshIff(dates: ViewsOf<nat>, a: int, b: int)
    ensures NoneOlder(dates, Exchanged(dates, a, b, map[])) <==> SecondIsFresh(dates, a, b)
  {
    var later := Exchanged(dates, a, b, map[]);
    if SecondIsFresh(dates, a, b) {
      forall y, x | x in ViewOf(dates, y)
        ensures x in ViewOf(later, y) && ViewOf(dates, y)[x] <= ViewOf(later, y)[x]
      {
        ExchangeTakes(dates, a, b, y, x);
      }
    } else {
      var x :| x in ViewOf(dates, a) && x in ViewOf(dates, b) && ViewOf(dates, a)[x] > ViewOf(dates, b)[x];
      ExchangeTakes(dates, a, b, a, x);
    }
  }

  /** The second node's entries always survive, at both nodes. */
  lemma SecondSurvives<T>(views: ViewsOf<T>, a: int, b: int, x: int)
    requires x in ViewOf(views, b)
    ensures var later := Exchanged(views, a, b, map[]);
      && x in ViewOf(later, a) && x in ViewOf(later, b)
      && ViewOf(later, a)[x] == ViewOf(later, b)[x] == ViewOf(views, b)[x]
  {
    ExchangeTakes(views, a, b, a, x);
    ExchangeTakes(views, a, b, b, x);
  }

  // -------------------------------------------------------- whole runs

  ghost predicate DatesBelow(dates: ViewsOf<nat>, now: nat) {
    forall y, x :: x in ViewOf(dates, y) ==> ViewOf(dates, y)[x] < now
  }

  lemma {:induction false} DatedBelow(ops: seq<Op>)
    ensures DatesBelow(Dated(ops), |ops|)
  {
    DatesErase(ops);
    forall y, x | x in ViewOf(Dated(ops), y) ensures ViewOf(Dated(ops), y)[x] < |ops| {
      assert Knows(Exec(ops), y, x);
    }
  }

  lemma PostKeepsFresh(dates: ViewsOf<nat>, node: int, now: nat)
    requires DatesBelow(dates, now)
    ensures NoneOlder(dates, Posted(dates, node, now))
  {
  }

  /** The step at position k makes no entry older. */
  ghost predicate StepIsFresh(ops: seq<Op>, k: nat)
    requires k < |ops|
  {
    NoneOlder(Dated(ops[..k]), Dated(ops[..k + 1]))
  }

  /** An exchange at position k meets the condition above. */
  ghost predicate MeetsFresh(ops: seq<Op>, k: nat)
    requires k < |ops|
  {
    ops[k].Meet? ==> SecondIsFresh(Dated(ops[..k]), ops[k].a, ops[k].b)
  }

  lemma StepIsFreshIff(ops: seq<Op>, k: nat)
    requires k < |ops|
    ensures StepIsFresh(ops, k) <==> MeetsFresh(ops, k)
  {
    var before, op := ops[..k], ops[k];
    assert ops[..k + 1] == before + [op];
    DatedLast(before, op);
    if op.Meet? {
      ExchangeKeepsFreshIff(Dated(before), op.a, op.b);
    } else {
      DatedBelow(before);
      PostKeepsFresh(Dated(before), op.node, k);
    }
  }

  /** No entry anywhere ever becomes older in the run. */
  ghost predicate NeverOlder(ops: seq<Op>) {
    forall i, j :: 0 <= i <= j <= |ops| ==> NoneOlder(Dated(ops[..i]), Dated(ops[..j]))
  }

  lemma OlderIsTransitive(d: ViewsOf<nat>, e: ViewsOf<nat>, f: ViewsOf<nat>)
    requires NoneOlder(d, e) && NoneOlder(e, f)
    ensures NoneOlder(d, f)
  {
  }

  lemma {:induction false} FreshSteps(ops: seq<Op>, i: nat, j: nat)
    requires i <= j <= |ops| && forall k :: 0 <= k < |ops| ==> StepIsFresh(ops, k)
    ensures NoneOlder(Dated(ops[..i]), Dated(ops[..j]))
    decreases j
  {
    if i < j {
      FreshSteps(ops, i, j - 1);
      assert StepIsFresh(ops, j - 1);
      OlderIsTransitive(Dated(ops[..i]), Dated(ops[..j - 1]), Dated(ops[..j]));
    }
  }

  /** In a run no entry ever becomes older exactly if at each exchange the second node's copies are as new. */
  lemma NeverOlderIff(ops: seq<Op>)
    ensures NeverOlder(ops) <==> forall k :: 0 <= k < |ops| ==> MeetsFresh(ops, k)
  {
    forall k | 0 <= k < |ops| ensures StepIsFresh(ops, k) <==> MeetsFresh(ops, k) { StepIsFreshIff(ops, k); }
    if forall k :: 0 <= k < |ops| ==> MeetsFresh(ops, k) {
      forall i, j | 0 <= i <= j <= |ops| ensures NoneOlder(Dated(ops[..i]), Dated(ops[..j])) {
        FreshSteps(ops, i, j);
      }
    }
    if NeverOlder(ops) {
      forall k | 0 <= k < |ops| ensures StepIsFresh(ops, k) {}
    }
  }

  // -------------------------------------------------------- where it fails

  /** An exchange keeps a node's own entry exactly if its partner knows no other value for it. */
  lemma OwnEntrySurvivesIff(views: Views, a: int, b: int)
    requires a in ViewOf(views, a)
    ensures ViewOf(Exchanged(views, a, b, map[]), a)[a] == ViewOf(views, a)[a]
      <==> (a in ViewOf(views, b) ==> ViewOf(views, b)[a] == ViewOf(views, a)[a])
  {
  }

  /** A node's newer post about itself can be overwritten, in its own view, by an older copy. */
  lemma NewerPostCanBeLost(older: Info, newer: Info)
    requires older != newer
    ensures var ops := [Post(0, older), Meet(0, 1), Post(0, newer), Meet(0, 1)];
      ViewOf(Exec(ops), 0) == map[0 := older]
  {
    var o1, o2, o3 := [Post(0, older)], [Post(0, older), Meet(0, 1)], [Post(0, older), Meet(0, 1), Post(0, newer)];
    assert o1 == [] + [Post(0, older)];
    ExecLast([], Post(0, older));
    assert o2 == o1 + [Meet(0, 1)];
    ExecLast(o1, Meet(0, 1));
    assert o3 == o2 + [Post(0, newer)];
    ExecLast(o2, Post(0, newer));
    assert o3 + [Meet(0, 1)] == [Post(0, older), Meet(0, 1), Post(0, newer), Meet(0, 1)];
    ExecLast(o3, Meet(0, 1));
    assert ViewOf(Exec(o1), 0) == map[0 := older] && 1 !in Exec(o1);
    assert ViewOf(Exec(o2), 0) == map[0 := older] && ViewOf(Exec(o2), 1) == map[0 := older];
    assert ViewOf(Exec(o3), 0) == map[0 := newer] && ViewOf(Exec(o3), 1) == map[0 := older];
  }
}
