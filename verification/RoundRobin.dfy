/** The order in which the sequential scraper serves its categories, turn by turn. */
module RoundRobin {
  import opened Common
  import opened Urls

  type Queues = map<Category, seq<Url>>

  /** The category at a cursor, which counts on and wraps. */
  function At(categories: seq<Category>, cursor: nat): (c: Category)
    requires categories != []
    ensures c in categories
  {
    categories[cursor % |categories|]
  }

  /** The places of a stretch have no work. */
  ghost predicate NoneWithWork(categories: seq<Category>, queues: Queues, cursor: nat, next: nat)
    requires cursor < next ==> categories != []
    requires forall c :: c in categories ==> c in queues
  {
    forall k :: cursor <= k < next ==> queues[At(categories, k)] == []
  }

  /** `next` is one past the first place with work, from the cursor on. */
  ghost predicate FirstWithWork(categories: seq<Category>, queues: Queues, cursor: nat, next: nat) {
    && (forall c :: c in categories <==> c in queues)
    && cursor < next <= cursor + |categories|
    && queues[At(categories, next - 1)] != []
    && NoneWithWork(categories, queues, cursor, next - 1)
  }

  /** A turn that found work: the queues it found, its search, and whether its attempt was blocked. */
  datatype Visit = Visit(queues: Queues, cursor: nat, next: nat, blocked: bool)

  ghost predicate Found(categories: seq<Category>, v: Visit) {
    FirstWithWork(categories, v.queues, v.cursor, v.next)
  }

  ghost function Served(categories: seq<Category>, v: Visit): Category
    requires Found(categories, v)
  {
    At(categories, v.next - 1)
  }

  /** A block leaves the queues as they were; a success takes the head of the served one. */
  ghost function After(categories: seq<Category>, v: Visit): Queues
    requires Found(categories, v)
  {
    var c := Served(categories, v);
    if v.blocked then v.queues else v.queues[c := v.queues[c][1..]]
  }

  /** The URL that a turn scraped. */
  ghost function TakenBy(categories: seq<Category>, v: Visit): seq<Url>
    requires Found(categories, v)
  {
    if v.blocked then [] else [v.queues[Served(categories, v)][0]]
  }

  /**
   Turns as the loop makes them, each going on where the one before it stopped, lead from the first queues to
   these ones, the cursor from 0 to this one, and the scraped URLs from the first ones to these ones.
   */
  ghost predicate Told(categories: seq<Category>, start: Queues, had: seq<Url>, visits: seq<Visit>,
                       queues: Queues, cursor: nat, scraped: seq<Url>)
    decreases |visits|
  {
    if visits == [] then queues == start && cursor == 0 && scraped == had
    else
      var m := |visits| - 1;
      var v := visits[m];
      && Found(categories, v) && queues == After(categories, v) && cursor == v.next
      && exists before ::
        Told(categories, start, had, visits[..m], v.queues, v.cursor, before)
        && scraped == before + TakenBy(categories, v)
  }

  lemma TurnTold(categories: seq<Category>, start: Queues, had: seq<Url>, visits: seq<Visit>, v: Visit,
                 scraped: seq<Url>)
    requires Told(categories, start, had, visits, v.queues, v.cursor, scraped) && Found(categories, v)
    ensures Told(categories, start, had, visits + [v], After(categories, v), v.next, scraped + TakenBy(categories, v))
  {
    assert (visits + [v])[..|visits|] == visits;
  }

  ghost predicate GoesOn(categories: seq<Category>, v: Visit, w: Visit) {
    Found(categories, v) && w.cursor == v.next && w.queues == After(categories, v)
  }

  lemma FrontTold(categories: seq<Category>, start: Queues, had: seq<Url>, front: seq<Visit>, v: Visit,
                  queues: Queues, cursor: nat, scraped: seq<Url>)
    returns (before: seq<Url>)
    requires Told(categories, start, had, front + [v], queues, cursor, scraped)
    ensures Found(categories, v) && Told(categories, start, had, front, v.queues, v.cursor, before)
    ensures front != [] ==> GoesOn(categories, front[|front| - 1], v)
  {
    assert (front + [v])[..|front|] == front;
    before :| Told(categories, start, had, front, v.queues, v.cursor, before);
    if front != [] { LastGoesOn(categories, start, had, front, v, before); }
  }

  lemma LastGoesOn(categories: seq<Category>, start: Queues, had: seq<Url>, front: seq<Visit>, v: Visit,
                   before: seq<Url>)
    requires front != [] && Told(categories, start, had, front, v.queues, v.cursor, before)
    ensures GoesOn(categories, front[|front| - 1], v)
  {
  }

  ghost predicate AllGoOn(categories: seq<Category>, visits: seq<Visit>) {
    && (forall i :: 0 <= i < |visits| ==> Found(categories, visits[i]))
    && (forall i :: 0 < i < |visits| ==> GoesOn(categories, visits[i - 1], visits[i]))
  }

  lemma OneMoreGoesOn(categories: seq<Category>, front: seq<Visit>, v: Visit)
    requires AllGoOn(categories, front) && Found(categories, v)
    requires front != [] ==> GoesOn(categories, front[|front| - 1], v)
    ensures AllGoOn(categories, front + [v])
  {
    var visits := front + [v];
    forall i | 0 < i < |visits| ensures GoesOn(categories, visits[i - 1], visits[i]) {
      if i < |front| { assert GoesOn(categories, front[i - 1], front[i]); }
    }
  }

  lemma {:induction false} ToldGoesOn(categories: seq<Category>, start: Queues, had: seq<Url>, visits: seq<Visit>,
                                      queues: Queues, cursor: nat, scraped: seq<Url>)
    requires Told(categories, start, had, visits, queues, cursor, scraped)
    ensures AllGoOn(categories, visits)
    decreases |visits|
  {
    if visits != [] {
      var front, v := visits[..|visits| - 1], visits[|visits| - 1];
      assert visits == front + [v];
      var before := FrontTold(categories, start, had, front, v, queues, cursor, scraped);
      ToldGoesOn(categories, start, had, front, v.queues, v.cursor, before);
      OneMoreGoesOn(categories, front, v);
    }
  }

  // -------------------------------------------------------- no category starves

  lemma Spread(n: int, a: int, b: int)
    ensures n * (a - b - 1) == n * a - n * b - n
  {
  }

  lemma WrapsAround(k: nat, n: nat)
    requires n > 0
    ensures (k + n) % n == k % n
  {
    var a, b := (k + n) / n, k / n;
    assert k + n == n * a + (k + n) % n;
    assert k == n * b + k % n;
    Spread(n, a, b);
    MultiplesAreFar(n, a - b - 1);
  }

  lemma SmallRemainder(i: nat, n: nat)
    requires i < n
    ensures i % n == i
  {
  }

  /** A window as long as the list, walked modulo its length, visits every place. */
  lemma {:induction false} WindowCovers(start: nat, n: nat, i: nat) returns (k: nat)
    requires i < n
    ensures start <= k < start + n && k % n == i
  {
    if start == 0 {
      SmallRemainder(i, n);
      k := i;
    } else {
      k := WindowCovers(start - 1, n, i);
      if k == start - 1 {
        WrapsAround(k, n);
        k := k + n;
      }
    }
  }

  lemma WindowIsAll(categories: seq<Category>, queues: Queues, cursor: nat)
    requires forall c :: c in categories <==> c in queues
    requires NoneWithWork(categories, queues, cursor, cursor + |categories|)
    ensures forall c :: c in queues ==> queues[c] == []
  {
    forall c | c in queues ensures queues[c] == [] {
      var i :| 0 <= i < |categories| && categories[i] == c;
      var k := WindowCovers(cursor, |categories|, i);
      assert At(categories, k) == c;
    }
  }

  /** A place with work that lies ahead of the cursor is served before the cursor passes it. */
  lemma {:induction false} ServedOnTheWay(categories: seq<Category>, visits: seq<Visit>, i: nat, k: nat)
    returns (j: nat)
    requires AllGoOn(categories, visits)
    requires categories != [] && i < |visits| && visits[i].cursor <= k < visits[i].cursor + (|visits| - i)
    requires At(categories, k) in visits[i].queues && visits[i].queues[At(categories, k)] != []
    ensures i <= j <= i + k - visits[i].cursor && j < |visits| && Served(categories, visits[j]) == At(categories, k)
    decreases |visits| - i
  {
    var v := visits[i];
    assert Found(categories, v);
    if k < v.next {
      j := i;
    } else if Served(categories, v) == At(categories, k) {
      j := i;
    } else {
      assert GoesOn(categories, v, visits[i + 1]);
      j := ServedOnTheWay(categories, visits, i + 1, k);
    }
  }

  /** In any run, a category with work gets an attempt within as many turns as there are categories. */
  lemma NoStarvation(categories: seq<Category>, start: Queues, had: seq<Url>, visits: seq<Visit>,
                     queues: Queues, cursor: nat, scraped: seq<Url>, i: nat, c: Category)
    requires Told(categories, start, had, visits, queues, cursor, scraped)
    requires c in categories && i + |categories| <= |visits|
    requires c in visits[i].queues && visits[i].queues[c] != []
    ensures exists j :: i <= j < i + |categories| && Found(categories, visits[j]) && Served(categories, visits[j]) == c
  {
    ToldGoesOn(categories, start, had, visits, queues, cursor, scraped);
    var p :| 0 <= p < |categories| && categories[p] == c;
    var k := WindowCovers(visits[i].cursor, |categories|, p);
    var j := ServedOnTheWay(categories, visits, i, k);
  }
}
