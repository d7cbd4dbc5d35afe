/**
 One coordinator node of the simplified Raft: its state, and one function for
 each block of code that runs under the node's lock. The methods of the imperative
 node in RaftNodeObject are proved against these functions, and the cluster
 models in RaftFine and RaftCoarse take their steps with them.
 */
module RaftNodes {
  import opened Common

  type Id = int

  datatype Role = Follower | Candidate | Leader

  datatype Entry = Entry(term: nat, command: string)

  datatype Node = Node(
    term: nat,
    votedFor: Option<Id>,
    log: seq<Entry>,
    role: Role,
    leaderId: Option<Id>,
    commitIndex: int,
    electionsStarted: nat,
    votesCast: nat,
    committed: nat,
    crashed: bool)

  const FRESH: Node := Node(0, None, [], Follower, None, -1, 0, 0, 0, false)

  function StartBlock(n: Node, me: Id): Node {
    n.(role := Candidate, term := n.term + 1, votedFor := Some(me), electionsStarted := n.electionsStarted + 1)
  }

  /** The node after a vote request, and whether the vote was granted. */
  function VoteBlock(n: Node, term: nat, candidate: Id, candidateLogLen: nat): (Node, bool) {
    if n.crashed || term < n.term then
      (n, false)
    else
      var m := if term > n.term then n.(term := term, votedFor := None, role := Follower) else n;
      if (m.votedFor == None || m.votedFor == Some(candidate)) && candidateLogLen >= |m.log| then
        (m.(votedFor := Some(candidate), votesCast := m.votesCast + 1), true)
      else
        (m, false)
  }

  /** Whether a node that has polled everybody takes the leadership. */
  predicate Wins(n: Node, votes: nat, total: nat) {
    votes > total / 2 && n.role == Candidate
  }

  function PromoteBlock(n: Node, me: Id): Node {
    n.(role := Leader, leaderId := Some(me))
  }

  function AcceptBlock(n: Node, leader: Id, term: nat): Node {
    if !n.crashed && term >= n.term then
      n.(role := Follower, leaderId := Some(leader), term := term)
    else n
  }

  function HeartbeatBlock(n: Node, term: nat, leader: Id): Node {
    if n.crashed then n
    else if term >= n.term then n.(term := term, role := Follower, leaderId := Some(leader))
    else n
  }

  function CrashBlock(n: Node): Node { n.(crashed := true, role := Follower) }

  function RecoverBlock(n: Node): Node { n.(crashed := false) }

  /** The leader's own half of append_log. */
  function AppendOwnBlock(n: Node, command: string): Node {
    n.(log := n.log + [Entry(n.term, command)], commitIndex := |n.log|, committed := n.committed + 1)
  }

  /** A peer's half of append_log: no term or index is compared. */
  function AppendPeerBlock(n: Node, entry: Entry): Node {
    if n.crashed then n else n.(log := n.log + [entry], commitIndex := |n.log|)
  }

  /**
   What every block except StartBlock, VoteBlock and PromoteBlock does to a node:
   the term never falls, the vote survives even when the term rises, and the role
   either stays (at the same term) or drops to follower.
   */
  ghost predicate Calm(n: Node, m: Node) {
    && n.term <= m.term
    && n.votedFor == m.votedFor
    && (m.role != Follower ==> m.role == n.role && m.term == n.term)
    && |n.log| <= |m.log|
  }

  lemma BlocksAreCalm(n: Node, term: nat, who: Id, entry: Entry)
    ensures Calm(n, AcceptBlock(n, who, term)) && Calm(n, HeartbeatBlock(n, term, who))
    ensures Calm(n, CrashBlock(n)) && Calm(n, RecoverBlock(n))
    ensures Calm(n, AppendOwnBlock(n, entry.command)) && Calm(n, AppendPeerBlock(n, entry))
  {
  }

  /**
   When a node grants its vote: only while up and with no longer log; to any newer request, and
   at its own term only to the one it backs. A heartbeat may have raised its term without freeing its vote.
   */
  lemma VoteGrantedIff(n: Node, term: nat, c: Id, logLen: nat)
    ensures VoteBlock(n, term, c, logLen).1 <==>
      !n.crashed && |n.log| <= logLen
      && (n.term < term || (n.term == term && (n.votedFor == None || n.votedFor == Some(c))))
  {
  }

  // -------------------------------------------------------- the votes of one term

  datatype Request = Request(candidate: Id, logLen: nat)

  /** The node after requests that all carry one term, and its answers. */
  function Asked(n: Node, term: nat, asks: seq<Request>): (Node, seq<bool>) {
    if asks == [] then (n, [])
    else
      var k := |asks| - 1;
      var (m, answers) := Asked(n, term, asks[..k]);
      var (v, yes) := VoteBlock(m, term, asks[k].candidate, asks[k].logLen);
      (v, answers + [yes])
  }

  /** The first request whose log is long enough. */
  ghost predicate IsFirst(logLen: nat, asks: seq<Request>, j: int) {
    0 <= j < |asks| && logLen <= asks[j].logLen && forall i :: 0 <= i < j ==> asks[i].logLen < logLen
  }

  /** The request comes with a long enough log, from the candidate of the first such request. */
  ghost predicate Deserves(logLen: nat, asks: seq<Request>, k: nat)
    requires k < |asks|
  {
    logLen <= asks[k].logLen && exists j :: IsFirst(logLen, asks, j) && asks[j].candidate == asks[k].candidate
  }

  /** The vote: nobody's while no log was long enough, else the first such candidate's. */
  ghost predicate BacksFirst(logLen: nat, asks: seq<Request>, vote: Option<Id>) {
    if vote == None then forall j :: 0 <= j < |asks| ==> asks[j].logLen < logLen
    else exists j :: IsFirst(logLen, asks, j) && asks[j].candidate == vote.value
  }

  lemma FirstStays(logLen: nat, asks: seq<Request>, more: Request, vote: Option<Id>)
    requires BacksFirst(logLen, asks, vote)
    ensures vote.Some? ==> BacksFirst(logLen, asks + [more], vote)
    ensures vote == None && logLen <= more.logLen ==> BacksFirst(logLen, asks + [more], Some(more.candidate))
    ensures vote == None && more.logLen < logLen ==> BacksFirst(logLen, asks + [more], None)
  {
    var all := asks + [more];
    if vote.Some? {
      var j :| IsFirst(logLen, asks, j) && asks[j].candidate == vote.value;
      assert IsFirst(logLen, all, j) && all[j] == asks[j];
    } else if logLen <= more.logLen {
      assert IsFirst(logLen, all, |asks|);
    }
  }

  lemma DeservesIff(logLen: nat, asks: seq<Request>, k: nat, vote: Option<Id>)
    requires k < |asks| && BacksFirst(logLen, asks, vote)
    ensures Deserves(logLen, asks, k) <==> logLen <= asks[k].logLen && vote == Some(asks[k].candidate)
  {
    if logLen <= asks[k].logLen {
      var j :| IsFirst(logLen, asks, j) && asks[j].candidate == vote.value;
      forall i | IsFirst(logLen, asks, i) ensures i == j { FirstIsOne(logLen, asks, i, j); }
    }
  }

  lemma FirstIsOne(logLen: nat, asks: seq<Request>, i: int, j: int)
    requires IsFirst(logLen, asks, i) && IsFirst(logLen, asks, j)
    ensures i == j
  {
  }

  lemma DeservedStays(logLen: nat, asks: seq<Request>, more: Request, k: nat, vote: Option<Id>)
    requires k < |asks| && BacksFirst(logLen, asks, vote)
    ensures Deserves(logLen, asks + [more], k) <==> Deserves(logLen, asks, k)
  {
    FirstStays(logLen, asks, more, vote);
    DeservesIff(logLen, asks, k, vote);
    if vote.Some? { DeservesIff(logLen, asks + [more], k, vote); }
  }

  /** A node in the middle of a newer term's requests. */
  ghost predicate MidTerm(n: Node, m: Node, term: nat, asks: seq<Request>) {
    && !m.crashed && m.log == n.log && m.term == (if asks == [] then n.term else term)
    && (asks != [] ==> BacksFirst(|n.log|, asks, m.votedFor) && m.role == Follower)
  }

  lemma NextRequest(n: Node, m: Node, term: nat, asks: seq<Request>, more: Request)
    requires !n.crashed && n.term < term && MidTerm(n, m, term, asks) && (asks == [] ==> m == n)
    ensures var (v, yes) := VoteBlock(m, term, more.candidate, more.logLen);
      MidTerm(n, v, term, asks + [more]) && (yes <==> Deserves(|n.log|, asks + [more], |asks|))
  {
    var vote := if asks == [] then None else m.votedFor;
    FirstStays(|n.log|, asks, more, vote);
    var (v, yes) := VoteBlock(m, term, more.candidate, more.logLen);
    DeservesIff(|n.log|, asks + [more], |asks|, v.votedFor);
  }

  /**
   A live node asked any number of times for its vote in a newer term grants exactly the requests of one
   candidate, the first one that came with a long enough log; a refused request leaves no trace in its vote.
   */
  lemma {:induction false} OneVotePerTerm(n: Node, term: nat, asks: seq<Request>)
    requires !n.crashed && n.term < term
    ensures var (m, answers) := Asked(n, term, asks);
      && |answers| == |asks| && MidTerm(n, m, term, asks) && (asks == [] ==> m == n)
      && forall k :: 0 <= k < |asks| ==> (answers[k] <==> Deserves(|n.log|, asks, k))
    decreases |asks|
  {
    if asks != [] {
      var fewer, more := asks[..|asks| - 1], asks[|asks| - 1];
      var (m, before) := Asked(n, term, fewer);
      OneVotePerTerm(n, term, fewer);
      assert asks == fewer + [more];
      NextRequest(n, m, term, fewer, more);
      forall k | 0 <= k < |fewer| ensures before[k] <==> Deserves(|n.log|, asks, k) {
        DeservedStays(|n.log|, fewer, more, k, m.votedFor);
      }
    }
  }

  /** After a refused newer request the next one needs only a long enough log; else also the same candidate. */
  lemma SecondRequest(n: Node, term: nat, c: Id, first: nat, d: Id, second: nat)
    requires !n.crashed && n.term < term
    ensures var (m, granted) := VoteBlock(n, term, c, first);
      && (granted <==> |n.log| <= first)
      && (VoteBlock(m, term, d, second).1 <==> |n.log| <= second && (granted ==> d == c))
  {
  }
}
