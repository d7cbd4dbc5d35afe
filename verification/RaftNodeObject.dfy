/**
 The node as the object the program runs: its fields are updated in place, and an
 election, a heartbeat round and an append call the peers one after the other. Each
 method is proved against the block functions of RaftNodes; here the calls of
 one thread run uninterrupted, RaftFine has the interleavings.
 */
module RaftNodeObject {
  import opened Common
  import opened RaftNodes
  import opened Subsequences

  class RaftNode {
    const nodeId: Id
    const totalNodes: nat
    var peers: seq<RaftNode>

    var currentTerm: nat
    var votedFor: Option<Id>
    var log: seq<Entry>
    var state: Role
    var leaderId: Option<Id>
    var commitIndex: int
    var electionsStarted: nat
    var votesCast: nat
    var logEntriesCommitted: nat
    var crashed: bool

    function View(): Node
      reads this
    {
      Node(currentTerm, votedFor, log, state, leaderId, commitIndex,
           electionsStarted, votesCast, logEntriesCommitted, crashed)
    }

    /** The peers are different nodes, this one not among them. */
    ghost predicate Wired()
      reads this
    {
      this !in peers && NoRepeats(peers)
    }

    constructor (nodeId: Id, totalNodes: nat)
      ensures this.nodeId == nodeId && this.totalNodes == totalNodes
      ensures View() == FRESH && peers == [] && Wired()
      ensures currentTerm == 0 && votedFor == None && log == [] && state == Follower && !crashed
      ensures leaderId == None && commitIndex == -1
    {
      this.nodeId := nodeId;
      this.totalNodes := totalNodes;
      peers := [];
      currentTerm, votedFor, log := 0, None, [];
      state, leaderId, commitIndex := Follower, None, -1;
      electionsStarted, votesCast, logEntriesCommitted, crashed := 0, 0, 0, false;
    }

    /** All listed nodes with another id, in their order and as often as listed. */
    method SetPeers(all: seq<RaftNode>)
      modifies this`peers
      ensures peers == Others(all, nodeId) && Subsequence(peers, all)
      ensures forall p :: p in peers <==> p in all && p.nodeId != nodeId
      ensures NoRepeats(all) ==> Wired()
    {
      var chosen: seq<RaftNode> := [];
      for k := 0 to |all|
        invariant chosen == Others(all[..k], nodeId)
      {
        assert all[..k + 1][..k] == all[..k];
        if all[k].nodeId != nodeId { chosen := chosen + [all[k]]; }
      }
      assert all[..|all|] == all;
      OthersAreOthers(all, nodeId);
      OthersInOrder(all, nodeId);
      if NoRepeats(all) { OthersDiffer(all, nodeId); }
      peers := chosen;
    }

    method ForceCrash()
      modifies this
      ensures View() == CrashBlock(old(View())) && peers == old(peers)
      ensures View() == old(View()).(crashed := true, role := Follower)
    {
      crashed := true;
      state := Follower;
    }

    method Recover()
      modifies this
      ensures View() == RecoverBlock(old(View())) && peers == old(peers)
      ensures View() == old(View()).(crashed := false)
    {
      crashed := false;
    }

    method RequestVote(term: nat, candidateId: Id, candidateLogLen: nat) returns (granted: bool)
      modifies this
      ensures (View(), granted) == VoteBlock(old(View()), term, candidateId, candidateLogLen) && peers == old(peers)
      ensures old(crashed) || term < old(currentTerm) ==> !granted && View() == old(View())
      ensures !old(crashed) && term >= old(currentTerm) ==>
        var newer := term > old(currentTerm);
        View() == old(View()).(
          term := term,
          role := if newer then Follower else old(state),
          votedFor := if granted then Some(candidateId) else if newer then None else old(votedFor),
          votesCast := old(votesCast) + if granted then 1 else 0)
    {
      if crashed { return false; }
      if term < currentTerm { return false; }
      if term > currentTerm {
        currentTerm := term;
        votedFor := None;
        state := Follower;
      }
      if votedFor == None || votedFor == Some(candidateId) {
        if candidateLogLen >= |log| {
          votedFor := Some(candidateId);
          votesCast := votesCast + 1;
          return true;
        }
      }
      return false;
    }

    method ReceiveHeartbeat(term: nat, leader: Id)
      modifies this
      ensures View() == HeartbeatBlock(old(View()), term, leader) && peers == old(peers)
      ensures old(crashed) || term < old(currentTerm) ==> View() == old(View())
      ensures !old(crashed) && term >= old(currentTerm) ==>
        View() == old(View()).(term := term, role := Follower, leaderId := Some(leader))
    {
      if crashed { return; }
      if term >= currentTerm {
        currentTerm := term;
        state := Follower;
        leaderId := Some(leader);
      }
    }

    method AcceptLeader(leader: Id, term: nat)
      modifies this
      ensures View() == AcceptBlock(old(View()), leader, term) && peers == old(peers)
      ensures old(crashed) || term < old(currentTerm) ==> View() == old(View())
      ensures !old(crashed) && term >= old(currentTerm) ==>
        View() == old(View()).(term := term, role := Follower, leaderId := Some(leader))
    {
      if !crashed && term >= currentTerm {
        state := Follower;
        leaderId := Some(leader);
        currentTerm := term;
      }
    }

    method AppendEntry(entry: Entry)
      modifies this
      ensures View() == AppendPeerBlock(old(View()), entry) && peers == old(peers)
      ensures old(crashed) ==> View() == old(View())
      ensures !old(crashed) ==> View() == old(View()).(log := old(log) + [entry], commitIndex := |old(log)|)
    {
      if !crashed {
        log := log + [entry];
        commitIndex := |log| - 1;
      }
    }

    /** Asks every peer for its vote; `granted` lists the answers in the order of the peers. */
    method PollPeers(term: nat, logLen: nat) returns (votes: nat, ghost granted: seq<bool>)
      requires Wired()
      modifies peers
      ensures |granted| == |peers| && votes == 1 + Count(granted)
      ensures forall i :: 0 <= i < |peers| ==>
        (peers[i].View(), granted[i]) == VoteBlock(old(peers[i].View()), term, nodeId, logLen)
    {
      votes := 1;
      granted := [];
      for k := 0 to |peers|
        invariant |granted| == k && votes == 1 + Count(granted)
        invariant forall i :: 0 <= i < k ==>
          (peers[i].View(), granted[i]) == VoteBlock(old(peers[i].View()), term, nodeId, logLen)
        invariant forall i :: k <= i < |peers| ==> peers[i].View() == old(peers[i].View())
      {
        var yes := peers[k].RequestVote(term, nodeId, logLen);
        if yes { votes := votes + 1; }
        CountGrows(granted, yes);
        granted := granted + [yes];
      }
    }

    /** The first locked block of an election. */
    method BecomeCandidate() returns (term: nat, logLen: nat)
      modifies this
      ensures View() == StartBlock(old(View()), nodeId) && peers == old(peers)
      ensures state == Candidate && currentTerm == old(currentTerm) + 1 && votedFor == Some(nodeId)
      ensures electionsStarted == old(electionsStarted) + 1 && log == old(log)
      ensures term == currentTerm && logLen == |log|
    {
      state := Candidate;
      currentTerm := currentTerm + 1;
      votedFor := Some(nodeId);
      electionsStarted := electionsStarted + 1;
      return currentTerm, |log|;
    }

    /** The calls a promotion makes under its own lock. */
    method Announce()
      requires Wired()
      modifies peers
      ensures forall i :: 0 <= i < |peers| ==> peers[i].View() == AcceptBlock(old(peers[i].View()), nodeId, currentTerm)
    {
      for k := 0 to |peers|
        invariant forall i :: 0 <= i < k ==> peers[i].View() == AcceptBlock(old(peers[i].View()), nodeId, currentTerm)
        invariant forall i :: k <= i < |peers| ==> peers[i].View() == old(peers[i].View())
      {
        peers[k].AcceptLeader(nodeId, currentTerm);
      }
    }

    /** A whole uninterrupted election; the node leads afterwards exactly if enough peers granted their vote. */
    method StartElection() returns (ghost granted: seq<bool>)
      requires Wired()
      modifies this, peers
      ensures peers == old(peers) && |granted| == |peers|
      ensures currentTerm == old(currentTerm) + 1 && votedFor == Some(nodeId) && log == old(log)
      ensures var won := 2 * (1 + Count(granted)) > totalNodes;
        state == (if won then Leader else Candidate) && leaderId == if won then Some(nodeId) else old(leaderId)
      ensures var me := StartBlock(old(View()), nodeId);
        var won := 1 + Count(granted) > totalNodes / 2;
        && View() == (if won then PromoteBlock(me, nodeId) else me)
        && forall i :: 0 <= i < |peers| ==>
          var (voter, yes) := VoteBlock(old(peers[i].View()), me.term, nodeId, |me.log|);
          granted[i] == yes && peers[i].View() == if won then AcceptBlock(voter, nodeId, me.term) else voter
    {
      var term, logLen := BecomeCandidate();
      var votes: nat;
      votes, granted := PollPeers(term, logLen);
      if votes > totalNodes / 2 && state == Candidate {
        state := Leader;
        leaderId := Some(nodeId);
        Announce();
      }
    }

    method SendHeartbeats()
      requires Wired()
      modifies peers
      ensures forall i :: 0 <= i < |peers| ==>
        peers[i].View() == HeartbeatBlock(old(peers[i].View()), currentTerm, nodeId)
      ensures forall i :: 0 <= i < |peers| && (old(peers[i].crashed) || old(peers[i].currentTerm) > currentTerm) ==>
        peers[i].View() == old(peers[i].View())
      ensures forall i :: 0 <= i < |peers| && !old(peers[i].crashed) && old(peers[i].currentTerm) <= currentTerm ==>
        peers[i].View() == old(peers[i].View()).(term := currentTerm, role := Follower, leaderId := Some(nodeId))
    {
      var term := currentTerm;
      for k := 0 to |peers|
        invariant forall i :: 0 <= i < k ==> peers[i].View() == HeartbeatBlock(old(peers[i].View()), term, nodeId)
        invariant forall i :: k <= i < |peers| ==> peers[i].View() == old(peers[i].View())
      {
        peers[k].ReceiveHeartbeat(term, nodeId);
      }
    }

    method AppendLog(command: string) returns (accepted: bool)
      requires Wired()
      modifies this, peers
      ensures accepted == (old(state) == Leader && !old(crashed)) && peers == old(peers)
      ensures View() == if accepted then AppendOwnBlock(old(View()), command) else old(View())
      ensures accepted ==> log == old(log) + [Entry(currentTerm, command)] && commitIndex == |old(log)|
      ensures accepted ==> logEntriesCommitted == old(logEntriesCommitted) + 1 && currentTerm == old(currentTerm)
      ensures forall i :: 0 <= i < |peers| && (!accepted || old(peers[i].crashed)) ==>
        peers[i].View() == old(peers[i].View())
      ensures forall i :: 0 <= i < |peers| && accepted && !old(peers[i].crashed) ==>
        var before := old(peers[i].View());
        peers[i].View() == before.(log := before.log + [Entry(currentTerm, command)], commitIndex := |before.log|)
    {
      if state != Leader || crashed { return false; }
      var entry := Entry(currentTerm, command);
      log := log + [entry];
      commitIndex := |log| - 1;
      logEntriesCommitted := logEntriesCommitted + 1;
      for k := 0 to |peers|
        invariant View() == AppendOwnBlock(old(View()), command) && peers == old(peers)
        invariant forall i :: 0 <= i < k ==> peers[i].View() == AppendPeerBlock(old(peers[i].View()), entry)
        invariant forall i :: k <= i < |peers| ==> peers[i].View() == old(peers[i].View())
      {
        peers[k].AppendEntry(entry);
      }
      return true;
    }
  }

  function Others(all: seq<RaftNode>, me: Id): seq<RaftNode> {
    if all == [] then []
    else
      var m := |all| - 1;
      Others(all[..m], me) + if all[m].nodeId != me then [all[m]] else []
  }

  lemma {:induction false} OthersInOrder(all: seq<RaftNode>, me: Id)
    ensures Subsequence(Others(all, me), all)
    decreases |all|
  {
    if all != [] {
      var fewer, last := all[..|all| - 1], all[|all| - 1];
      var others := Others(fewer, me);
      OthersInOrder(fewer, me);
      assert all == fewer + [last];
      SubsequenceGrows(others, fewer, last);
      assert Others(all, me) == if last.nodeId != me then others + [last] else others;
    }
  }

  lemma {:induction false} OthersAreOthers(all: seq<RaftNode>, me: Id)
    ensures forall k :: 0 <= k < |Others(all, me)| ==> Others(all, me)[k] in all && Others(all, me)[k].nodeId != me
    ensures forall k :: 0 <= k < |all| && all[k].nodeId != me ==> all[k] in Others(all, me)
    decreases |all|
  {
    if all != [] {
      var fewer, last := all[..|all| - 1], all[|all| - 1];
      OthersAreOthers(fewer, me);
      assert all == fewer + [last];
    }
  }

  lemma {:induction false} OthersDiffer(all: seq<RaftNode>, me: Id)
    requires NoRepeats(all)
    ensures NoRepeats(Others(all, me))
    decreases |all|
  {
    if all != [] {
      var fewer, last := all[..|all| - 1], all[|all| - 1];
      var others, more := Others(fewer, me), Others(all, me);
      OthersDiffer(fewer, me);
      OthersAreOthers(fewer, me);
      assert more == others || more == others + [last];
      assert last !in fewer;
      forall i, j | 0 <= i < j < |more| ensures more[i] != more[j] {
        if j < |others| { assert others[i] != others[j]; } else { assert others[i] in fewer; }
      }
    }
  }

  function Count(answers: seq<bool>): nat {
    if answers == [] then 0
    else Count(answers[..|answers| - 1]) + if answers[|answers| - 1] then 1 else 0
  }

  lemma CountGrows(answers: seq<bool>, yes: bool)
    ensures Count(answers + [yes]) == Count(answers) + if yes then 1 else 0
  {
    assert (answers + [yes])[..|answers|] == answers;
  }

  /** The count is the number of peers that said yes. */
  lemma {:induction false} CountIsYes(answers: seq<bool>)
    ensures Count(answers) == |set i | 0 <= i < |answers| && answers[i]|
  {
    var yes := set i | 0 <= i < |answers| && answers[i];
    if answers == [] {
      assert yes == {};
    } else {
      var m := |answers| - 1;
      var fewer := set i | 0 <= i < m && answers[..m][i];
      CountIsYes(answers[..m]);
      assert yes == fewer + if answers[m] then {m} else {};
    }
  }

  lemma {:induction false} CountAll(answers: seq<bool>)
    requires forall i :: 0 <= i < |answers| ==> answers[i]
    ensures Count(answers) == |answers|
  {
    if answers != [] { CountAll(answers[..|answers| - 1]); }
  }

  /** A live candidate among live peers, at no higher terms and with no longer logs, is elected and accepted by all. */
  method ElectAmongHealthy(c: RaftNode)
    requires c.Wired() && c.totalNodes == |c.peers| + 1
    requires forall p :: p in c.peers ==> !p.crashed && p.currentTerm <= c.currentTerm && |p.log| <= |c.log|
    modifies c, c.peers
    ensures c.state == Leader && c.currentTerm == old(c.currentTerm) + 1 && c.peers == old(c.peers)
    ensures c.leaderId == Some(c.nodeId)
    ensures forall p :: p in c.peers ==>
      p.state == Follower && p.leaderId == Some(c.nodeId) && p.currentTerm == c.currentTerm
  {
    ghost var granted := c.StartElection();
    CountAll(granted);
    forall p | p in c.peers
      ensures p.state == Follower && p.leaderId == Some(c.nodeId) && p.currentTerm == c.currentTerm
    {
      var i :| 0 <= i < |c.peers| && c.peers[i] == p;
      var voter := VoteBlock(old(c.peers[i].View()), c.currentTerm, c.nodeId, |c.log|).0;
      assert p.View() == AcceptBlock(voter, c.nodeId, c.currentTerm);
    }
  }

  /** A live node asked in turn for its vote in a newer term grants the requests of the first candidate that fits. */
  method AskInTurn(voter: RaftNode, term: nat, asks: seq<Request>) returns (answers: seq<bool>)
    requires !voter.crashed && voter.currentTerm < term
    modifies voter
    ensures |answers| == |asks|
    ensures forall k :: 0 <= k < |asks| ==> (answers[k] <==> Deserves(|old(voter.log)|, asks, k))
    ensures voter.log == old(voter.log) && (asks != [] ==> BacksFirst(|voter.log|, asks, voter.votedFor))
  {
    ghost var before := voter.View();
    answers := [];
    for k := 0 to |asks|
      invariant (voter.View(), answers) == Asked(before, term, asks[..k])
    {
      assert asks[..k + 1][..k] == asks[..k];
      var yes := voter.RequestVote(term, asks[k].candidate, asks[k].logLen);
      answers := answers + [yes];
    }
    assert asks[..|asks|] == asks;
    OneVotePerTerm(before, term, asks);
  }

  /** Two requests of a newer term: whether the first one was granted decides what the second one needs. */
  method AskTwice(voter: RaftNode, term: nat, c: Id, first: nat, d: Id, second: nat)
    returns (granted: bool, again: bool)
    requires !voter.crashed && voter.currentTerm < term
    modifies voter
    ensures granted <==> |old(voter.log)| <= first
    ensures !granted ==> (again <==> |old(voter.log)| <= second)
    ensures granted ==> (again <==> |old(voter.log)| <= second && d == c)
  {
    SecondRequest(voter.View(), term, c, first, d, second);
    granted := voter.RequestVote(term, c, first);
    again := voter.RequestVote(term, d, second);
  }
}
