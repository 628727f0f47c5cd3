/** Why the safety theorems ask that a winner's match indices lie within its log: a winner
  keeps the matchIndex of an earlier reign, and a run of five peers in which one of them is
  equal to the length of the winner's log, and none of any win greater. The winner's next
  entry falls on it and is committed without a majority. Two peers then apply different
  commands at the same index. */
module RaftStale {
  import opened Common
  import opened RaftPeer
  import opened RaftCluster
  import opened RaftInvariant
  import opened RaftReplication
  import RaftSafety

  // --- reaching a state ----------------------------------------------------

  /** No match index the peer holds lies further than just past its log. */
  predicate Touches(p: Peer) {
    forall j | 0 <= j < |p.matchIndex| :: p.matchIndex[j] <= |p.log|
  }

  /** A win by a peer whose match indices are no greater than the length of its log. */
  predicate TouchingStep(c: Cluster, s: Step)
    requires Offered(c, s)
  {
    s.DeliverVoteReply? && IsWin(c, s.key) ==> Touches(c.peers[s.key.candidate])
  }

  ghost predicate TouchingRun(n: nat, states: seq<Cluster>, steps: seq<Step>) {
    && IsRun(n, states, steps)
    && forall k {:trigger StepAt(states, steps, k)} | 0 <= k < |steps| ::
         StepAt(states, steps, k) && TouchingStep(states[k], steps[k])
  }

  ghost predicate RunTo(n: nat, states: seq<Cluster>, steps: seq<Step>, c: Cluster) {
    TouchingRun(n, states, steps) && states[|steps|] == c
  }

  ghost predicate Reached(n: nat, c: Cluster) {
    exists states, steps :: RunTo(n, states, steps, c)
  }

  lemma ReachedWf(n: nat, c: Cluster)
    requires Reached(n, c)
    ensures Wf(c) && |c.peers| == n
  {
    var states, steps :| RunTo(n, states, steps, c);
    RunInv(n, states, steps, |steps|);
  }

  lemma Onward(n: nat, c: Cluster, s: Step) returns (d: Cluster)
    requires Reached(n, c) && Wf(c) && Offered(c, s) && InRange(c, s) && TouchingStep(c, s)
    ensures Reached(n, d) && d == Apply(c, s) && Wf(d) && |d.peers| == n
  {
    d := Apply(c, s);
    var states, steps :| RunTo(n, states, steps, c);
    var states', steps' := states + [d], steps + [s];
    forall k | 0 <= k < |steps'| ensures StepAt(states', steps', k) && TouchingStep(states'[k], steps'[k]) {
      assert k < |steps| ==> StepAt(states, steps, k) && TouchingStep(states[k], steps[k]);
    }
    assert RunTo(n, states', steps', d);
    ReachedWf(n, d);
  }

  // --- an election ---------------------------------------------------------

  function Voter(p: Peer, candidate: nat, term: nat): Peer {
    p.(currentTerm := term, role := Follower, votedFor := Some(candidate))
  }

  function Winner(p: Peer, votes: nat): Peer {
    p.(role := Leader, totalVotes := votes, nextIndex := seq(|p.nextIndex|, _ => p.commitIndex + 1))
  }

  /** Candidate i still waits for j to be asked. */
  ghost predicate Pending(c: Cluster, i: nat, j: nat)
    requires Wf(c) && i < |c.peers|
  {
    var p := c.peers[i];
    p.role == Candidate && VoteKey(i, p.currentTerm, j) in c.voteRpcs &&
    c.voteRpcs[VoteKey(i, p.currentTerm, j)] == Asked(Ballot(p))
  }

  /** Would j vote for i? */
  predicate Willing(p: Peer, q: Peer)
    requires PeerWf(p) && PeerWf(q)
  {
    q.currentTerm < p.currentTerm && UpToDate(q.log, Ballot(p))
  }

  lemma Stands(n: nat, c: Cluster, i: nat) returns (d: Cluster)
    requires Reached(n, c) && Wf(c) && i < |c.peers| && c.peers[i].role != Leader
    ensures Reached(n, d) && Wf(d) && |d.peers| == n == |c.peers| && d.peers == c.peers[i := Timeout(c.peers[i])]
    ensures forall j: nat | j < n && j != i :: Pending(d, i, j)
  {
    ReachedWf(n, c);
    d := Onward(n, c, ElectionTimeout(i));
  }

  /** j is asked and grants. */
  lemma Grants(n: nat, c: Cluster, i: nat, j: nat) returns (d: Cluster)
    requires Reached(n, c) && Wf(c) && i < |c.peers| && j < |c.peers| && i != j
    requires Pending(c, i, j) && Willing(c.peers[i], c.peers[j])
    ensures Reached(n, d) && Wf(d) && |d.peers| == n == |c.peers|
    ensures d.peers == c.peers[j := Voter(c.peers[j], i, c.peers[i].currentTerm)]
    ensures var p := c.peers[i];
            d.voteRpcs == c.voteRpcs[VoteKey(i, p.currentTerm, j) :=
                                     Answered(Ballot(p), VoteReply(c.peers[j].currentTerm, true))]
  {
    ReachedWf(n, c);
    d := Onward(n, c, DeliverVote(VoteKey(i, c.peers[i].currentTerm, j)));
  }

  /** j is asked, grants, and the reply is counted. */
  lemma OneVote(n: nat, c: Cluster, i: nat, j: nat) returns (d: Cluster)
    requires Reached(n, c) && Wf(c) && i < |c.peers| && j < |c.peers| && i != j
    requires Pending(c, i, j) && Willing(c.peers[i], c.peers[j]) && Touches(c.peers[i])
    requires c.peers[i].commitIndex < |c.peers[i].log|
    ensures Reached(n, d) && Wf(d) && |d.peers| == n == |c.peers|
    ensures var p, q := c.peers[i], c.peers[j];
            var votes := p.totalVotes + 1;
            d.peers == c.peers[j := Voter(q, i, p.currentTerm)]
                              [i := if votes > n / 2 then Winner(p, votes) else p.(totalVotes := votes)]
    ensures d.peers[i].role == Candidate ==> forall k: nat | k != j && Pending(c, i, k) :: Pending(d, i, k)
  {
    var b := Grants(n, c, i, j);
    d := Onward(n, b, DeliverVoteReply(VoteKey(i, c.peers[i].currentTerm, j)));
  }

  /** Of five peers, i is elected by a and b. */
  lemma Elected(c: Cluster, i: nat, a: nat, b: nat) returns (d: Cluster)
    requires Reached(5, c) && Wf(c) && |c.peers| == 5 && i < 5 && a < 5 && b < 5 && i != a && i != b && a != b
    requires var p := c.peers[i];
             p.role != Leader && p.commitIndex < |p.log| && Touches(p) &&
             Willing(Timeout(p), c.peers[a]) && Willing(Timeout(p), c.peers[b])
    ensures Reached(5, d) && Wf(d) && |d.peers| == 5
    ensures var p := Timeout(c.peers[i]);
            d.peers == c.peers[i := Winner(p, 3)][a := Voter(c.peers[a], i, p.currentTerm)]
                              [b := Voter(c.peers[b], i, p.currentTerm)]
  {
    var c1 := Stands(5, c, i);
    var c2 := OneVote(5, c1, i, a);
    d := OneVote(5, c2, i, b);
  }

  // --- replication ---------------------------------------------------------

  /** The leader's state once j has acknowledged its whole log. */
  function Acked(p: Peer, j: nat): Peer
    requires PeerWf(p) && j < p.numPeers
  {
    var last := |p.log| - 1;
    var q := p.(nextIndex := p.nextIndex[j := last + 1], matchIndex := p.matchIndex[j := last]);
    if Decides(q, last) then q.(commitIndex := Max(q.commitIndex, last)) else q
  }

  /** Of five peers, an acknowledgement commits when two others are counted. */
  lemma AckCounts(p: Peer, j: nat, matchIndex: seq<nat>, others: set<nat>)
    requires PeerWf(p) && j < p.numPeers == 5 && p.commitIndex == 0
    requires matchIndex == p.matchIndex[j := |p.log| - 1] && others == Agreeing(matchIndex, p.me, |p.log| - 1)
    ensures Acked(p, j) == p.(
              nextIndex := p.nextIndex[j := |p.log|], matchIndex := matchIndex,
              commitIndex := if |others| >= 2 && LastTerm(p.log) == p.currentTerm then |p.log| - 1 else 0)
  {
  }

  /** j may take over the leader's log, whatever it holds after slot 0. */
  ghost predicate CanReplicate(p: Peer, q: Peer, j: nat) {
    && PeerWf(p) && PeerWf(q) && j < p.numPeers
    && p.nextIndex[j] == 1 && p.commitIndex == 0
    && q.currentTerm <= p.currentTerm && |p.log| >= 2 && p.log[0] == q.log[0]
    && (|q.log| >= 2 ==> q.log[1].term != p.log[1].term)
  }

  function Copied(p: Peer, q: Peer, j: nat): Peer
    requires CanReplicate(p, q, j)
  {
    Accept(q, CallFor(p, j).args).(log := p.log)
  }

  /** A leader's call reaches j, which takes over the leader's log. */
  lemma Delivered(n: nat, c: Cluster, i: nat, j: nat) returns (d: Cluster)
    requires Reached(n, c) && Wf(c) && i < |c.peers| && j < |c.peers| && i != j
    requires c.peers[i].role == Leader && CanSend(c.peers[i]) && CanReplicate(c.peers[i], c.peers[j], j)
    ensures Reached(n, d) && Wf(d) && |d.peers| == n == |c.peers|
    ensures var p, q := c.peers[i], c.peers[j];
            && d.peers == c.peers[j := Copied(p, q, j)]
            && AppendAnswer(CallFor(p, j), AppendReply(p.currentTerm, true)) in d.answers
  {
    ReachedWf(n, c);
    var p, q := c.peers[i], c.peers[j];
    var b := Onward(n, c, HeartbeatTimeout(i));
    assert CallFor(p, j) in Heartbeats(p);
    TakesLog(q, p, j);
    d := Onward(n, b, DeliverAppend(CallFor(p, j)));
  }

  /** Then the answer reaches the leader. */
  lemma Replicated(n: nat, c: Cluster, i: nat, j: nat) returns (d: Cluster)
    requires Reached(n, c) && Wf(c) && i < |c.peers| && j < |c.peers| && i != j
    requires c.peers[i].role == Leader && CanSend(c.peers[i]) && CanReplicate(c.peers[i], c.peers[j], j)
    ensures Reached(n, d) && Wf(d) && |d.peers| == n == |c.peers|
    ensures d.peers == c.peers[j := Copied(c.peers[i], c.peers[j], j)][i := Acked(c.peers[i], j)]
  {
    var p := c.peers[i];
    var b := Delivered(n, c, i, j);
    d := Onward(n, b, DeliverAppendReply(AppendAnswer(CallFor(p, j), AppendReply(p.currentTerm, true))));
  }

  lemma TakesLog(q: Peer, p: Peer, j: nat)
    requires CanReplicate(p, q, j)
    ensures ArgsShape(CallFor(p, j).args)
    ensures HandleAppend(q, CallFor(p, j).args) == (Copied(p, q, j), AppendReply(p.currentTerm, true))
  {
    var a := CallFor(p, j).args;
    assert a.entries[0] == p.log[1];
    assert Install(q.log, a, 0) == q.log[..1] + a.entries == p.log;
  }

  lemma Started(n: nat, c: Cluster, i: nat, command: Command) returns (d: Cluster)
    requires Reached(n, c) && Wf(c) && i < |c.peers| && c.peers[i].role == Leader && CanSend(c.peers[i])
    ensures Reached(n, d) && Wf(d) && |d.peers| == n == |c.peers| && d.peers == c.peers[i := Start(c.peers[i], command)]
  {
    ReachedWf(n, c);
    d := Onward(n, c, ClientStart(i, command));
  }

  /** The apply loop copies out the first two entries and sends both. */
  lemma AppliedTwo(n: nat, c: Cluster, i: nat) returns (d: Cluster)
    requires Reached(n, c) && Wf(c) && i < |c.peers|
    requires var p := c.peers[i];
             && p.toApply == [] && p.lastApplied == 0 && p.commitIndex == 2 && |p.log| == 3
             && p.applied == []
    ensures Reached(n, d) && Wf(d) && |d.peers| == n == |c.peers|
    ensures var p := c.peers[i];
            d.peers == c.peers[i := p.(lastApplied := 2, applied := [Message(p.log[1]), Message(p.log[2])])]
  {
    ReachedWf(n, c);
    var p := c.peers[i];
    var c1 := Onward(n, c, CollectCommitted(i));
    assert c1.peers[i].toApply == [p.log[1], p.log[2]];
    var c2 := Onward(n, c1, EmitApply(i));
    assert c2.peers[i] == p.(lastApplied := 2, toApply := [p.log[2]], applied := [Message(p.log[1])]);
    d := Onward(n, c2, EmitApply(i));
    assert d.peers[i] == p.(lastApplied := 2, applied := [Message(p.log[1]), Message(p.log[2])]);
  }

  // --- the run -------------------------------------------------------------

  /** A peer that has committed and applied nothing. */
  predicate Idle(p: Peer, term: nat, log: seq<Entry>, matchIndex: seq<nat>) {
    && p.currentTerm == term && p.log == log && p.matchIndex == matchIndex
    && p.commitIndex == 0 == p.lastApplied && p.toApply == [] && p.applied == []
  }

  predicate Leads(p: Peer, term: nat, log: seq<Entry>, nextIndex: seq<nat>, matchIndex: seq<nat>) {
    p.role == Leader && Idle(p, term, log, matchIndex) && p.nextIndex == nextIndex
  }

  const ALL_ZERO: seq<nat> := [0, 0, 0, 0, 0]
  const ALL_ONE: seq<nat> := [1, 1, 1, 1, 1]
  const STALE: seq<nat> := [0, 2, 0, 0, 0]

  const LOG_X := [SLOT_0, Entry(1, Op("x1"), 1), Entry(1, Op("x2"), 2)]
  const LOG_Y := [SLOT_0, Entry(2, Op("y"), 1)]
  const LOG_Z := [SLOT_0, Entry(2, Op("y"), 1), Entry(3, Op("z"), 2)]
  const LOG_W := [SLOT_0, Entry(2, Op("y"), 1), Entry(4, Op("w"), 2)]

  lemma Opening() returns (c: Cluster)
    ensures Reached(5, c) && Wf(c) && |c.peers| == 5
    ensures forall i | 0 <= i < 5 :: Idle(c.peers[i], 0, [SLOT_0], ALL_ZERO) && c.peers[i].role == Follower
  {
    c := Init(5);
    assert RunTo(5, [c], [], c);
    ReachedWf(5, c);
  }

  /** Term 1: peer 0 leads. */
  lemma Act0() returns (c: Cluster)
    ensures Reached(5, c) && Wf(c) && |c.peers| == 5
    ensures Leads(c.peers[0], 1, [SLOT_0], ALL_ONE, ALL_ZERO)
    ensures Idle(c.peers[1], 1, [SLOT_0], ALL_ZERO) && Idle(c.peers[2], 1, [SLOT_0], ALL_ZERO)
            && c.peers[2].role == Follower
    ensures Idle(c.peers[3], 0, [SLOT_0], ALL_ZERO) && Idle(c.peers[4], 0, [SLOT_0], ALL_ZERO)
  {
    var c0 := Opening();
    c := Elected(c0, 0, 1, 2);
  }

  /** It gets two entries to peer 1, short of a majority. */
  lemma Act1() returns (c: Cluster)
    ensures Reached(5, c) && Wf(c) && |c.peers| == 5
    ensures Leads(c.peers[0], 1, LOG_X, [1, 3, 1, 1, 1], STALE) && Idle(c.peers[1], 1, LOG_X, ALL_ZERO)
    ensures Idle(c.peers[2], 1, [SLOT_0], ALL_ZERO) && c.peers[2].role == Follower
    ensures Idle(c.peers[3], 0, [SLOT_0], ALL_ZERO) && Idle(c.peers[4], 0, [SLOT_0], ALL_ZERO)
  {
    var c0 := Act0();
    var c1 := Started(5, c0, 0, Op("x1"));
    var c2 := Started(5, c1, 0, Op("x2"));
    assert Leads(c2.peers[0], 1, LOG_X, ALL_ONE, ALL_ZERO);
    assert Agreeing(STALE, 0, 2) == {1};
    AckCounts(c2.peers[0], 1, STALE, {1});
    c := Replicated(5, c2, 0, 1);
  }

  /** Term 2: peer 2 leads, and overwrites the log of peer 0. */
  lemma Act2() returns (c: Cluster)
    ensures Reached(5, c) && Wf(c) && |c.peers| == 5
    ensures Idle(c.peers[0], 2, LOG_Y, STALE) && c.peers[0].role == Follower && Idle(c.peers[1], 1, LOG_X, ALL_ZERO)
    ensures Leads(c.peers[2], 2, LOG_Y, [2, 1, 1, 1, 1], [1, 0, 0, 0, 0])
    ensures Idle(c.peers[3], 2, [SLOT_0], ALL_ZERO) && Idle(c.peers[4], 2, [SLOT_0], ALL_ZERO)
  {
    var c0 := Act1();
    var c1 := Elected(c0, 2, 3, 4);
    assert Leads(c1.peers[2], 2, [SLOT_0], ALL_ONE, ALL_ZERO);
    var c2 := Started(5, c1, 2, Op("y"));
    assert Leads(c2.peers[2], 2, LOG_Y, ALL_ONE, ALL_ZERO);
    assert Agreeing([1, 0, 0, 0, 0], 2, 1) == {0};
    AckCounts(c2.peers[2], 0, [1, 0, 0, 0, 0], {0});
    c := Replicated(5, c2, 2, 0);
  }

  /** Term 3: peer 0 leads again, and keeps the match index for peer 1. */
  lemma Act3() returns (c: Cluster)
    ensures Reached(5, c) && Wf(c) && |c.peers| == 5
    ensures Leads(c.peers[0], 3, LOG_Z, ALL_ONE, STALE)
    ensures Idle(c.peers[1], 3, LOG_X, ALL_ZERO) && Idle(c.peers[2], 3, LOG_Y, [1, 0, 0, 0, 0])
            && c.peers[2].role == Follower
    ensures Idle(c.peers[3], 2, [SLOT_0], ALL_ZERO) && Idle(c.peers[4], 2, [SLOT_0], ALL_ZERO)
  {
    var c0 := Act2();
    var c1 := Elected(c0, 0, 1, 2);
    assert Leads(c1.peers[0], 3, LOG_Y, ALL_ONE, STALE);
    c := Started(5, c1, 0, Op("z"));
  }

  /** It gets its new entry to peer 3 alone, but counts peer 1 too, and commits. */
  lemma Act4() returns (c: Cluster)
    ensures Reached(5, c) && Wf(c) && |c.peers| == 5
    ensures c.peers[0].applied == [Message(LOG_Z[1]), Message(LOG_Z[2])]
    ensures Idle(c.peers[1], 3, LOG_X, ALL_ZERO) && Idle(c.peers[2], 3, LOG_Y, [1, 0, 0, 0, 0])
            && c.peers[2].role == Follower
    ensures Idle(c.peers[4], 2, [SLOT_0], ALL_ZERO)
  {
    var c0 := Act3();
    assert Agreeing([0, 2, 0, 2, 0], 0, 2) == {1, 3};
    AckCounts(c0.peers[0], 3, [0, 2, 0, 2, 0], {1, 3});
    var c1 := Replicated(5, c0, 0, 3);
    c := AppliedTwo(5, c1, 0);
  }

  /** Term 4: peer 2 leads again, with the votes of 1 and 4. */
  lemma Act5() returns (c: Cluster)
    ensures Reached(5, c) && Wf(c) && |c.peers| == 5
    ensures c.peers[0].applied == [Message(LOG_Z[1]), Message(LOG_Z[2])]
    ensures Idle(c.peers[1], 4, LOG_X, ALL_ZERO) && Idle(c.peers[4], 4, [SLOT_0], ALL_ZERO)
    ensures Leads(c.peers[2], 4, LOG_W, ALL_ONE, [1, 0, 0, 0, 0])
  {
    var c0 := Act4();
    var c1 := Elected(c0, 2, 1, 4);
    assert Leads(c1.peers[2], 4, LOG_Y, ALL_ONE, [1, 0, 0, 0, 0]);
    c := Started(5, c1, 2, Op("w"));
  }

  /** With those two it commits another entry at the index peer 0 has applied. */
  lemma Act6() returns (c: Cluster)
    ensures Reached(5, c) && |c.peers| == 5
    ensures c.peers[0].applied == [Message(LOG_Z[1]), Message(LOG_Z[2])]
    ensures c.peers[2].applied == [Message(LOG_W[1]), Message(LOG_W[2])]
  {
    var c0 := Act5();
    assert Agreeing([1, 2, 0, 0, 0], 2, 2) == {1};
    AckCounts(c0.peers[2], 1, [1, 2, 0, 0, 0], {1});
    var c1 := Replicated(5, c0, 2, 1);
    assert Leads(c1.peers[2], 4, LOG_W, [1, 3, 1, 1, 1], [1, 2, 0, 0, 0]);
    assert Agreeing([1, 2, 0, 0, 2], 2, 2) == {1, 4};
    AckCounts(c1.peers[2], 4, [1, 2, 0, 0, 2], {1, 4});
    var c2 := Replicated(5, c1, 2, 4);
    c := AppliedTwo(5, c2, 2);
  }

  /** State Machine Safety fails of some run in which no winner's match index is greater than
    the length of its log; so the bound in the safety theorems cannot be raised by one. */
  lemma UnsafeRun() returns (states: seq<Cluster>, steps: seq<Step>)
    ensures TouchingRun(5, states, steps) && !CoveredRun(5, states, steps)
    ensures var last := states[|steps|].peers;
            && |last| == 5 && |last[0].applied| == 2 == |last[2].applied|
            && last[0].applied[1].index == 2 == last[2].applied[1].index
            && last[0].applied[1].command == Op("z") && last[2].applied[1].command == Op("w")
  {
    var c := Act6();
    states, steps :| RunTo(5, states, steps, c);
    assert c.peers[0].applied[1].command != c.peers[2].applied[1].command;
    if CoveredRun(5, states, steps) {
      RaftSafety.StateMachineSafety(5, states, steps, |steps|, 0, |steps|, 2);
      assert false;
    }
  }
}
