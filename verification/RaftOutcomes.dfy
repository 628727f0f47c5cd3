/** What comes of each step of any run, told on the states before and after it: who gets a
  vote, who wins, which calls are made, what a call and a reply do, what is applied. */
module RaftOutcomes {
  import opened Common
  import opened RaftPeer
  import opened RaftCluster
  import opened RaftInvariant
  import opened RaftReplication
  import opened RaftRange
  import opened RaftHandlers
  import RaftProgress

  /** Only peer i differs. */
  predicate OnlyPeer(c: Cluster, d: Cluster, i: nat) {
    && i < |c.peers| == |d.peers| && |c.ballots| == |d.ballots| == |c.peers|
    && forall j | 0 <= j < |c.peers| && j != i :: d.peers[j] == c.peers[j]
  }

  lemma StepMovesActor(n: nat, states: seq<Cluster>, steps: seq<Step>, k: nat)
    requires IsRun(n, states, steps) && k < |steps|
    ensures Next(states[k], steps[k], states[k + 1]) && Inv(states[k]) && |states[k].peers| == n
    ensures OnlyPeer(states[k], states[k + 1], Actor(steps[k]))
    ensures forall i | 0 <= i < n :: PeerWf(states[k].peers[i]) && states[k].peers[i].me == i
  {
    RunInv(n, states, steps, k);
    RunInv(n, states, steps, k + 1);
    assert StepAt(states, steps, k);
    forall j | 0 <= j < n && j != Actor(steps[k]) ensures states[k + 1].peers[j] == states[k].peers[j] {
      OthersUntouched(states[k], steps[k], j);
    }
  }

  // --- elections -----------------------------------------------------------

  /** An election asks every other peer for its vote, in the next term, with the end of the
    candidate's log. */
  lemma ElectionAsksEveryone(n: nat, states: seq<Cluster>, steps: seq<Step>, k: nat, j: nat)
    requires IsRun(n, states, steps) && k < |steps| && steps[k].ElectionTimeout? && j < n && j != steps[k].peer
    ensures var i := steps[k].peer;
            && OnlyPeer(states[k], states[k + 1], i)
            && StandsForElection(states[k].peers[i], states[k + 1].peers[i])
            && Asks(states[k].peers[i], states[k + 1], i, states[k].peers[i].currentTerm + 1, j)
  {
    StepMovesActor(n, states, steps, k);
  }

  /** j has been asked by i in the term, with the end of p's log, and has not answered. */
  predicate Asks(p: Peer, c: Cluster, i: nat, term: nat, j: nat) {
    var key := VoteKey(i, term, j);
    key in c.voteRpcs && c.voteRpcs[key].Asked? && RequestOf(p, i, term, c.voteRpcs[key].args)
  }

  predicate RequestOf(p: Peer, i: nat, term: nat, args: VoteArgs) {
    args.term == term && args.candidate == i && Describes(args, p.log)
  }

  /** A request for votes stays what it was when it was made. */
  lemma {:induction false} RequestStays(
    n: nat, states: seq<Cluster>, steps: seq<Step>, j: nat, k: nat, i: nat, to: nat)
    requires IsRun(n, states, steps) && j < k <= |steps| && steps[j] == ElectionTimeout(i) && to < n && to != i
    ensures i < |states[j].peers| && KeepsRequest(states[k], states[j].peers[i], i, to)
    decreases k
  {
    if k == j + 1 {
      ElectionAsksEveryone(n, states, steps, j, to);
    } else {
      RequestStays(n, states, steps, j, k - 1, i, to);
      StepMovesActor(n, states, steps, j);
      RequestNext(n, states, steps, k - 1, states[j].peers[i], i, to);
    }
  }

  lemma RequestNext(n: nat, states: seq<Cluster>, steps: seq<Step>, k: nat, p: Peer, i: nat, to: nat)
    requires IsRun(n, states, steps) && k < |steps| && i < n && KeepsRequest(states[k], p, i, to)
    ensures KeepsRequest(states[k + 1], p, i, to)
  {
    RunRange(n, states, steps, k);
    assert StepAt(states, steps, k);
    StepOnward(states[k], steps[k], i);
    RequestStep(states[k], steps[k], p, i, to);
  }

  /** Peer i is past the term it stood in as p, and its request to `to`, if still there, is
    the one it made. */
  predicate KeepsRequest(c: Cluster, p: Peer, i: nat, to: nat) {
    var key := VoteKey(i, p.currentTerm + 1, to);
    && i < |c.peers| && c.peers[i].currentTerm > p.currentTerm
    && (key in c.voteRpcs ==> RequestOf(p, i, p.currentTerm + 1, c.voteRpcs[key].args))
  }

  lemma RequestStep(c: Cluster, s: Step, p: Peer, i: nat, to: nat)
    requires Wf(c) && Offered(c, s) && InRange(c, s) && KeepsRequest(c, p, i, to)
    ensures var key, d := VoteKey(i, p.currentTerm + 1, to), Apply(c, s);
            key in d.voteRpcs ==> RequestOf(p, i, p.currentTerm + 1, d.voteRpcs[key].args)
  {
  }

  /** A vote is given exactly to a candidate whose log, when it stood, was at least as up to
    date as the voter's log is now, by a voter still free in that term. */
  lemma VoteOutcome(n: nat, states: seq<Cluster>, steps: seq<Step>, j: nat, k: nat, i: nat, to: nat)
    requires IsRun(n, states, steps) && j < k < |steps| && steps[j] == ElectionTimeout(i) && to < n && to != i
    requires i < |states[j].peers| && steps[k] == DeliverVote(VoteKey(i, states[j].peers[i].currentTerm + 1, to))
    ensures OnlyPeer(states[k], states[k + 1], to)
    ensures var c, v, w := states[j].peers[i], states[k].peers[to], states[k + 1].peers[to];
            && c.log != [] && v.log != []
            && (GivesVote(states[k + 1], steps[k].key, v.currentTerm) <==>
                && AtLeast(c.log[|c.log| - 1].term, |c.log| - 1, v.log[|v.log| - 1].term, |v.log| - 1)
                && (v.currentTerm <= c.currentTerm || v.votedFor == None || v.votedFor == Some(i)))
            && (GivesVote(states[k + 1], steps[k].key, v.currentTerm) ==> w.votedFor == Some(i))
  {
    StepMovesActor(n, states, steps, k);
    StepMovesActor(n, states, steps, j);
    RequestStays(n, states, steps, j, k, i, to);
    VoteMeets(states[k].peers[to], states[k].voteRpcs[steps[k].key].args);
  }

  /** The answer to the request is a grant, with the term the voter had. */
  predicate GivesVote(c: Cluster, key: VoteKey, term: nat) {
    key in c.voteRpcs && c.voteRpcs[key].Answered? && c.voteRpcs[key].reply == VoteReply(term, true)
  }

  /** A reply that is counted adds one new voter, and its candidate leads from then on
    exactly if the voters are more than half of the peers. */
  lemma CountOutcome(n: nat, states: seq<Cluster>, steps: seq<Step>, k: nat)
    requires IsRun(n, states, steps) && k < |steps| && steps[k].DeliverVoteReply?
    ensures var c, d, key := states[k], states[k + 1], steps[k].key;
            && Answering(c, key) && OnlyPeer(c, d, key.candidate)
            && var p, q, reply := c.peers[key.candidate], d.peers[key.candidate], c.voteRpcs[key].reply;
            && VoteReplyEffect(p, c.voteRpcs[key].args, reply, q)
            && (p.role == Candidate && p.currentTerm == key.term && reply.granted && reply.term <= key.term ==>
                  && key.to !in c.ballots[key.candidate]
                  && d.ballots[key.candidate] == c.ballots[key.candidate] + {key.to}
                  && (q.role == Leader <==> 2 * |d.ballots[key.candidate]| > n))
  {
    StepMovesActor(n, states, steps, k);
    var c, key := states[k], steps[k].key;
    var p, rpc := c.peers[key.candidate], c.voteRpcs[key];
    VoteReplyMeets(p, rpc.args, rpc.reply);
    assert RpcOk(c.h, key, rpc, p, c.ballots[key.candidate]) && BallotOk(c.h, p, c.ballots[key.candidate]);
  }

  // --- calls ---------------------------------------------------------------

  /** The step makes peer i call everyone: it wins, takes a client's command, or its
    heartbeat timer fires. */
  predicate Sends(c: Cluster, s: Step, i: nat) {
    || (s.DeliverVoteReply? && Answering(c, s.key) && IsWin(c, s.key) && s.key.candidate == i)
    || (s.ClientStart? && s.peer == i)
    || (s.HeartbeatTimeout? && s.peer == i)
  }

  /** After a win, a client's command or a heartbeat timeout a call to every other peer is
    under way, with the leader's whole log from the peer's next index on. */
  lemma EveryoneIsCalled(n: nat, states: seq<Cluster>, steps: seq<Step>, k: nat, i: nat, j: nat)
    requires IsRun(n, states, steps) && k < |steps| && Sends(states[k], steps[k], i) && j < n && j != i
    ensures i < |states[k + 1].peers|
    ensures var p := states[k + 1].peers[i];
            p.role == Leader && j < |p.nextIndex| && Called(p, j, states[k + 1].appends)
  {
    StepMovesActor(n, states, steps, k);
    SenderCalls(states[k], steps[k], i);
    var p, c := states[k + 1].peers[i], states[k + 1];
    HeartbeatsMeet(p);
    assert Called(p, j, Heartbeats(p));
    var a :| a in Heartbeats(p) && CallTo(p, j, a);
  }

  lemma SenderCalls(c: Cluster, s: Step, i: nat)
    requires Wf(c) && Offered(c, s) && InRange(c, s) && Sends(c, s, i)
    ensures var d := Apply(c, s);
            && i < |d.peers| == |c.peers| && PeerWf(d.peers[i])
            && d.peers[i].numPeers == |c.peers| && d.peers[i].me == i
            && CanSend(d.peers[i]) && d.peers[i].role == Leader && Heartbeats(d.peers[i]) <= d.appends
  {
  }

  /** A client's command is the leader's next entry, in the leader's term. */
  lemma CommandIsAppended(n: nat, states: seq<Cluster>, steps: seq<Step>, k: nat)
    requires IsRun(n, states, steps) && k < |steps| && steps[k].ClientStart?
    ensures OnlyPeer(states[k], states[k + 1], steps[k].peer)
    ensures var p := states[k].peers[steps[k].peer];
            && p.role == Leader
            && states[k + 1].peers[steps[k].peer] ==
               p.(log := p.log + [Entry(p.currentTerm, steps[k].command, |p.log|)])
  {
    StepMovesActor(n, states, steps, k);
  }

  /** What a call does to its receiver, and that it is answered. */
  lemma CallOutcome(n: nat, states: seq<Cluster>, steps: seq<Step>, k: nat) returns (reply: AppendReply)
    requires IsRun(n, states, steps) && k < |steps| && steps[k].DeliverAppend?
    ensures var a := steps[k].call;
            && OnlyPeer(states[k], states[k + 1], a.to)
            && AppendEffect(states[k].peers[a.to], a.args, states[k + 1].peers[a.to], reply)
            && states[k + 1].answers == states[k].answers + {AppendAnswer(a, reply)}
  {
    StepMovesActor(n, states, steps, k);
    var a := steps[k].call;
    AppendMeets(states[k].peers[a.to], a.args);
    reply := HandleAppend(states[k].peers[a.to], a.args).1;
  }

  /** What a reply does to the peer that made the call: in particular when it commits. */
  lemma ReplyOutcome(n: nat, states: seq<Cluster>, steps: seq<Step>, k: nat) returns (calls: set<AppendCall>)
    requires IsRun(n, states, steps) && k < |steps| && steps[k].DeliverAppendReply?
    ensures var r := steps[k].answer;
            var i := r.call.args.leaderId;
            && OnlyPeer(states[k], states[k + 1], i) && PeerWf(states[k].peers[i])
            && states[k].peers[i].numPeers == n && r.call.to < n
            && ReplyEffect(states[k].peers[i], r.call, r.reply, states[k + 1].peers[i], calls)
            && states[k + 1].appends == states[k].appends + calls
  {
    StepMovesActor(n, states, steps, k);
    var r := steps[k].answer;
    var p := states[k].peers[r.call.args.leaderId];
    ReplyMeets(p, r.call, r.reply);
    calls := HandleAppendReply(p, r.call, r.reply).1;
  }

  // --- applying ------------------------------------------------------------

  /** A peer's apply loop has something to do exactly as long as not all that is committed
    has been sent. */
  lemma LoopEndsAtCommit(n: nat, states: seq<Cluster>, steps: seq<Step>, k: nat, i: nat)
    requires IsRun(n, states, steps) && k < |states| && i < n
    ensures i < |states[k].peers|
    ensures var p := states[k].peers[i];
            && |p.applied| <= p.commitIndex
            && (|p.applied| < p.commitIndex <==>
                Offered(states[k], CollectCommitted(i)) || Offered(states[k], EmitApply(i)))
  {
    RunInv(n, states, steps, k);
    RaftProgress.StreamIsGapFree(n, states, steps, k, i);
  }
}
