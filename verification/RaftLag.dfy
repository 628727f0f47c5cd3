/** How far a leader's commit index follows its match indices. After a reply the leader tests
  one index only, the one the replying peer stands at, so with five peers an index
  that most of them have reached may stay uncommitted; with two or three it never does. */
module RaftLag {
  import opened Common
  import opened RaftPeer
  import opened RaftCluster
  import opened RaftInvariant
  import opened RaftSteps
  import opened RaftRange
  import opened RaftCommit
  import opened RaftHandlers
  import opened RaftOutcomes
  import opened RaftStale
  import RaftSafety

  /** More than half of the peers are known to have the leader's log up to x, which is an
    entry of the leader's term. */
  predicate Quorum(p: Peer, x: nat) {
    && |p.matchIndex| == p.numPeers && x < |p.log| && p.log[x].term == p.currentTerm
    && 2 * |Reaching(p, x)| > p.numPeers
  }

  /** A leader that gets a success commits an index that most peers have reached exactly if
    they have also reached the index the replying peer stands at, and it is no lower. */
  lemma CommitCatchesUp(n: nat, states: seq<Cluster>, steps: seq<Step>, k: nat, x: nat)
    requires IsRun(n, states, steps) && k < |steps| && steps[k].DeliverAppendReply?
    requires var r := steps[k].answer;
             && r.call.args.leaderId < |states[k].peers| == |states[k + 1].peers|
             && var p, q := states[k].peers[r.call.args.leaderId], states[k + 1].peers[r.call.args.leaderId];
             && p.role == Leader && p.currentTerm == r.call.args.term
             && r.reply.success && r.reply.term <= p.currentTerm && p.commitIndex < x && Quorum(q, x)
    ensures var r := steps[k].answer;
            var q := states[k + 1].peers[r.call.args.leaderId];
            && r.call.to < |q.matchIndex|
            && (q.commitIndex >= x <==> x <= q.matchIndex[r.call.to] && Quorum(q, q.matchIndex[r.call.to]))
  {
    var calls := ReplyOutcome(n, states, steps, k);
    var r := steps[k].answer;
    var q := states[k + 1].peers[r.call.args.leaderId];
    RaftSafety.LogsInOrder(n, states, steps, k + 1, r.call.args.leaderId);
  }

  // --- two or three peers --------------------------------------------------

  /** Every match index at an entry of the leader's term is committed. */
  predicate Prompt(p: Peer) {
    p.role == Leader ==>
      forall j | 0 <= j < |p.matchIndex| && j != p.me ::
        p.matchIndex[j] < |p.log| && (p.log[p.matchIndex[j]].term == p.currentTerm ==> p.matchIndex[j] <= p.commitIndex)
  }

  lemma PromptReply(p: Peer, call: AppendCall, reply: AppendReply, q: Peer, calls: set<AppendCall>)
    requires PeerWf(p) && call.to < p.numPeers <= 3 && call.to != p.me && Prompt(p)
    requires ReplyEffect(p, call, reply, q, calls)
    ensures Prompt(q)
  {
    if p.role == Leader && q.role == Leader && p.currentTerm == call.args.term && reply.success {
      var m := q.matchIndex[call.to];
      assert {p.me, call.to} <= Reaching(q, m) && |{p.me, call.to}| == 2;
      SubsetSize({p.me, call.to}, Reaching(q, m));
    }
  }

  /** A winner's log has no entry of its new term. */
  lemma PromptWin(c: Cluster, k: VoteKey)
    requires Inv(c) && Answering(c, k) && IsWin(c, k) && CountInRange(c, k) && Covers(c.peers[k.candidate])
    ensures Prompt(HandleVoteReply(c.peers[k.candidate], c.voteRpcs[k].args, c.voteRpcs[k].reply))
  {
    var p := c.peers[k.candidate];
    WinnerUnopposed(c, k);
    assert PeerOk(c.h, k.candidate, p);
    forall j | 0 <= j < |p.matchIndex| ensures p.log[p.matchIndex[j]].term != p.currentTerm {
      var m := p.matchIndex[j];
      assert m > 0 ==> Rooted(c.h, p.log, m);
    }
  }

  lemma PromptStart(p: Peer, command: Command)
    requires PeerWf(p) && Prompt(p)
    ensures Prompt(Start(p, command))
  {
  }

  lemma PromptVote(p: Peer, args: VoteArgs)
    requires PeerWf(p) && Prompt(p)
    ensures Prompt(HandleVote(p, args).0)
  {
  }

  /** A step of the peer keeps it prompt. */
  lemma PromptActor(c: Cluster, s: Step)
    requires Inv(c) && Offered(c, s) && InRange(c, s) && CoveredStep(c, s) && |c.peers| <= 3
    requires Prompt(c.peers[Actor(s)])
    ensures Actor(s) < |Apply(c, s).peers| && Prompt(Apply(c, s).peers[Actor(s)])
  {
    match s
    case DeliverVote(k) => PromptVote(c.peers[k.to], c.voteRpcs[k].args);
    case DeliverVoteReply(k) =>
      if IsWin(c, k) {
        PromptWin(c, k);
      }
    case ClientStart(i, command) => PromptStart(c.peers[i], command);
    case DeliverAppend(a) => AppendMeets(c.peers[a.to], a.args);
    case DeliverAppendReply(r) => PromptAnswer(c, r);
    case _ =>
  }

  lemma PromptAnswer(c: Cluster, r: AppendAnswer)
    requires Inv(c) && r in c.answers && |c.peers| <= 3
    requires ReplyInRange(c.peers[r.call.args.leaderId], r.call, r.reply) && Prompt(c.peers[r.call.args.leaderId])
    ensures Prompt(HandleAppendReply(c.peers[r.call.args.leaderId], r.call, r.reply).0)
  {
    var p := c.peers[r.call.args.leaderId];
    assert AppendOk(c.h, r.call);
    ReplyMeets(p, r.call, r.reply);
    var (q, calls) := HandleAppendReply(p, r.call, r.reply);
    PromptReply(p, r.call, r.reply, q, calls);
  }

  lemma PromptNext(n: nat, states: seq<Cluster>, steps: seq<Step>, k: nat, i: nat)
    requires CoveredRun(n, states, steps) && k < |steps| && i < n <= 3 && i < |states[k].peers|
    requires Prompt(states[k].peers[i])
    ensures i < |states[k + 1].peers| && Prompt(states[k + 1].peers[i])
  {
    StepMovesActor(n, states, steps, k);
    assert StepAt(states, steps, k) && CoveredStep(states[k], steps[k]);
    if i == Actor(steps[k]) {
      PromptActor(states[k], steps[k]);
    }
  }

  lemma {:induction false} RunPrompt(n: nat, states: seq<Cluster>, steps: seq<Step>, k: nat, i: nat)
    requires CoveredRun(n, states, steps) && k < |states| && i < n <= 3
    ensures i < |states[k].peers| && Prompt(states[k].peers[i])
  {
    if k > 0 {
      RunPrompt(n, states, steps, k - 1, i);
      PromptNext(n, states, steps, k - 1, i);
    }
  }

  lemma AnotherReaches(p: Peer, x: nat) returns (j: nat)
    requires PeerWf(p) && p.numPeers >= 2 && Quorum(p, x)
    ensures j < p.numPeers && j != p.me && p.matchIndex[j] >= x
  {
    var others := Reaching(p, x) - {p.me};
    assert |others| == |Reaching(p, x)| - 1;
    j :| j in others;
  }

  /** Two or three peers: an index of the leader's term that most of them have reached is
    always committed. */
  lemma SmallClusterCommits(n: nat, states: seq<Cluster>, steps: seq<Step>, k: nat, i: nat, x: nat)
    requires CoveredRun(n, states, steps) && 2 <= n <= 3 && k < |states| && i < n && i < |states[k].peers|
    requires states[k].peers[i].role == Leader && Quorum(states[k].peers[i], x)
    ensures states[k].peers[i].commitIndex >= x
  {
    RunPrompt(n, states, steps, k, i);
    RaftSafety.LogsInOrder(n, states, steps, k, i);
    RunCovered(n, states, steps, k);
    var j := AnotherReaches(states[k].peers[i], x);
  }

  // --- five peers ----------------------------------------------------------

  const TWO_OPS := [SLOT_0, Entry(1, Op("a"), 1), Entry(1, Op("b"), 2)]

  lemma OneHasFirst() returns (c: Cluster)
    ensures Reached(5, c) && Wf(c) && |c.peers| == 5 && Idle(c.peers[2], 1, [SLOT_0], ALL_ZERO)
    ensures RaftStale.Leads(c.peers[0], 1, TWO_OPS[..2], [1, 2, 1, 1, 1], [0, 1, 0, 0, 0])
  {
    var c0 := Act0();
    var c1 := Started(5, c0, 0, Op("a"));
    assert c1.peers[0].log == TWO_OPS[..2];
    assert Agreeing([0, 1, 0, 0, 0], 0, 1) == {1};
    AckCounts(c1.peers[0], 1, [0, 1, 0, 0, 0], {1});
    c := Replicated(5, c1, 0, 1);
  }

  lemma TwoHasBoth() returns (c: Cluster)
    ensures Reached(5, c) && |c.peers| == 5 && PeerWf(c.peers[0]) && c.peers[0].me == 0 && c.peers[0].numPeers == 5
    ensures RaftStale.Leads(c.peers[0], 1, TWO_OPS, [1, 2, 3, 1, 1], [0, 1, 2, 0, 0])
  {
    var c2 := OneHasFirst();
    var c3 := Started(5, c2, 0, Op("b"));
    assert c3.peers[0].log == TWO_OPS;
    assert Agreeing([0, 1, 2, 0, 0], 0, 2) == {2};
    AckCounts(c3.peers[0], 2, [0, 1, 2, 0, 0], {2});
    c := Replicated(5, c3, 0, 2);
  }

  /** Five peers: peer 1 acknowledges the first of two entries and peer 2 both. Three of five
    then have the first one, the leader knows it, and has committed nothing. */
  lemma LagRun() returns (states: seq<Cluster>, steps: seq<Step>)
    ensures IsRun(5, states, steps) && |states[|steps|].peers| == 5
    ensures var p := states[|steps|].peers[0];
            p.role == Leader && Quorum(p, 1) && p.commitIndex == 0
  {
    var c := TwoHasBoth();
    assert Reaching(c.peers[0], 1) == {0, 1, 2};
    states, steps :| RunTo(5, states, steps, c);
  }
}
