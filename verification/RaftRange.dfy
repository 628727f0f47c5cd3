/** What every run keeps about commit indices, whoever wins: a leader's lies within its log,
  a call carries no more than it ships, and no peer's ever falls. */
module RaftRange {
  import opened RaftPeer
  import opened RaftCluster
  import opened RaftInvariant
  import opened RaftSteps
  import opened RaftReplication

  // --- what a call carries -------------------------------------------------

  /** The call was made by p as it stands: its term, its commit index, and its whole log
    from the previous index on. */
  predicate SentBy(p: Peer, a: AppendCall) {
    p.role == Leader && Ships(p, a)
  }

  lemma HeartbeatSent(p: Peer, a: AppendCall)
    requires PeerWf(p) && CanSend(p) && p.role == Leader && a in Heartbeats(p)
    ensures a.args.leaderId == p.me && SentBy(p, a)
  {
  }

  lemma NewCallSent(c: Cluster, s: Step, a: AppendCall)
    requires Wf(c) && Offered(c, s) && InRange(c, s) && a in Apply(c, s).appends && a !in c.appends
    ensures a.args.leaderId < |Apply(c, s).peers| && SentBy(Apply(c, s).peers[a.args.leaderId], a)
  {
    match s
    case DeliverVoteReply(k) => HeartbeatSent(AfterVoteReply(c, k).peers[k.candidate], a);
    case ClientStart(i, command) => HeartbeatSent(AfterStart(c, i, command).peers[i], a);
    case HeartbeatTimeout(i) => HeartbeatSent(c.peers[i], a);
    case DeliverAppendReply(r) =>
    case _ =>
  }

  lemma OthersUntouched(c: Cluster, s: Step, i: nat)
    requires Wf(c) && Offered(c, s) && InRange(c, s) && i < |c.peers| && i != Actor(s)
    ensures Apply(c, s).peers[i] == c.peers[i]
  {
  }

  // --- the invariant -------------------------------------------------------

  predicate LeadOk(p: Peer) {
    p.role == Leader ==> p.commitIndex < |p.log|
  }

  /** The commit index a call carries lies within what the call's sender had. */
  predicate CarryInRange(a: AppendCall) {
    a.args.leaderCommit < a.expectedNext
  }

  /** A peer that accepted a call has its commit index, and follows in its term. */
  predicate AnswerKept(p: Peer, r: AppendAnswer) {
    r.reply.success ==>
      && p.commitIndex >= r.call.args.leaderCommit
      && p.currentTerm >= r.call.args.term
      && (p.currentTerm == r.call.args.term ==> p.role == Follower)
  }

  ghost predicate RangeInv(c: Cluster) {
    && Inv(c)
    && (forall i {:trigger LeadOk(c.peers[i])} | 0 <= i < |c.peers| :: LeadOk(c.peers[i]))
    && (forall a {:trigger CarryInRange(a)} | a in c.appends :: CarryInRange(a))
    && (forall r {:trigger AnswerKept(c.peers[r.call.to], r)} | r in c.answers :: AnswerKept(c.peers[r.call.to], r))
  }

  // --- every step keeps it -------------------------------------------------

  /** Time goes on for a peer: its commit index and term do not fall, and within a term a
    follower stays one. */
  predicate Onward(p: Peer, q: Peer) {
    && q.commitIndex >= p.commitIndex
    && q.currentTerm >= p.currentTerm
    && (q.currentTerm == p.currentTerm && p.role == Follower ==> q.role == Follower)
  }

  /** The receiver's commit index after the call: capped by its own last index, which is
    never short of the sender's commit index. */
  lemma CommitReached(h: History, i: nat, p: Peer, a: AppendCall)
    requires Accepts(h, i, p, a) && ReignOk(h, a.args.term) && CarryInRange(a)
    ensures HandleAppend(p, a.args).0.commitIndex == Max(p.commitIndex, a.args.leaderCommit)
    ensures Sent(h, a) <= HandleAppend(p, a.args).0.log
  {
    AcceptedLog(h, p, a);
  }

  lemma AppendOnward(h: History, i: nat, p: Peer, a: AppendCall)
    requires HistoryOk(h) && PeerWf(p) && PeerOk(h, i, p) && AppendOk(h, a) && a.to == i
    requires ReignOk(h, a.args.term) && CarryInRange(a) && LeadOk(p)
    ensures var (q, reply) := HandleAppend(p, a.args);
            Onward(p, q) && LeadOk(q) && AnswerKept(q, AppendAnswer(a, reply))
  {
    if a.args.term >= p.currentTerm && Matches(p.log, a.args) {
      CommitReached(h, i, p, a);
    }
  }

  /** A win is in range only if the winner's commit index is within its log. */
  lemma VoteReplyOnward(c: Cluster, k: VoteKey)
    requires Inv(c) && Answering(c, k) && CountInRange(c, k) && LeadOk(c.peers[k.candidate])
    ensures var q := HandleVoteReply(c.peers[k.candidate], c.voteRpcs[k].args, c.voteRpcs[k].reply);
            Onward(c.peers[k.candidate], q) && LeadOk(q)
  {
    assert RpcOk(c.h, k, c.voteRpcs[k], c.peers[k.candidate], c.ballots[k.candidate]);
    if IsWin(c, k) {
      var q := HandleVoteReply(c.peers[k.candidate], c.voteRpcs[k].args, c.voteRpcs[k].reply);
      assert CanSend(q) && k.to != q.me;
      assert q.nextIndex[k.to] == q.commitIndex + 1;
    }
  }

  lemma AppendReplyOnward(p: Peer, r: AppendAnswer)
    requires PeerWf(p) && CallShape(r.call) && r.call.to < p.numPeers && ReplyInRange(p, r.call, r.reply) && LeadOk(p)
    ensures var q := HandleAppendReply(p, r.call, r.reply).0;
            Onward(p, q) && LeadOk(q)
  {
  }

  /** The peer that takes the step. */
  lemma ActorOnward(c: Cluster, s: Step)
    requires RangeInv(c) && Offered(c, s) && InRange(c, s)
    ensures Actor(s) < |c.peers|
    ensures Onward(c.peers[Actor(s)], Apply(c, s).peers[Actor(s)]) && LeadOk(Apply(c, s).peers[Actor(s)])
  {
    match s
    case DeliverVoteReply(k) =>
      assert LeadOk(c.peers[k.candidate]);
      VoteReplyOnward(c, k);
    case DeliverAppend(a) =>
      assert PeerOk(c.h, a.to, c.peers[a.to]) && AppendOk(c.h, a) && ReignOk(c.h, a.args.term);
      assert CarryInRange(a) && LeadOk(c.peers[a.to]);
      AppendOnward(c.h, a.to, c.peers[a.to], a);
    case DeliverAppendReply(r) =>
      assert LeadOk(c.peers[r.call.args.leaderId]);
      AppendReplyOnward(c.peers[r.call.args.leaderId], r);
    case _ => assert LeadOk(c.peers[Actor(s)]);
  }

  /** No step moves any peer back. */
  lemma StepOnward(c: Cluster, s: Step, i: nat)
    requires RangeInv(c) && Offered(c, s) && InRange(c, s) && i < |c.peers|
    ensures i < |Apply(c, s).peers|
    ensures Onward(c.peers[i], Apply(c, s).peers[i]) && LeadOk(Apply(c, s).peers[i])
  {
    if i == Actor(s) {
      ActorOnward(c, s);
    } else {
      OthersUntouched(c, s, i);
      assert LeadOk(c.peers[i]);
    }
  }

  lemma NewAnswerKept(c: Cluster, s: Step, r: AppendAnswer)
    requires RangeInv(c) && Offered(c, s) && InRange(c, s) && r in Apply(c, s).answers && r !in c.answers
    ensures r.call.to < |Apply(c, s).peers| && AnswerKept(Apply(c, s).peers[r.call.to], r)
  {
    assert s.DeliverAppend? && r.call == s.call;
    var a := s.call;
    assert PeerOk(c.h, a.to, c.peers[a.to]) && AppendOk(c.h, a) && ReignOk(c.h, a.args.term);
    assert CarryInRange(a) && LeadOk(c.peers[a.to]);
    AppendOnward(c.h, a.to, c.peers[a.to], a);
  }

  lemma StepRange(c: Cluster, s: Step, d: Cluster)
    requires RangeInv(c) && Next(c, s, d)
    ensures RangeInv(d)
  {
    StepInv(c, s, d);
    forall i | 0 <= i < |d.peers| ensures LeadOk(d.peers[i]) {
      StepOnward(c, s, i);
    }
    forall a | a in d.appends ensures CarryInRange(a) {
      if a !in c.appends {
        NewCallSent(c, s, a);
        assert LeadOk(d.peers[a.args.leaderId]);
      }
    }
    forall r | r in d.answers ensures AnswerKept(d.peers[r.call.to], r) {
      if r in c.answers {
        StepOnward(c, s, r.call.to);
        assert AnswerKept(c.peers[r.call.to], r);
      } else {
        NewAnswerKept(c, s, r);
      }
    }
  }

  lemma {:induction false} RunRange(n: nat, states: seq<Cluster>, steps: seq<Step>, k: nat)
    requires IsRun(n, states, steps) && k < |states|
    ensures RangeInv(states[k]) && |states[k].peers| == n
  {
    RunInv(n, states, steps, k);
    if k > 0 {
      RunRange(n, states, steps, k - 1);
      assert StepAt(states, steps, k - 1);
      StepRange(states[k - 1], steps[k - 1], states[k]);
    }
  }
}
