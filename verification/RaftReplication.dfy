/** The steps that replicate, acknowledge and apply entries preserve the invariant; with
  the election steps, so does every step. */
module RaftReplication {
  import opened Common
  import opened RaftPeer
  import opened RaftCluster
  import opened RaftInvariant
  import opened RaftSteps

  // --- the leader appends --------------------------------------------------

  /** The leader i of term t extends its log by one entry of that term. */
  predicate Lengthens(h: History, i: nat, t: nat, log: seq<Entry>) {
    && t in h.reigns && ReignOk(h, t) && h.reigns[t].leader == i && h.terms[i] == t
    && LogShape(log) && |log| == |h.reigns[t].log| + 1 && h.reigns[t].log <= log && log[|log| - 1].term == t
  }

  lemma ExtendedGrows(h: History, i: nat, t: nat, log: seq<Entry>)
    requires Lengthens(h, i, t, log)
    ensures Grow(h, ExtendReign(h, t, log), i)
  {
  }

  lemma ExtendedReignOk(h: History, i: nat, t: nat, log: seq<Entry>)
    requires Lengthens(h, i, t, log)
    ensures ReignOk(ExtendReign(h, t, log), t)
  {
    var g := ExtendReign(h, t, log);
    ExtendedGrows(h, i, t, log);
    var before := h.reigns[t].log;
    LogOkStable(h, g, i, before, t, t);
    forall j, k | 0 <= j <= k < |log| ensures InOrder(log, j, k) {
      if k < |before| {
        assert InOrder(before, j, k);
      }
    }
    forall j | 1 <= j < |log| ensures Rooted(g, log, j) {
      if j < |before| {
        assert Rooted(g, before, j);
        assert log[..j + 1] == before[..j + 1];
      }
    }
  }

  lemma ExtendedOk(h: History, i: nat, t: nat, log: seq<Entry>)
    requires HistoryOk(h) && Lengthens(h, i, t, log)
    ensures HistoryOk(ExtendReign(h, t, log))
  {
    var g := ExtendReign(h, t, log);
    ExtendedGrows(h, i, t, log);
    forall u | u in g.reigns ensures ReignOk(g, u) {
      if u != t {
        ReignOkStable(h, g, i, u);
      } else {
        ExtendedReignOk(h, i, t, log);
      }
    }
    HistoryOkStable(h, g, i);
  }

  lemma ExtendedHolds(h: History, i: nat, t: nat, log: seq<Entry>)
    requires Lengthens(h, i, t, log) && Holds(h, i, h.reigns[t].log, t + 1)
    ensures Holds(ExtendReign(h, t, log), i, log, t + 1)
  {
    var g := ExtendReign(h, t, log);
    ExtendedGrows(h, i, t, log);
    forall u: nat, k: nat | u < t + 1 && Own(g, u, k) && k <= Acked(g, u, i) ensures Keeps(g, u, k, log) {
      if u < t {
        assert Own(h, u, k);
        KeepsStable(h, g, i, u, k, h.reigns[t].log, log);
      }
    }
  }

  lemma ExtendedPeerOk(h: History, i: nat, p: Peer, q: Peer)
    requires PeerOk(h, i, p) && p.role == Leader && Lengthens(h, i, p.currentTerm, q.log)
    requires q.currentTerm == p.currentTerm && q.votedFor == p.votedFor && q.role == Leader && CanSend(q)
    ensures PeerOk(ExtendReign(h, q.currentTerm, q.log), i, q)
  {
    ExtendedReignOk(h, i, p.currentTerm, q.log);
    ExtendedHolds(h, i, p.currentTerm, q.log);
  }

  lemma StartMessages(c: Cluster, d: Cluster, i: nat, q: Peer)
    requires Inv(c) && i < |c.peers| && PeerWf(q) && CanSend(q) && q.me == i && q.numPeers == |c.peers|
             && q.role == Leader
    requires d.peers == c.peers[i := q] && d.voteRpcs == c.voteRpcs && d.ballots == c.ballots && d.answers == c.answers
    requires d.appends == c.appends + Heartbeats(q)
    requires Grow(c.h, d.h, i) && HistoryOk(d.h) && PeerOk(d.h, i, q)
    ensures Inv(d)
  {
    HeartbeatsOk(d.h, i, q);
    StartWf(c, d, i, q);
    OwnRpcsStable(c, d, i);
    InvStable(c, d, i);
  }

  lemma StartWf(c: Cluster, d: Cluster, i: nat, q: Peer)
    requires Wf(c) && i < |c.peers| && PeerWf(q) && CanSend(q) && q.me == i && q.numPeers == |c.peers|
    requires d.peers == c.peers[i := q] && d.voteRpcs == c.voteRpcs && d.ballots == c.ballots && d.answers == c.answers
    requires d.appends == c.appends + Heartbeats(q)
    requires forall a | a in Heartbeats(q) :: AppendOk(d.h, a) && a.to < q.numPeers
    requires Grow(c.h, d.h, i) && HistoryOk(d.h)
    ensures Wf(d)
  {
    forall t | t in d.h.reigns ensures |d.h.reigns[t].acked| == |d.peers| {
      assert ReignOk(d.h, t);
    }
    forall a | a in d.appends ensures CallShape(a) && a.to < |d.peers| && a.args.leaderId < |d.peers| {
      if a !in c.appends {
        assert ReignOk(d.h, a.args.term);
      }
    }
  }

  lemma StartLengthens(h: History, i: nat, p: Peer, command: Command)
    requires HistoryOk(h) && PeerWf(p) && PeerOk(h, i, p) && p.role == Leader
    ensures Lengthens(h, i, p.currentTerm, Start(p, command).log)
  {
  }

  lemma StartHistory(h: History, g: History, i: nat, p: Peer, q: Peer)
    requires HistoryOk(h) && PeerOk(h, i, p) && p.role == Leader && Lengthens(h, i, p.currentTerm, q.log)
    requires q == p.(log := q.log) && g == ExtendReign(h, p.currentTerm, q.log)
    ensures Grow(h, g, i) && HistoryOk(g) && PeerOk(g, i, q)
  {
    ExtendedGrows(h, i, p.currentTerm, q.log);
    ExtendedOk(h, i, p.currentTerm, q.log);
    ExtendedPeerOk(h, i, p, q);
  }

  lemma StartApplied(c: Cluster, i: nat, command: Command)
    requires Wf(c) && i < |c.peers| && c.peers[i].role == Leader && CanSend(c.peers[i])
    requires PeerOk(c.h, i, c.peers[i])
    ensures Reigns(c.h, i, c.peers[i])
    ensures var q := Start(c.peers[i], command);
            AfterStart(c, i, command).h == ExtendReign(c.h, q.currentTerm, q.log)
  {
  }

  lemma StartInv(c: Cluster, i: nat, command: Command)
    requires Inv(c) && i < |c.peers| && c.peers[i].role == Leader && CanSend(c.peers[i])
    ensures Inv(AfterStart(c, i, command)) && Grow(c.h, AfterStart(c, i, command).h, i)
  {
    var p, q := c.peers[i], Start(c.peers[i], command);
    assert PeerOk(c.h, i, p);
    StartApplied(c, i, command);
    StartLengthens(c.h, i, p, command);
    StartHistory(c.h, AfterStart(c, i, command).h, i, p, q);
    StartMessages(c, AfterStart(c, i, command), i, q);
  }

  lemma HeartbeatInv(c: Cluster, i: nat)
    requires Inv(c) && i < |c.peers| && c.peers[i].role == Leader && CanSend(c.peers[i])
    ensures Inv(AfterHeartbeat(c, i)) && Grow(c.h, AfterHeartbeat(c, i).h, i)
  {
    var d := AfterHeartbeat(c, i);
    assert d.peers == c.peers[i := c.peers[i]];
    assert PeerOk(c.h, i, c.peers[i]);
    StartMessages(c, d, i, c.peers[i]);
  }

  // --- the receiver of a call ----------------------------------------------

  /** Peer i takes the entries of the call. */
  ghost predicate Accepts(h: History, i: nat, p: Peer, a: AppendCall) {
    && HistoryOk(h) && PeerWf(p) && PeerOk(h, i, p) && AppendOk(h, a) && a.to == i
    && a.args.term >= p.currentTerm && Matches(p.log, a.args)
  }

  /** The history once peer i has moved to q and acknowledged the call. */
  function AckHistory(h: History, i: nat, q: Peer, a: AppendCall): History
    requires i < |h.terms| && a.args.term in h.reigns && i < |h.reigns[a.args.term].acked|
  {
    Acknowledge(Record(h, i, q), a.args.term, i, a.args.prevLogIndex + |a.args.entries|)
  }

  /** The receiver follows the sender in its term; its log is the sent one, or the old
    one if that already extends it. */
  ghost predicate Taken(h: History, i: nat, p: Peer, a: AppendCall, q: Peer, g: History) {
    && HistoryOk(h) && PeerOk(h, i, p) && AppendOk(h, a) && a.to == i && ReignOk(h, a.args.term)
    && q.role == Follower && q.currentTerm == a.args.term >= p.currentTerm
    && q.votedFor == (if a.args.term > p.currentTerm then None else p.votedFor)
    && q.log == (if Sent(h, a) <= p.log then p.log else Sent(h, a))
    && LogOk(h, q.log, q.currentTerm)
    && g == AckHistory(h, i, q, a)
  }

  lemma AcceptTakes(h: History, i: nat, p: Peer, a: AppendCall)
    requires Accepts(h, i, p, a) && ReignOk(h, a.args.term)
    ensures var q := HandleAppend(p, a.args).0;
            Taken(h, i, p, a, q, AckHistory(h, i, q, a))
  {
    AcceptedLog(h, p, a);
  }

  lemma AckGrows(h: History, i: nat, p: Peer, q: Peer, a: AppendCall)
    requires i < |h.terms| && a.args.term in h.reigns && i < |h.reigns[a.args.term].acked|
    requires p.currentTerm == h.terms[i] && VoteOk(h, i, p) && q.currentTerm == a.args.term >= p.currentTerm
    requires q.votedFor == (if a.args.term > p.currentTerm then None else p.votedFor)
    ensures Grow(h, AckHistory(h, i, q, a), i)
  {
  }

  lemma TakenGrows(h: History, i: nat, p: Peer, a: AppendCall, q: Peer, g: History)
    requires Taken(h, i, p, a, q, g)
    ensures Grow(h, g, i) && VoteOk(g, i, q)
  {
    AckGrows(h, i, p, q, a);
  }

  lemma TakenReignOk(h: History, i: nat, p: Peer, a: AppendCall, q: Peer, g: History)
    requires Taken(h, i, p, a, q, g)
    ensures ReignOk(g, a.args.term)
  {
    TakenGrows(h, i, p, a, q, g);
    LogOkStable(h, g, i, h.reigns[a.args.term].log, a.args.term, a.args.term);
  }

  lemma TakenVotes(h: History, i: nat, p: Peer, a: AppendCall, q: Peer, g: History)
    requires Taken(h, i, p, a, q, g)
    ensures forall v | v in g.votes :: v.voter < |g.terms| && v.term <= g.terms[v.voter]
  {
  }

  lemma TakenOk(h: History, i: nat, p: Peer, a: AppendCall, q: Peer, g: History)
    requires Taken(h, i, p, a, q, g)
    ensures HistoryOk(g)
  {
    TakenGrows(h, i, p, a, q, g);
    TakenVotes(h, i, p, a, q, g);
    TakenReignOk(h, i, p, a, q, g);
    forall t | t in g.reigns ensures ReignOk(g, t) {
      if t != a.args.term {
        ReignOkStable(h, g, i, t);
      }
    }
    HistoryOkStable(h, g, i);
  }

  /** The receiver now has all it ever acknowledged in the sender's term. */
  lemma TakenFollows(h: History, i: nat, p: Peer, a: AppendCall, q: Peer, g: History)
    requires Taken(h, i, p, a, q, g)
    ensures Acked(g, a.args.term, i) < |g.reigns[a.args.term].log|
    ensures g.reigns[a.args.term].log[..Acked(g, a.args.term, i) + 1] <= q.log
  {
    var full := h.reigns[a.args.term].log;
    assert g.reigns[a.args.term].log == full;
    if Acked(h, a.args.term, i) + 1 > a.expectedNext {
      assert h.terms[i] >= a.args.term;
      assert Sent(h, a) <= full[..Acked(h, a.args.term, i) + 1] <= p.log;
    } else {
      assert full[..Acked(g, a.args.term, i) + 1] == Sent(h, a);
    }
  }

  /** A sent log keeps what an earlier leader may still commit. */
  lemma SentKeeps(h: History, a: AppendCall, t: nat, k: nat)
    requires HistoryOk(h) && AppendOk(h, a) && t < a.args.term && Own(h, t, k)
    ensures Keeps(h, t, k, Sent(h, a))
  {
    var full := h.reigns[a.args.term].log;
    assert KeepsAll(h, t, full);
    if !Blocked(h, t, k) {
      var pre := h.reigns[t].log[..k + 1];
      assert pre <= full;
      assert full[k] == pre[k];
      assert k < a.expectedNext;
      assert pre <= full[..a.expectedNext];
    }
  }

  lemma TakenHolds(h: History, i: nat, p: Peer, a: AppendCall, q: Peer, g: History)
    requires Taken(h, i, p, a, q, g)
    ensures Holds(g, i, q.log, q.currentTerm + 1)
  {
    TakenGrows(h, i, p, a, q, g);
    HoldsBeyond(h, i, p.log, p.currentTerm + 1, q.currentTerm + 1);
    forall t: nat, k: nat | t < q.currentTerm + 1 && Own(g, t, k) && k <= Acked(g, t, i)
      ensures Keeps(g, t, k, q.log)
    {
      if t < q.currentTerm {
        assert Own(h, t, k) && Acked(h, t, i) == Acked(g, t, i);
        if q.log != p.log {
          SentKeeps(h, a, t, k);
        }
        KeepsStable(h, g, i, t, k, q.log, q.log);
      } else {
        TakenFollows(h, i, p, a, q, g);
        assert g.reigns[t].log[..k + 1] <= g.reigns[t].log[..Acked(g, t, i) + 1];
      }
    }
  }

  lemma TakenPeerOk(h: History, i: nat, p: Peer, a: AppendCall, q: Peer, g: History)
    requires Taken(h, i, p, a, q, g)
    ensures PeerOk(g, i, q)
  {
    TakenGrows(h, i, p, a, q, g);
    LogOkStable(h, g, i, q.log, q.currentTerm, q.currentTerm);
    TakenHolds(h, i, p, a, q, g);
    TakenFollows(h, i, p, a, q, g);
  }

  lemma AppendMoves(p: Peer, a: AppendArgs, i: nat)
    requires PeerWf(p) && ArgsShape(a) && !HandleAppend(p, a).1.success
    requires p.role == Leader ==> CanSend(p)
    ensures Moved(i, p, HandleAppend(p, a).0)
  {
  }

  lemma AppendTaken(c: Cluster, a: AppendCall)
    requires Inv(c) && a in c.appends && HandleAppend(c.peers[a.to], a.args).1.success
    ensures var d := AfterAppend(c, a);
            Taken(c.h, a.to, c.peers[a.to], a, d.peers[a.to], d.h)
  {
    assert PeerOk(c.h, a.to, c.peers[a.to]) && AppendOk(c.h, a) && ReignOk(c.h, a.args.term);
    AcceptTakes(c.h, a.to, c.peers[a.to], a);
  }

  lemma TakenSound(h: History, i: nat, p: Peer, a: AppendCall, q: Peer, g: History)
    requires Taken(h, i, p, a, q, g)
    ensures Grow(h, g, i) && HistoryOk(g) && PeerOk(g, i, q) && Acked(g, a.args.term, i) + 1 >= a.expectedNext
  {
    TakenGrows(h, i, p, a, q, g);
    TakenOk(h, i, p, a, q, g);
    TakenPeerOk(h, i, p, a, q, g);
  }

  /** The step of a call touches its receiver only. */
  lemma AppendShape(c: Cluster, a: AppendCall)
    requires Wf(c) && a in c.appends
    ensures var d := AfterAppend(c, a);
            && Wf(d) && |d.peers| == |c.peers| && d.ballots == c.ballots
            && forall j | 0 <= j < |c.peers| && j != a.to :: d.peers[j] == c.peers[j]
  {
  }

  lemma TakenFrame(c: Cluster, a: AppendCall)
    requires Inv(c) && a in c.appends && HandleAppend(c.peers[a.to], a.args).1.success
    ensures var d := AfterAppend(c, a);
            && Frame(c, d, a.to) && PeerOk(d.h, a.to, d.peers[a.to])
            && AnswerOk(d.h, AppendAnswer(a, HandleAppend(c.peers[a.to], a.args).1))
  {
    var d := AfterAppend(c, a);
    AppendTaken(c, a);
    TakenSound(c.h, a.to, c.peers[a.to], a, d.peers[a.to], d.h);
    AppendShape(c, a);
  }

  lemma RefusedFrame(c: Cluster, a: AppendCall, d: Cluster)
    requires Inv(c) && a in c.appends && d == AfterAppend(c, a) && !HandleAppend(c.peers[a.to], a.args).1.success
    ensures Frame(c, d, a.to) && PeerOk(d.h, a.to, d.peers[a.to])
  {
    assert PeerOk(c.h, a.to, c.peers[a.to]);
    AppendMoves(c.peers[a.to], a.args, a.to);
    MoveFrame(c, d, a.to, d.peers[a.to]);
  }

  lemma AppendInv(c: Cluster, a: AppendCall)
    requires Inv(c) && a in c.appends
    ensures Inv(AfterAppend(c, a)) && Grow(c.h, AfterAppend(c, a).h, a.to)
  {
    var d := AfterAppend(c, a);
    if HandleAppend(c.peers[a.to], a.args).1.success {
      TakenFrame(c, a);
    } else {
      RefusedFrame(c, a, d);
    }
    OwnRpcsStable(c, d, a.to);
    InvStable(c, d, a.to);
  }

  // --- the sender gets its reply -------------------------------------------

  /** The sender keeps its log, and what it sends next is in range. */
  lemma ReplyMoves(h: History, i: nat, p: Peer, r: AppendAnswer)
    requires PeerWf(p) && p.me == i && PeerOk(h, i, p) && AppendOk(h, r.call) && r.call.args.leaderId == i
    requires r.call.to < p.numPeers && ReplyInRange(p, r.call, r.reply)
    ensures Moved(i, p, HandleAppendReply(p, r.call, r.reply).0)
  {
  }

  lemma RetryOk(h: History, i: nat, p: Peer, r: AppendAnswer, g: History)
    requires PeerWf(p) && p.me == i && PeerOk(g, i, p) && AppendOk(h, r.call) && r.call.args.leaderId == i
    requires r.call.to < p.numPeers == |g.terms| && ReplyInRange(p, r.call, r.reply)
    ensures forall a | a in HandleAppendReply(p, r.call, r.reply).1 ::
              AppendOk(g, a) && a.to < p.numPeers && a.args.leaderId == i
  {
  }

  lemma ReplyFrame(c: Cluster, r: AppendAnswer, d: Cluster)
    requires Inv(c) && r in c.answers && ReplyInRange(c.peers[r.call.args.leaderId], r.call, r.reply)
    requires d == AfterAppendReply(c, r)
    ensures Frame(c, d, r.call.args.leaderId) && PeerOk(d.h, r.call.args.leaderId, d.peers[r.call.args.leaderId])
    ensures forall a | a in d.appends :: a in c.appends || AppendOk(d.h, a)
  {
    var i := r.call.args.leaderId;
    var p := c.peers[i];
    assert PeerOk(c.h, i, p) && AppendOk(c.h, r.call) && ReignOk(c.h, r.call.args.term);
    if p.role == Leader {
      RetryOk(c.h, i, p, r, c.h);
    }
    ReplyMoves(c.h, i, p, r);
    MoveFrame(c, d, i, d.peers[i]);
    forall a | a in d.appends && a !in c.appends ensures AppendOk(d.h, a) {
      AppendOkStable(c.h, d.h, i, a);
    }
  }

  lemma AppendReplyInv(c: Cluster, r: AppendAnswer)
    requires Inv(c) && r in c.answers && ReplyInRange(c.peers[r.call.args.leaderId], r.call, r.reply)
    ensures Inv(AfterAppendReply(c, r)) && Grow(c.h, AfterAppendReply(c, r).h, r.call.args.leaderId)
  {
    var d := AfterAppendReply(c, r);
    ReplyFrame(c, r, d);
    OwnRpcsStable(c, d, r.call.args.leaderId);
    InvStable(c, d, r.call.args.leaderId);
  }

  /** The apply loop touches nothing the invariant speaks of. */
  lemma ApplyLoopInv(c: Cluster, i: nat, q: Peer)
    requires Inv(c) && i < |c.peers|
    requires q == c.peers[i].(toApply := q.toApply, lastApplied := q.lastApplied, applied := q.applied)
    ensures Inv(Move(c, i, q)) && Grow(c.h, Move(c, i, q).h, i)
  {
    var d := Move(c, i, q);
    assert PeerOk(c.h, i, c.peers[i]);
    MoveFrame(c, d, i, q);
    OwnRpcsStable(c, d, i);
    InvStable(c, d, i);
  }

  // --- every step ----------------------------------------------------------

  lemma StepInv(c: Cluster, s: Step, d: Cluster)
    requires Inv(c) && Next(c, s, d)
    ensures Inv(d) && Grow(c.h, d.h, Actor(s))
  {
    match s
    case ElectionTimeout(i) => TimeoutInv(c, i);
    case DeliverVote(k) => VoteInv(c, k);
    case DeliverVoteReply(k) =>
      if IsWin(c, k) {
        WinInv(c, k);
      } else {
        VoteReplyInv(c, k);
      }
    case ClientStart(i, command) => StartInv(c, i, command);
    case HeartbeatTimeout(i) => HeartbeatInv(c, i);
    case DeliverAppend(a) => AppendInv(c, a);
    case DeliverAppendReply(r) => AppendReplyInv(c, r);
    case CollectCommitted(i) => ApplyLoopInv(c, i, Collect(c.peers[i]));
    case EmitApply(i) => ApplyLoopInv(c, i, Emit(c.peers[i]));
  }

  lemma InitInv(n: nat)
    ensures Inv(Init(n))
  {
    var c := Init(n);
    forall i | 0 <= i < n ensures PeerOk(c.h, i, c.peers[i]) && BallotOk(c.h, c.peers[i], c.ballots[i]) {
    }
  }

  /** Every state of every run satisfies the invariant. */
  lemma {:induction false} RunInv(n: nat, states: seq<Cluster>, steps: seq<Step>, k: nat)
    requires IsRun(n, states, steps) && k < |states|
    ensures Inv(states[k]) && |states[k].peers| == n
  {
    if k == 0 {
      InitInv(n);
    } else {
      RunInv(n, states, steps, k - 1);
      assert StepAt(states, steps, k - 1);
      StepInv(states[k - 1], steps[k - 1], states[k]);
    }
  }
}
