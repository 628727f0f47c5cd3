/** Runs seen from a leader and its followers: bookkeeping, in-range slices, what a call
  carries, repair after a refusal, and late calls. */
module RaftProgress {
  import opened RaftPeer
  import opened RaftCluster
  import opened RaftInvariant
  import opened RaftSteps
  import opened RaftReplication
  import opened RaftRange
  import opened RaftCommit
  import opened RaftSafety

  // --- commit index and range ----------------------------------------------

  /** No peer's commit index ever falls. */
  lemma {:induction false} CommitNeverFalls(n: nat, states: seq<Cluster>, steps: seq<Step>, j: nat, k: nat, i: nat)
    requires IsRun(n, states, steps) && j <= k < |states| && i < n
    ensures i < |states[j].peers| && i < |states[k].peers|
    ensures states[j].peers[i].commitIndex <= states[k].peers[i].commitIndex
    decreases k - j
  {
    RunRange(n, states, steps, j);
    if j < k {
      assert StepAt(states, steps, j);
      StepOnward(states[j], steps[j], i);
      CommitNeverFalls(n, states, steps, j + 1, k, i);
    }
  }

  /** A leader's next indices lie in 1..len(log). */
  lemma NextIndexInRange(n: nat, states: seq<Cluster>, steps: seq<Step>, k: nat, i: nat, j: nat)
    requires IsRun(n, states, steps) && k < |states| && i < |states[k].peers| && j < |states[k].peers| && i != j
    requires states[k].peers[i].role == Leader
    ensures j < |states[k].peers[i].nextIndex| && 1 <= states[k].peers[i].nextIndex[j] <= |states[k].peers[i].log|
  {
    RunInv(n, states, steps, k);
    assert PeerOk(states[k].h, i, states[k].peers[i]);
  }

  /** In every run, whatever the environment offers next, no slice is out of range, but
    perhaps at a win, at a reply to a call or when committed entries are collected. */
  lemma CallsInRange(n: nat, states: seq<Cluster>, steps: seq<Step>, k: nat, s: Step)
    requires IsRun(n, states, steps) && k < |states| && Offered(states[k], s)
    requires !s.DeliverVoteReply? && !s.DeliverAppendReply? && !s.CollectCommitted?
    ensures Wf(states[k]) && InRange(states[k], s)
  {
    RunInv(n, states, steps, k);
    if s.ClientStart? || s.HeartbeatTimeout? {
      assert PeerOk(states[k].h, s.peer, states[k].peers[s.peer]);
    }
  }

  /** In a run whose winners cover their match indices those three are in range as well. */
  lemma NothingOutOfRange(n: nat, states: seq<Cluster>, steps: seq<Step>, k: nat, s: Step)
    requires CoveredRun(n, states, steps) && k < |states| && Offered(states[k], s)
    ensures Wf(states[k]) && InRange(states[k], s)
  {
    RunCovered(n, states, steps, k);
    NoPanic(states[k], s);
  }

  // --- leader bookkeeping --------------------------------------------------

  /** An acknowledgement was made while the peer was in that term. */
  lemma {:induction false} AckedThen(
    n: nat, states: seq<Cluster>, steps: seq<Step>, k: nat, t: nat, i: nat) returns (x: nat)
    requires IsRun(n, states, steps) && k < |states| && i < n && Acked(states[k].h, t, i) > 0
    ensures x <= k && i < |states[x].h.terms| && states[x].h.terms[i] == t
    ensures Acked(states[x].h, t, i) == Acked(states[k].h, t, i)
  {
    RunInv(n, states, steps, k);
    if states[k].h.terms[i] == t || k == 0 {
      x := k;
    } else {
      StepGrow(n, states, steps, k - 1);
      assert Acked(states[k].h, t, i) == Acked(states[k - 1].h, t, i);
      x := AckedThen(n, states, steps, k - 1, t, i);
    }
  }

  /** At some moment of this very term follower j's log began with the leader's log up to
    m, and as long as j stays in the term it still does. */
  ghost predicate Held(states: seq<Cluster>, k: nat, i: nat, j: nat, m: nat, x: nat)
    requires x <= k < |states| && i < |states[k].peers| && j < |states[k].peers| && j < |states[x].peers|
  {
    var p := states[k].peers[i];
    && m < |p.log| && states[x].peers[j].currentTerm == p.currentTerm && p.log[..m + 1] <= states[x].peers[j].log
    && (states[k].peers[j].currentTerm == p.currentTerm ==> p.log[..m + 1] <= states[k].peers[j].log)
  }

  lemma AckedIsHeld(n: nat, states: seq<Cluster>, steps: seq<Step>, k: nat, i: nat, j: nat, m: nat) returns (x: nat)
    requires IsRun(n, states, steps) && k < |states| && i < |states[k].peers| && j < |states[k].peers|
    requires states[k].peers[i].role == Leader && 0 < m <= Acked(states[k].h, states[k].peers[i].currentTerm, j)
    ensures x <= k && j < |states[x].peers| && Held(states, k, i, j, m, x)
  {
    var p := states[k].peers[i];
    RunInv(n, states, steps, k);
    assert PeerOk(states[k].h, i, p) && ReignOk(states[k].h, p.currentTerm);
    x := AckedThen(n, states, steps, k, p.currentTerm, j);
    HeldWhenAcked(n, states, steps, x, k, p.currentTerm, j, m);
    if states[k].peers[j].currentTerm == p.currentTerm {
      assert PeerOk(states[k].h, j, states[k].peers[j]);
      HeldWhenAcked(n, states, steps, k, k, p.currentTerm, j, m);
    }
  }

  /** Where winners cover their match indices, a leader's match indices lie within its log,
    and one at an entry of the leader's own term means what it should. */
  lemma OwnTermBookkeeping(n: nat, states: seq<Cluster>, steps: seq<Step>, k: nat, i: nat, j: nat) returns (x: nat)
    requires CoveredRun(n, states, steps) && k < |states| && i < |states[k].peers| && j < |states[k].peers| && i != j
    requires states[k].peers[i].role == Leader
    ensures var p := states[k].peers[i];
            && j < |p.matchIndex| && p.matchIndex[j] < |p.log|
            && (p.log[p.matchIndex[j]].term == p.currentTerm ==>
                  x <= k && j < |states[x].peers| && Held(states, k, i, j, p.matchIndex[j], x))
  {
    var p := states[k].peers[i];
    RunCovered(n, states, steps, k);
    var t, m := p.currentTerm, p.matchIndex[j];
    assert PeerOk(states[k].h, i, p) && CommitOk(states[k].h, i, p) && ReignOk(states[k].h, t);
    x := k;
    if m <= Acked(states[k].h, t, j) && m > 0 {
      x := AckedIsHeld(n, states, steps, k, i, j, m);
    }
  }

  predicate MatchAcked(h: History, i: nat, p: Peer) {
    p.role == Leader ==>
      forall j {:trigger p.matchIndex[j]} | 0 <= j < |p.matchIndex| && j != i ::
        p.matchIndex[j] <= Acked(h, p.currentTerm, j)
  }

  /** A peer that only leads on, or no longer leads, keeps what was acknowledged to it. */
  lemma MatchStays(h: History, g: History, actor: nat, i: nat, p: Peer, q: Peer)
    requires Grow(h, g, actor) && MatchAcked(h, i, p)
    requires q.role == Leader ==> p.role == Leader && q.currentTerm == p.currentTerm && q.matchIndex == p.matchIndex
    ensures MatchAcked(g, i, q)
  {
    if q.role == Leader {
      forall j | 0 <= j < |p.matchIndex| && j != i ensures p.matchIndex[j] <= Acked(g, p.currentTerm, j) {
        AckedGrows(h, g, actor, p.currentTerm, j);
      }
    }
  }

  lemma ReplyMatch(c: Cluster, r: AppendAnswer)
    requires Inv(c) && r in c.answers && ReplyInRange(c.peers[r.call.args.leaderId], r.call, r.reply)
    requires MatchAcked(c.h, r.call.args.leaderId, c.peers[r.call.args.leaderId])
    ensures var i := r.call.args.leaderId;
            MatchAcked(c.h, i, AfterAppendReply(c, r).peers[i])
  {
    assert AnswerOk(c.h, r) && AppendOk(c.h, r.call);
  }

  lemma MatchStep(c: Cluster, s: Step, d: Cluster, i: nat)
    requires Inv(c) && Next(c, s, d) && FreshStep(c, s) && i < |c.peers| && MatchAcked(c.h, i, c.peers[i])
    ensures i < |d.peers| && MatchAcked(d.h, i, d.peers[i])
  {
    StepInv(c, s, d);
    if i != Actor(s) {
      OthersUntouched(c, s, i);
      MatchStays(c.h, d.h, Actor(s), i, c.peers[i], d.peers[i]);
    } else if s.DeliverAppendReply? {
      ReplyMatch(c, s.answer);
      MatchStays(c.h, d.h, i, i, d.peers[i], d.peers[i]);
    } else if !(s.DeliverVoteReply? && IsWin(c, s.key)) {
      ActorLeads(c, s);
      MatchStays(c.h, d.h, i, i, c.peers[i], d.peers[i]);
    }
  }

  /** Only a win makes a leader, and only a reply to a call changes a match index. */
  lemma ActorLeads(c: Cluster, s: Step)
    requires Wf(c) && Offered(c, s) && InRange(c, s) && !s.DeliverAppendReply?
    requires !(s.DeliverVoteReply? && IsWin(c, s.key))
    ensures Actor(s) < |c.peers|
    ensures var p, q := c.peers[Actor(s)], Apply(c, s).peers[Actor(s)];
            && q.matchIndex == p.matchIndex
            && (q.role == Leader ==> p.role == Leader && q.currentTerm == p.currentTerm)
  {
    match s
    case DeliverAppend(a) => assert Apply(c, s).peers[a.to] == HandleAppend(c.peers[a.to], a.args).0;
    case _ =>
  }

  lemma MatchNext(n: nat, states: seq<Cluster>, steps: seq<Step>, k: nat, i: nat)
    requires FreshRun(n, states, steps) && k < |steps| && i < |states[k].peers|
    requires MatchAcked(states[k].h, i, states[k].peers[i])
    ensures i < |states[k + 1].peers| && MatchAcked(states[k + 1].h, i, states[k + 1].peers[i])
  {
    RunInv(n, states, steps, k);
    assert StepAt(states, steps, k) && FreshStep(states[k], steps[k]);
    MatchStep(states[k], steps[k], states[k + 1], i);
  }

  lemma {:induction false} RunMatch(n: nat, states: seq<Cluster>, steps: seq<Step>, k: nat, i: nat)
    requires FreshRun(n, states, steps) && k < |states| && i < n
    ensures i < |states[k].peers| && MatchAcked(states[k].h, i, states[k].peers[i])
  {
    if k > 0 {
      RunMatch(n, states, steps, k - 1, i);
      MatchNext(n, states, steps, k - 1, i);
    }
  }

  /** Where every winner starts with an all-zero matchIndex, every match index means what it
    should: matchIndex[j] = m says that at some moment of this very term follower j's log
    began with the leader's log up to m, and as long as j stays in the term it still does. */
  lemma LeaderBookkeeping(n: nat, states: seq<Cluster>, steps: seq<Step>, k: nat, i: nat, j: nat) returns (x: nat)
    requires FreshRun(n, states, steps) && k < |states| && i < |states[k].peers| && j < |states[k].peers| && i != j
    requires states[k].peers[i].role == Leader
    ensures var p := states[k].peers[i];
            && j < |p.matchIndex| && p.matchIndex[j] < |p.log|
            && (p.matchIndex[j] > 0 ==> x <= k && j < |states[x].peers| && Held(states, k, i, j, p.matchIndex[j], x))
  {
    RunInv(n, states, steps, k);
    RunMatch(n, states, steps, k, i);
    x := k;
    if states[k].peers[i].matchIndex[j] > 0 {
      x := AckedIsHeld(n, states, steps, k, i, j, states[k].peers[i].matchIndex[j]);
    }
  }

  lemma HeldWhenAcked(n: nat, states: seq<Cluster>, steps: seq<Step>, x: nat, k: nat, t: nat, j: nat, m: nat)
    requires IsRun(n, states, steps) && x <= k < |states| && j < n
    requires j < |states[x].h.terms| && states[x].h.terms[j] == t && 0 < m <= Acked(states[x].h, t, j)
    ensures j < |states[x].peers| && states[x].peers[j].currentTerm == t
    ensures t in states[k].h.reigns && m < |states[k].h.reigns[t].log|
    ensures states[k].h.reigns[t].log[..m + 1] <= states[x].peers[j].log
  {
    RunInv(n, states, steps, x);
    assert PeerOk(states[x].h, j, states[x].peers[j]) && ReignOk(states[x].h, t);
    ReignsPersist(n, states, steps, x, k, t);
    var earlier, now := states[x].h.reigns[t].log, states[k].h.reigns[t].log;
    assert now[..m + 1] == earlier[..m + 1] <= earlier[..Acked(states[x].h, t, j) + 1];
  }

  // --- what a call carries -------------------------------------------------

  /** Every call in flight was made by its sender in some earlier state. */
  lemma {:induction false} CallWasSent(
    n: nat, states: seq<Cluster>, steps: seq<Step>, k: nat, a: AppendCall) returns (j: nat)
    requires IsRun(n, states, steps) && k < |states| && a in states[k].appends
    ensures j <= k && a.args.leaderId < |states[j].peers| && SentBy(states[j].peers[a.args.leaderId], a)
  {
    RunInv(n, states, steps, k);
    j := k;
    if k > 0 {
      RunInv(n, states, steps, k - 1);
      assert StepAt(states, steps, k - 1);
      if a in states[k - 1].appends {
        j := CallWasSent(n, states, steps, k - 1, a);
      } else {
        NewCallSent(states[k - 1], steps[k - 1], a);
      }
    }
  }

  /** The log the call stands for is its sender's whole log when it was sent. */
  lemma SentIsWholeLog(n: nat, states: seq<Cluster>, steps: seq<Step>, j: nat, k: nat, a: AppendCall)
    requires IsRun(n, states, steps) && j <= k < |states| && a in states[k].appends
    requires a.args.leaderId < |states[j].peers| && SentBy(states[j].peers[a.args.leaderId], a)
    ensures AppendOk(states[k].h, a) && Sent(states[k].h, a) == states[j].peers[a.args.leaderId].log
  {
    var p := states[j].peers[a.args.leaderId];
    RunInv(n, states, steps, j);
    RunInv(n, states, steps, k);
    assert PeerOk(states[j].h, a.args.leaderId, p) && AppendOk(states[k].h, a);
    ReignsPersist(n, states, steps, j, k, p.currentTerm);
  }

  /** A follower that accepts a call takes exactly the sender's commit index, never passes
    the last entry sent, and begins with the log the sender had when it sent the call. */
  lemma FollowerCommit(n: nat, states: seq<Cluster>, steps: seq<Step>, k: nat, a: AppendCall) returns (j: nat)
    requires IsRun(n, states, steps) && k < |steps| && steps[k] == DeliverAppend(a) && a in states[k].appends
    requires a.to < |states[k].peers| && a.to < |states[k + 1].peers| && PeerWf(states[k].peers[a.to])
             && ArgsShape(a.args)
    requires HandleAppend(states[k].peers[a.to], a.args).1.success
    ensures var p, q := states[k].peers[a.to], states[k + 1].peers[a.to];
            && q.commitIndex == Max(p.commitIndex, a.args.leaderCommit)
            && (q.commitIndex > p.commitIndex ==> q.commitIndex <= a.args.prevLogIndex + |a.args.entries|)
            && j <= k && a.args.leaderId < |states[j].peers| && SentBy(states[j].peers[a.args.leaderId], a)
            && states[j].peers[a.args.leaderId].log <= q.log
  {
    RunRange(n, states, steps, k);
    j := CallWasSent(n, states, steps, k, a);
    SentIsWholeLog(n, states, steps, j, k, a);
    var c := states[k];
    assert StepAt(states, steps, k);
    assert PeerOk(c.h, a.to, c.peers[a.to]) && AppendOk(c.h, a) && ReignOk(c.h, a.args.term) && CarryInRange(a);
    CommitReached(c.h, a.to, c.peers[a.to], a);
  }

  // --- repair and reordering -----------------------------------------------

  /** A call from index 1 is accepted by any peer of no higher term, which then begins
    with the log the sender had when it sent the call. This holds in every run. */
  lemma RetryAccepted(n: nat, states: seq<Cluster>, steps: seq<Step>, k: nat, a: AppendCall) returns (j: nat)
    requires IsRun(n, states, steps) && k < |states| && a in states[k].appends && a.args.prevLogIndex == 0
    requires a.to < |states[k].peers| && states[k].peers[a.to].currentTerm <= a.args.term
    ensures j <= k && a.args.leaderId < |states[j].peers| && SentBy(states[j].peers[a.args.leaderId], a)
    ensures PeerWf(states[k].peers[a.to]) && ArgsShape(a.args)
    ensures var (q, reply) := HandleAppend(states[k].peers[a.to], a.args);
            reply == AppendReply(a.args.term, true) && states[j].peers[a.args.leaderId].log <= q.log
  {
    RunInv(n, states, steps, k);
    j := CallWasSent(n, states, steps, k, a);
    SentIsWholeLog(n, states, steps, j, k, a);
    var c := states[k];
    var p := c.peers[a.to];
    assert PeerOk(c.h, a.to, p) && AppendOk(c.h, a) && ReignOk(c.h, a.args.term);
    AcceptedLog(c.h, p, a);
  }

  /** The retry a leader makes after a refusal is such a call. */
  lemma RetryStartsAtOne(n: nat, states: seq<Cluster>, steps: seq<Step>, k: nat)
    requires IsRun(n, states, steps) && k < |steps| && steps[k].DeliverAppendReply? && !steps[k].answer.reply.success
    requires var r := steps[k].answer;
             && r.call.args.leaderId < |states[k].peers| && Leading(states[k].peers[r.call.args.leaderId], r.call.args)
             && r.reply.term <= r.call.args.term
    ensures exists a :: a in states[k + 1].appends && a.to == steps[k].answer.call.to && a.args.prevLogIndex == 0
              && steps[k].answer.call.args.leaderId < |states[k + 1].peers|
              && SentBy(states[k + 1].peers[steps[k].answer.call.args.leaderId], a)
  {
    var r := steps[k].answer;
    RunInv(n, states, steps, k);
    assert StepAt(states, steps, k);
    var p := states[k].peers[r.call.args.leaderId];
    assert PeerOk(states[k].h, r.call.args.leaderId, p);
    var q := p.(nextIndex := p.nextIndex[r.call.to := 1]);
    var a := CallFor(q, r.call.to);
    assert a in states[k + 1].appends;
  }

  /** Of two calls of one term, the one made earlier carries no more. */
  lemma EarlierCallCarriesLess(
    n: nat, states: seq<Cluster>, steps: seq<Step>, x: nat, a: AppendCall, y: nat, b: AppendCall)
    requires IsRun(n, states, steps) && x <= y < |states| && a.args.term == b.args.term
    requires a.args.leaderId < |states[x].peers| && b.args.leaderId < |states[y].peers|
    requires SentBy(states[x].peers[a.args.leaderId], a) && SentBy(states[y].peers[b.args.leaderId], b)
    ensures a.args.leaderId == b.args.leaderId && a.expectedNext <= b.expectedNext
            && a.args.leaderCommit <= b.args.leaderCommit
  {
    var i := a.args.leaderId;
    ElectionSafety(n, states, steps, x, i, y, b.args.leaderId);
    RunInv(n, states, steps, x);
    RunInv(n, states, steps, y);
    assert PeerOk(states[x].h, i, states[x].peers[i]) && PeerOk(states[y].h, i, states[y].peers[i]);
    ReignsPersist(n, states, steps, x, y, a.args.term);
    CommitNeverFalls(n, states, steps, x, y, i);
  }

  /** Once a peer has accepted call b, a call a of the same term made no later than b
    changes nothing as long as the peer stays in that term: same peer, and a success reply. */
  lemma LateCallChangesNothing(
    n: nat, states: seq<Cluster>, steps: seq<Step>, k: nat, x: nat, a: AppendCall, y: nat, b: AppendAnswer)
    requires IsRun(n, states, steps) && x <= y < |states| && k < |states|
    requires a in states[k].appends && b in states[k].answers && b.reply.success
    requires a.args.term == b.call.args.term && a.to == b.call.to < |states[k].peers|
    requires a.args.leaderId < |states[x].peers| && b.call.args.leaderId < |states[y].peers|
    requires SentBy(states[x].peers[a.args.leaderId], a) && SentBy(states[y].peers[b.call.args.leaderId], b.call)
    requires states[k].peers[a.to].currentTerm == a.args.term
    ensures PeerWf(states[k].peers[a.to]) && ArgsShape(a.args)
    ensures HandleAppend(states[k].peers[a.to], a.args) == (states[k].peers[a.to], AppendReply(a.args.term, true))
  {
    EarlierCallCarriesLess(n, states, steps, x, a, y, b.call);
    RunRange(n, states, steps, k);
    var c := states[k];
    assert PeerOk(c.h, a.to, c.peers[a.to]) && AppendOk(c.h, a) && ReignOk(c.h, a.args.term);
    assert AnswerOk(c.h, b) && AnswerKept(c.peers[b.call.to], b);
    HeldCallChangesNothing(c.h, a.to, c.peers[a.to], a);
  }

  /** A call whose entries the receiver has acknowledged already. */
  lemma HeldCallChangesNothing(h: History, i: nat, p: Peer, a: AppendCall)
    requires HistoryOk(h) && PeerWf(p) && PeerOk(h, i, p) && AppendOk(h, a) && a.to == i && ReignOk(h, a.args.term)
    requires p.currentTerm == a.args.term && p.role == Follower
    requires p.commitIndex >= a.args.leaderCommit && Acked(h, a.args.term, i) + 1 >= a.expectedNext
    ensures HandleAppend(p, a.args) == (p, AppendReply(a.args.term, true))
  {
    var held := h.reigns[a.args.term].log[..Acked(h, a.args.term, i) + 1];
    assert Sent(h, a) <= held <= p.log;
    assert p.log[a.args.prevLogIndex] == held[a.args.prevLogIndex];
    AcceptedLog(h, p, a);
  }

  // --- when winners cover their match indices ------------------------------

  /** Step k makes peer i leader. */
  predicate WinAt(states: seq<Cluster>, steps: seq<Step>, k: nat, i: nat)
    requires k < |steps| < |states|
  {
    steps[k].DeliverVoteReply? && steps[k].key.candidate == i && Answering(states[k], steps[k].key)
      && IsWin(states[k], steps[k].key)
  }

  lemma NeverLedStep(c: Cluster, s: Step, i: nat)
    requires Inv(c) && Offered(c, s) && InRange(c, s) && i < |c.peers|
    requires c.peers[i].role != Leader && AllZero(c.peers[i].matchIndex)
    requires !(s.DeliverVoteReply? && s.key.candidate == i && IsWin(c, s.key))
    ensures i < |Apply(c, s).peers|
    ensures Apply(c, s).peers[i].role != Leader && AllZero(Apply(c, s).peers[i].matchIndex)
  {
    if i != Actor(s) {
      OthersUntouched(c, s, i);
    } else if s.DeliverAppendReply? {
      assert AfterAppendReply(c, s.answer).peers[i] == c.peers[i];
    } else {
      ActorLeads(c, s);
    }
  }

  lemma {:induction false} NeverLed(n: nat, states: seq<Cluster>, steps: seq<Step>, k: nat, i: nat)
    requires IsRun(n, states, steps) && k < |states| && i < n
    requires forall j | 0 <= j < k :: !WinAt(states, steps, j, i)
    ensures i < |states[k].peers| && states[k].peers[i].role != Leader && AllZero(states[k].peers[i].matchIndex)
  {
    if k > 0 {
      NeverLed(n, states, steps, k - 1, i);
      assert StepAt(states, steps, k - 1) && !WinAt(states, steps, k - 1, i);
      RunInv(n, states, steps, k - 1);
      NeverLedStep(states[k - 1], steps[k - 1], i);
    }
  }

  /** A run in which no peer wins twice is fresh. */
  lemma FirstWinsAreFresh(n: nat, states: seq<Cluster>, steps: seq<Step>)
    requires IsRun(n, states, steps)
    requires forall j, k, i | 0 <= j < k < |steps| && WinAt(states, steps, j, i) :: !WinAt(states, steps, k, i)
    ensures FreshRun(n, states, steps)
  {
    forall k | 0 <= k < |steps| ensures StepAt(states, steps, k) && FreshStep(states[k], steps[k]) {
      assert StepAt(states, steps, k);
      if steps[k].DeliverVoteReply? && IsWin(states[k], steps[k].key) {
        RunInv(n, states, steps, k);
        assert WinAt(states, steps, k, steps[k].key.candidate);
        NeverLed(n, states, steps, k, steps[k].key.candidate);
      }
    }
  }

  /** In a fresh run the winners cover their match indices, so all of the above holds of it. */
  lemma FreshIsCovered(n: nat, states: seq<Cluster>, steps: seq<Step>)
    requires FreshRun(n, states, steps)
    ensures CoveredRun(n, states, steps)
  {
    forall k | 0 <= k < |steps| ensures StepAt(states, steps, k) && CoveredStep(states[k], steps[k]) {
      assert StepAt(states, steps, k) && FreshStep(states[k], steps[k]);
    }
  }

  // --- apply streams of any run --------------------------------------------

  /** What was sent to the service and what waits to be are numbered on from 1, up to the
    last applied index, which is not beyond the commit index. */
  predicate StreamOk(p: Peer) {
    && |p.applied| + |p.toApply| == p.lastApplied <= p.commitIndex
    && (forall x | 0 <= x < |p.applied| :: p.applied[x].index == x + 1)
    && (forall x | 0 <= x < |p.toApply| :: p.toApply[x].index == |p.applied| + 1 + x)
  }

  lemma LoopStream(c: Cluster, s: Step)
    requires Wf(c) && Offered(c, s) && InRange(c, s) && (s.CollectCommitted? || s.EmitApply?)
    requires StreamOk(c.peers[s.peer])
    ensures StreamOk(Apply(c, s).peers[s.peer])
  {
  }

  /** Only the apply loop touches the stream. */
  predicate SameStream(p: Peer, q: Peer) {
    q.applied == p.applied && q.toApply == p.toApply && q.lastApplied == p.lastApplied
  }

  lemma AppendStream(p: Peer, a: AppendArgs)
    requires PeerWf(p) && ArgsShape(a)
    ensures SameStream(p, HandleAppend(p, a).0)
  {
  }

  lemma ReplyStream(p: Peer, r: AppendAnswer)
    requires PeerWf(p) && CallShape(r.call) && r.call.to < p.numPeers && ReplyInRange(p, r.call, r.reply)
    ensures SameStream(p, HandleAppendReply(p, r.call, r.reply).0)
  {
  }

  lemma OthersStream(c: Cluster, s: Step)
    requires Wf(c) && Offered(c, s) && InRange(c, s) && !s.CollectCommitted? && !s.EmitApply?
    ensures Actor(s) < |c.peers| && SameStream(c.peers[Actor(s)], Apply(c, s).peers[Actor(s)])
  {
    match s
    case DeliverAppend(a) => AppendStream(c.peers[a.to], a.args);
    case DeliverAppendReply(r) => ReplyStream(c.peers[r.call.args.leaderId], r);
    case _ =>
  }

  lemma StreamStep(c: Cluster, s: Step, i: nat)
    requires RangeInv(c) && Offered(c, s) && InRange(c, s) && i < |c.peers| && StreamOk(c.peers[i])
    ensures i < |Apply(c, s).peers| && StreamOk(Apply(c, s).peers[i])
  {
    StepOnward(c, s, i);
    if i != Actor(s) {
      OthersUntouched(c, s, i);
    } else if s.CollectCommitted? || s.EmitApply? {
      LoopStream(c, s);
    } else {
      OthersStream(c, s);
    }
  }

  /** In every run what a peer has sent on its apply channel is numbered from 1 without a
    gap, and nothing is beyond its commit index. */
  lemma {:induction false} StreamIsGapFree(n: nat, states: seq<Cluster>, steps: seq<Step>, k: nat, i: nat)
    requires IsRun(n, states, steps) && k < |states| && i < n
    ensures i < |states[k].peers| && StreamOk(states[k].peers[i])
  {
    RunRange(n, states, steps, k);
    if k > 0 {
      StreamIsGapFree(n, states, steps, k - 1, i);
      RunRange(n, states, steps, k - 1);
      assert StepAt(states, steps, k - 1);
      StreamStep(states[k - 1], steps[k - 1], i);
    }
  }
}
