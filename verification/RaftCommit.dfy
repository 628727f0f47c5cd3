/** Commitment, in runs where every winner's match indices lie within its log: what is
  committed is chosen by a majority for good, and what is applied is committed. A match index
  left from an earlier reign does no harm there, since the entry at it is of a lower term, and
  a leader counts only for entries of its own. */
module RaftCommit {
  import opened RaftPeer
  import opened RaftCluster
  import opened RaftInvariant
  import opened RaftSteps
  import opened RaftReplication
  import opened RaftRange

  // --- chosen entries ------------------------------------------------------

  predicate ChosenBy(h: History, t: nat, k: nat, q: set<nat>) {
    Majority(|h.terms|, q) && forall p | p in q :: Acked(h, t, p) >= k
  }

  /** A majority has acknowledged the leader's own entry k within term t. */
  ghost predicate Chosen(h: History, t: nat, k: nat) {
    Own(h, t, k) && exists q: set<nat> :: ChosenBy(h, t, k, q)
  }

  lemma ChosenStable(h: History, g: History, actor: nat, t: nat, k: nat)
    requires Grow(h, g, actor) && Chosen(h, t, k)
    ensures Chosen(g, t, k) && g.reigns[t].log[..k + 1] == h.reigns[t].log[..k + 1]
  {
    var q: set<nat> :| ChosenBy(h, t, k, q);
    assert ReignGrows(t, h.reigns[t], g.reigns[t], actor);
    forall p | p in q ensures Acked(g, t, p) >= k {
      AckedGrows(h, g, actor, t, p);
    }
    assert ChosenBy(g, t, k, q);
  }

  lemma ChosenNotBlocked(h: History, t: nat, k: nat)
    requires Chosen(h, t, k)
    ensures !Blocked(h, t, k)
  {
    if Blocked(h, t, k) {
      var q: set<nat> :| ChosenBy(h, t, k, q);
      var r: set<nat> :| BlockedBy(h, t, k, r);
      var p := MajoritiesMeet(|h.terms|, q, r);
      assert false;
    }
  }

  /** The heart of Leader Completeness: a chosen entry is in the log of every later leader. */
  lemma ChosenKept(h: History, t: nat, k: nat, u: nat)
    requires HistoryOk(h) && Chosen(h, t, k) && u in h.reigns && t < u
    ensures h.reigns[t].log[..k + 1] <= h.reigns[u].log
  {
    ChosenNotBlocked(h, t, k);
    assert KeepsAll(h, t, h.reigns[u].log);
    assert Keeps(h, t, k, h.reigns[u].log);
  }

  // --- safe prefixes -------------------------------------------------------

  /** Up to index m the log is part of what was chosen at k in term t. */
  ghost predicate SafeBy(h: History, log: seq<Entry>, m: nat, bound: nat, t: nat, k: nat) {
    t <= bound && m <= k && m < |log| && Chosen(h, t, k) && log[..m + 1] <= h.reigns[t].log[..k + 1]
  }

  ghost predicate Safe(h: History, log: seq<Entry>, m: nat, bound: nat) {
    m < |log| && (m == 0 || exists t: nat, k: nat :: SafeBy(h, log, m, bound, t, k))
  }

  /** Safety depends only on the log up to m, and survives any step. */
  lemma SafeStable(
    h: History, g: History, actor: nat, log: seq<Entry>, m: nat, bound: nat, other: seq<Entry>, higher: nat)
    requires Grow(h, g, actor) && Safe(h, log, m, bound) && bound <= higher && log[..m + 1] <= other
    ensures Safe(g, other, m, higher)
  {
    if m > 0 {
      var t: nat, k: nat :| SafeBy(h, log, m, bound, t, k);
      ChosenStable(h, g, actor, t, k);
      assert other[..m + 1] == log[..m + 1];
      assert SafeBy(g, other, m, higher, t, k);
    }
  }

  /** Two safe prefixes never disagree. */
  lemma SafeLogsAgree(h: History, a: seq<Entry>, m: nat, ta: nat, b: seq<Entry>, l: nat, tb: nat)
    requires HistoryOk(h) && LogOk(h, a, ta) && LogOk(h, b, tb)
    requires Safe(h, a, m, ta) && Safe(h, b, l, tb) && m <= l
    ensures a[..m + 1] == b[..m + 1]
  {
    if m > 0 {
      var t: nat, k: nat :| SafeBy(h, a, m, ta, t, k);
      var u: nat, j: nat :| SafeBy(h, b, l, tb, u, j);
      if t < u {
        ChosenKept(h, t, k, u);
      } else if u < t {
        ChosenKept(h, u, j, t);
      }
      assert a[..m + 1] == h.reigns[t].log[..m + 1];
      assert b[..l + 1] == h.reigns[u].log[..l + 1];
      assert b[..m + 1] == b[..l + 1][..m + 1] == h.reigns[u].log[..m + 1];
    }
  }

  // --- the invariant -------------------------------------------------------

  function Messages(entries: seq<Entry>): seq<ApplyMsg> {
    seq(|entries|, i requires 0 <= i < |entries| => Message(entries[i]))
  }

  /** What was sent to the service, then what is waiting to be, is the log from index 1. */
  predicate ApplyOk(p: Peer) {
    && p.lastApplied <= p.commitIndex < |p.log|
    && p.applied + Messages(p.toApply) == Messages(p.log[1 .. p.lastApplied + 1])
  }

  /** The leader's log up to the match index was acknowledged to it, or the match index is a
    stale one at an entry of a lower term. */
  predicate MatchAt(h: History, t: nat, log: seq<Entry>, j: nat, m: nat) {
    m <= Acked(h, t, j) || (m < |log| && log[m].term < t)
  }

  predicate MatchOk(h: History, i: nat, p: Peer) {
    p.role == Leader ==>
      forall j {:trigger p.matchIndex[j]} | 0 <= j < |p.matchIndex| && j != i ::
        MatchAt(h, p.currentTerm, p.log, j, p.matchIndex[j])
  }

  ghost predicate CommitOk(h: History, i: nat, p: Peer) {
    Safe(h, p.log, p.commitIndex, p.currentTerm) && MatchOk(h, i, p) && ApplyOk(p)
  }

  /** The commit index a call carries is safe within what the call's sender had. */
  ghost predicate CarryOk(h: History, a: AppendCall) {
    AppendOk(h, a) && Safe(h, Sent(h, a), a.args.leaderCommit, a.args.term)
  }

  ghost predicate CoveredInv(c: Cluster) {
    && Inv(c)
    && (forall i {:trigger CommitOk(c.h, i, c.peers[i])} | 0 <= i < |c.peers| :: CommitOk(c.h, i, c.peers[i]))
    && (forall a {:trigger CarryOk(c.h, a)} | a in c.appends :: CarryOk(c.h, a))
  }

  lemma CommitStable(h: History, g: History, actor: nat, i: nat, p: Peer)
    requires Grow(h, g, actor) && CommitOk(h, i, p)
    ensures CommitOk(g, i, p)
  {
    SafeStable(h, g, actor, p.log, p.commitIndex, p.currentTerm, p.log, p.currentTerm);
    if p.role == Leader {
      forall j | 0 <= j < |p.matchIndex| && j != i ensures MatchAt(g, p.currentTerm, p.log, j, p.matchIndex[j]) {
        AckedGrows(h, g, actor, p.currentTerm, j);
      }
    }
  }

  lemma CarryStable(h: History, g: History, actor: nat, a: AppendCall)
    requires Grow(h, g, actor) && CarryOk(h, a)
    ensures CarryOk(g, a)
  {
    AppendOkStable(h, g, actor, a);
    SafeStable(h, g, actor, Sent(h, a), a.args.leaderCommit, a.args.term, Sent(h, a), a.args.term);
  }

  /** A step by peer i: only i changes. */
  ghost predicate CommitFrame(c: Cluster, d: Cluster, i: nat) {
    && CoveredInv(c) && Inv(d) && Grow(c.h, d.h, i)
    && i < |c.peers| == |d.peers|
    && (forall j | 0 <= j < |c.peers| && j != i :: d.peers[j] == c.peers[j])
  }

  lemma CoveredStable(c: Cluster, d: Cluster, i: nat)
    requires CommitFrame(c, d, i) && CommitOk(d.h, i, d.peers[i])
    requires forall a | a in d.appends :: a in c.appends || CarryOk(d.h, a)
    ensures CoveredInv(d)
  {
    forall j | 0 <= j < |d.peers| ensures CommitOk(d.h, j, d.peers[j]) {
      if j != i {
        CommitStable(c.h, d.h, i, j, c.peers[j]);
      }
    }
    forall a | a in d.appends ensures CarryOk(d.h, a) {
      if a in c.appends {
        CarryStable(c.h, d.h, i, a);
      }
    }
  }

  // --- steps that leave log, commit index and bookkeeping alone ------------

  predicate SameCommit(p: Peer, q: Peer) {
    && q.log == p.log && q.commitIndex == p.commitIndex
    && q.lastApplied == p.lastApplied && q.toApply == p.toApply && q.applied == p.applied
    && q.currentTerm >= p.currentTerm
  }

  lemma SameCommitOk(h: History, g: History, i: nat, p: Peer, q: Peer)
    requires Grow(h, g, i) && CommitOk(h, i, p) && SameCommit(p, q) && MatchOk(g, i, q)
    ensures CommitOk(g, i, q)
  {
    SafeStable(h, g, i, p.log, p.commitIndex, p.currentTerm, p.log, q.currentTerm);
  }

  lemma TimeoutCovered(c: Cluster, i: nat)
    requires CoveredInv(c) && i < |c.peers| && c.peers[i].role != Leader
    ensures CoveredInv(AfterTimeout(c, i))
  {
    var d := AfterTimeout(c, i);
    TimeoutInv(c, i);
    assert CommitOk(c.h, i, c.peers[i]);
    SameCommitOk(c.h, d.h, i, c.peers[i], d.peers[i]);
    CoveredStable(c, d, i);
  }

  lemma VoteCovered(c: Cluster, k: VoteKey)
    requires CoveredInv(c) && Asking(c, k)
    ensures CoveredInv(AfterVote(c, k))
  {
    var d, i := AfterVote(c, k), k.to;
    VoteInv(c, k);
    assert CommitOk(c.h, i, c.peers[i]);
    CommitStable(c.h, d.h, i, i, c.peers[i]);
    SameCommitOk(c.h, d.h, i, c.peers[i], d.peers[i]);
    CoveredStable(c, d, i);
  }

  lemma VoteReplyCovered(c: Cluster, k: VoteKey)
    requires CoveredInv(c) && Answering(c, k) && !IsWin(c, k)
    ensures CoveredInv(AfterVoteReply(c, k))
  {
    var d, i := AfterVoteReply(c, k), k.candidate;
    VoteReplyInv(c, k);
    assert CommitOk(c.h, i, c.peers[i]);
    CommitStable(c.h, d.h, i, i, c.peers[i]);
    SameCommitOk(c.h, d.h, i, c.peers[i], d.peers[i]);
    CoveredStable(c, d, i);
  }

  // --- a leader's calls ----------------------------------------------------

  /** Whatever a leader sends carries a safe commit index. */
  lemma HeartbeatsCarry(h: History, i: nat, q: Peer)
    requires PeerWf(q) && q.me == i && PeerOk(h, i, q) && q.role == Leader && CommitOk(h, i, q)
             && q.numPeers == |h.terms|
    ensures forall a | a in Heartbeats(q) :: CarryOk(h, a)
  {
    HeartbeatsOk(h, i, q);
    forall a | a in Heartbeats(q) ensures CarryOk(h, a) {
      assert AppendOk(h, a);
      assert Sent(h, a) == q.log;
    }
  }

  /** At a win every entry of the winner's log is of an earlier term: its term has had no
    leader yet. So a match index within the log counts for nothing. */
  lemma WinMatchOk(c: Cluster, k: VoteKey)
    requires Inv(c) && Answering(c, k) && IsWin(c, k) && CountInRange(c, k) && Covers(c.peers[k.candidate])
    ensures MatchOk(AfterVoteReply(c, k).h, k.candidate, AfterVoteReply(c, k).peers[k.candidate])
  {
    var p, d := c.peers[k.candidate], AfterVoteReply(c, k);
    WinnerUnopposed(c, k);
    assert PeerOk(c.h, k.candidate, p);
    forall j | 0 <= j < |p.matchIndex| ensures MatchAt(d.h, p.currentTerm, p.log, j, p.matchIndex[j]) {
      var m := p.matchIndex[j];
      assert m > 0 ==> Rooted(c.h, p.log, m);
    }
  }

  lemma WinCovered(c: Cluster, k: VoteKey)
    requires CoveredInv(c) && Answering(c, k) && IsWin(c, k) && CountInRange(c, k)
    requires Covers(c.peers[k.candidate])
    ensures CoveredInv(AfterVoteReply(c, k))
  {
    var d, i := AfterVoteReply(c, k), k.candidate;
    WinInv(c, k);
    WinMatchOk(c, k);
    assert CommitOk(c.h, i, c.peers[i]);
    SameCommitOk(c.h, d.h, i, c.peers[i], d.peers[i]);
    assert PeerOk(d.h, i, d.peers[i]);
    HeartbeatsCarry(d.h, i, d.peers[i]);
    CoveredStable(c, d, i);
  }

  lemma StartCommitOk(h: History, g: History, i: nat, p: Peer, command: Command)
    requires PeerWf(p) && Grow(h, g, i) && CommitOk(h, i, p)
    ensures CommitOk(g, i, Start(p, command))
  {
    var q := Start(p, command);
    CommitStable(h, g, i, i, p);
    SafeStable(h, g, i, p.log, p.commitIndex, p.currentTerm, q.log, q.currentTerm);
    assert q.log[1 .. q.lastApplied + 1] == p.log[1 .. p.lastApplied + 1];
  }

  lemma StartCovered(c: Cluster, i: nat, command: Command)
    requires CoveredInv(c) && i < |c.peers| && c.peers[i].role == Leader && CanSend(c.peers[i])
    ensures CoveredInv(AfterStart(c, i, command))
  {
    var d := AfterStart(c, i, command);
    StartInv(c, i, command);
    assert CommitOk(c.h, i, c.peers[i]);
    StartCommitOk(c.h, d.h, i, c.peers[i], command);
    assert PeerOk(d.h, i, d.peers[i]);
    HeartbeatsCarry(d.h, i, d.peers[i]);
    CoveredStable(c, d, i);
  }

  lemma HeartbeatCovered(c: Cluster, i: nat)
    requires CoveredInv(c) && i < |c.peers| && c.peers[i].role == Leader && CanSend(c.peers[i])
    ensures CoveredInv(AfterHeartbeat(c, i))
  {
    var d := AfterHeartbeat(c, i);
    HeartbeatInv(c, i);
    assert CommitOk(c.h, i, c.peers[i]) && PeerOk(c.h, i, c.peers[i]);
    HeartbeatsCarry(c.h, i, c.peers[i]);
    CoveredStable(c, d, i);
  }

  // --- the receiver of a call ----------------------------------------------

  /** What was chosen in an earlier term is in the log the call stands for. */
  lemma SentHasChosen(h: History, a: AppendCall, t: nat, k: nat)
    requires HistoryOk(h) && AppendOk(h, a) && ReignOk(h, a.args.term) && Chosen(h, t, k) && t < a.args.term
    ensures h.reigns[t].log[..k + 1] <= Sent(h, a)
  {
    ChosenNotBlocked(h, t, k);
    SentKeeps(h, a, t, k);
  }

  /** Two prefixes of one log: if the second is not part of the other log, it is the longer. */
  lemma LongerPrefix(full: seq<Entry>, log: seq<Entry>, m: nat, e: nat)
    requires m < |log| && m < |full| && e <= |full| && log[..m + 1] == full[..m + 1] && !(full[..e] <= log)
    ensures log[..m + 1] <= full[..e]
  {
    assert forall i | 0 <= i < e && i <= m :: full[..e][i] == log[i];
  }

  /** Taking a leader's entries never touches what is already committed. */
  lemma CommittedSurvives(h: History, i: nat, p: Peer, a: AppendCall, q: Peer, g: History)
    requires Taken(h, i, p, a, q, g) && Safe(h, p.log, p.commitIndex, p.currentTerm)
    ensures p.log[..p.commitIndex + 1] <= q.log
  {
    var m := p.commitIndex;
    if q.log != p.log && m > 0 {
      var t: nat, k: nat :| SafeBy(h, p.log, m, p.currentTerm, t, k);
      if t < a.args.term {
        SentHasChosen(h, a, t, k);
      } else {
        LongerPrefix(h.reigns[t].log, p.log, m, a.expectedNext);
      }
    }
  }

  lemma TakenSafe(h: History, i: nat, p: Peer, a: AppendCall, q: Peer, g: History)
    requires Taken(h, i, p, a, q, g) && CarryOk(h, a) && Safe(h, p.log, p.commitIndex, p.currentTerm)
    requires q.commitIndex == Max(p.commitIndex, a.args.leaderCommit)
    ensures Safe(g, q.log, q.commitIndex, q.currentTerm)
  {
    TakenGrows(h, i, p, a, q, g);
    if a.args.leaderCommit > p.commitIndex {
      SafeStable(h, g, i, Sent(h, a), a.args.leaderCommit, a.args.term, q.log, q.currentTerm);
    } else {
      CommittedSurvives(h, i, p, a, q, g);
      SafeStable(h, g, i, p.log, p.commitIndex, p.currentTerm, q.log, q.currentTerm);
    }
  }

  /** What was applied stays the start of the log as long as what was committed does. */
  lemma ApplyOkKept(p: Peer, q: Peer)
    requires ApplyOk(p) && p.log[..p.commitIndex + 1] <= q.log && p.commitIndex <= q.commitIndex < |q.log|
    requires q.lastApplied == p.lastApplied && q.toApply == p.toApply && q.applied == p.applied
    ensures ApplyOk(q)
  {
  }

  lemma TakenCommitOk(h: History, i: nat, p: Peer, a: AppendCall, q: Peer, g: History)
    requires Taken(h, i, p, a, q, g) && CarryOk(h, a) && CommitOk(h, i, p)
    requires q.commitIndex == Max(p.commitIndex, a.args.leaderCommit)
    requires q.lastApplied == p.lastApplied && q.toApply == p.toApply && q.applied == p.applied
    ensures CommitOk(g, i, q)
  {
    CommittedSurvives(h, i, p, a, q, g);
    TakenSafe(h, i, p, a, q, g);
    ApplyOkKept(p, q);
  }

  lemma TakenCommit(c: Cluster, a: AppendCall)
    requires CoveredInv(c) && a in c.appends && HandleAppend(c.peers[a.to], a.args).1.success
    ensures var d := AfterAppend(c, a);
            && CommitOk(d.h, a.to, d.peers[a.to])
  {
    var d, i := AfterAppend(c, a), a.to;
    AppendTaken(c, a);
    assert CommitOk(c.h, i, c.peers[i]) && CarryOk(c.h, a);
    CommitReached(c.h, i, c.peers[i], a);
    TakenCommitOk(c.h, i, c.peers[i], a, d.peers[i], d.h);
  }

  lemma TakenCovered(c: Cluster, a: AppendCall)
    requires CoveredInv(c) && a in c.appends && HandleAppend(c.peers[a.to], a.args).1.success
    ensures CoveredInv(AfterAppend(c, a))
  {
    AppendInv(c, a);
    TakenCommit(c, a);
    CoveredStable(c, AfterAppend(c, a), a.to);
  }

  lemma RefusedCovered(c: Cluster, a: AppendCall)
    requires CoveredInv(c) && a in c.appends && !HandleAppend(c.peers[a.to], a.args).1.success
    ensures CoveredInv(AfterAppend(c, a))
  {
    var d, i := AfterAppend(c, a), a.to;
    AppendInv(c, a);
    assert CommitOk(c.h, i, c.peers[i]);
    CommitStable(c.h, d.h, i, i, c.peers[i]);
    SameCommitOk(c.h, d.h, i, c.peers[i], d.peers[i]);
    CoveredStable(c, d, i);
  }

  // --- the sender gets its reply -------------------------------------------

  /** Progress a leader records was acknowledged. */
  lemma AdvanceMatchOk(h: History, i: nat, p: Peer, r: AppendAnswer)
    requires PeerWf(p) && CallShape(r.call) && r.call.to < p.numPeers && MatchOk(h, i, p)
    requires Leading(p, r.call.args) && r.reply.success && AnswerOk(h, r)
    ensures MatchOk(h, i, Advance(p, r.call))
  {
  }

  /** When a leader's count decides, the entry is chosen. */
  lemma DecidedIsChosen(h: History, i: nat, q: Peer, m: nat)
    requires HistoryOk(h) && PeerWf(q) && q.me == i && q.numPeers == |h.terms| && PeerOk(h, i, q) && q.role == Leader
    requires MatchOk(h, i, q) && m < |q.log| && Decides(q, m)
    ensures Chosen(h, q.currentTerm, m) && Safe(h, q.log, m, q.currentTerm)
  {
    var t := q.currentTerm;
    assert ReignOk(h, t);
    var voters := Agreeing(q.matchIndex, i, m) + {i};
    assert Majority(|h.terms|, voters);
    forall p | p in voters ensures Acked(h, t, p) >= m {
      if p != i {
        assert MatchAt(h, t, q.log, p, q.matchIndex[p]);
        assert q.matchIndex[p] < |q.log| ==> InOrder(q.log, m, q.matchIndex[p]);
      }
    }
    assert ChosenBy(h, t, m, voters);
    assert SafeBy(h, q.log, m, t, t, m);
  }

  /** A successful reply: the match index is true, and what it decides is safe. */
  lemma CreditCommitOk(g: History, i: nat, p: Peer, r: AppendAnswer, q: Peer)
    requires HistoryOk(g) && PeerWf(p) && p.me == i && p.numPeers == |g.terms| && CommitOk(g, i, p)
    requires CallShape(r.call) && r.call.to < p.numPeers && ReplyInRange(p, r.call, r.reply) && AnswerOk(g, r)
    requires Leading(p, r.call.args) && Credits(p, r)
    requires q == HandleAppendReply(p, r.call, r.reply).0 && PeerWf(q) && PeerOk(g, i, q)
    ensures CommitOk(g, i, q)
  {
    var adv := Advance(p, r.call);
    AdvanceMatchOk(g, i, p, r);
    if Decides(adv, adv.matchIndex[r.call.to]) {
      DecidedIsChosen(g, i, q, adv.matchIndex[r.call.to]);
      ApplyOkKept(p, q);
    }
  }

  lemma ReplyCommitOk(g: History, i: nat, p: Peer, r: AppendAnswer, q: Peer)
    requires HistoryOk(g) && PeerWf(p) && p.me == i && p.numPeers == |g.terms| && CommitOk(g, i, p)
    requires CallShape(r.call) && r.call.to < p.numPeers && ReplyInRange(p, r.call, r.reply) && AnswerOk(g, r)
    requires q == HandleAppendReply(p, r.call, r.reply).0 && PeerWf(q) && PeerOk(g, i, q)
    ensures CommitOk(g, i, q)
  {
    if Leading(p, r.call.args) {
      if Credits(p, r) {
        CreditCommitOk(g, i, p, r, q);
      } else if r.reply.term > p.currentTerm {
        SafeRaised(g, p.log, p.commitIndex, p.currentTerm, q.currentTerm);
      }
    }
  }

  predicate Credits(p: Peer, r: AppendAnswer) {
    r.reply.term <= p.currentTerm && r.reply.success
  }

  lemma SafeRaised(h: History, log: seq<Entry>, m: nat, bound: nat, higher: nat)
    requires Safe(h, log, m, bound) && bound <= higher
    ensures Safe(h, log, m, higher)
  {
    if m > 0 {
      var t: nat, k: nat :| SafeBy(h, log, m, bound, t, k);
      assert SafeBy(h, log, m, higher, t, k);
    }
  }

  /** A retry carries a safe commit index too. */
  lemma RetryCarries(g: History, i: nat, p: Peer, r: AppendAnswer)
    requires PeerWf(p) && p.me == i && PeerOk(g, i, p) && AppendOk(g, r.call) && r.call.args.leaderId == i
    requires r.call.to < p.numPeers == |g.terms| && ReplyInRange(p, r.call, r.reply) && CommitOk(g, i, p)
    ensures forall a | a in HandleAppendReply(p, r.call, r.reply).1 :: CarryOk(g, a)
  {
    RetryOk(g, i, p, r, g);
    forall a | a in HandleAppendReply(p, r.call, r.reply).1 ensures CarryOk(g, a) {
      assert AppendOk(g, a);
      assert Sent(g, a) == p.log;
    }
  }

  lemma AppendReplyCovered(c: Cluster, r: AppendAnswer)
    requires CoveredInv(c) && r in c.answers && ReplyInRange(c.peers[r.call.args.leaderId], r.call, r.reply)
    ensures CoveredInv(AfterAppendReply(c, r))
  {
    var d, i := AfterAppendReply(c, r), r.call.args.leaderId;
    AppendReplyInv(c, r);
    assert CommitOk(c.h, i, c.peers[i]) && PeerOk(c.h, i, c.peers[i]) && AppendOk(c.h, r.call);
    assert PeerOk(d.h, i, d.peers[i]) && AnswerOk(d.h, r);
    CommitStable(c.h, d.h, i, i, c.peers[i]);
    ReplyCommitOk(d.h, i, c.peers[i], r, d.peers[i]);
    RetryCarries(c.h, i, c.peers[i], r);
    forall a | a in d.appends && a !in c.appends ensures CarryOk(d.h, a) {
      CarryStable(c.h, d.h, i, a);
    }
    CoveredStable(c, d, i);
  }

  // --- the apply loop ------------------------------------------------------

  lemma CollectApplyOk(p: Peer)
    requires ApplyOk(p) && CanCollect(p)
    ensures ApplyOk(Collect(p))
  {
    var q := Collect(p);
    assert p.log[1 .. q.lastApplied + 1] == p.log[1 .. p.lastApplied + 1] + q.toApply;
    assert Messages(p.log[1 .. q.lastApplied + 1]) == Messages(p.log[1 .. p.lastApplied + 1]) + Messages(q.toApply);
    assert p.applied + Messages([]) == p.applied;
  }

  lemma EmitApplyOk(p: Peer)
    requires ApplyOk(p) && p.toApply != []
    ensures ApplyOk(Emit(p))
  {
  }

  lemma ApplyLoopCovered(c: Cluster, i: nat, q: Peer)
    requires CoveredInv(c) && i < |c.peers| && ApplyOk(q)
    requires q == c.peers[i].(toApply := q.toApply, lastApplied := q.lastApplied, applied := q.applied)
    ensures CoveredInv(Move(c, i, q))
  {
    ApplyLoopInv(c, i, q);
    assert CommitOk(c.h, i, c.peers[i]);
    CommitStable(c.h, Move(c, i, q).h, i, i, c.peers[i]);
    CoveredStable(c, Move(c, i, q), i);
  }

  // --- every step ----------------------------------------------------------

  lemma StepCovered(c: Cluster, s: Step, d: Cluster)
    requires CoveredInv(c) && Next(c, s, d) && CoveredStep(c, s)
    ensures CoveredInv(d)
  {
    match s
    case ElectionTimeout(i) => TimeoutCovered(c, i);
    case DeliverVote(k) => VoteCovered(c, k);
    case DeliverVoteReply(k) =>
      if IsWin(c, k) {
        WinCovered(c, k);
      } else {
        VoteReplyCovered(c, k);
      }
    case ClientStart(i, command) => StartCovered(c, i, command);
    case HeartbeatTimeout(i) => HeartbeatCovered(c, i);
    case DeliverAppend(a) =>
      if HandleAppend(c.peers[a.to], a.args).1.success {
        TakenCovered(c, a);
      } else {
        RefusedCovered(c, a);
      }
    case DeliverAppendReply(r) => AppendReplyCovered(c, r);
    case CollectCommitted(i) =>
      assert CommitOk(c.h, i, c.peers[i]);
      CollectApplyOk(c.peers[i]);
      ApplyLoopCovered(c, i, Collect(c.peers[i]));
    case EmitApply(i) =>
      assert CommitOk(c.h, i, c.peers[i]);
      EmitApplyOk(c.peers[i]);
      ApplyLoopCovered(c, i, Emit(c.peers[i]));
  }

  lemma ReplyNoPanic(h: History, i: nat, p: Peer, r: AppendAnswer)
    requires HistoryOk(h) && PeerWf(p) && p.me == i && PeerOk(h, i, p) && CommitOk(h, i, p)
    requires AppendOk(h, r.call) && r.call.args.leaderId == i && r.call.to < p.numPeers == |h.terms|
    ensures ReplyInRange(p, r.call, r.reply)
  {
    assert ReignOk(h, r.call.args.term);
    if Leading(p, r.call.args) {
      assert MatchAt(h, p.currentTerm, p.log, r.call.to, p.matchIndex[r.call.to]);
    }
  }

  /** No step from here reads a slice out of range: a win, any heartbeat, any reply, any
    collection. */
  lemma NoPanic(c: Cluster, s: Step)
    requires CoveredInv(c) && Offered(c, s)
    ensures InRange(c, s)
  {
    match s
    case DeliverVoteReply(k) =>
      assert CommitOk(c.h, k.candidate, c.peers[k.candidate]);
    case ClientStart(i, _) =>
      assert PeerOk(c.h, i, c.peers[i]);
    case HeartbeatTimeout(i) =>
      assert PeerOk(c.h, i, c.peers[i]);
    case DeliverAppendReply(r) =>
      var i := r.call.args.leaderId;
      assert PeerOk(c.h, i, c.peers[i]) && CommitOk(c.h, i, c.peers[i]) && AppendOk(c.h, r.call);
      ReplyNoPanic(c.h, i, c.peers[i], r);
    case CollectCommitted(i) =>
      assert CommitOk(c.h, i, c.peers[i]);
    case _ =>
  }

  lemma InitCovered(n: nat)
    ensures CoveredInv(Init(n))
  {
    InitInv(n);
    var c := Init(n);
    forall i | 0 <= i < n ensures CommitOk(c.h, i, c.peers[i]) {
      assert c.peers[i] == NewPeer(i, n);
    }
  }

  lemma {:induction false} RunCovered(n: nat, states: seq<Cluster>, steps: seq<Step>, k: nat)
    requires CoveredRun(n, states, steps) && k < |states|
    ensures CoveredInv(states[k]) && |states[k].peers| == n
  {
    if k == 0 {
      InitCovered(n);
    } else {
      RunCovered(n, states, steps, k - 1);
      assert StepAt(states, steps, k - 1);
      StepCovered(states[k - 1], steps[k - 1], states[k]);
    }
  }
}
