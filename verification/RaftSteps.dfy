/** Every step of the cluster preserves the invariant. */
module RaftSteps {
  import opened Common
  import opened RaftPeer
  import opened RaftCluster
  import opened RaftInvariant

  // --- logs ----------------------------------------------------------------

  /** Log Matching: two logs that hold the same term at an index agree up to that index. */
  lemma SameTermSamePrefix(h: History, a: seq<Entry>, ta: nat, b: seq<Entry>, tb: nat, j: nat)
    requires LogOk(h, a, ta) && LogOk(h, b, tb) && j < |a| && j < |b| && a[j].term == b[j].term
    ensures a[..j + 1] == b[..j + 1]
  {
    if j > 0 {
      assert Rooted(h, a, j) && Rooted(h, b, j);
    }
  }

  /** Installing the rest of a sent log yields that log, unless the receiver already had it. */
  lemma {:induction false} InstallMerges(
    h: History, log: seq<Entry>, tl: nat, sent: seq<Entry>, ts: nat, a: AppendArgs, from: nat)
    requires LogOk(h, log, tl) && LogOk(h, sent, ts) && ArgsShape(a)
    requires from <= |a.entries| && a.prevLogIndex + from < |log|
    requires a.prevLogIndex + 1 + |a.entries| == |sent| && a.entries == sent[a.prevLogIndex + 1..]
    requires log[..a.prevLogIndex + from + 1] == sent[..a.prevLogIndex + from + 1]
    ensures Install(log, a, from) == if sent <= log then log else sent
    decreases |a.entries| - from
  {
    var j := a.prevLogIndex + from + 1;
    if from < |a.entries| {
      assert a.entries[from] == sent[j];
      if j >= |log| || log[j].term != sent[j].term {
        assert log[..j] + a.entries[from..] == sent;
        assert !(sent <= log);
      } else {
        SameTermSamePrefix(h, log, tl, sent, ts, j);
        InstallMerges(h, log, tl, sent, ts, a, from + 1);
      }
    }
  }

  /** A prefix of a log in order is in order. */
  lemma PrefixOk(h: History, log: seq<Entry>, bound: nat, m: nat)
    requires LogOk(h, log, bound) && 1 <= m <= |log|
    ensures LogOk(h, log[..m], bound)
  {
    var pre := log[..m];
    forall j, k | 0 <= j <= k < |pre| ensures InOrder(pre, j, k) {
      assert InOrder(log, j, k);
    }
    forall j | 1 <= j < |pre| ensures Rooted(h, pre, j) {
      assert Rooted(h, log, j);
      assert pre[..j + 1] == log[..j + 1];
    }
  }

  /** The receiver's log after a call it accepts: what the leader sent, or a log that
    already extends it. */
  lemma AcceptedLog(h: History, p: Peer, a: AppendCall)
    requires PeerWf(p) && LogOk(h, p.log, p.currentTerm) && AppendOk(h, a) && ReignOk(h, a.args.term)
    requires Matches(p.log, a.args)
    ensures Install(p.log, a.args, 0) == if Sent(h, a) <= p.log then p.log else Sent(h, a)
    ensures LogOk(h, Sent(h, a), a.args.term)
  {
    var sent := Sent(h, a);
    var full := h.reigns[a.args.term].log;
    PrefixOk(h, full, a.args.term, a.expectedNext);
    assert sent[a.args.prevLogIndex] == full[a.args.prevLogIndex];
    assert sent[a.args.prevLogIndex + 1..] == full[a.args.prevLogIndex + 1 .. a.expectedNext];
    SameTermSamePrefix(h, p.log, p.currentTerm, sent, a.args.term, a.args.prevLogIndex);
    InstallMerges(h, p.log, p.currentTerm, sent, a.args.term, a.args, 0);
  }

  // --- acknowledgements ----------------------------------------------------

  /** A peer has acknowledged nothing in a term it has not reached. */
  lemma HoldsBeyond(h: History, i: nat, log: seq<Entry>, bound: nat, higher: nat)
    requires HistoryOk(h) && i < |h.terms| && h.terms[i] < bound && Holds(h, i, log, bound)
    ensures Holds(h, i, log, higher)
  {
    forall t: nat, k: nat | t < higher && Own(h, t, k) && k <= Acked(h, t, i) ensures Keeps(h, t, k, log) {
      assert ReignOk(h, t);
    }
  }

  /** If a log at least as up to date as the voter's asks for its vote, then that log
    keeps all that the voter acknowledged. */
  lemma UpToDateHolds(h: History, i: nat, p: Peer, c: Peer, args: VoteArgs)
    requires HistoryOk(h) && PeerOk(h, i, p) && PeerWf(p) && PeerWf(c)
    requires LogOk(h, c.log, c.currentTerm) && args == Ballot(c) && UpToDate(p.log, args)
    ensures Holds(h, i, c.log, c.currentTerm)
  {
    forall t: nat, k: nat | t < c.currentTerm && Own(h, t, k) && k <= Acked(h, t, i) ensures Keeps(h, t, k, c.log) {
      HoldsBeyond(h, i, p.log, p.currentTerm + 1, t + 1);
      assert ReignOk(h, t);
      if !Blocked(h, t, k) {
        assert h.reigns[t].log[..k + 1] <= p.log;
        assert p.log[k] == h.reigns[t].log[k];
        KeptByUpToDate(h, p.log, p.currentTerm, c.log, c.currentTerm, t, k);
      }
    }
  }

  lemma KeptByUpToDate(h: History, voter: seq<Entry>, tv: nat, cand: seq<Entry>, tc: nat, t: nat, k: nat)
    requires HistoryOk(h) && LogOk(h, voter, tv) && LogOk(h, cand, tc)
    requires Own(h, t, k) && h.reigns[t].log[..k + 1] <= voter && !Blocked(h, t, k)
    requires LastTerm(cand) > LastTerm(voter) || (LastTerm(cand) == LastTerm(voter) && |voter| <= |cand|)
    ensures h.reigns[t].log[..k + 1] <= cand
  {
    var pre := h.reigns[t].log[..k + 1];
    var last := LastTerm(cand);
    assert voter[k] == pre[k] && InOrder(voter, k, |voter| - 1);
    assert t >= 1 by { assert ReignOk(h, t); }
    assert |cand| > 1;
    assert Rooted(h, cand, |cand| - 1) && cand[..|cand|] == cand;
    if LastTerm(cand) == LastTerm(voter) {
      assert Rooted(h, voter, |voter| - 1) && voter[..|voter|] == voter;
    } else {
      assert KeepsAll(h, t, h.reigns[last].log);
      assert Keeps(h, t, k, h.reigns[last].log);
      assert ReignOk(h, t);
    }
  }

  // --- steps that leave the reigns alone -----------------------------------

  /** The peer keeps its log and may move on in term and role. */
  predicate Moved(i: nat, p: Peer, q: Peer) {
    && PeerWf(q) && q.me == p.me && q.numPeers == p.numPeers
    && q.log == p.log && q.currentTerm >= p.currentTerm
    && (if q.currentTerm == p.currentTerm then
          && (p.votedFor.Some? ==> q.votedFor == p.votedFor)
          && (q.role == p.role || q.role == Follower)
          && (q.role == Leader ==> CanSend(q))
        else
          q.role == Follower || (q.role == Candidate && q.votedFor == Some(i)))
  }

  lemma MovedPeerOk(h: History, i: nat, p: Peer, q: Peer)
    requires HistoryOk(h) && PeerOk(h, i, p) && Moved(i, p, q)
    ensures Grow(h, Record(h, i, q), i) && HistoryOk(Record(h, i, q)) && PeerOk(Record(h, i, q), i, q)
  {
    var g := Record(h, i, q);
    RecordOk(h, i, p, q);
    LogOkStable(h, g, i, p.log, p.currentTerm, q.currentTerm);
    HoldsBeyond(h, i, p.log, p.currentTerm + 1, q.currentTerm + 1);
    HoldsStable(h, g, i, i, p.log, q.currentTerm + 1);
    MovedFollows(h, i, p, q);
  }

  lemma MoveFrame(c: Cluster, d: Cluster, i: nat, q: Peer)
    requires Inv(c) && Wf(d) && i < |c.peers| && Moved(i, c.peers[i], q)
    requires d.peers == c.peers[i := q] && d.h == Record(c.h, i, q)
    requires forall j | 0 <= j < |c.peers| && j != i :: d.ballots[j] == c.ballots[j]
    ensures Frame(c, d, i) && PeerOk(d.h, i, q)
  {
    MovedPeerOk(c.h, i, c.peers[i], q);
  }

  lemma MovedFollows(h: History, i: nat, p: Peer, q: Peer)
    requires HistoryOk(h) && PeerOk(h, i, p)
    requires q.log == p.log && q.currentTerm >= p.currentTerm
    ensures Follows(Record(h, i, q), i, q)
    ensures q.currentTerm > p.currentTerm && q.currentTerm in h.reigns ==> h.reigns[q.currentTerm].leader != i
  {
    if q.currentTerm > p.currentTerm && q.currentTerm in h.reigns {
      assert ReignOk(h, q.currentTerm);
      assert Acked(h, q.currentTerm, i) == 0;
    }
  }

  lemma TimeoutInv(c: Cluster, i: nat)
    requires Inv(c) && i < |c.peers| && c.peers[i].role != Leader
    ensures Inv(AfterTimeout(c, i)) && Grow(c.h, AfterTimeout(c, i).h, i)
  {
    var p := c.peers[i];
    var q := Timeout(p);
    var d := AfterTimeout(c, i);
    MoveFrame(c, d, i, q);
    assert Supports(d.h, i, q) by {
      assert PeerOk(c.h, i, p);
      HoldsBeyond(c.h, i, p.log, p.currentTerm + 1, q.currentTerm);
      HoldsStable(c.h, d.h, i, i, p.log, q.currentTerm);
    }
    forall k | k in d.voteRpcs && (k.candidate == i || k in BallotCalls(q))
      ensures RpcOk(d.h, k, d.voteRpcs[k], d.peers[k.candidate], d.ballots[k.candidate])
    {
      if k !in BallotCalls(q) {
        assert RpcOk(c.h, k, c.voteRpcs[k], p, c.ballots[i]);
      }
    }
    InvStable(c, d, i);
  }

  /** A granted vote that the candidate may count comes with all the voter acknowledged. */
  lemma GrantSupports(h: History, i: nat, p: Peer, cand: Peer, args: VoteArgs)
    requires HistoryOk(h) && PeerOk(h, i, p) && PeerWf(p) && PeerWf(cand) && LogOk(h, cand.log, cand.currentTerm)
    requires args == Ballot(cand) && HandleVote(p, args).1.granted && p.currentTerm <= args.term
    ensures Supports(Record(h, i, HandleVote(p, args).0), i, cand)
  {
    var q := HandleVote(p, args).0;
    UpToDateHolds(h, i, p, cand, args);
    RecordOk(h, i, p, q);
    HoldsStable(h, Record(h, i, q), i, i, cand.log, cand.currentTerm);
  }

  /** Peer i's own election survives a step in which i counts no vote. */
  lemma OwnRpcsStable(c: Cluster, d: Cluster, i: nat)
    requires Frame(c, d, i) && SameElection(c, d, i)
    requires d.peers[i].role == Candidate ==>
               d.ballots[i] == c.ballots[i] && d.peers[i].totalVotes == c.peers[i].totalVotes
    ensures BallotOk(d.h, d.peers[i], d.ballots[i])
    ensures forall k | k in c.voteRpcs && k.candidate == i :: RpcOk(d.h, k, c.voteRpcs[k], d.peers[i], d.ballots[i])
  {
    BallotStable(c, d, i, i);
    forall k | k in c.voteRpcs && k.candidate == i ensures RpcOk(d.h, k, c.voteRpcs[k], d.peers[i], d.ballots[i]) {
      RpcStable(c, d, i, k, c.voteRpcs[k]);
    }
  }

  lemma VoteMoves(h: History, i: nat, p: Peer, args: VoteArgs)
    requires PeerWf(p) && PeerOk(h, i, p) && args.candidate != i
    ensures Moved(i, p, HandleVote(p, args).0)
  {
  }

  /** The answer that the vote leaves in flight. */
  lemma VoteAnswered(c: Cluster, k: VoteKey)
    requires Inv(c) && Asking(c, k)
    ensures RpcOk(AfterVote(c, k).h, k, AfterVote(c, k).voteRpcs[k], c.peers[k.candidate], c.ballots[k.candidate])
  {
    var args, cand := c.voteRpcs[k].args, c.peers[k.candidate];
    var reply := HandleVote(c.peers[k.to], args).1;
    assert RpcOk(c.h, k, c.voteRpcs[k], cand, c.ballots[k.candidate]);
    if Electing(cand, args) && reply.granted && reply.term <= k.term {
      assert PeerOk(c.h, k.candidate, cand) && PeerOk(c.h, k.to, c.peers[k.to]);
      GrantSupports(c.h, k.to, c.peers[k.to], cand, args);
    }
  }

  lemma VoteInv(c: Cluster, k: VoteKey)
    requires Inv(c) && Asking(c, k)
    ensures Inv(AfterVote(c, k)) && Grow(c.h, AfterVote(c, k).h, k.to)
  {
    var i, d := k.to, AfterVote(c, k);
    assert RpcOk(c.h, k, c.voteRpcs[k], c.peers[k.candidate], c.ballots[k.candidate]);
    VoteMoves(c.h, i, c.peers[i], c.voteRpcs[k].args);
    MoveFrame(c, d, i, d.peers[i]);
    VoteAnswered(c, k);
    OwnRpcsStable(c, d, i);
    InvStable(c, d, i);
  }

  // --- counting votes ------------------------------------------------------

  lemma VoteReplyMoves(h: History, i: nat, p: Peer, args: VoteArgs, reply: VoteReply)
    requires PeerWf(p) && PeerOk(h, i, p) && !Wins(p, args, reply)
    ensures Moved(i, p, HandleVoteReply(p, args, reply))
  {
  }

  /** A counted vote adds one new supporter. */
  lemma CountedBallotOk(c: Cluster, d: Cluster, k: VoteKey)
    requires Inv(c) && Answering(c, k) && !IsWin(c, k) && d == AfterVoteReply(c, k)
    requires Counts(c.peers[k.candidate], c.voteRpcs[k].args, c.voteRpcs[k].reply)
    requires Frame(c, d, k.candidate)
    ensures BallotOk(d.h, d.peers[k.candidate], d.ballots[k.candidate])
  {
    var i := k.candidate;
    var p, q := c.peers[i], d.peers[i];
    assert RpcOk(c.h, k, c.voteRpcs[k], p, c.ballots[i]);
    assert BallotOk(c.h, p, c.ballots[i]);
    forall v | v in d.ballots[i] ensures Supports(d.h, v, q) {
      assert Supports(c.h, v, p);
      SupportsStable(c.h, d.h, i, v, p);
    }
  }

  lemma CountedRpcOk(c: Cluster, d: Cluster, k: VoteKey, l: VoteKey)
    requires Inv(c) && Answering(c, k) && !IsWin(c, k) && d == AfterVoteReply(c, k)
    requires Counts(c.peers[k.candidate], c.voteRpcs[k].args, c.voteRpcs[k].reply)
    requires Frame(c, d, k.candidate) && l in c.voteRpcs && l != k && l.candidate == k.candidate
    ensures RpcOk(d.h, l, c.voteRpcs[l], d.peers[l.candidate], d.ballots[l.candidate])
  {
    var i := k.candidate;
    assert RpcOk(c.h, k, c.voteRpcs[k], c.peers[i], c.ballots[i]);
    assert RpcOk(c.h, l, c.voteRpcs[l], c.peers[i], c.ballots[i]);
    if l.term == k.term {
      RpcStable(c, d, i, l, c.voteRpcs[l]);
    }
  }

  lemma VoteReplyInv(c: Cluster, k: VoteKey)
    requires Inv(c) && Answering(c, k) && !IsWin(c, k)
    ensures Inv(AfterVoteReply(c, k)) && Grow(c.h, AfterVoteReply(c, k).h, k.candidate)
  {
    var i := k.candidate;
    var p, rpc := c.peers[i], c.voteRpcs[k];
    var d := AfterVoteReply(c, k);
    VoteReplyMoves(c.h, i, p, rpc.args, rpc.reply);
    MoveFrame(c, d, i, d.peers[i]);
    if Counts(p, rpc.args, rpc.reply) {
      CountedBallotOk(c, d, k);
      forall l | l in c.voteRpcs && l != k && l.candidate == i
        ensures RpcOk(d.h, l, c.voteRpcs[l], d.peers[i], d.ballots[i])
      {
        CountedRpcOk(c, d, k, l);
      }
    } else {
      OwnRpcsStable(c, d, i);
    }
    InvStable(c, d, i);
  }

  // --- winning -------------------------------------------------------------

  /** The votes that decide the election, the last one included. */
  function WinningVotes(c: Cluster, k: VoteKey): set<nat>
    requires Wf(c) && Answering(c, k)
  {
    c.ballots[k.candidate] + {k.to}
  }

  lemma WinningVotesSupport(c: Cluster, k: VoteKey)
    requires Inv(c) && Answering(c, k) && IsWin(c, k)
    ensures Majority(|c.peers|, WinningVotes(c, k))
    ensures forall v | v in WinningVotes(c, k) :: Supports(c.h, v, c.peers[k.candidate])
  {
    var i := k.candidate;
    assert RpcOk(c.h, k, c.voteRpcs[k], c.peers[i], c.ballots[i]);
    assert BallotOk(c.h, c.peers[i], c.ballots[i]);
  }

  /** Election Safety at the moment of a win: the term has had no leader before. */
  lemma WinnerUnopposed(c: Cluster, k: VoteKey)
    requires Inv(c) && Answering(c, k) && IsWin(c, k)
    ensures c.peers[k.candidate].currentTerm !in c.h.reigns
  {
    var p := c.peers[k.candidate];
    var t := p.currentTerm;
    WinningVotesSupport(c, k);
    assert PeerOk(c.h, k.candidate, p);
    if t in c.h.reigns {
      assert ReignOk(c.h, t);
      var v := MajoritiesMeet(|c.peers|, WinningVotes(c, k), c.h.reigns[t].voters);
      assert false;
    }
  }

  ghost predicate Elected(h: History, i: nat, q: Peer, votes: set<nat>) {
    && HistoryOk(h) && PeerWf(q) && q.me == i < |h.terms| == q.numPeers
    && q.currentTerm == h.terms[i] && q.currentTerm >= 1 && q.currentTerm !in h.reigns
    && LogOk(h, q.log, q.currentTerm)
    && Majority(|h.terms|, votes)
    && forall v | v in votes :: Supports(h, v, q)
  }

  lemma CrownedGrows(h: History, i: nat, q: Peer, votes: set<nat>)
    requires Elected(h, i, q, votes)
    ensures Grow(h, Crowned(h, q, votes), i)
    ensures ReignOk(Crowned(h, q, votes), q.currentTerm)
  {
    var g := Crowned(h, q, votes);
    assert Grow(h, g, i);
    LogOkStable(h, g, i, q.log, q.currentTerm, q.currentTerm);
  }

  /** The winner's log keeps whatever an earlier leader may still commit. */
  lemma CrownedKeepsEarlier(h: History, i: nat, q: Peer, votes: set<nat>, t: nat)
    requires Elected(h, i, q, votes) && t in h.reigns && t < q.currentTerm
    ensures KeepsAll(Crowned(h, q, votes), t, q.log)
  {
    var g := Crowned(h, q, votes);
    CrownedGrows(h, i, q, votes);
    forall k: nat | Own(g, t, k) ensures Keeps(g, t, k, q.log) {
      assert Own(h, t, k);
      if v: nat :| v in votes && Acked(h, t, v) >= k {
        assert Supports(h, v, q);
        assert Keeps(h, t, k, q.log);
        KeepsStable(h, g, i, t, k, q.log, q.log);
      } else {
        forall v | v in votes ensures g.terms[v] > t && Acked(g, t, v) < k {
          assert Supports(h, v, q);
        }
        assert BlockedBy(g, t, k, votes);
      }
    }
  }

  /** A new leader owns no entry yet, so nothing of its own can be lost. */
  lemma CrownedOwnsNothing(h: History, i: nat, q: Peer, votes: set<nat>)
    requires Elected(h, i, q, votes)
    ensures forall k: nat :: !Own(Crowned(h, q, votes), q.currentTerm, k)
  {
    forall k: nat ensures !Own(Crowned(h, q, votes), q.currentTerm, k) {
      if 1 <= k < |q.log| {
        assert Rooted(h, q.log, k);
      }
    }
  }

  lemma CrownedOk(h: History, i: nat, q: Peer, votes: set<nat>)
    requires Elected(h, i, q, votes)
    ensures HistoryOk(Crowned(h, q, votes))
  {
    var g := Crowned(h, q, votes);
    var n := q.currentTerm;
    CrownedGrows(h, i, q, votes);
    CrownedOwnsNothing(h, i, q, votes);
    forall t | t in g.reigns ensures ReignOk(g, t) {
      if t != n {
        ReignOkStable(h, g, i, t);
      }
    }
    forall t, u | t in g.reigns && u in g.reigns && t < u && (t !in h.reigns || u !in h.reigns)
      ensures KeepsAll(g, t, g.reigns[u].log)
    {
      if u == n {
        CrownedKeepsEarlier(h, i, q, votes, t);
      }
    }
    HistoryOkStable(h, g, i);
  }

  lemma CrownedHolds(h: History, i: nat, q: Peer, votes: set<nat>)
    requires Elected(h, i, q, votes) && Holds(h, i, q.log, q.currentTerm + 1)
    ensures Holds(Crowned(h, q, votes), i, q.log, q.currentTerm + 1)
  {
    var g := Crowned(h, q, votes);
    CrownedGrows(h, i, q, votes);
    assert Holds(h, i, q.log, q.currentTerm);
    HoldsStable(h, g, i, i, q.log, q.currentTerm);
    CrownedOwnsNothing(h, i, q, votes);
  }

  lemma CrownedPeerOk(h: History, i: nat, p: Peer, q: Peer, votes: set<nat>)
    requires Elected(h, i, q, votes) && PeerOk(h, i, p)
    requires q.log == p.log && q.currentTerm == p.currentTerm && q.votedFor == p.votedFor && q.role == Leader
    requires CanSend(q)
    ensures PeerOk(Crowned(h, q, votes), i, q)
  {
    CrownedGrows(h, i, q, votes);
    LogOkStable(h, Crowned(h, q, votes), i, q.log, q.currentTerm, q.currentTerm);
    CrownedHolds(h, i, q, votes);
  }

  lemma RecordSame(h: History, i: nat, p: Peer, q: Peer)
    requires PeerOk(h, i, p) && q.currentTerm == p.currentTerm && q.votedFor == p.votedFor
    ensures Record(h, i, q) == h
  {
  }

  /** Every call a leader makes carries the rest of its log. */
  lemma HeartbeatsOk(h: History, i: nat, q: Peer)
    requires PeerWf(q) && q.me == i && Reigns(h, i, q) && CanSend(q) && q.numPeers == |h.terms|
    requires LogOk(h, q.log, q.currentTerm)
    ensures forall a | a in Heartbeats(q) :: AppendOk(h, a) && a.to < q.numPeers
  {
  }

  lemma WinElected(c: Cluster, k: VoteKey)
    requires Inv(c) && Answering(c, k) && IsWin(c, k) && CountInRange(c, k)
    ensures var q := AfterVoteReply(c, k).peers[k.candidate];
            && Elected(c.h, k.candidate, q, WinningVotes(c, k))
            && AfterVoteReply(c, k).h == Crowned(c.h, q, WinningVotes(c, k))
  {
    var i := k.candidate;
    var p := c.peers[i];
    var q := AfterVoteReply(c, k).peers[i];
    assert PeerOk(c.h, i, p);
    WinnerUnopposed(c, k);
    WinningVotesSupport(c, k);
    forall v | v in WinningVotes(c, k) ensures Supports(c.h, v, q) {
      assert Supports(c.h, v, p);
    }
    RecordSame(c.h, i, p, q);
  }

  lemma WinMessages(c: Cluster, k: VoteKey)
    requires Inv(c) && Answering(c, k) && IsWin(c, k) && CountInRange(c, k)
    requires PeerOk(AfterVoteReply(c, k).h, k.candidate, AfterVoteReply(c, k).peers[k.candidate])
    ensures Wf(AfterVoteReply(c, k))
    ensures forall a | a in AfterVoteReply(c, k).appends :: a in c.appends || AppendOk(AfterVoteReply(c, k).h, a)
  {
    HeartbeatsOk(AfterVoteReply(c, k).h, k.candidate, AfterVoteReply(c, k).peers[k.candidate]);
  }

  lemma WinFrame(c: Cluster, k: VoteKey)
    requires Inv(c) && Answering(c, k) && IsWin(c, k) && CountInRange(c, k)
    ensures var d := AfterVoteReply(c, k);
            && Frame(c, d, k.candidate)
            && PeerOk(d.h, k.candidate, d.peers[k.candidate])
  {
    var i := k.candidate;
    var q := AfterVoteReply(c, k).peers[i];
    WinElected(c, k);
    CrownedGrows(c.h, i, q, WinningVotes(c, k));
    CrownedOk(c.h, i, q, WinningVotes(c, k));
    CrownedPeerOk(c.h, i, c.peers[i], q, WinningVotes(c, k));
    WinMessages(c, k);
  }

  lemma WinInv(c: Cluster, k: VoteKey)
    requires Inv(c) && Answering(c, k) && IsWin(c, k) && CountInRange(c, k)
    ensures Inv(AfterVoteReply(c, k)) && Grow(c.h, AfterVoteReply(c, k).h, k.candidate)
  {
    WinFrame(c, k);
    WinMessages(c, k);
    WinRpcs(c, k);
    InvStable(c, AfterVoteReply(c, k), k.candidate);
  }

  lemma WinRpcs(c: Cluster, k: VoteKey)
    requires Inv(c) && Answering(c, k) && IsWin(c, k) && CountInRange(c, k)
    requires Grow(c.h, AfterVoteReply(c, k).h, k.candidate)
    ensures var d := AfterVoteReply(c, k);
            forall l | l in d.voteRpcs && l.candidate == k.candidate ::
              l in c.voteRpcs && RpcOk(d.h, l, d.voteRpcs[l], d.peers[l.candidate], d.ballots[l.candidate])
  {
    var d := AfterVoteReply(c, k);
    forall l | l in d.voteRpcs && l.candidate == k.candidate
      ensures l in c.voteRpcs && RpcOk(d.h, l, d.voteRpcs[l], d.peers[l.candidate], d.ballots[l.candidate])
    {
      assert RpcOk(c.h, l, c.voteRpcs[l], c.peers[l.candidate], c.ballots[l.candidate]);
    }
  }
}
