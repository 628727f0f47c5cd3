/** What holds of every reachable cluster, whatever the values left in matchIndex. */
module RaftInvariant {
  import opened Common
  import opened RaftPeer
  import opened RaftCluster

  predicate Majority(n: nat, q: set<nat>) {
    (forall i | i in q :: i < n) && |q| > n / 2
  }

  function Acked(h: History, t: nat, p: nat): nat {
    if t in h.reigns && p < |h.reigns[t].acked| then h.reigns[t].acked[p] else 0
  }

  /** Entry k of reign t was written by that reign's leader. */
  predicate Own(h: History, t: nat, k: nat) {
    t in h.reigns && 1 <= k < |h.reigns[t].log| && h.reigns[t].log[k].term == t
  }

  /** Every peer of q has left term t without acknowledging index k in it. */
  predicate BlockedBy(h: History, t: nat, k: nat, q: set<nat>) {
    Majority(|h.terms|, q) && forall p | p in q :: h.terms[p] > t && Acked(h, t, p) < k
  }

  /** No majority can ever acknowledge index k in term t. */
  ghost predicate Blocked(h: History, t: nat, k: nat) {
    exists q: set<nat> :: BlockedBy(h, t, k, q)
  }

  /** The log keeps reign t's entries up to its own entry k, or that entry can never commit. */
  ghost predicate Keeps(h: History, t: nat, k: nat, log: seq<Entry>)
    requires Own(h, t, k)
  {
    h.reigns[t].log[..k + 1] <= log || Blocked(h, t, k)
  }

  ghost predicate KeepsAll(h: History, t: nat, log: seq<Entry>) {
    forall k | Own(h, t, k) :: Keeps(h, t, k, log)
  }

  /** The log keeps whatever peer p acknowledged in the terms below `bound`. */
  ghost predicate Holds(h: History, p: nat, log: seq<Entry>, bound: nat) {
    forall t: nat, k: nat | t < bound && Own(h, t, k) && k <= Acked(h, t, p) :: Keeps(h, t, k, log)
  }

  /** Entry j was created by the leader of its term, and everything before it agrees with
    that leader's log. */
  predicate Rooted(h: History, log: seq<Entry>, j: nat)
    requires j < |log|
  {
    log[j].term in h.reigns && log[..j + 1] <= h.reigns[log[j].term].log
  }

  /** Terms never fall along a log. */
  predicate InOrder(log: seq<Entry>, j: nat, k: nat)
    requires j <= k < |log|
  {
    log[j].term <= log[k].term
  }

  predicate LogOk(h: History, log: seq<Entry>, bound: nat) {
    && LogShape(log)
    && log[0] == SLOT_0
    && (forall j | 0 <= j < |log| :: log[j].term <= bound)
    && (forall j, k {:trigger InOrder(log, j, k)} | 0 <= j <= k < |log| :: InOrder(log, j, k))
    && (forall j {:trigger Rooted(h, log, j)} | 1 <= j < |log| :: Rooted(h, log, j))
  }

  predicate ReignOk(h: History, t: nat)
    requires t in h.reigns
  {
    var r := h.reigns[t];
    && t >= 1
    && r.leader < |h.terms| == |r.acked|
    && h.terms[r.leader] >= t
    && r.acked[r.leader] + 1 == |r.log|
    && Majority(|h.terms|, r.voters)
    && (forall p | p in r.voters :: VoteCast(p, t) in h.votes && h.votes[VoteCast(p, t)] == r.leader)
    && LogOk(h, r.log, t)
    && (forall p | 0 <= p < |r.acked| :: r.acked[p] < |r.log| && (r.acked[p] > 0 ==> h.terms[p] >= t))
  }

  ghost predicate HistoryOk(h: History) {
    && (forall v | v in h.votes :: v.voter < |h.terms| && v.term <= h.terms[v.voter])
    && (forall t {:trigger ReignOk(h, t)} | t in h.reigns :: ReignOk(h, t))
    && (forall t, u {:trigger KeepsAll(h, t, h.reigns[u].log)} | t in h.reigns && u in h.reigns && t < u ::
          KeepsAll(h, t, h.reigns[u].log))
  }

  ghost predicate PeerOk(h: History, i: nat, p: Peer) {
    && i < |h.terms|
    && p.currentTerm == h.terms[i]
    && LogOk(h, p.log, p.currentTerm)
    && VoteOk(h, i, p)
    && Holds(h, i, p.log, p.currentTerm + 1)
    && Follows(h, i, p)
    && RoleOk(h, i, p)
  }

  /** The vote the peer holds is the one recorded for its current term. */
  predicate VoteOk(h: History, i: nat, p: Peer) {
    if p.votedFor.None? then VoteCast(i, p.currentTerm) !in h.votes
    else VoteCast(i, p.currentTerm) in h.votes && h.votes[VoteCast(i, p.currentTerm)] == p.votedFor.value
  }

  predicate RoleOk(h: History, i: nat, p: Peer) {
    && (p.role == Leader ==> Reigns(h, i, p) && CanSend(p))
    && (p.role == Candidate ==>
          && p.currentTerm >= 1 && p.votedFor == Some(i)
          && (p.currentTerm in h.reigns ==> h.reigns[p.currentTerm].leader != i))
  }

  /** Within a term a peer keeps everything it has acknowledged in it. */
  predicate Follows(h: History, i: nat, p: Peer) {
    p.currentTerm in h.reigns && Acked(h, p.currentTerm, i) < |h.reigns[p.currentTerm].log| ==>
      h.reigns[p.currentTerm].log[..Acked(h, p.currentTerm, i) + 1] <= p.log
  }

  predicate Reigns(h: History, i: nat, p: Peer) {
    p.currentTerm in h.reigns && h.reigns[p.currentTerm].leader == i && h.reigns[p.currentTerm].log == p.log
  }

  /** Peer v voted for candidate c in c's term, and c's log keeps all that v acknowledged. */
  ghost predicate Supports(h: History, v: nat, c: Peer) {
    && VoteCast(v, c.currentTerm) in h.votes
    && h.votes[VoteCast(v, c.currentTerm)] == c.me
    && Holds(h, v, c.log, c.currentTerm)
  }

  ghost predicate BallotOk(h: History, p: Peer, ballot: set<nat>) {
    p.role == Candidate ==>
      p.totalVotes == |ballot| && forall v | v in ballot :: Supports(h, v, p)
  }

  ghost predicate RpcOk(h: History, k: VoteKey, rpc: VoteRpc, c: Peer, ballot: set<nat>) {
    && k.candidate != k.to
    && k.candidate < |h.terms|
    && k.term <= h.terms[k.candidate]
    && rpc.args.term == k.term
    && rpc.args.candidate == k.candidate
    && (Electing(c, rpc.args) ==>
          && PeerWf(c)
          && rpc.args == Ballot(c)
          && k.to !in ballot
          && (rpc.Answered? && rpc.reply.granted && rpc.reply.term <= k.term ==> Supports(h, k.to, c)))
  }

  /** The call carries the whole rest of its sender's log as it stood at some moment of
    the reign, so whatever came later is of the reign's own term. */
  predicate AppendOk(h: History, a: AppendCall) {
    && a.args.term in h.reigns
    && var r := h.reigns[a.args.term];
    && a.args.leaderId == r.leader != a.to
    && CallShape(a)
    && a.expectedNext <= |r.log|
    && a.args.prevLogTerm == r.log[a.args.prevLogIndex].term
    && a.args.entries == r.log[a.args.prevLogIndex + 1 .. a.expectedNext]
    && forall j | a.expectedNext <= j < |r.log| :: r.log[j].term == a.args.term
  }

  /** The sender's log when it sent the call. */
  function Sent(h: History, a: AppendCall): seq<Entry>
    requires AppendOk(h, a)
  {
    h.reigns[a.args.term].log[..a.expectedNext]
  }

  predicate AnswerOk(h: History, r: AppendAnswer) {
    r.reply.success ==> Acked(h, r.call.args.term, r.call.to) + 1 >= r.call.expectedNext
  }

  ghost predicate Inv(c: Cluster) {
    && Wf(c)
    && HistoryOk(c.h)
    && (forall i {:trigger PeerOk(c.h, i, c.peers[i])} | 0 <= i < |c.peers| :: PeerOk(c.h, i, c.peers[i]))
    && (forall i {:trigger BallotOk(c.h, c.peers[i], c.ballots[i])} | 0 <= i < |c.peers| ::
          BallotOk(c.h, c.peers[i], c.ballots[i]))
    && (forall k {:trigger RpcOk(c.h, k, c.voteRpcs[k], c.peers[k.candidate], c.ballots[k.candidate])} |
          k in c.voteRpcs ::
          RpcOk(c.h, k, c.voteRpcs[k], c.peers[k.candidate], c.ballots[k.candidate]))
    && (forall a {:trigger AppendOk(c.h, a)} | a in c.appends :: AppendOk(c.h, a))
    && (forall r {:trigger AnswerOk(c.h, r)} | r in c.answers :: AnswerOk(c.h, r))
  }

  // --- majorities ----------------------------------------------------------

  lemma {:induction false} Bounded(n: nat, q: set<nat>)
    requires forall i | i in q :: i < n
    ensures |q| <= n
  {
    if n == 0 {
      assert q == {};
    } else {
      var rest := q - {n - 1};
      Bounded(n - 1, rest);
      assert q <= rest + {n - 1};
    }
  }

  /** Any two majorities share a peer. */
  lemma MajoritiesMeet(n: nat, q: set<nat>, r: set<nat>) returns (p: nat)
    requires Majority(n, q) && Majority(n, r)
    ensures p in q && p in r
  {
    if q * r == {} {
      Bounded(n, q + r);
      assert false;
    }
    p :| p in q * r;
  }

  // --- history grows -------------------------------------------------------

  /** One step of peer `actor` takes the history from h to g. */
  ghost predicate Grow(h: History, g: History, actor: nat) {
    && |g.terms| == |h.terms|
    && (forall p | 0 <= p < |h.terms| :: h.terms[p] <= g.terms[p] && (p != actor ==> h.terms[p] == g.terms[p]))
    && (forall v | v in h.votes :: v in g.votes && g.votes[v] == h.votes[v])
    && (forall v | v in g.votes :: v in h.votes || (v.voter == actor < |g.terms| && v.term == g.terms[actor]))
    && (forall t | t in h.reigns :: t in g.reigns)
    && (forall t {:trigger ReignGrows(t, h.reigns[t], g.reigns[t], actor)} | t in h.reigns ::
          ReignGrows(t, h.reigns[t], g.reigns[t], actor))
    && (forall t | t in g.reigns :: t in h.reigns || g.reigns[t].leader == actor)
    && (forall t, p | 0 <= p < |h.terms| && (p != actor || g.terms[p] != t) :: Acked(g, t, p) == Acked(h, t, p))
  }

  predicate ReignGrows(t: nat, r: Reign, s: Reign, actor: nat) {
    && s.leader == r.leader
    && s.voters == r.voters
    && r.log <= s.log
    && (r.leader != actor ==> s.log == r.log)
    && (forall j | |r.log| <= j < |s.log| :: s.log[j].term == t)
    && |s.acked| == |r.acked|
    && forall p | 0 <= p < |r.acked| :: r.acked[p] <= s.acked[p]
  }

  lemma BlockedStable(h: History, g: History, actor: nat, t: nat, k: nat)
    requires Grow(h, g, actor) && Blocked(h, t, k)
    ensures Blocked(g, t, k)
  {
    var q: set<nat> :| BlockedBy(h, t, k, q);
    assert BlockedBy(g, t, k, q);
  }

  lemma KeepsStable(h: History, g: History, actor: nat, t: nat, k: nat, log: seq<Entry>, longer: seq<Entry>)
    requires Grow(h, g, actor) && Own(h, t, k) && Keeps(h, t, k, log) && log <= longer
    ensures Own(g, t, k) && Keeps(g, t, k, longer)
  {
    var r, s := h.reigns[t], g.reigns[t];
    assert ReignGrows(t, r, s, actor);
    if Blocked(h, t, k) {
      BlockedStable(h, g, actor, t, k);
    } else {
      assert s.log[..k + 1] == r.log[..k + 1];
    }
  }

  lemma LogOkStable(h: History, g: History, actor: nat, log: seq<Entry>, bound: nat, higher: nat)
    requires Grow(h, g, actor) && LogOk(h, log, bound) && bound <= higher
    ensures LogOk(g, log, higher)
  {
    forall j | 1 <= j < |log| ensures Rooted(g, log, j) {
      assert Rooted(h, log, j);
      assert ReignGrows(log[j].term, h.reigns[log[j].term], g.reigns[log[j].term], actor);
    }
  }

  lemma HoldsStable(h: History, g: History, actor: nat, p: nat, log: seq<Entry>, bound: nat)
    requires Grow(h, g, actor) && HistoryOk(h) && p < |h.terms|
    requires forall t: nat | t < bound :: Acked(g, t, p) == Acked(h, t, p)
    requires Holds(h, p, log, bound)
    ensures Holds(g, p, log, bound)
  {
    forall t: nat, k: nat | t < bound && Own(g, t, k) && k <= Acked(g, t, p) ensures Keeps(g, t, k, log) {
      assert Acked(g, t, p) == Acked(h, t, p);
      assert ReignOk(h, t);
      assert ReignGrows(t, h.reigns[t], g.reigns[t], actor);
      assert Own(h, t, k);
      KeepsStable(h, g, actor, t, k, log, log);
    }
  }

  lemma SupportsStable(h: History, g: History, actor: nat, v: nat, c: Peer)
    requires Grow(h, g, actor) && HistoryOk(h) && Supports(h, v, c)
    ensures Supports(g, v, c)
  {
    HoldsStable(h, g, actor, v, c.log, c.currentTerm);
  }

  lemma AppendOkStable(h: History, g: History, actor: nat, a: AppendCall)
    requires Grow(h, g, actor) && AppendOk(h, a)
    ensures AppendOk(g, a) && Sent(g, a) == Sent(h, a)
  {
    var r, s := h.reigns[a.args.term], g.reigns[a.args.term];
    assert ReignGrows(a.args.term, r, s, actor);
    assert s.log[a.args.prevLogIndex + 1 .. a.expectedNext] == r.log[a.args.prevLogIndex + 1 .. a.expectedNext];
  }

  lemma AckedGrows(h: History, g: History, actor: nat, t: nat, p: nat)
    requires Grow(h, g, actor)
    ensures Acked(h, t, p) <= Acked(g, t, p)
  {
    if t in h.reigns {
      assert ReignGrows(t, h.reigns[t], g.reigns[t], actor);
    }
  }

  lemma FollowsStable(h: History, g: History, actor: nat, i: nat, p: Peer)
    requires Grow(h, g, actor) && i < |h.terms| && i != actor && Follows(h, i, p) && LogOk(h, p.log, p.currentTerm)
    requires p.currentTerm in h.reigns ==> ReignOk(h, p.currentTerm)
    requires p.currentTerm in g.reigns ==> ReignOk(g, p.currentTerm)
    ensures Follows(g, i, p)
  {
    var t := p.currentTerm;
    assert Acked(g, t, i) == Acked(h, t, i);
    if t in h.reigns {
      assert ReignGrows(t, h.reigns[t], g.reigns[t], actor);
    }
  }

  lemma RoleOkStable(h: History, g: History, actor: nat, i: nat, p: Peer)
    requires Grow(h, g, actor) && i != actor && RoleOk(h, i, p)
    ensures RoleOk(g, i, p)
  {
    if p.currentTerm in h.reigns {
      assert ReignGrows(p.currentTerm, h.reigns[p.currentTerm], g.reigns[p.currentTerm], actor);
    }
  }

  lemma PeerOkStable(h: History, g: History, actor: nat, i: nat, p: Peer)
    requires Grow(h, g, actor) && HistoryOk(h) && HistoryOk(g) && PeerOk(h, i, p) && i != actor
    ensures PeerOk(g, i, p)
  {
    LogOkStable(h, g, actor, p.log, p.currentTerm, p.currentTerm);
    HoldsStable(h, g, actor, i, p.log, p.currentTerm + 1);
    FollowsStable(h, g, actor, i, p);
    RoleOkStable(h, g, actor, i, p);
  }

  /** A pair of old reigns stays in order: entries added to the earlier one come too late
    for the voters of the later one. */
  lemma KeepsAllStable(h: History, g: History, actor: nat, t: nat, u: nat)
    requires Grow(h, g, actor) && t in h.reigns && u in h.reigns && t < u
    requires ReignOk(h, t) && ReignOk(h, u) && KeepsAll(h, t, h.reigns[u].log)
    requires forall v | v in h.votes :: v.voter < |h.terms| && v.term <= h.terms[v.voter]
    ensures KeepsAll(g, t, g.reigns[u].log)
  {
    var late := h.reigns[u].voters;
    assert ReignGrows(t, h.reigns[t], g.reigns[t], actor);
    assert ReignGrows(u, h.reigns[u], g.reigns[u], actor);
    forall k: nat | Own(g, t, k) ensures Keeps(g, t, k, g.reigns[u].log) {
      if k < |h.reigns[t].log| {
        assert Own(h, t, k);
        KeepsStable(h, g, actor, t, k, h.reigns[u].log, g.reigns[u].log);
      } else {
        forall p | p in late ensures g.terms[p] > t && Acked(g, t, p) < k {
          assert VoteCast(p, u) in h.votes;
          assert Acked(g, t, p) == Acked(h, t, p);
        }
        assert BlockedBy(g, t, k, late);
      }
    }
  }

  /** The history stays in order if the votes do, every reign does, and no new reign
    overtakes or is overtaken. */
  lemma HistoryOkStable(h: History, g: History, actor: nat)
    requires Grow(h, g, actor) && HistoryOk(h)
    requires forall v | v in g.votes :: v.voter < |g.terms| && v.term <= g.terms[v.voter]
    requires forall t | t in g.reigns :: ReignOk(g, t)
    requires forall t, u | t in g.reigns && u in g.reigns && t < u && (t !in h.reigns || u !in h.reigns) ::
               KeepsAll(g, t, g.reigns[u].log)
    ensures HistoryOk(g)
  {
    forall t, u | t in g.reigns && u in g.reigns && t < u ensures KeepsAll(g, t, g.reigns[u].log) {
      if t in h.reigns && u in h.reigns {
        KeepsAllStable(h, g, actor, t, u);
      }
    }
  }

  lemma ReignOkStable(h: History, g: History, actor: nat, t: nat)
    requires Grow(h, g, actor) && t in h.reigns && ReignOk(h, t) && g.reigns[t] == h.reigns[t]
    ensures ReignOk(g, t)
  {
    LogOkStable(h, g, actor, h.reigns[t].log, t, t);
  }

  /** A step that leaves the reigns alone. */
  lemma RecordOk(h: History, i: nat, p: Peer, q: Peer)
    requires HistoryOk(h) && PeerOk(h, i, p)
    requires q.currentTerm >= p.currentTerm
    requires q.currentTerm == p.currentTerm && p.votedFor.Some? ==> q.votedFor == p.votedFor
    ensures Grow(h, Record(h, i, q), i) && HistoryOk(Record(h, i, q)) && VoteOk(Record(h, i, q), i, q)
  {
    var g := Record(h, i, q);
    assert Grow(h, g, i);
    forall t | t in g.reigns ensures ReignOk(g, t) {
      ReignOkStable(h, g, i, t);
    }
    HistoryOkStable(h, g, i);
  }

  /** Only peer i, its ballot and the named messages change. */
  ghost predicate Frame(c: Cluster, d: Cluster, i: nat) {
    && Inv(c) && Wf(d) && HistoryOk(d.h) && Grow(c.h, d.h, i)
    && i < |c.peers| == |d.peers|
    && (forall j | 0 <= j < |c.peers| && j != i :: d.peers[j] == c.peers[j] && d.ballots[j] == c.ballots[j])
  }

  /** An election of peer i that runs after the step was running before, on the same log. */
  predicate SameElection(c: Cluster, d: Cluster, i: nat)
    requires Wf(c) && Wf(d) && i < |c.peers| == |d.peers|
  {
    d.peers[i].role == Candidate ==>
      && c.peers[i].role == Candidate
      && d.peers[i].currentTerm == c.peers[i].currentTerm
      && d.peers[i].log == c.peers[i].log
      && d.peers[i].me == c.peers[i].me
  }

  lemma RpcStable(c: Cluster, d: Cluster, i: nat, k: VoteKey, rpc: VoteRpc)
    requires Frame(c, d, i) && k.candidate < |c.peers|
    requires RpcOk(c.h, k, rpc, c.peers[k.candidate], c.ballots[k.candidate])
    requires SameElection(c, d, k.candidate)
    requires d.peers[k.candidate].role == Candidate && k.to in d.ballots[k.candidate] ==> k.to in c.ballots[k.candidate]
    ensures RpcOk(d.h, k, rpc, d.peers[k.candidate], d.ballots[k.candidate])
  {
    var j := k.candidate;
    if Electing(d.peers[j], rpc.args) && rpc.Answered? && rpc.reply.granted && rpc.reply.term <= k.term {
      SupportsStable(c.h, d.h, i, k.to, c.peers[j]);
      assert Supports(d.h, k.to, d.peers[j]);
    }
  }

  lemma BallotStable(c: Cluster, d: Cluster, i: nat, j: nat)
    requires Frame(c, d, i) && j < |c.peers| && SameElection(c, d, j)
    requires d.peers[j].role == Candidate ==>
               d.ballots[j] == c.ballots[j] && d.peers[j].totalVotes == c.peers[j].totalVotes
    ensures BallotOk(d.h, d.peers[j], d.ballots[j])
  {
    if d.peers[j].role == Candidate {
      assert BallotOk(c.h, c.peers[j], c.ballots[j]);
      forall v | v in d.ballots[j] ensures Supports(d.h, v, d.peers[j]) {
        SupportsStable(c.h, d.h, i, v, c.peers[j]);
        assert Supports(d.h, v, c.peers[j]);
      }
    }
  }

  /** The invariant survives a step if the peer that moved and the messages it touched
    are in order afterwards. */
  lemma InvStable(c: Cluster, d: Cluster, i: nat)
    requires Frame(c, d, i)
    requires PeerOk(d.h, i, d.peers[i]) && BallotOk(d.h, d.peers[i], d.ballots[i])
    requires forall k | k in d.voteRpcs ::
               || RpcOk(d.h, k, d.voteRpcs[k], d.peers[k.candidate], d.ballots[k.candidate])
               || (k in c.voteRpcs && d.voteRpcs[k] == c.voteRpcs[k] && k.candidate != i)
    requires forall a | a in d.appends :: a in c.appends || AppendOk(d.h, a)
    requires forall r | r in d.answers :: r in c.answers || AnswerOk(d.h, r)
    ensures Inv(d)
  {
    forall j | 0 <= j < |d.peers| ensures PeerOk(d.h, j, d.peers[j]) && BallotOk(d.h, d.peers[j], d.ballots[j]) {
      if j != i {
        PeerOkStable(c.h, d.h, i, j, c.peers[j]);
        BallotStable(c, d, i, j);
      }
    }
    forall k | k in d.voteRpcs
      ensures RpcOk(d.h, k, d.voteRpcs[k], d.peers[k.candidate], d.ballots[k.candidate])
    {
      if k in c.voteRpcs && d.voteRpcs[k] == c.voteRpcs[k] && k.candidate != i {
        RpcStable(c, d, i, k, c.voteRpcs[k]);
      }
    }
    forall a | a in d.appends ensures AppendOk(d.h, a) {
      if a in c.appends {
        AppendOkStable(c.h, d.h, i, a);
      }
    }
    forall r | r in d.answers ensures AnswerOk(d.h, r) {
      if r in c.answers {
        assert AnswerOk(c.h, r);
        AckedGrows(c.h, d.h, i, r.call.args.term, r.call.to);
      }
    }
  }
}
