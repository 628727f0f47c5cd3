/** What holds of whole runs, said of the peers alone: any two states of a run, any two
  peers. No statement here needs the history variables. */
module RaftSafety {
  import opened Common
  import opened RaftPeer
  import opened RaftCluster
  import opened RaftInvariant
  import opened RaftSteps
  import opened RaftReplication
  import opened RaftCommit

  // --- facts that persist along a run --------------------------------------

  lemma StepGrow(n: nat, states: seq<Cluster>, steps: seq<Step>, k: nat)
    requires IsRun(n, states, steps) && k < |steps|
    ensures Inv(states[k]) && Inv(states[k + 1]) && Grow(states[k].h, states[k + 1].h, Actor(steps[k]))
    ensures |states[k].peers| == |states[k + 1].peers| == n
  {
    RunInv(n, states, steps, k);
    RunInv(n, states, steps, k + 1);
    assert StepAt(states, steps, k);
    StepInv(states[k], steps[k], states[k + 1]);
  }

  /** A reign keeps its leader; its log only grows, by entries of its own term. */
  lemma {:induction false} ReignsPersist(n: nat, states: seq<Cluster>, steps: seq<Step>, j: nat, k: nat, t: nat)
    requires IsRun(n, states, steps) && j <= k < |states| && t in states[j].h.reigns
    ensures t in states[k].h.reigns
    ensures var r, s := states[j].h.reigns[t], states[k].h.reigns[t];
            r.leader == s.leader && r.log <= s.log && forall x | |r.log| <= x < |s.log| :: s.log[x].term == t
    decreases k - j
  {
    if j < k {
      StepGrow(n, states, steps, j);
      assert ReignGrows(t, states[j].h.reigns[t], states[j + 1].h.reigns[t], Actor(steps[j]));
      ReignsPersist(n, states, steps, j + 1, k, t);
    }
  }

  lemma {:induction false} VotesPersist(n: nat, states: seq<Cluster>, steps: seq<Step>, j: nat, k: nat, v: VoteCast)
    requires IsRun(n, states, steps) && j <= k < |states| && v in states[j].h.votes
    ensures v in states[k].h.votes && states[k].h.votes[v] == states[j].h.votes[v]
    decreases k - j
  {
    if j < k {
      StepGrow(n, states, steps, j);
      VotesPersist(n, states, steps, j + 1, k, v);
    }
  }

  lemma {:induction false} LogsPersist(
    n: nat, states: seq<Cluster>, steps: seq<Step>, j: nat, k: nat, log: seq<Entry>, bound: nat)
    requires IsRun(n, states, steps) && j <= k < |states| && LogOk(states[j].h, log, bound)
    ensures LogOk(states[k].h, log, bound)
    decreases k - j
  {
    if j < k {
      StepGrow(n, states, steps, j);
      LogOkStable(states[j].h, states[j + 1].h, Actor(steps[j]), log, bound, bound);
      LogsPersist(n, states, steps, j + 1, k, log, bound);
    }
  }

  lemma {:induction false} SafePersists(
    n: nat, states: seq<Cluster>, steps: seq<Step>, j: nat, k: nat, log: seq<Entry>, m: nat, bound: nat)
    requires IsRun(n, states, steps) && j <= k < |states| && Safe(states[j].h, log, m, bound)
    ensures Safe(states[k].h, log, m, bound)
    decreases k - j
  {
    if j < k {
      StepGrow(n, states, steps, j);
      SafeStable(states[j].h, states[j + 1].h, Actor(steps[j]), log, m, bound, log, bound);
      SafePersists(n, states, steps, j + 1, k, log, m, bound);
    }
  }

  lemma {:induction false} ChosenPersists(
    n: nat, states: seq<Cluster>, steps: seq<Step>, j: nat, k: nat, t: nat, m: nat)
    requires IsRun(n, states, steps) && j <= k < |states| && Chosen(states[j].h, t, m)
    ensures Chosen(states[k].h, t, m)
    ensures states[k].h.reigns[t].log[..m + 1] == states[j].h.reigns[t].log[..m + 1]
    decreases k - j
  {
    if j < k {
      StepGrow(n, states, steps, j);
      ChosenStable(states[j].h, states[j + 1].h, Actor(steps[j]), t, m);
      ChosenPersists(n, states, steps, j + 1, k, t, m);
    }
  }

  // --- Election Safety -----------------------------------------------------

  /** Two peers that lead in the same term, at whatever moments of a run, are one peer. */
  lemma ElectionSafety(n: nat, states: seq<Cluster>, steps: seq<Step>, j: nat, a: nat, k: nat, b: nat)
    requires IsRun(n, states, steps) && j < |states| && k < |states| && a < |states[j].peers| && b < |states[k].peers|
    requires states[j].peers[a].role == Leader && states[k].peers[b].role == Leader
    requires states[j].peers[a].currentTerm == states[k].peers[b].currentTerm
    ensures a == b
  {
    var t := states[j].peers[a].currentTerm;
    RunInv(n, states, steps, j);
    RunInv(n, states, steps, k);
    assert PeerOk(states[j].h, a, states[j].peers[a]) && PeerOk(states[k].h, b, states[k].peers[b]);
    if j <= k {
      ReignsPersist(n, states, steps, j, k, t);
    } else {
      ReignsPersist(n, states, steps, k, j, t);
    }
  }

  /** A vote, once given, stays as it is for the rest of the term. */
  lemma VoteIsFinal(n: nat, states: seq<Cluster>, steps: seq<Step>, j: nat, k: nat, i: nat)
    requires IsRun(n, states, steps) && j <= k < |states| && i < |states[j].peers| && i < |states[k].peers|
    requires states[j].peers[i].currentTerm == states[k].peers[i].currentTerm
    requires states[j].peers[i].votedFor.Some?
    ensures states[k].peers[i].votedFor == states[j].peers[i].votedFor
  {
    RunInv(n, states, steps, j);
    RunInv(n, states, steps, k);
    assert PeerOk(states[j].h, i, states[j].peers[i]) && PeerOk(states[k].h, i, states[k].peers[i]);
    VotesPersist(n, states, steps, j, k, VoteCast(i, states[j].peers[i].currentTerm));
  }

  /** The peer is in the term of the vote and has voted so. */
  predicate Voted(p: Peer, term: nat, candidate: nat) {
    p.currentTerm == term && p.votedFor == Some(candidate)
  }

  lemma {:induction false} VoteWasCast(
    n: nat, states: seq<Cluster>, steps: seq<Step>, k: nat, v: VoteCast) returns (j: nat)
    requires IsRun(n, states, steps) && k < |states| && v in states[k].h.votes
    ensures j <= k && v.voter < |states[j].peers| && Voted(states[j].peers[v.voter], v.term, states[k].h.votes[v])
  {
    RunInv(n, states, steps, k);
    if k > 0 && v in states[k - 1].h.votes {
      StepGrow(n, states, steps, k - 1);
      j := VoteWasCast(n, states, steps, k - 1, v);
    } else {
      j := k;
      if k > 0 {
        StepGrow(n, states, steps, k - 1);
        assert PeerOk(states[k].h, v.voter, states[k].peers[v.voter]);
      }
    }
  }

  /** A vote a candidate counts was cast for it in its own term, by a peer not counted
    before: a grant made by a peer of a later term is never counted. */
  lemma CountedVoteWasCast(n: nat, states: seq<Cluster>, steps: seq<Step>, k: nat) returns (j: nat)
    requires IsRun(n, states, steps) && k < |steps| && steps[k].DeliverVoteReply? && Answering(states[k], steps[k].key)
    requires var key := steps[k].key;
             Counts(states[k].peers[key.candidate], states[k].voteRpcs[key].args, states[k].voteRpcs[key].reply)
    ensures var key := steps[k].key;
            && j <= k && key.to < |states[j].peers|
            && Voted(states[j].peers[key.to], states[k].peers[key.candidate].currentTerm, key.candidate)
            && key.candidate < |states[k].ballots| && key.to !in states[k].ballots[key.candidate]
  {
    var key, c := steps[k].key, states[k];
    RunInv(n, states, steps, k);
    assert RpcOk(c.h, key, c.voteRpcs[key], c.peers[key.candidate], c.ballots[key.candidate]);
    j := VoteWasCast(n, states, steps, k, VoteCast(key.to, key.term));
  }

  // --- Log Matching --------------------------------------------------------

  /** Any two logs of a run that hold the same term at an index are equal up to it. */
  lemma LogMatching(n: nat, states: seq<Cluster>, steps: seq<Step>, j: nat, a: nat, k: nat, b: nat, x: nat)
    requires IsRun(n, states, steps) && j < |states| && k < |states| && a < |states[j].peers| && b < |states[k].peers|
    requires x < |states[j].peers[a].log| && x < |states[k].peers[b].log|
    requires states[j].peers[a].log[x].term == states[k].peers[b].log[x].term
    ensures states[j].peers[a].log[..x + 1] == states[k].peers[b].log[..x + 1]
  {
    var z := Max(j, k);
    var p, q := states[j].peers[a], states[k].peers[b];
    RunInv(n, states, steps, j);
    RunInv(n, states, steps, k);
    assert PeerOk(states[j].h, a, p) && PeerOk(states[k].h, b, q);
    LogsPersist(n, states, steps, j, z, p.log, p.currentTerm);
    LogsPersist(n, states, steps, k, z, q.log, q.currentTerm);
    SameTermSamePrefix(states[z].h, p.log, p.currentTerm, q.log, q.currentTerm, x);
  }

  /** Every log numbers its entries from 0 and its terms never fall. */
  lemma LogsInOrder(n: nat, states: seq<Cluster>, steps: seq<Step>, k: nat, i: nat)
    requires IsRun(n, states, steps) && k < |states| && i < |states[k].peers|
    ensures var log := states[k].peers[i].log;
            && LogShape(log)
            && (forall x, y | 0 <= x <= y < |log| :: log[x].term <= log[y].term)
            && (forall x | 0 <= x < |log| :: log[x].term <= states[k].peers[i].currentTerm)
  {
    RunInv(n, states, steps, k);
    assert PeerOk(states[k].h, i, states[k].peers[i]);
    var log := states[k].peers[i].log;
    forall x, y | 0 <= x <= y < |log| ensures log[x].term <= log[y].term {
      assert InOrder(log, x, y);
    }
  }

  // --- Leader Completeness -------------------------------------------------

  /** Step k lets leader i raise its commit index by counting replies. */
  predicate LeaderCommits(states: seq<Cluster>, steps: seq<Step>, k: nat, i: nat)
    requires |states| == |steps| + 1
  {
    && k < |steps| && steps[k].DeliverAppendReply? && steps[k].answer.call.args.leaderId == i
    && i < |states[k].peers| && i < |states[k + 1].peers|
    && states[k + 1].peers[i].commitIndex > states[k].peers[i].commitIndex
  }

  lemma CommitIsChosen(c: Cluster, r: AppendAnswer)
    requires CoveredInv(c) && r in c.answers && ReplyInRange(c.peers[r.call.args.leaderId], r.call, r.reply)
    requires AfterAppendReply(c, r).peers[r.call.args.leaderId].commitIndex > c.peers[r.call.args.leaderId].commitIndex
    ensures var d, i := AfterAppendReply(c, r), r.call.args.leaderId; var q := d.peers[i];
            q.role == Leader && Inv(d) && Chosen(d.h, q.currentTerm, q.commitIndex)
  {
    var d, i := AfterAppendReply(c, r), r.call.args.leaderId;
    AppendReplyInv(c, r);
    AppendReplyCovered(c, r);
    assert PeerOk(d.h, i, d.peers[i]) && CommitOk(d.h, i, d.peers[i]);
    DecidedIsChosen(d.h, i, d.peers[i], d.peers[i].commitIndex);
  }

  lemma CommitStepIsChosen(n: nat, states: seq<Cluster>, steps: seq<Step>, j: nat, a: nat)
    requires CoveredRun(n, states, steps) && LeaderCommits(states, steps, j, a)
    ensures var p := states[j + 1].peers[a];
            Reigns(states[j + 1].h, a, p) && Chosen(states[j + 1].h, p.currentTerm, p.commitIndex)
  {
    RunCovered(n, states, steps, j);
    assert StepAt(states, steps, j);
    CommitIsChosen(states[j], steps[j].answer);
    assert PeerOk(states[j + 1].h, a, states[j + 1].peers[a]);
  }

  /** Once a leader has committed an entry by counting a majority, that entry is of its
    own term, and every leader of a later term, at whatever moment of the run, holds it
    at that index together with everything before it. */
  lemma LeaderCompleteness(n: nat, states: seq<Cluster>, steps: seq<Step>, j: nat, a: nat, k: nat, b: nat)
    requires CoveredRun(n, states, steps) && LeaderCommits(states, steps, j, a)
    requires k < |states| && b < |states[k].peers| && states[k].peers[b].role == Leader
    requires states[k].peers[b].currentTerm > states[j + 1].peers[a].currentTerm
    ensures var p, q := states[j + 1].peers[a], states[k].peers[b];
            && p.commitIndex < |p.log| && p.log[p.commitIndex].term == p.currentTerm
            && p.log[..p.commitIndex + 1] <= q.log
  {
    var p, q := states[j + 1].peers[a], states[k].peers[b];
    var z := Max(j + 1, k);
    RunInv(n, states, steps, k);
    RunInv(n, states, steps, z);
    CommitStepIsChosen(n, states, steps, j, a);
    assert PeerOk(states[k].h, b, q);
    ChosenPersists(n, states, steps, j + 1, z, p.currentTerm, p.commitIndex);
    ReignsPersist(n, states, steps, k, z, q.currentTerm);
    ChosenKept(states[z].h, p.currentTerm, p.commitIndex, q.currentTerm);
    var full := states[z].h.reigns[q.currentTerm].log;
    assert p.log[..p.commitIndex + 1] <= full;
    assert full[p.commitIndex] == p.log[p.commitIndex];
  }

  // --- State Machine Safety ------------------------------------------------

  /** What a peer has committed stays safe for the rest of the run. */
  lemma CommitPersists(n: nat, states: seq<Cluster>, steps: seq<Step>, j: nat, i: nat, z: nat)
    requires CoveredRun(n, states, steps) && j <= z < |states| && i < |states[j].peers|
    ensures var p := states[j].peers[i];
            LogOk(states[z].h, p.log, p.currentTerm) && Safe(states[z].h, p.log, p.commitIndex, p.currentTerm)
  {
    var p := states[j].peers[i];
    RunCovered(n, states, steps, j);
    assert PeerOk(states[j].h, i, p) && CommitOk(states[j].h, i, p);
    LogsPersist(n, states, steps, j, z, p.log, p.currentTerm);
    SafePersists(n, states, steps, j, z, p.log, p.commitIndex, p.currentTerm);
  }

  /** Committed prefixes agree, whoever holds them and whenever. */
  lemma CommittedPrefixesAgree(n: nat, states: seq<Cluster>, steps: seq<Step>, j: nat, a: nat, k: nat, b: nat)
    requires CoveredRun(n, states, steps) && j < |states| && k < |states| && a < |states[j].peers|
             && b < |states[k].peers|
    requires states[j].peers[a].commitIndex <= states[k].peers[b].commitIndex
    ensures var p, q := states[j].peers[a], states[k].peers[b];
            p.commitIndex < |p.log| && p.commitIndex < |q.log|
              && p.log[..p.commitIndex + 1] == q.log[..p.commitIndex + 1]
  {
    var p, q := states[j].peers[a], states[k].peers[b];
    var z := Max(j, k);
    RunCovered(n, states, steps, z);
    CommitPersists(n, states, steps, j, a, z);
    CommitPersists(n, states, steps, k, b, z);
    SafeLogsAgree(states[z].h, p.log, p.commitIndex, p.currentTerm, q.log, q.commitIndex, q.currentTerm);
  }

  /** What a peer has sent on its apply channel is its log from index 1, without a gap,
    and nothing beyond its commit index. */
  lemma AppliedIsLog(n: nat, states: seq<Cluster>, steps: seq<Step>, k: nat, i: nat)
    requires CoveredRun(n, states, steps) && k < |states| && i < |states[k].peers|
    ensures var p := states[k].peers[i];
            && |p.applied| <= p.lastApplied <= p.commitIndex < |p.log|
            && (forall x | 0 <= x < |p.applied| :: p.applied[x] == Message(p.log[x + 1]) && p.applied[x].index == x + 1)
  {
    var p := states[k].peers[i];
    RunCovered(n, states, steps, k);
    assert CommitOk(states[k].h, i, p) && PeerOk(states[k].h, i, p);
    var all := Messages(p.log[1 .. p.lastApplied + 1]);
    assert |all| == p.lastApplied;
    forall x | 0 <= x < |p.applied| ensures p.applied[x] == Message(p.log[x + 1]) {
      assert (p.applied + Messages(p.toApply))[x] == p.applied[x];
    }
  }

  /** State Machine Safety: of any two apply streams of a run, one is a prefix of the other. */
  lemma StateMachineSafety(n: nat, states: seq<Cluster>, steps: seq<Step>, j: nat, a: nat, k: nat, b: nat)
    requires CoveredRun(n, states, steps) && j < |states| && k < |states| && a < |states[j].peers|
             && b < |states[k].peers|
    ensures states[j].peers[a].applied <= states[k].peers[b].applied
            || states[k].peers[b].applied <= states[j].peers[a].applied
  {
    var p, q := states[j].peers[a], states[k].peers[b];
    AppliedIsLog(n, states, steps, j, a);
    AppliedIsLog(n, states, steps, k, b);
    var m := Min(p.commitIndex, q.commitIndex);
    if p.commitIndex <= q.commitIndex {
      CommittedPrefixesAgree(n, states, steps, j, a, k, b);
    } else {
      CommittedPrefixesAgree(n, states, steps, k, b, j, a);
    }
    assert p.log[..m + 1] == q.log[..m + 1];
    forall x | 0 <= x < Min(|p.applied|, |q.applied|) ensures p.applied[x] == q.applied[x] {
      assert p.log[..m + 1][x + 1] == q.log[..m + 1][x + 1];
    }
  }
}
