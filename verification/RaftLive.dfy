/** Nothing that can happen to a cluster keeps a leader from finishing: from every state of
  every covered run some continuation gets a client's command applied by every peer, if no
  peer is in a higher term than the leader; and a peer whose log nobody's is ahead of, and
  whose match indices lie within it, can become such a leader. */
module RaftLive {
  import opened Common
  import opened RaftPeer
  import opened RaftCluster
  import opened RaftInvariant
  import opened RaftSteps
  import opened RaftReplication
  import opened RaftRange
  import opened RaftCommit
  import opened RaftHandlers
  import RaftSafety

  datatype Run = Run(n: nat, states: seq<Cluster>, steps: seq<Step>)

  ghost predicate Continues(b: Run, r: Run) {
    CoveredRun(r.n, r.states, r.steps) && b.n == r.n && b.states <= r.states && b.steps <= r.steps
  }

  /** Some continuation of the run ends in state c. */
  ghost predicate Ahead(b: Run, c: Cluster) {
    exists r: Run :: EndsIn(b, r, c)
  }

  ghost predicate EndsIn(b: Run, r: Run, c: Cluster) {
    Continues(b, r) && r.states[|r.steps|] == c
  }

  lemma Now(b: Run, c: Cluster)
    requires Ahead(b, c)
    ensures CoveredInv(c) && |c.peers| == b.n
    ensures forall i | 0 <= i < b.n :: PeerWf(c.peers[i]) && c.peers[i].me == i && c.peers[i].numPeers == b.n
  {
    var r: Run :| EndsIn(b, r, c);
    RunCovered(r.n, r.states, r.steps, |r.steps|);
  }

  /** The same without the invariant. */
  lemma Shape(b: Run, c: Cluster)
    requires Ahead(b, c)
    ensures Wf(c) && |c.peers| == b.n
  {
    Now(b, c);
  }

  lemma Longer(n: nat, states: seq<Cluster>, steps: seq<Step>, s: Step, d: Cluster)
    requires CoveredRun(n, states, steps) && Next(states[|steps|], s, d) && CoveredStep(states[|steps|], s)
    ensures CoveredRun(n, states + [d], steps + [s])
  {
    var states', steps' := states + [d], steps + [s];
    forall k | 0 <= k < |steps'| ensures StepAt(states', steps', k) && CoveredStep(states'[k], steps'[k]) {
      assert k < |steps| ==> StepAt(states, steps, k) && CoveredStep(states[k], steps[k]);
    }
  }

  lemma StepIsPossible(b: Run, c: Cluster, s: Step)
    requires Ahead(b, c) && Offered(c, s)
    ensures Wf(c) && InRange(c, s)
  {
    Now(b, c);
    NoPanic(c, s);
  }

  /** One more step. */
  lemma Take(b: Run, c: Cluster, s: Step) returns (d: Cluster)
    requires Ahead(b, c) && Offered(c, s) && CoveredStep(c, s)
    ensures Wf(c) && InRange(c, s) && d == Apply(c, s) && Ahead(b, d)
  {
    StepIsPossible(b, c, s);
    d := Apply(c, s);
    var r: Run :| EndsIn(b, r, c);
    Longer(r.n, r.states, r.steps, s, d);
    assert EndsIn(b, Run(r.n, r.states + [d], r.steps + [s]), d);
  }

  // --- one follower catches up ---------------------------------------------

  predicate Leads(c: Cluster, i: nat) {
    i < |c.peers| && c.peers[i].role == Leader
  }

  /** Peer i leads and no peer is in a higher term. */
  predicate Top(c: Cluster, i: nat) {
    && Leads(c, i)
    && forall j | 0 <= j < |c.peers| :: c.peers[j].currentTerm <= c.peers[i].currentTerm
  }

  /** Peer j has the whole of peer i's log, and i knows. */
  predicate CaughtUp(c: Cluster, i: nat, j: nat) {
    && i < |c.peers| && j < |c.peers|
    && var p, q := c.peers[i], c.peers[j];
    && j < |p.matchIndex| && p.matchIndex[j] + 1 == |p.log| && p.log <= q.log
  }

  /** A receiver that has the previous entry then begins with all of the leader's log. */
  lemma TakesWhole(c: Cluster, i: nat, a: AppendCall)
    requires Inv(c) && a in c.appends && i < |c.peers| && c.peers[i].role == Leader && Ships(c.peers[i], a)
    requires a.args.term >= c.peers[a.to].currentTerm && Matches(c.peers[a.to].log, a.args)
    ensures c.peers[i].log <= HandleAppend(c.peers[a.to], a.args).0.log
  {
    assert PeerOk(c.h, i, c.peers[i]) && PeerOk(c.h, a.to, c.peers[a.to]);
    assert AppendOk(c.h, a) && ReignOk(c.h, a.args.term);
    AcceptedLog(c.h, c.peers[a.to], a);
    assert Sent(c.h, a) == c.peers[i].log;
  }

  /** A call reaches its receiver. */
  lemma Delivered(b: Run, c: Cluster, i: nat, a: AppendCall) returns (d: Cluster, reply: AppendReply)
    requires Ahead(b, c) && Leads(c, i) && a in c.appends && a.to < |c.peers| && Ships(c.peers[i], a)
    ensures Ahead(b, d) && d.appends == c.appends && AppendAnswer(a, reply) in d.answers
    ensures |d.peers| == |c.peers| && d.peers == c.peers[a.to := d.peers[a.to]]
    ensures AppendEffect(c.peers[a.to], a.args, d.peers[a.to], reply)
    ensures reply.success ==> c.peers[i].log <= d.peers[a.to].log
  {
    Now(b, c);
    AppendMeets(c.peers[a.to], a.args);
    reply := HandleAppend(c.peers[a.to], a.args).1;
    if reply.success {
      TakesWhole(c, i, a);
    }
    d := Take(b, c, DeliverAppend(a));
  }

  /** Its answer reaches the leader. */
  lemma Answered(b: Run, c: Cluster, a: AppendCall, reply: AppendReply) returns (d: Cluster, calls: set<AppendCall>)
    requires Ahead(b, c) && a.args.leaderId < |c.peers| && AppendAnswer(a, reply) in c.answers
    ensures Ahead(b, d) && d.appends == c.appends + calls && |d.peers| == |c.peers|
    ensures var i := a.args.leaderId;
            && d.peers == c.peers[i := d.peers[i]] && PeerWf(c.peers[i]) && a.to < c.peers[i].numPeers
            && ReplyEffect(c.peers[i], a, reply, d.peers[i], calls)
  {
    Shape(b, c);
    var s := DeliverAppendReply(AppendAnswer(a, reply));
    d := Take(b, c, s);
    var p := c.peers[a.args.leaderId];
    ReplyMeets(p, a, reply);
    calls := HandleAppendReply(p, a, reply).1;
  }

  /** A call and its answer. */
  lemma Exchange(b: Run, c: Cluster, i: nat, a: AppendCall) returns (d: Cluster, reply: AppendReply)
    requires Ahead(b, c) && Top(c, i) && a in c.appends && a.to < |c.peers| && Ships(c.peers[i], a) && a.to != i
    requires a.args.leaderId == i
    ensures Ahead(b, d) && |d.peers| == |c.peers|
    ensures forall x | 0 <= x < |c.peers| && x != i && x != a.to :: d.peers[x] == c.peers[x]
    ensures PeerWf(c.peers[i]) && a.to < c.peers[i].numPeers
    ensures AppendEffect(c.peers[a.to], a.args, d.peers[a.to], reply)
    ensures exists calls :: calls <= d.appends && ReplyEffect(c.peers[i], a, reply, d.peers[i], calls)
    ensures reply.success ==> c.peers[i].log <= d.peers[a.to].log
  {
    var e, calls;
    e, reply := Delivered(b, c, i, a);
    d, calls := Answered(b, e, a, reply);
    assert calls <= d.appends && ReplyEffect(c.peers[i], a, reply, d.peers[i], calls);
  }

  /** The leader after an exchange with j that succeeded. */
  predicate HeardFrom(p: Peer, j: nat, q: Peer) {
    && |q.matchIndex| == |p.matchIndex| && j < |p.matchIndex| && q.matchIndex[j] + 1 == |p.log|
    && (forall x | 0 <= x < |p.matchIndex| && x != j :: q.matchIndex[x] == p.matchIndex[x])
    && SameReign(p, q)
    && (AllAgree(q) && p.log[|p.log| - 1].term == p.currentTerm ==> q.commitIndex + 1 >= |p.log|)
  }

  /** The same leader, whose commit index has not fallen. */
  predicate SameReign(p: Peer, q: Peer) {
    && q.role == p.role && q.currentTerm == p.currentTerm && q.log == p.log && p.log != []
    && q.commitIndex >= p.commitIndex && q.me == p.me
  }

  /** Every other peer is known to have the whole log. */
  predicate AllAgree(p: Peer) {
    forall x | 0 <= x < |p.matchIndex| && x != p.me :: p.matchIndex[x] + 1 == |p.log|
  }

  lemma SuccessIsHeard(p: Peer, a: AppendCall, q: Peer)
    requires PeerWf(p) && a.to < p.numPeers && a.to != p.me && CallTo(p, a.to, a) && SuccessEffect(p, a, q)
    ensures HeardFrom(p, a.to, q)
  {
    if AllAgree(q) {
      assert Reaching(q, |p.log| - 1) == Others(p.numPeers, p.me) + {p.me};
    }
  }

  /** The follower after an exchange that succeeded. */
  predicate Follows(p: Peer, q: Peer) {
    p.log <= q.log && q.currentTerm == p.currentTerm && (p.commitIndex < |p.log| ==> q.commitIndex >= p.commitIndex)
  }

  /** Both ends of an exchange that succeeded. */
  predicate InStep(c: Cluster, d: Cluster, i: nat, j: nat) {
    && i < |c.peers| == |d.peers| && j < |c.peers|
    && HeardFrom(c.peers[i], j, d.peers[i]) && Follows(c.peers[i], d.peers[j])
    && forall x | 0 <= x < |c.peers| && x != i && x != j :: d.peers[x] == c.peers[x]
  }

  /** An exchange that begins with a call from j's next index ends in step, or in a further
    call from the start of the log. */
  lemma FirstTry(b: Run, c: Cluster, i: nat, a: AppendCall) returns (d: Cluster, again: Option<AppendCall>)
    requires Ahead(b, c) && Top(c, i) && a in c.appends && a.to < |c.peers| && a.to != i
    requires a.to < |c.peers[i].nextIndex| && CallTo(c.peers[i], a.to, a)
    ensures Ahead(b, d) && |d.peers| == |c.peers| == b.n
    ensures again.None? ==> InStep(c, d, i, a.to)
    ensures a.args.prevLogIndex == 0 ==> again.None?
    ensures again.Some? ==>
              && again.value in d.appends && again.value.to == a.to && again.value.args.prevLogIndex == 0
              && a.to < |d.peers[i].nextIndex| && CallTo(d.peers[i], a.to, again.value)
              && d.peers[i] == c.peers[i].(nextIndex := d.peers[i].nextIndex)
              && d.peers[a.to].currentTerm == c.peers[i].currentTerm
              && forall x | 0 <= x < b.n && x != i && x != a.to :: d.peers[x] == c.peers[x]
  {
    SlotsAgree(b, c, i, a.to);
    var reply;
    d, reply := Exchange(b, c, i, a);
    var calls :| calls <= d.appends && ReplyEffect(c.peers[i], a, reply, d.peers[i], calls);
    again := None;
    if reply.success {
      SuccessIsHeard(c.peers[i], a, d.peers[i]);
    } else {
      assert RefusalEffect(c.peers[i], a, d.peers[i], calls);
      var retry :| calls == {retry} && CallTo(d.peers[i], a.to, retry);
      again := Some(retry);
    }
  }

  lemma SlotsAgree(b: Run, c: Cluster, i: nat, j: nat)
    requires Ahead(b, c) && i < |c.peers| && j < |c.peers|
    ensures |c.peers| == b.n && c.peers[i].me == i
    ensures |c.peers[i].log| > 0 && c.peers[i].log[0] == SLOT_0 && |c.peers[j].log| > 0 && c.peers[j].log[0] == SLOT_0
  {
    Now(b, c);
    assert PeerOk(c.h, i, c.peers[i]) && PeerOk(c.h, j, c.peers[j]);
  }

  lemma HeartbeatGoesOut(b: Run, c: Cluster, i: nat, j: nat) returns (d: Cluster, a: AppendCall)
    requires Ahead(b, c) && Leads(c, i) && j < |c.peers| && j != i
    ensures Ahead(b, d) && d.peers == c.peers && a in d.appends
    ensures a.to == j < |c.peers[i].nextIndex| && CallTo(c.peers[i], j, a)
  {
    Now(b, c);
    d := Take(b, c, HeartbeatTimeout(i));
    HeartbeatsMeet(c.peers[i]);
    assert Called(c.peers[i], j, Heartbeats(c.peers[i]));
    a :| a in Heartbeats(c.peers[i]) && CallTo(c.peers[i], j, a);
  }

  /** Whatever the follower holds, it can be brought up to date. */
  lemma CatchUp(b: Run, c: Cluster, i: nat, j: nat) returns (d: Cluster)
    requires Ahead(b, c) && Top(c, i) && j < |c.peers| && j != i
    ensures Ahead(b, d) && InStep(c, d, i, j) && Top(d, i)
  {
    var e, a := HeartbeatGoesOut(b, c, i, j);
    var again;
    d, again := FirstTry(b, e, i, a);
    if again.Some? {
      var f := d;
      d, again := FirstTry(b, f, i, again.value);
    }
  }

  // --- all followers catch up ----------------------------------------------

  /** The first k peers but i are caught up, and have committed at least up to m. */
  predicate CaughtUpTo(c: Cluster, i: nat, k: nat, m: nat) {
    k <= |c.peers| && forall j | 0 <= j < k && j != i :: CaughtUp(c, i, j) && c.peers[j].commitIndex >= m
  }

  lemma InStepKeeps(c: Cluster, d: Cluster, i: nat, j: nat, m: nat)
    requires InStep(c, d, i, j) && CaughtUpTo(c, i, j, m) && j != i && m <= c.peers[i].commitIndex < |c.peers[i].log|
    ensures CaughtUpTo(d, i, j + 1, m)
  {
    forall x | 0 <= x < j + 1 && x != i ensures CaughtUp(d, i, x) && d.peers[x].commitIndex >= m {
      assert x < j ==> CaughtUp(c, i, x);
    }
  }

  lemma CommitWithinLog(b: Run, c: Cluster, i: nat)
    requires Ahead(b, c) && i < |c.peers|
    ensures |c.peers| == b.n && c.peers[i].me == i && |c.peers[i].matchIndex| == b.n
    ensures c.peers[i].commitIndex < |c.peers[i].log|
  {
    Now(b, c);
    assert CommitOk(c.h, i, c.peers[i]);
  }

  predicate EndsInTerm(p: Peer) {
    p.log != [] && p.log[|p.log| - 1].term == p.currentTerm
  }

  /** One follower after the other is brought up to date; with the last one, if not before,
    the leader commits its whole log. */
  lemma {:induction false} CatchUpTo(b: Run, c: Cluster, i: nat, k: nat) returns (d: Cluster)
    requires Ahead(b, c) && Top(c, i) && k <= |c.peers|
    ensures Ahead(b, d) && Top(d, i) && |d.peers| == |c.peers| && CaughtUpTo(d, i, k, c.peers[i].commitIndex)
    ensures SameReign(c.peers[i], d.peers[i])
    ensures EndsInTerm(d.peers[i]) && |c.peers| >= 2 && (k == |c.peers| || k == i == |c.peers| - 1) ==>
              d.peers[i].commitIndex + 1 >= |d.peers[i].log|
    decreases k
  {
    CommitWithinLog(b, c, i);
    if k == 0 {
      d := c;
    } else {
      var e := CatchUpTo(b, c, i, k - 1);
      if k - 1 == i {
        d := e;
      } else {
        CommitWithinLog(b, e, i);
        d := CatchUp(b, e, i, k - 1);
        InStepKeeps(e, d, i, k - 1, c.peers[i].commitIndex);
        if k == |c.peers| || k == i == |c.peers| - 1 {
          assert AllAgree(d.peers[i]) by {
            forall x | 0 <= x < b.n && x != i ensures d.peers[i].matchIndex[x] + 1 == |d.peers[i].log| {
              assert CaughtUp(d, i, x);
            }
          }
        }
      }
    }
  }

  // --- all peers apply -----------------------------------------------------

  /** Peer j may have applied more; nothing else has changed. */
  predicate AppliesMore(c: Cluster, d: Cluster, j: nat) {
    && j < |c.peers| == |d.peers|
    && d.peers[j].log == c.peers[j].log && d.peers[j].commitIndex == c.peers[j].commitIndex
    && forall x | 0 <= x < |c.peers| && x != j :: d.peers[x] == c.peers[x]
  }

  lemma StreamNow(b: Run, c: Cluster, j: nat)
    requires Ahead(b, c) && j < |c.peers|
    ensures var p := c.peers[j]; |p.applied| + |p.toApply| == p.lastApplied <= p.commitIndex < |p.log|
  {
    Now(b, c);
    assert CommitOk(c.h, j, c.peers[j]);
    var p := c.peers[j];
    assert |p.applied + Messages(p.toApply)| == |Messages(p.log[1 .. p.lastApplied + 1])|;
  }

  /** A peer's apply loop can send all that the peer has committed. */
  lemma {:induction false} AppliesAll(b: Run, c: Cluster, j: nat) returns (d: Cluster)
    requires Ahead(b, c) && j < |c.peers|
    ensures Ahead(b, d) && AppliesMore(c, d, j) && |d.peers[j].applied| == d.peers[j].commitIndex
    decreases c.peers[j].commitIndex - |c.peers[j].applied|, |c.peers[j].toApply| == 0
  {
    StreamNow(b, c, j);
    var p := c.peers[j];
    if p.toApply != [] {
      var e := Take(b, c, EmitApply(j));
      d := AppliesAll(b, e, j);
    } else if p.lastApplied < p.commitIndex {
      var e := Take(b, c, CollectCommitted(j));
      d := AppliesAll(b, e, j);
    } else {
      d := c;
    }
  }

  lemma {:induction false} AllApply(b: Run, c: Cluster, k: nat) returns (d: Cluster)
    requires Ahead(b, c) && k <= |c.peers|
    ensures Ahead(b, d) && |d.peers| == |c.peers|
    ensures forall j | 0 <= j < |c.peers| ::
              d.peers[j].log == c.peers[j].log && d.peers[j].commitIndex == c.peers[j].commitIndex
    ensures forall j | 0 <= j < k :: |d.peers[j].applied| == d.peers[j].commitIndex
  {
    if k == 0 {
      d := c;
    } else {
      var e := AllApply(b, c, k - 1);
      d := AppliesAll(b, e, k - 1);
    }
  }

  /** What every peer has applied at index m. */
  predicate AppliedBy(c: Cluster, j: nat, m: nat, message: ApplyMsg) {
    j < |c.peers| && 1 <= m <= |c.peers[j].applied| && c.peers[j].applied[m - 1] == message
  }

  lemma AppliedFromLog(b: Run, c: Cluster, j: nat, m: nat)
    requires Ahead(b, c) && j < |c.peers| && 1 <= m <= |c.peers[j].applied|
    ensures m < |c.peers[j].log| && AppliedBy(c, j, m, Message(c.peers[j].log[m]))
  {
    var r: Run :| EndsIn(b, r, c);
    RaftSafety.AppliedIsLog(r.n, r.states, r.steps, |r.steps|, j);
  }

  /** A leader whose log ends in its own term can get that entry applied everywhere. */
  lemma LogCanBeApplied(b: Run, c: Cluster, i: nat) returns (d: Cluster)
    requires Ahead(b, c) && Top(c, i) && |c.peers| >= 2 && EndsInTerm(c.peers[i]) && |c.peers[i].log| >= 2
    ensures Ahead(b, d) && |d.peers| == |c.peers|
    ensures var m := |c.peers[i].log| - 1;
            forall j | 0 <= j < |c.peers| :: AppliedBy(d, j, m, Message(c.peers[i].log[m]))
  {
    var n, log := |c.peers|, c.peers[i].log;
    var m := |log| - 1;
    var e := CatchUpTo(b, c, i, n);
    var f := CatchUpTo(b, e, i, n);
    CommitWithinLog(b, f, i);
    d := AllApply(b, f, n);
    forall j | 0 <= j < n ensures AppliedBy(d, j, m, Message(log[m])) {
      assert j != i ==> CaughtUp(f, i, j);
      StreamNow(b, d, j);
      AppliedFromLog(b, d, j, m);
    }
  }

  /** A leader that nobody outbids can get a command applied everywhere. */
  lemma CommandCanBeApplied(b: Run, c: Cluster, i: nat, command: Command) returns (d: Cluster)
    requires Ahead(b, c) && Top(c, i) && |c.peers| >= 2
    ensures Ahead(b, d) && |d.peers| == |c.peers|
    ensures var m := |c.peers[i].log|;
            forall j | 0 <= j < |c.peers| :: AppliedBy(d, j, m, ApplyMsg(command, m, c.peers[i].currentTerm))
  {
    SlotsAgree(b, c, i, i);
    Shape(b, c);
    var m := |c.peers[i].log|;
    var e := Take(b, c, ClientStart(i, command));
    d := LogCanBeApplied(b, e, i);
    assert |e.peers[i].log| - 1 == m;
    assert Message(e.peers[i].log[m]) == ApplyMsg(command, m, c.peers[i].currentTerm);
  }

  // --- a peer can be elected -----------------------------------------------

  /** The candidate's log is at least as up to date as the other's. */
  predicate Outranks(p: Peer, q: Peer) {
    && p.log != [] && q.log != []
    && AtLeast(p.log[|p.log| - 1].term, |p.log| - 1, q.log[|q.log| - 1].term, |q.log| - 1)
  }

  /** Peer i may be elected: nobody's log is ahead of its own, and its match indices lie
    within its log. */
  predicate Electable(c: Cluster, i: nat) {
    i < |c.peers| && Covers(c.peers[i]) && forall j | 0 <= j < |c.peers| :: Outranks(c.peers[i], c.peers[j])
  }

  /** The logs and match indices are as before. */
  predicate SameLogs(c: Cluster, d: Cluster) {
    && |d.peers| == |c.peers|
    && forall j | 0 <= j < |c.peers| ::
         d.peers[j].log == c.peers[j].log && d.peers[j].matchIndex == c.peers[j].matchIndex
  }

  /** Peer i stands in term t with so many votes; it has asked all peers from k on, none of
    which is in that term yet, and nobody is in a higher one. */
  predicate Standing(c: Cluster, i: nat, t: nat, votes: nat, k: nat) {
    && Electable(c, i) && c.peers[i].role == Candidate && c.peers[i].currentTerm == t
    && c.peers[i].totalVotes == votes
    && (forall j: nat {:trigger AskedBy(c, i, t, j)} | k <= j < |c.peers| && j != i ::
          AskedBy(c, i, t, j) && c.peers[j].currentTerm < t)
    && (forall j | 0 <= j < |c.peers| :: c.peers[j].currentTerm <= t)
  }

  /** It has the votes of the first k peers, which are not enough. */
  predicate Waiting(c: Cluster, i: nat, t: nat, k: nat) {
    Standing(c, i, t, Votes(i, k), k) && 2 * Votes(i, k) <= |c.peers|
  }

  /** The candidate's vote and those of the first k peers. */
  function Votes(i: nat, k: nat): nat {
    if i < k then k else k + 1
  }

  predicate AskedBy(c: Cluster, i: nat, t: nat, j: nat) {
    var key := VoteKey(i, t, j);
    && i < |c.peers| && key in c.voteRpcs && c.voteRpcs[key].Asked?
    && c.voteRpcs[key].args.term == t && c.voteRpcs[key].args.candidate == i
    && Describes(c.voteRpcs[key].args, c.peers[i].log)
  }

  /** One more voter: the candidate wins or goes on. */
  lemma NextVoter(b: Run, c: Cluster, i: nat, t: nat, k: nat) returns (d: Cluster)
    requires Ahead(b, c) && k < |c.peers| && k != i && Standing(c, i, t, Votes(i, k), k)
    ensures Ahead(b, d) && SameLogs(c, d) && (Top(d, i) || Waiting(d, i, t, k + 1))
  {
    var e := VoterGrants(b, c, i, t, k);
    d := VoteIsCounted(b, e, i, t, k);
  }

  /** The grant is on its way to the candidate. */
  predicate GrantedBy(c: Cluster, i: nat, t: nat, k: nat) {
    var key := VoteKey(i, t, k);
    && key in c.voteRpcs && c.voteRpcs[key].Answered? && c.voteRpcs[key].args.term == t
    && c.voteRpcs[key].reply.granted && c.voteRpcs[key].reply.term < t
  }

  lemma VoterGrants(b: Run, c: Cluster, i: nat, t: nat, k: nat) returns (d: Cluster)
    requires Ahead(b, c) && k < |c.peers| && k != i && Standing(c, i, t, Votes(i, k), k)
    ensures Ahead(b, d) && SameLogs(c, d) && Standing(d, i, t, Votes(i, k), k + 1) && GrantedBy(d, i, t, k)
  {
    Shape(b, c);
    var key := VoteKey(i, t, k);
    assert AskedBy(c, i, t, k);
    VoteMeets(c.peers[k], c.voteRpcs[key].args);
    d := Take(b, c, DeliverVote(key));
    forall j: nat | k < j < |c.peers| && j != i ensures AskedBy(d, i, t, j) && d.peers[j].currentTerm < t {
      assert AskedBy(c, i, t, j);
    }
  }

  lemma VoteIsCounted(b: Run, c: Cluster, i: nat, t: nat, k: nat) returns (d: Cluster)
    requires Ahead(b, c) && k < |c.peers| && k != i && Standing(c, i, t, Votes(i, k), k + 1) && GrantedBy(c, i, t, k)
    ensures Ahead(b, d) && SameLogs(c, d) && (Top(d, i) || Waiting(d, i, t, k + 1))
  {
    Shape(b, c);
    var key := VoteKey(i, t, k);
    VoteReplyMeets(c.peers[i], c.voteRpcs[key].args, c.voteRpcs[key].reply);
    d := Take(b, c, DeliverVoteReply(key));
    forall j: nat | k + 1 <= j < |c.peers| && j != i && d.peers[i].role == Candidate
      ensures AskedBy(d, i, t, j) && d.peers[j].currentTerm < t
    {
      assert AskedBy(c, i, t, j);
    }
  }

  lemma {:induction false} GathersVotes(b: Run, c: Cluster, i: nat, t: nat, k: nat) returns (d: Cluster)
    requires Ahead(b, c) && k <= |c.peers| && Waiting(c, i, t, k)
    ensures Ahead(b, d) && SameLogs(c, d) && Top(d, i)
    decreases |c.peers| - k
  {
    if k == i {
      d := GathersVotes(b, c, i, t, k + 1);
    } else {
      d := NextVoter(b, c, i, t, k);
      if !Top(d, i) {
        d := GathersVotes(b, d, i, t, k + 1);
      }
    }
  }

  lemma TimesOut(b: Run, c: Cluster, i: nat) returns (d: Cluster)
    requires Ahead(b, c) && Electable(c, i) && c.peers[i].role != Leader
    ensures Ahead(b, d) && SameLogs(c, d) && Electable(d, i) && StandsForElection(c.peers[i], d.peers[i])
    ensures forall j | 0 <= j < |c.peers| && j != i :: d.peers[j] == c.peers[j]
    ensures forall j: nat | j < |c.peers| && j != i :: AskedBy(d, i, d.peers[i].currentTerm, j)
  {
    Shape(b, c);
    d := Take(b, c, ElectionTimeout(i));
  }

  /** The timer fires until the candidate's term is above all others. */
  lemma {:induction false} Outbids(b: Run, c: Cluster, i: nat, top: nat) returns (d: Cluster)
    requires Ahead(b, c) && Electable(c, i) && c.peers[i].role != Leader
    requires forall j | 0 <= j < |c.peers| :: c.peers[j].currentTerm <= top
    ensures Ahead(b, d) && SameLogs(c, d) && Standing(d, i, top + 1, 1, 0)
    decreases top - c.peers[i].currentTerm
  {
    d := TimesOut(b, c, i);
    if c.peers[i].currentTerm < top {
      d := Outbids(b, d, i, top);
    }
  }

  lemma {:induction false} HighestTerm(peers: seq<Peer>) returns (top: nat)
    ensures forall j | 0 <= j < |peers| :: peers[j].currentTerm <= top
  {
    top := 0;
    if peers != [] {
      top := HighestTerm(peers[1..]);
      top := Max(top, peers[0].currentTerm);
    }
  }

  /** A leader that calls a peer of a higher term falls back. */
  lemma Deposed(b: Run, c: Cluster, i: nat, j: nat) returns (d: Cluster)
    requires Ahead(b, c) && Leads(c, i) && j < |c.peers| && c.peers[j].currentTerm > c.peers[i].currentTerm
    ensures Ahead(b, d) && SameLogs(c, d) && d.peers[i].role == Follower
  {
    SlotsAgree(b, c, i, j);
    var e, a := HeartbeatGoesOut(b, c, i, j);
    var f, reply := Delivered(b, e, i, a);
    var calls;
    d, calls := Answered(b, f, a, reply);
  }

  /** A peer whose log nobody's is ahead of can become a leader that nobody outbids. */
  lemma CanBeElected(b: Run, c: Cluster, i: nat) returns (d: Cluster)
    requires Ahead(b, c) && Electable(c, i) && |c.peers| >= 2
    ensures Ahead(b, d) && SameLogs(c, d) && Top(d, i)
  {
    if Top(c, i) {
      d := c;
    } else {
      var e := c;
      if Leads(c, i) {
        var j: nat :| j < |c.peers| && c.peers[j].currentTerm > c.peers[i].currentTerm;
        e := Deposed(b, c, i, j);
      }
      var top := HighestTerm(e.peers);
      var f := Outbids(b, e, i, top);
      d := GathersVotes(b, f, i, top + 1, 0);
    }
  }

  // --- the theorems --------------------------------------------------------

  lemma WinnerHasPeers(c: Cluster, s: Step, i: nat)
    requires Inv(c) && Offered(c, s) && InRange(c, s) && i < |c.peers|
    ensures i < |Apply(c, s).peers|
    ensures c.peers[i].role != Leader && Apply(c, s).peers[i].role == Leader ==> |c.peers| >= 2
  {
    if i != Actor(s) {
      OthersUntouched(c, s, i);
    } else if s.DeliverVoteReply? {
      assert RpcOk(c.h, s.key, c.voteRpcs[s.key], c.peers[s.key.candidate], c.ballots[s.key.candidate]);
    }
  }

  lemma LeaderNext(n: nat, states: seq<Cluster>, steps: seq<Step>, k: nat, i: nat)
    requires IsRun(n, states, steps) && k < |steps| && i < n
    ensures i < |states[k].peers| && i < |states[k + 1].peers|
    ensures states[k].peers[i].role != Leader && states[k + 1].peers[i].role == Leader ==> n >= 2
  {
    RunInv(n, states, steps, k);
    assert StepAt(states, steps, k);
    WinnerHasPeers(states[k], steps[k], i);
  }

  /** A peer that is alone never leads: there is nobody whose reply it could count. */
  lemma {:induction false} LeaderHasPeers(n: nat, states: seq<Cluster>, steps: seq<Step>, k: nat, i: nat)
    requires IsRun(n, states, steps) && k < |states| && i < n
    ensures i < |states[k].peers| && (states[k].peers[i].role == Leader ==> n >= 2)
  {
    if k > 0 {
      LeaderHasPeers(n, states, steps, k - 1, i);
      LeaderNext(n, states, steps, k - 1, i);
    }
  }

  /** In every state of every covered run, a leader that nobody outbids can finish: some
    continuation has every peer apply the client's command at the next index. */
  lemma LeaderCanFinish(n: nat, states: seq<Cluster>, steps: seq<Step>, i: nat, command: Command) returns (r: Run)
    requires CoveredRun(n, states, steps) && Top(states[|steps|], i)
    ensures Continues(Run(n, states, steps), r)
    ensures var p := states[|steps|].peers[i];
            var m := |p.log|;
            forall j | 0 <= j < n :: AppliedBy(r.states[|r.steps|], j, m, ApplyMsg(command, m, p.currentTerm))
  {
    var b := Run(n, states, steps);
    assert EndsIn(b, b, states[|steps|]);
    Now(b, states[|steps|]);
    LeaderHasPeers(n, states, steps, |steps|, i);
    var d := CommandCanBeApplied(b, states[|steps|], i, command);
    r :| EndsIn(b, r, d);
  }

  /** And a peer whose log nobody's is ahead of, and whose match indices lie within it, can
    be elected and then finish: whatever calls were lost and whoever stands in whatever
    term, the cluster is never stuck. */
  lemma NeverStuck(n: nat, states: seq<Cluster>, steps: seq<Step>, i: nat, command: Command)
    returns (r: Run, term: nat)
    requires CoveredRun(n, states, steps) && n >= 2 && Electable(states[|steps|], i)
    ensures Continues(Run(n, states, steps), r)
    ensures var m := |states[|steps|].peers[i].log|;
            forall j | 0 <= j < n :: AppliedBy(r.states[|r.steps|], j, m, ApplyMsg(command, m, term))
  {
    var b := Run(n, states, steps);
    assert EndsIn(b, b, states[|steps|]);
    Now(b, states[|steps|]);
    var c := CanBeElected(b, states[|steps|], i);
    var d := CommandCanBeApplied(b, c, i, command);
    term := c.peers[i].currentTerm;
    r :| EndsIn(b, r, d);
  }
}
