/** The cluster as a step machine: all peers, the calls and replies in flight, and
  history variables that no step reads.

  The network may lose, delay and reorder messages; a lost message is one whose step
  never comes. AppendEntries calls and replies stay available for ever, so they may also
  be delivered twice. A RequestVote call is executed at most once and answered at most
  once, as each Call of the network is. A peer that crashes is one that takes no further
  step: crash-stop, no restart. */
module RaftCluster {
  import opened Common
  import opened RaftPeer

  datatype VoteKey = VoteKey(candidate: nat, term: nat, to: nat)

  datatype VoteRpc = Asked(args: VoteArgs) | Answered(args: VoteArgs, reply: VoteReply)

  datatype AppendAnswer = AppendAnswer(call: AppendCall, reply: AppendReply)

  /** What one leader did: who it was, who elected it, its log so far, and for each peer
    the highest index of that log the peer has acknowledged during the term. */
  datatype Reign = Reign(leader: nat, voters: set<nat>, log: seq<Entry>, acked: seq<nat>)

  datatype VoteCast = VoteCast(voter: nat, term: nat)

  /** `terms` repeats the peers' current terms; `votes` says for whom each peer voted in
    each term; `reigns` holds one record for every term that got a leader. */
  datatype History = History(terms: seq<nat>, votes: map<VoteCast, nat>, reigns: map<nat, Reign>)

  /** `ballots[i]` is the set of peers whose votes candidate i has counted so far. */
  datatype Cluster = Cluster(
    peers: seq<Peer>,
    voteRpcs: map<VoteKey, VoteRpc>,
    appends: set<AppendCall>,
    answers: set<AppendAnswer>,
    ballots: seq<set<nat>>,
    h: History)

  datatype Step =
    | ElectionTimeout(peer: nat)
    | DeliverVote(key: VoteKey)
    | DeliverVoteReply(key: VoteKey)
    | ClientStart(peer: nat, command: Command)
    | HeartbeatTimeout(peer: nat)
    | DeliverAppend(call: AppendCall)
    | DeliverAppendReply(answer: AppendAnswer)
    | CollectCommitted(peer: nat)
    | EmitApply(peer: nat)

  function Init(n: nat): Cluster {
    Cluster(seq(n, i requires i >= 0 => NewPeer(i, n)), map[], {}, {}, seq(n, _ => {}),
            History(seq(n, _ => 0), map[], map[]))
  }

  /** The shapes every handler relies on. */
  predicate Wf(c: Cluster) {
    && |c.ballots| == |c.h.terms| == |c.peers|
    && (forall i | 0 <= i < |c.peers| :: PeerWf(c.peers[i]) && c.peers[i].me == i && c.peers[i].numPeers == |c.peers|)
    && (forall k | k in c.voteRpcs :: k.candidate < |c.peers| && k.to < |c.peers|)
    && (forall a | a in c.appends :: CallShape(a) && a.to < |c.peers| && a.args.leaderId < |c.peers|)
    && (forall r | r in c.answers :: r.call in c.appends)
    && (forall t | t in c.h.reigns :: |c.h.reigns[t].acked| == |c.peers|)
  }

  /** The peer that takes the step. */
  function Actor(s: Step): nat {
    match s
    case ElectionTimeout(i) => i
    case DeliverVote(k) => k.to
    case DeliverVoteReply(k) => k.candidate
    case ClientStart(i, _) => i
    case HeartbeatTimeout(i) => i
    case DeliverAppend(a) => a.to
    case DeliverAppendReply(r) => r.call.args.leaderId
    case CollectCommitted(i) => i
    case EmitApply(i) => i
  }

  /** The environment offers the step: the timer may fire, the message is there, the
    apply loop has work. */
  predicate Offered(c: Cluster, s: Step) {
    match s
    case ElectionTimeout(i) => i < |c.peers| && c.peers[i].role != Leader
    case DeliverVote(k) => Asking(c, k)
    case DeliverVoteReply(k) => Answering(c, k)
    case ClientStart(i, _) => i < |c.peers| && c.peers[i].role == Leader
    case HeartbeatTimeout(i) => i < |c.peers| && c.peers[i].role == Leader
    case DeliverAppend(a) => a in c.appends && a.to < |c.peers|
    case DeliverAppendReply(r) => r in c.answers && r.call.args.leaderId < |c.peers|
    case CollectCommitted(i) =>
      i < |c.peers| && c.peers[i].toApply == [] && c.peers[i].lastApplied < c.peers[i].commitIndex
    case EmitApply(i) => i < |c.peers| && c.peers[i].toApply != []
  }

  predicate Asking(c: Cluster, k: VoteKey) {
    k in c.voteRpcs && c.voteRpcs[k].Asked? && k.to < |c.peers|
  }

  predicate Answering(c: Cluster, k: VoteKey) {
    k in c.voteRpcs && c.voteRpcs[k].Answered? && k.candidate < |c.peers|
  }

  /** The step reads no slice out of range. A peer that would is a peer that panics, and
    then takes no further step. */
  predicate InRange(c: Cluster, s: Step)
    requires Wf(c) && Offered(c, s)
  {
    match s
    case DeliverVoteReply(k) => CountInRange(c, k)
    case ClientStart(i, _) => CanSend(c.peers[i])
    case HeartbeatTimeout(i) => CanSend(c.peers[i])
    case DeliverAppendReply(r) => ReplyInRange(c.peers[r.call.args.leaderId], r.call, r.reply)
    case CollectCommitted(i) => CanCollect(c.peers[i])
    case _ => true
  }

  /** Does the reply make its candidate leader? */
  predicate IsWin(c: Cluster, k: VoteKey)
    requires Answering(c, k)
  {
    Wins(c.peers[k.candidate], c.voteRpcs[k].args, c.voteRpcs[k].reply)
  }

  /** A winner's first heartbeats are in range. */
  predicate CountInRange(c: Cluster, k: VoteKey)
    requires Answering(c, k)
  {
    IsWin(c, k) ==> CanSend(HandleVoteReply(c.peers[k.candidate], c.voteRpcs[k].args, c.voteRpcs[k].reply))
  }

  /** The history's record of the peer that moved: its term, and its vote if it has one. */
  function Record(h: History, i: nat, p: Peer): History
    requires i < |h.terms|
  {
    h.(terms := h.terms[i := p.currentTerm],
       votes := if p.votedFor.Some? then h.votes[VoteCast(i, p.currentTerm) := p.votedFor.value] else h.votes)
  }

  /** Peer i moves to state p. */
  function Move(c: Cluster, i: nat, p: Peer): Cluster
    requires Wf(c) && i < |c.peers|
  {
    c.(peers := c.peers[i := p], h := Record(c.h, i, p))
  }

  /** The calls of a new election: one to every other peer. */
  function BallotCalls(p: Peer): map<VoteKey, VoteRpc>
    requires PeerWf(p)
  {
    map j: nat | j < p.numPeers && j != p.me :: VoteKey(p.me, p.currentTerm, j) := Asked(Ballot(p))
  }

  /** The reign that opens when p wins with the given votes. */
  function NewReign(p: Peer, votes: set<nat>): Reign
    requires PeerWf(p)
  {
    Reign(p.me, votes, p.log, seq(p.numPeers, i => if i == p.me then |p.log| - 1 else 0))
  }

  /** The history with a reign for the winner. */
  function Crowned(h: History, q: Peer, votes: set<nat>): History
    requires PeerWf(q)
  {
    h.(reigns := h.reigns[q.currentTerm := NewReign(q, votes)])
  }

  /** Replace the leader's log in its reign; the leader acknowledges its own log. */
  function ExtendReign(h: History, t: nat, log: seq<Entry>): History
    requires |log| >= 1 && t in h.reigns && h.reigns[t].leader < |h.reigns[t].acked|
  {
    var r := h.reigns[t];
    h.(reigns := h.reigns[t := r.(log := log, acked := r.acked[r.leader := |log| - 1])])
  }

  /** Peer i has acknowledged the leader's log of term t up to index m. */
  function Acknowledge(h: History, t: nat, i: nat, m: nat): History
    requires t in h.reigns && i < |h.reigns[t].acked|
  {
    var r := h.reigns[t];
    h.(reigns := h.reigns[t := r.(acked := r.acked[i := Max(r.acked[i], m)])])
  }

  // --- what each step does to the cluster ----------------------------------

  function AfterTimeout(c: Cluster, i: nat): Cluster
    requires Wf(c) && i < |c.peers|
  {
    var q := Timeout(c.peers[i]);
    Move(c, i, q).(voteRpcs := c.voteRpcs + BallotCalls(q), ballots := c.ballots[i := {i}])
  }

  function AfterVote(c: Cluster, k: VoteKey): Cluster
    requires Wf(c) && Asking(c, k)
  {
    var (q, reply) := HandleVote(c.peers[k.to], c.voteRpcs[k].args);
    Move(c, k.to, q).(voteRpcs := c.voteRpcs[k := Answered(c.voteRpcs[k].args, reply)])
  }

  function AfterVoteReply(c: Cluster, k: VoteKey): Cluster
    requires Wf(c) && Answering(c, k) && CountInRange(c, k)
  {
    var i, rpc := k.candidate, c.voteRpcs[k];
    var q := HandleVoteReply(c.peers[i], rpc.args, rpc.reply);
    var counted := Counts(c.peers[i], rpc.args, rpc.reply);
    var ballot := if counted then c.ballots[i] + {k.to} else c.ballots[i];
    var d := Move(c, i, q).(voteRpcs := c.voteRpcs - {k}, ballots := c.ballots[i := ballot]);
    if IsWin(c, k) then d.(appends := c.appends + Heartbeats(q), h := Crowned(d.h, q, ballot)) else d
  }

  function AfterStart(c: Cluster, i: nat, command: Command): Cluster
    requires Wf(c) && i < |c.peers| && CanSend(c.peers[i])
  {
    var q := Start(c.peers[i], command);
    var d := Move(c, i, q).(appends := c.appends + Heartbeats(q));
    if q.currentTerm in d.h.reigns && d.h.reigns[q.currentTerm].leader == i
    then d.(h := ExtendReign(d.h, q.currentTerm, q.log))
    else d
  }

  function AfterHeartbeat(c: Cluster, i: nat): Cluster
    requires Wf(c) && i < |c.peers| && CanSend(c.peers[i])
  {
    c.(appends := c.appends + Heartbeats(c.peers[i]))
  }

  function AfterAppend(c: Cluster, a: AppendCall): Cluster
    requires Wf(c) && a in c.appends
  {
    var (q, reply) := HandleAppend(c.peers[a.to], a.args);
    var d := Move(c, a.to, q).(answers := c.answers + {AppendAnswer(a, reply)});
    if reply.success && a.args.term in d.h.reigns
    then d.(h := Acknowledge(d.h, a.args.term, a.to, a.args.prevLogIndex + |a.args.entries|))
    else d
  }

  function AfterAppendReply(c: Cluster, r: AppendAnswer): Cluster
    requires Wf(c) && r in c.answers && ReplyInRange(c.peers[r.call.args.leaderId], r.call, r.reply)
  {
    var i := r.call.args.leaderId;
    var (q, calls) := HandleAppendReply(c.peers[i], r.call, r.reply);
    Move(c, i, q).(appends := c.appends + calls)
  }

  function Apply(c: Cluster, s: Step): Cluster
    requires Wf(c) && Offered(c, s) && InRange(c, s)
  {
    match s
    case ElectionTimeout(i) => AfterTimeout(c, i)
    case DeliverVote(k) => AfterVote(c, k)
    case DeliverVoteReply(k) => AfterVoteReply(c, k)
    case ClientStart(i, command) => AfterStart(c, i, command)
    case HeartbeatTimeout(i) => AfterHeartbeat(c, i)
    case DeliverAppend(a) => AfterAppend(c, a)
    case DeliverAppendReply(r) => AfterAppendReply(c, r)
    case CollectCommitted(i) => Move(c, i, Collect(c.peers[i]))
    case EmitApply(i) => Move(c, i, Emit(c.peers[i]))
  }

  ghost predicate Next(c: Cluster, s: Step, d: Cluster) {
    Wf(c) && Offered(c, s) && InRange(c, s) && d == Apply(c, s)
  }

  /** states[k+1] follows from states[k] by steps[k]. */
  ghost predicate StepAt(states: seq<Cluster>, steps: seq<Step>, k: nat)
    requires k < |steps| < |states|
  {
    Next(states[k], steps[k], states[k + 1])
  }

  /** A run of n peers, from the cluster in which none has done anything. */
  ghost predicate IsRun(n: nat, states: seq<Cluster>, steps: seq<Step>) {
    && |states| == |steps| + 1
    && states[0] == Init(n)
    && forall k {:trigger StepAt(states, steps, k)} | 0 <= k < |steps| :: StepAt(states, steps, k)
  }

  /** Every match index the peer holds lies within its log. */
  predicate Covers(p: Peer) {
    forall j | 0 <= j < |p.matchIndex| :: p.matchIndex[j] < |p.log|
  }

  /** A win by a peer whose match indices lie within its log; any other step. */
  predicate CoveredStep(c: Cluster, s: Step)
    requires Offered(c, s)
  {
    s.DeliverVoteReply? && IsWin(c, s.key) ==> Covers(c.peers[s.key.candidate])
  }

  /** A run in which every winner's match indices lie within its log. */
  ghost predicate CoveredRun(n: nat, states: seq<Cluster>, steps: seq<Step>) {
    && IsRun(n, states, steps)
    && forall k {:trigger StepAt(states, steps, k)} | 0 <= k < |steps| ::
         StepAt(states, steps, k) && CoveredStep(states[k], steps[k])
  }

  predicate AllZero(s: seq<nat>) {
    forall i | 0 <= i < |s| :: s[i] == 0
  }

  /** A win by a peer whose matchIndex is still all zero; any other step. */
  predicate FreshStep(c: Cluster, s: Step)
    requires Offered(c, s)
  {
    s.DeliverVoteReply? && IsWin(c, s.key) ==> AllZero(c.peers[s.key.candidate].matchIndex)
  }

  /** A run in which every winner starts with an all-zero matchIndex. */
  ghost predicate FreshRun(n: nat, states: seq<Cluster>, steps: seq<Step>) {
    && IsRun(n, states, steps)
    && forall k {:trigger StepAt(states, steps, k)} | 0 <= k < |steps| ::
         StepAt(states, steps, k) && FreshStep(states[k], steps[k])
  }
}
