/** One Raft peer as a value, and what each of its handlers does to that value.

  Terms and indices are Go ints that never go below zero, so they are `nat` here, and
  the "no vote" value -1 of `votedFor` is `None`. Timers do not appear: a timer only
  decides when a handler runs, and the cluster of RaftCluster lets any handler run at
  any moment. */
module RaftPeer {
  import opened Common

  /** A client command; log slot 0 holds the nil command. */
  datatype Command = NoCommand | Op(text: string)

  datatype Entry = Entry(term: nat, command: Command, index: nat)

  datatype Role = Follower | Candidate | Leader

  /** What goes out on the apply channel (CommandValid is always true). */
  datatype ApplyMsg = ApplyMsg(command: Command, index: nat, term: nat)

  /** `totalVotes` is the counter captured by the goroutines of the current election;
    `toApply` is the batch the apply loop has copied out of the log but not yet sent;
    `applied` is everything sent on the apply channel so far. */
  datatype Peer = Peer(
    me: nat,
    numPeers: nat,
    currentTerm: nat,
    votedFor: Option<nat>,
    role: Role,
    log: seq<Entry>,
    commitIndex: nat,
    nextIndex: seq<nat>,
    matchIndex: seq<nat>,
    lastApplied: nat,
    totalVotes: nat,
    toApply: seq<Entry>,
    applied: seq<ApplyMsg>)

  datatype VoteArgs = VoteArgs(term: nat, candidate: nat, lastLogIndex: nat, lastLogTerm: nat)

  datatype VoteReply = VoteReply(term: nat, granted: bool)

  datatype AppendArgs = AppendArgs(
    term: nat, leaderId: nat, prevLogIndex: nat, prevLogTerm: nat,
    entries: seq<Entry>, leaderCommit: nat)

  datatype AppendReply = AppendReply(term: nat, success: bool)

  /** An AppendEntries call together with the next index its sender expects to reach. */
  datatype AppendCall = AppendCall(to: nat, expectedNext: nat, args: AppendArgs)

  const SLOT_0 := Entry(0, NoCommand, 0)

  /** Entry i of a log carries index i; slot 0 always exists. */
  predicate LogShape(log: seq<Entry>) {
    |log| >= 1 && forall i | 0 <= i < |log| :: log[i].index == i
  }

  /** The entries of a call are numbered on from the previous index. */
  predicate ArgsShape(a: AppendArgs) {
    forall i | 0 <= i < |a.entries| :: a.entries[i].index == a.prevLogIndex + 1 + i
  }

  predicate PeerWf(p: Peer) {
    && p.me < p.numPeers == |p.nextIndex| == |p.matchIndex|
    && LogShape(p.log)
  }

  function LastIndex(log: seq<Entry>): nat
    requires LogShape(log)
  {
    log[|log| - 1].index
  }

  function LastTerm(log: seq<Entry>): nat
    requires LogShape(log)
  {
    log[|log| - 1].term
  }

  /** The peer that Make returns, before any persisted state is read. */
  function NewPeer(me: nat, n: nat): Peer {
    Peer(me, n, 0, None, Follower, [SLOT_0], 0, seq(n, _ => 0), seq(n, _ => 0), 0, 0, [], [])
  }

  // --- elections -----------------------------------------------------------

  /** The election timer fires. */
  function Timeout(p: Peer): Peer {
    if p.role == Leader then p
    else p.(currentTerm := p.currentTerm + 1, role := Candidate, votedFor := Some(p.me), totalVotes := 1)
  }

  /** The request a candidate sends to every other peer. */
  function Ballot(p: Peer): VoteArgs
    requires PeerWf(p)
  {
    VoteArgs(p.currentTerm, p.me, LastIndex(p.log), LastTerm(p.log))
  }

  predicate UpToDate(log: seq<Entry>, args: VoteArgs)
    requires LogShape(log)
  {
    || args.lastLogTerm > LastTerm(log)
    || (args.lastLogTerm == LastTerm(log) && LastIndex(log) <= args.lastLogIndex)
  }

  /** A peer falls back to follower in a term it has just learnt of. */
  function StepDown(p: Peer, term: nat): Peer {
    p.(currentTerm := term, role := Follower, votedFor := None)
  }

  /** The RequestVote handler. It has no test for a stale request, and it answers with
    the term held before the update. */
  function HandleVote(p: Peer, args: VoteArgs): (Peer, VoteReply)
    requires PeerWf(p)
  {
    var q := if args.term > p.currentTerm then StepDown(p, args.term) else p;
    var grant := UpToDate(q.log, args) && (q.votedFor == None || q.votedFor == Some(args.candidate));
    (if grant then q.(votedFor := Some(args.candidate)) else q, VoteReply(p.currentTerm, grant))
  }

  /** Does this reply still concern the election the peer is running? */
  predicate Electing(p: Peer, args: VoteArgs) {
    p.role == Candidate && p.currentTerm == args.term
  }

  predicate Counts(p: Peer, args: VoteArgs, reply: VoteReply) {
    Electing(p, args) && reply.term <= p.currentTerm && reply.granted
  }

  /** The reply that takes the candidate over half of the peers. */
  predicate Wins(p: Peer, args: VoteArgs, reply: VoteReply) {
    Counts(p, args, reply) && p.totalVotes + 1 > p.numPeers / 2
  }

  /** A vote reply arrives. A winner restarts nextIndex at its commit index, and keeps
    whatever matchIndex it had. */
  function HandleVoteReply(p: Peer, args: VoteArgs, reply: VoteReply): Peer {
    if !Electing(p, args) then p
    else if reply.term > p.currentTerm then StepDown(p, reply.term)
    else if !reply.granted then p
    else
      var q := p.(totalVotes := p.totalVotes + 1);
      if q.totalVotes > q.numPeers / 2 then
        q.(role := Leader, nextIndex := seq(|q.nextIndex|, _ => q.commitIndex + 1))
      else q
  }

  // --- log replication -----------------------------------------------------

  /** Every slice a heartbeat takes is in range. */
  predicate CanSend(p: Peer) {
    forall i | 0 <= i < |p.nextIndex| && i != p.me :: 1 <= p.nextIndex[i] <= |p.log|
  }

  function CallFor(p: Peer, i: nat): AppendCall
    requires PeerWf(p) && i < p.numPeers && 1 <= p.nextIndex[i] <= |p.log|
  {
    var next := p.nextIndex[i];
    AppendCall(i, next + |p.log[next..]|,
               AppendArgs(p.currentTerm, p.me, next - 1, p.log[next - 1].term, p.log[next..], p.commitIndex))
  }

  /** The call carries the peer's term and commit index and all of its log that follows the
    previous index, and says where that log ends. */
  predicate Ships(p: Peer, a: AppendCall) {
    && p.me == a.args.leaderId && p.currentTerm == a.args.term && p.commitIndex == a.args.leaderCommit
    && a.expectedNext == |p.log| && a.args.prevLogIndex < |p.log|
    && p.log[a.args.prevLogIndex].term == a.args.prevLogTerm
    && p.log[a.args.prevLogIndex + 1..] == a.args.entries
  }

  /** The calls sendHeartbeats makes: one to every other peer. */
  function Heartbeats(p: Peer): set<AppendCall>
    requires PeerWf(p) && CanSend(p)
  {
    set i: nat | i < p.numPeers && i != p.me :: CallFor(p, i)
  }

  /** The log after a client command: a leader appends, any other peer refuses. */
  function Start(p: Peer, command: Command): Peer
    requires PeerWf(p)
  {
    if p.role != Leader then p
    else p.(log := p.log + [Entry(p.currentTerm, command, LastIndex(p.log) + 1)])
  }

  /** Scan the sent entries from position `from` for the first one the log lacks or holds
    with another term; from there on the sent entries replace the log. */
  function Install(log: seq<Entry>, a: AppendArgs, from: nat): seq<Entry>
    requires LogShape(log) && ArgsShape(a)
    requires from <= |a.entries| && a.prevLogIndex + from < |log|
    decreases |a.entries| - from
  {
    if from == |a.entries| then log
    else
      var e := a.entries[from];
      if e.index >= |log| || log[e.index].term != e.term then log[..e.index] + a.entries[from..]
      else Install(log, a, from + 1)
  }

  function Min(a: nat, b: nat): nat {
    if a < b then a else b
  }

  function Max(a: nat, b: nat): nat {
    if a > b then a else b
  }

  /** Does the receiver's log agree with the call at the previous index? */
  predicate Matches(log: seq<Entry>, a: AppendArgs) {
    a.prevLogIndex < |log| && log[a.prevLogIndex].term == a.prevLogTerm
  }

  /** The receiver once it has accepted the call's term. */
  function Accept(p: Peer, a: AppendArgs): Peer
    requires a.term >= p.currentTerm
  {
    (if a.term > p.currentTerm then p.(currentTerm := a.term, votedFor := None) else p).(role := Follower)
  }

  /** The AppendEntries handler. The commit index is capped by the receiver's own last
    index, not by the last entry sent. */
  function HandleAppend(p: Peer, a: AppendArgs): (Peer, AppendReply)
    requires PeerWf(p) && ArgsShape(a)
    ensures PeerWf(HandleAppend(p, a).0)
  {
    if a.term < p.currentTerm then (p, AppendReply(p.currentTerm, false))
    else
      var q := Accept(p, a);
      if !Matches(q.log, a) then (q, AppendReply(q.currentTerm, false))
      else
        InstallShape(q.log, a, 0);
        var log := Install(q.log, a, 0);
        var commit := if a.leaderCommit > q.commitIndex then Min(a.leaderCommit, LastIndex(log)) else q.commitIndex;
        (q.(log := log, commitIndex := commit), AppendReply(q.currentTerm, true))
  }

  lemma InstallShape(log: seq<Entry>, a: AppendArgs, from: nat)
    requires LogShape(log) && ArgsShape(a)
    requires from <= |a.entries| && a.prevLogIndex + from < |log|
    ensures LogShape(Install(log, a, from))
    decreases |a.entries| - from
  {
  }

  /** Followers other than the leader whose match index has reached m. */
  function Agreeing(matchIndex: seq<nat>, me: nat, m: nat): set<nat> {
    set i: nat | i < |matchIndex| && i != me && matchIndex[i] >= m
  }

  /** Does this reply still concern the term the peer leads? */
  predicate Leading(p: Peer, a: AppendArgs) {
    p.role == Leader && p.currentTerm == a.term
  }

  /** A call expects to reach just past its last entry. */
  predicate CallShape(call: AppendCall) {
    ArgsShape(call.args) && call.expectedNext == call.args.prevLogIndex + 1 + |call.args.entries|
  }

  /** Progress recorded by a successful reply, if nextIndex is still where the call began. */
  function Advance(p: Peer, call: AppendCall): Peer
    requires PeerWf(p) && CallShape(call) && call.to < p.numPeers
  {
    if p.nextIndex[call.to] + |call.args.entries| == call.expectedNext then
      p.(nextIndex := p.nextIndex[call.to := call.expectedNext],
         matchIndex := p.matchIndex[call.to := call.expectedNext - 1])
    else p
  }

  /** Is the agreement test of a successful reply within the leader's log? */
  predicate ReplyInRange(p: Peer, call: AppendCall, reply: AppendReply)
    requires PeerWf(p) && CallShape(call) && call.to < p.numPeers
  {
    Leading(p, call.args) && reply.term <= p.currentTerm && reply.success ==>
      Advance(p, call).matchIndex[call.to] < |p.log|
  }

  /** Do more than half of the peers, the leader included, agree on an index of the
    leader's own term? */
  predicate Decides(p: Peer, m: nat)
    requires PeerWf(p) && m < |p.log|
  {
    1 + |Agreeing(p.matchIndex, p.me, m)| > p.numPeers / 2 && p.log[m].term == p.currentTerm
  }

  /** An AppendEntries reply arrives: step down, or record progress and perhaps commit,
    or fall back to index 1 and retry with the whole log. */
  function HandleAppendReply(p: Peer, call: AppendCall, reply: AppendReply): (Peer, set<AppendCall>)
    requires PeerWf(p) && CallShape(call) && call.to < p.numPeers && ReplyInRange(p, call, reply)
  {
    if !Leading(p, call.args) then (p, {})
    else if reply.term > p.currentTerm then (StepDown(p, reply.term), {})
    else if reply.success then
      var q := Advance(p, call);
      var m := q.matchIndex[call.to];
      (if Decides(q, m) then q.(commitIndex := Max(q.commitIndex, m)) else q, {})
    else
      var q := p.(nextIndex := p.nextIndex[call.to := 1]);
      (q, {CallFor(q, call.to)})
  }

  // --- applying ------------------------------------------------------------

  /** The apply loop copies the newly committed entries out of the log. */
  predicate CanCollect(p: Peer) {
    p.toApply == [] && p.lastApplied < p.commitIndex < |p.log|
  }

  function Collect(p: Peer): Peer
    requires CanCollect(p)
  {
    p.(toApply := p.log[p.lastApplied + 1 .. p.commitIndex + 1], lastApplied := p.commitIndex)
  }

  function Message(e: Entry): ApplyMsg {
    ApplyMsg(e.command, e.index, e.term)
  }

  /** The apply loop sends the next entry of its batch on the apply channel. */
  function Emit(p: Peer): Peer
    requires p.toApply != []
  {
    p.(toApply := p.toApply[1..], applied := p.applied + [Message(p.toApply[0])])
  }
}
