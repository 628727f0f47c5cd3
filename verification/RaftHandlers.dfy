/** What each handler of a peer does, told on its fields: who gets a vote, what a call does
  to a log, what a reply does to a leader, what is sent and what is applied. None of the
  relations here mentions a handler; the lemmas and the methods of RaftServer meet them. */
module RaftHandlers {
  import opened Common
  import opened RaftPeer

  // --- votes ---------------------------------------------------------------

  /** The peer one term on, a candidate with its own vote and no other. */
  predicate StandsForElection(p: Peer, q: Peer) {
    q == p.(currentTerm := p.currentTerm + 1, role := Candidate, votedFor := Some(p.me), totalVotes := 1)
  }

  /** The peer back as a follower in a term in which it has not voted. */
  predicate FallsBack(p: Peer, term: nat, q: Peer) {
    q == p.(currentTerm := term, role := Follower, votedFor := None)
  }

  /** A log that ends at index i in term t is at least as up to date as one that ends at
    index j in term u: the later term decides, then the length. */
  predicate AtLeast(t: nat, i: nat, u: nat, j: nat) {
    t > u || (t == u && i >= j)
  }

  /** The request of the holder of a log. */
  predicate Describes(args: VoteArgs, log: seq<Entry>) {
    log != [] && args.lastLogIndex == |log| - 1 && args.lastLogTerm == log[|log| - 1].term
  }

  /** The vote is given exactly to a log at least as up to date by a peer that is free to
    give it; a request of a higher term frees it. */
  predicate VoteEffect(p: Peer, args: VoteArgs, q: Peer, reply: VoteReply) {
    var newer := args.term > p.currentTerm;
    && p.log != []
    && (reply.granted <==>
          && AtLeast(args.lastLogTerm, args.lastLogIndex, p.log[|p.log| - 1].term, |p.log| - 1)
          && (newer || p.votedFor == None || p.votedFor == Some(args.candidate)))
    && reply.term == p.currentTerm
    && q == p.(currentTerm := if newer then args.term else p.currentTerm,
               role := if newer then Follower else p.role,
               votedFor := if reply.granted then Some(args.candidate) else if newer then None else p.votedFor)
  }

  lemma VoteMeets(p: Peer, args: VoteArgs)
    requires PeerWf(p)
    ensures VoteEffect(p, args, HandleVote(p, args).0, HandleVote(p, args).1)
  {
  }

  /** Of any two peers at least one would vote for the other in a term that is new to both;
    both would exactly if their logs end in the same term at the same index. */
  lemma OneOfTwoGrants(p: Peer, q: Peer, toP: VoteArgs, toQ: VoteArgs)
    requires PeerWf(p) && PeerWf(q) && Describes(toP, q.log) && Describes(toQ, p.log)
    requires toP.term > p.currentTerm && toQ.term > q.currentTerm
    ensures var a, b := HandleVote(p, toP).1.granted, HandleVote(q, toQ).1.granted;
            (a || b) && (a && b <==> |p.log| == |q.log| && p.log[|p.log| - 1].term == q.log[|q.log| - 1].term)
  {
    VoteMeets(p, toP);
    VoteMeets(q, toQ);
  }

  /** A candidate whose log extends the voter's gets the vote, terms never falling along it. */
  lemma ExtensionGranted(p: Peer, log: seq<Entry>, args: VoteArgs)
    requires PeerWf(p) && p.log <= log && Describes(args, log) && args.term > p.currentTerm
    requires log[|p.log| - 1].term <= log[|log| - 1].term
    ensures HandleVote(p, args).1.granted && HandleVote(p, args).0.votedFor == Some(args.candidate)
  {
    VoteMeets(p, args);
  }

  /** A grant counts once more, and more than half of the peers make a leader, whose next
    indices all stand just past its commit index. */
  predicate VoteReplyEffect(p: Peer, args: VoteArgs, reply: VoteReply, q: Peer) {
    if p.role != Candidate || p.currentTerm != args.term then q == p
    else if reply.term > p.currentTerm then FallsBack(p, reply.term, q)
    else if !reply.granted then q == p
    else if 2 * (p.totalVotes + 1) <= p.numPeers then q == p.(totalVotes := p.totalVotes + 1)
    else
      && q == p.(totalVotes := p.totalVotes + 1, role := Leader, nextIndex := q.nextIndex)
      && |q.nextIndex| == |p.nextIndex| && forall j | 0 <= j < |q.nextIndex| :: q.nextIndex[j] == p.commitIndex + 1
  }

  lemma VoteReplyMeets(p: Peer, args: VoteArgs, reply: VoteReply)
    ensures VoteReplyEffect(p, args, reply, HandleVoteReply(p, args, reply))
    ensures Wins(p, args, reply) <==> p.role == Candidate && HandleVoteReply(p, args, reply).role == Leader
  {
  }

  // --- sending -------------------------------------------------------------

  /** One call to every other peer, from its next index on, and no further call. */
  ghost predicate CallsEveryone(p: Peer, calls: set<AppendCall>) {
    && |p.nextIndex| == p.numPeers && |calls| == p.numPeers - 1
    && forall i: nat {:trigger Called(p, i, calls)} | i < p.numPeers && i != p.me :: Called(p, i, calls)
  }

  ghost predicate Called(p: Peer, i: nat, calls: set<AppendCall>)
    requires i < |p.nextIndex|
  {
    exists a :: a in calls && CallTo(p, i, a)
  }

  /** A call to peer i that ships the log from its next index on. */
  predicate CallTo(p: Peer, i: nat, a: AppendCall)
    requires i < |p.nextIndex|
  {
    a.to == i && a.args.prevLogIndex + 1 == p.nextIndex[i] && Ships(p, a)
  }

  /** The peers but one. */
  function Others(n: nat, me: nat): (r: set<nat>)
    ensures forall i: nat :: i in r <==> i < n && i != me
    ensures |r| == if me < n then n - 1 else n
  {
    if n == 0 then {} else Others(n - 1, me) + if n - 1 == me then {} else {n - 1}
  }

  /** As many calls as receivers. */
  lemma {:induction false} CallsSize(p: Peer, to: set<nat>)
    requires PeerWf(p) && forall i | i in to :: i < p.numPeers && 1 <= p.nextIndex[i] <= |p.log|
    ensures |set i | i in to :: CallFor(p, i)| == |to|
    decreases |to|
  {
    var calls := set i | i in to :: CallFor(p, i);
    if to == {} {
      assert calls == {};
    } else {
      var x :| x in to;
      CallsSize(p, to - {x});
      var fewer := set i | i in to - {x} :: CallFor(p, i);
      assert CallFor(p, x) !in fewer && calls == fewer + {CallFor(p, x)};
    }
  }

  lemma HeartbeatsMeet(p: Peer)
    requires PeerWf(p) && CanSend(p)
    ensures CallsEveryone(p, Heartbeats(p))
  {
    CallsSize(p, Others(p.numPeers, p.me));
    assert Heartbeats(p) == set i | i in Others(p.numPeers, p.me) :: CallFor(p, i);
    forall i: nat | i < p.numPeers && i != p.me ensures Called(p, i, Heartbeats(p)) {
      assert CallFor(p, i) in Heartbeats(p) && CallTo(p, i, CallFor(p, i));
    }
  }

  // --- a call arrives ------------------------------------------------------

  /** The log has the sent entry j, as far as terms tell. */
  predicate Agrees(log: seq<Entry>, a: AppendArgs, j: nat)
    requires j < |a.entries|
  {
    var x := a.prevLogIndex + 1 + j;
    x < |log| && log[x].term == a.entries[j].term
  }

  /** Entry k is the first of the sent ones that the log does not have. */
  predicate ClashesAt(log: seq<Entry>, a: AppendArgs, k: nat) {
    k < |a.entries| && !Agrees(log, a, k) && forall j | 0 <= j < k :: Agrees(log, a, j)
  }

  /** The log is kept whole if it has all that was sent; otherwise it is cut at the first
    clash and goes on as sent. */
  ghost predicate Spliced(log: seq<Entry>, a: AppendArgs, result: seq<Entry>) {
    if forall j | 0 <= j < |a.entries| :: Agrees(log, a, j) then result == log
    else exists k: nat :: ClashesAt(log, a, k) && Cut(log, a, k, result)
  }

  predicate Cut(log: seq<Entry>, a: AppendArgs, k: nat, result: seq<Entry>)
    requires k < |a.entries|
  {
    var x := a.prevLogIndex + 1 + k;
    x <= |log| && result == log[..x] + a.entries[k..]
  }

  lemma {:induction false} InstallSplices(log: seq<Entry>, a: AppendArgs, from: nat)
    requires LogShape(log) && ArgsShape(a) && from <= |a.entries| && a.prevLogIndex + from < |log|
    requires forall j | 0 <= j < from :: Agrees(log, a, j)
    ensures Spliced(log, a, Install(log, a, from))
    decreases |a.entries| - from
  {
    if from < |a.entries| {
      if Agrees(log, a, from) {
        InstallSplices(log, a, from + 1);
      } else {
        assert ClashesAt(log, a, from) && Cut(log, a, from, Install(log, a, from));
      }
    }
  }

  /** A call of an old term is refused and changes nothing. Any other makes the receiver a
    follower in its term, and succeeds exactly if the receiver has the previous entry. */
  ghost predicate AppendEffect(p: Peer, a: AppendArgs, q: Peer, reply: AppendReply) {
    if a.term < p.currentTerm then q == p && reply == AppendReply(p.currentTerm, false)
    else
      && reply.term == a.term
      && (reply.success <==> a.prevLogIndex < |p.log| && p.log[a.prevLogIndex].term == a.prevLogTerm)
      && q == p.(currentTerm := a.term, role := Follower, log := q.log, commitIndex := q.commitIndex,
                 votedFor := if a.term > p.currentTerm then None else p.votedFor)
      && (!reply.success ==> q.log == p.log && q.commitIndex == p.commitIndex)
      && (reply.success ==> Spliced(p.log, a, q.log) && CommitFollows(p, a, q))
  }

  /** The commit index rises to the leader's, but not past the end of the log. */
  predicate CommitFollows(p: Peer, a: AppendArgs, q: Peer) {
    var end := |q.log| - 1;
    q.commitIndex == if a.leaderCommit <= p.commitIndex then p.commitIndex
                     else if a.leaderCommit < end then a.leaderCommit else end
  }

  lemma AppendMeets(p: Peer, a: AppendArgs)
    requires PeerWf(p) && ArgsShape(a)
    ensures AppendEffect(p, a, HandleAppend(p, a).0, HandleAppend(p, a).1)
  {
    if a.term >= p.currentTerm && Matches(p.log, a) {
      InstallSplices(p.log, a, 0);
      InstallShape(p.log, a, 0);
    }
  }

  // --- a reply arrives -----------------------------------------------------

  /** The peers known to have the leader's log up to m, itself among them. */
  function Reaching(p: Peer, m: nat): set<nat>
    requires |p.matchIndex| == p.numPeers
  {
    set j: nat | j < p.numPeers && (j == p.me || p.matchIndex[j] >= m)
  }

  /** A success moves the receiver's indices past what was sent, if its next index is still
    where the call began; then the index it stands at is committed exactly if more than
    half of the peers reach it and its entry is of the leader's term. */
  predicate SuccessEffect(p: Peer, call: AppendCall, q: Peer)
    requires PeerWf(p) && call.to < p.numPeers
  {
    var to, a := call.to, call.args;
    var begun := p.nextIndex[to] == a.prevLogIndex + 1;
    var m := if begun then a.prevLogIndex + |a.entries| else p.matchIndex[to];
    && m < |p.log|
    && q == p.(nextIndex := if begun then p.nextIndex[to := m + 1] else p.nextIndex,
               matchIndex := p.matchIndex[to := m], commitIndex := q.commitIndex)
    && q.commitIndex ==
       if 2 * |Reaching(q, m)| > p.numPeers && p.log[m].term == p.currentTerm && m > p.commitIndex then m
       else p.commitIndex
  }

  /** A refusal sends the receiver's next index back to 1 and the whole log after it. */
  ghost predicate RefusalEffect(p: Peer, call: AppendCall, q: Peer, calls: set<AppendCall>)
    requires PeerWf(p) && call.to < p.numPeers
  {
    && q == p.(nextIndex := p.nextIndex[call.to := 1])
    && exists a :: calls == {a} && CallTo(q, call.to, a)
  }

  /** A reply to a call of another term than the one the peer leads changes nothing; one of
    a higher term ends the reign. */
  ghost predicate ReplyEffect(p: Peer, call: AppendCall, reply: AppendReply, q: Peer, calls: set<AppendCall>)
    requires PeerWf(p) && call.to < p.numPeers
  {
    if p.role != Leader || p.currentTerm != call.args.term then q == p && calls == {}
    else if reply.term > p.currentTerm then FallsBack(p, reply.term, q) && calls == {}
    else if reply.success then SuccessEffect(p, call, q) && calls == {}
    else RefusalEffect(p, call, q, calls)
  }

  lemma ReachingIsAgreeing(p: Peer, m: nat)
    requires PeerWf(p)
    ensures |Reaching(p, m)| == 1 + |Agreeing(p.matchIndex, p.me, m)|
  {
    assert Reaching(p, m) == Agreeing(p.matchIndex, p.me, m) + {p.me};
  }

  lemma ReplyMeets(p: Peer, call: AppendCall, reply: AppendReply)
    requires PeerWf(p) && CallShape(call) && call.to < p.numPeers && ReplyInRange(p, call, reply)
    ensures var (q, calls) := HandleAppendReply(p, call, reply); ReplyEffect(p, call, reply, q, calls)
  {
    var (q, calls) := HandleAppendReply(p, call, reply);
    if Leading(p, call.args) && reply.term <= p.currentTerm {
      if reply.success {
        ReachingIsAgreeing(q, q.matchIndex[call.to]);
      } else {
        assert CallTo(q, call.to, CallFor(q, call.to));
      }
    }
  }

  // --- applying ------------------------------------------------------------

  /** The peer once its batch is sent. */
  function Drained(p: Peer): Peer
    decreases |p.toApply|
  {
    if p.toApply == [] then p else Drained(Emit(p))
  }

  lemma {:induction false} DrainedSends(p: Peer)
    ensures var q := Drained(p);
            && q == p.(toApply := [], applied := q.applied) && |q.applied| == |p.applied| + |p.toApply|
            && p.applied <= q.applied
            && forall x | 0 <= x < |p.toApply| :: q.applied[|p.applied| + x] == Message(p.toApply[x])
    decreases |p.toApply|
  {
    if p.toApply != [] {
      DrainedSends(Emit(p));
      var q := Drained(p);
      forall x | 0 <= x < |p.toApply| ensures q.applied[|p.applied| + x] == Message(p.toApply[x]) {
        if x > 0 {
          assert p.toApply[x] == Emit(p).toApply[x - 1];
        }
      }
    }
  }

  /** A round of the apply loop sends exactly what has been committed since the last one:
    each entry once, in the order of the log. */
  lemma RoundApplies(p: Peer)
    requires CanCollect(p)
    ensures var q := Drained(Collect(p));
            && q.lastApplied == p.commitIndex && q.toApply == [] && p.applied <= q.applied
            && |q.applied| == |p.applied| + (p.commitIndex - p.lastApplied)
            && forall x | p.lastApplied < x <= p.commitIndex ::
                 var e, m := p.log[x], q.applied[|p.applied| + x - p.lastApplied - 1];
                 m.command == e.command && m.index == e.index && m.term == e.term
  {
    var c := Collect(p);
    DrainedSends(c);
    forall x | p.lastApplied < x <= p.commitIndex ensures p.log[x] == c.toApply[x - p.lastApplied - 1] {
    }
  }
}
