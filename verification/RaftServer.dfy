/** The Raft peer as the object it is: fields updated in place under its lock, one method
  for each thing that happens while the lock is held. Every method does to the object
  exactly what the function of RaftPeer does to the value, and has the effect that
  RaftHandlers tells on the fields. */
module RaftServer {
  import opened Common
  import opened RaftPeer
  import opened RaftHandlers

  class Raft {
    const me: nat
    const numPeers: nat
    var currentTerm: nat
    var votedFor: int
    var state: Role
    var log: seq<Entry>
    var commitIndex: nat
    const nextIndex: array<nat>
    const matchIndex: array<nat>
    var lastApplied: nat
    var totalVotes: nat
    var toApply: seq<Entry>
    var applied: seq<ApplyMsg>

    ghost predicate Valid()
      reads this
    {
      && me < numPeers == nextIndex.Length == matchIndex.Length
      && nextIndex != matchIndex
      && -1 <= votedFor
      && LogShape(log)
    }

    /** The object as a value; -1 is "no vote". */
    ghost function View(): (p: Peer)
      requires Valid()
      reads this, nextIndex, matchIndex
      ensures PeerWf(p)
    {
      Peer(me, numPeers, currentTerm, if votedFor == -1 then None else Some(votedFor), state, log,
           commitIndex, nextIndex[..], matchIndex[..], lastApplied, totalVotes, toApply, applied)
    }

    constructor (me: nat, n: nat)
      requires me < n
      ensures Valid() && View() == NewPeer(me, n)
      ensures currentTerm == 0 && votedFor == -1 && state == Follower && log == [Entry(0, NoCommand, 0)]
      ensures commitIndex == 0 == lastApplied && toApply == [] && applied == []
      ensures forall j | 0 <= j < n :: nextIndex[j] == 0 == matchIndex[j]
      ensures fresh(nextIndex) && fresh(matchIndex)
    {
      this.me, numPeers := me, n;
      currentTerm, votedFor, state, log := 0, -1, Follower, [SLOT_0];
      commitIndex, lastApplied, totalVotes, toApply, applied := 0, 0, 0, [], [];
      nextIndex := new nat[n](_ => 0);
      matchIndex := new nat[n](_ => 0);
      new;
      assert nextIndex[..] == seq(n, _ => 0) && matchIndex[..] == seq(n, _ => 0);
    }

    method LastLogIndex() returns (i: nat)
      requires Valid()
      ensures i == |log| - 1
    {
      i := log[|log| - 1].index;
    }

    method LastLogTerm() returns (t: int)
      requires Valid()
      ensures t == LastTerm(log)
    {
      if |log| == 0 {
        return -1;
      }
      t := log[|log| - 1].term;
    }

    // --- elections ---------------------------------------------------------

    /** The election timer fires: unless leading, stand for election. */
    method OnElectionTimeout() returns (request: Option<VoteArgs>)
      requires Valid()
      modifies this
      ensures Valid() && View() == Timeout(old(View()))
      ensures request == if old(state) == Leader then None else Some(Ballot(View()))
      ensures old(state) == Leader ==> View() == old(View())
      ensures old(state) != Leader ==>
                && StandsForElection(old(View()), View())
                && request.value.term == currentTerm && request.value.candidate == me && Describes(request.value, log)
    {
      request := None;
      if state != Leader {
        currentTerm := currentTerm + 1;
        state := Candidate;
        votedFor := me;
        totalVotes := 1;
        var i := LastLogIndex();
        request := Some(VoteArgs(currentTerm, me, i, log[|log| - 1].term));
      }
    }

    method RequestVote(args: VoteArgs) returns (reply: VoteReply)
      requires Valid()
      modifies this
      ensures Valid() && (View(), reply) == HandleVote(old(View()), args)
      ensures VoteEffect(old(View()), args, View(), reply)
    {
      VoteMeets(View(), args);
      var term := currentTerm;
      var shouldGrantVote := false;
      if args.term > currentTerm {
        currentTerm := args.term;
        state := Follower;
        votedFor := -1;
      }
      var lastTerm := LastLogTerm();
      var lastIndex := LastLogIndex();
      if (args.lastLogTerm > lastTerm || (args.lastLogTerm == lastTerm && lastIndex <= args.lastLogIndex))
         && (votedFor == -1 || votedFor == args.candidate) {
        shouldGrantVote := true;
        votedFor := args.candidate;
      }
      reply := VoteReply(term, shouldGrantVote);
    }

    /** A reply to this peer's request for votes. */
    method OnVoteReply(request: VoteArgs, response: VoteReply) returns (calls: set<AppendCall>)
      requires Valid()
      requires Wins(View(), request, response) ==> CanSend(HandleVoteReply(View(), request, response))
      modifies this, nextIndex
      ensures Valid() && View() == HandleVoteReply(old(View()), request, response)
      ensures VoteReplyEffect(old(View()), request, response, View())
      ensures old(Wins(View(), request, response)) ==> CanSend(View()) && calls == Heartbeats(View())
      ensures if old(state) == Candidate && state == Leader then CallsEveryone(View(), calls) else calls == {}
    {
      calls := {};
      ghost var p := View();
      VoteReplyMeets(p, request, response);
      if state == Candidate && currentTerm == request.term {
        if response.term > currentTerm {
          state := Follower;
          currentTerm := response.term;
          votedFor := -1;
        } else if response.granted {
          totalVotes := totalVotes + 1;
          if totalVotes > numPeers / 2 {
            for idx := 0 to nextIndex.Length
              modifies nextIndex
              invariant forall x | 0 <= x < idx :: nextIndex[x] == commitIndex + 1
            {
              nextIndex[idx] := commitIndex + 1;
            }
            state := Leader;
            assert nextIndex[..] == seq(|p.nextIndex|, _ => p.commitIndex + 1);
            assert View() == HandleVoteReply(p, request, response);
            calls := SendHeartbeats();
          }
        }
      }
    }

    // --- log replication ---------------------------------------------------

    /** One call to every other peer, each with the rest of the log from its next index. */
    method SendHeartbeats() returns (calls: set<AppendCall>)
      requires Valid() && CanSend(View())
      ensures Valid() && calls == Heartbeats(View()) && CallsEveryone(View(), calls)
    {
      calls := {};
      ghost var p := View();
      HeartbeatsMeet(p);
      for i := 0 to numPeers
        invariant calls == set j: nat | j < i && j != me :: CallFor(p, j)
      {
        if i != me {
          var prevLogIndex := nextIndex[i] - 1;
          var prevLogTerm := log[prevLogIndex].term;
          var entries := log[nextIndex[i]..];
          var call := AppendCall(i, nextIndex[i] + |entries|,
                                 AppendArgs(currentTerm, me, prevLogIndex, prevLogTerm, entries, commitIndex));
          assert call == CallFor(p, i);
          calls := calls + {call};
        }
      }
    }

    /** A client command: a leader appends it and sends it out at once. */
    method Start(command: Command) returns (index: int, term: int, isLeader: bool, calls: set<AppendCall>)
      requires Valid() && (state == Leader ==> CanSend(View()))
      modifies this
      ensures Valid() && View() == RaftPeer.Start(old(View()), command)
      ensures isLeader == (old(state) == Leader)
      ensures isLeader ==>
                && index == |old(log)| && term == old(currentTerm)
                && View() == old(View()).(log := old(log) + [Entry(term, command, index)])
                && CanSend(View()) && calls == Heartbeats(View()) && CallsEveryone(View(), calls)
      ensures !isLeader ==> index == -1 && term == -1 && calls == {} && View() == old(View())
    {
      index, term, isLeader, calls := -1, -1, true, {};
      if state == Leader {
        term := currentTerm;
        var last := LastLogIndex();
        index := last + 1;
        log := log + [Entry(currentTerm, command, last + 1)];
        calls := SendHeartbeats();
      } else {
        isLeader := false;
      }
    }

    method AppendEntries(request: AppendArgs) returns (response: AppendReply)
      requires Valid() && ArgsShape(request)
      modifies this
      ensures Valid() && (View(), response) == HandleAppend(old(View()), request)
      ensures AppendEffect(old(View()), request, View(), response)
    {
      AppendMeets(View(), request);
      if request.term < currentTerm {
        response := AppendReply(currentTerm, false);
        return;
      }
      ghost var p := View();
      if request.term > currentTerm {
        votedFor := -1;
        currentTerm := request.term;
      }
      state := Follower;
      assert View() == Accept(p, request);
      var last := LastLogIndex();
      if request.prevLogIndex > last || log[request.prevLogIndex].term != request.prevLogTerm {
        response := AppendReply(currentTerm, false);
        return;
      }
      InstallScan(request);
      last := LastLogIndex();
      if request.leaderCommit > commitIndex {
        if request.leaderCommit < last {
          commitIndex := request.leaderCommit;
        } else {
          commitIndex := last;
        }
      }
      response := AppendReply(currentTerm, true);
    }

    /** The scan of AppendEntries: from the first entry the log lacks, or holds with
      another term, the sent entries replace the log. */
    method InstallScan(request: AppendArgs)
      requires Valid() && ArgsShape(request) && request.prevLogIndex < |log|
      modifies this`log
      ensures Valid() && log == Install(old(log), request, 0) && Spliced(old(log), request, log)
    {
      var before := log;
      InstallShape(before, request, 0);
      InstallSplices(before, request, 0);
      var i := 0;
      while i < |request.entries|
        invariant 0 <= i <= |request.entries| && request.prevLogIndex + i < |before| && log == before
        invariant Install(before, request, 0) == Install(before, request, i)
      {
        var newEntry := request.entries[i];
        if newEntry.index >= |log| || log[newEntry.index].term != newEntry.term {
          log := log[..newEntry.index] + request.entries[i..];
          return;
        }
        i := i + 1;
      }
    }

    /** A reply to one of this peer's calls. */
    method RespAppendEntries(call: AppendCall, reply: AppendReply) returns (calls: set<AppendCall>)
      requires Valid() && CallShape(call) && call.to < numPeers && ReplyInRange(View(), call, reply)
      modifies this, nextIndex, matchIndex
      ensures Valid() && (View(), calls) == HandleAppendReply(old(View()), call, reply)
      ensures ReplyEffect(old(View()), call, reply, View(), calls)
    {
      calls := {};
      ghost var p := View();
      ReplyMeets(p, call, reply);
      var server := call.to;
      if state == Leader && call.args.term == currentTerm {
        if reply.term > currentTerm {
          state := Follower;
          votedFor := -1;
          currentTerm := reply.term;
          return;
        }
        if reply.success {
          if nextIndex[server] + |call.args.entries| == call.expectedNext {
            nextIndex[server] := call.expectedNext;
            matchIndex[server] := nextIndex[server] - 1;
          }
          assert View() == Advance(p, call);
          var agreed := CountAgreeing(matchIndex[server]);
          if 1 + agreed > numPeers / 2 && log[matchIndex[server]].term == currentTerm {
            commitIndex := Max(commitIndex, matchIndex[server]);
          }
          return;
        }
        nextIndex[server] := 1;
        ghost var q := p.(nextIndex := p.nextIndex[server := 1]);
        assert View() == q;
        var entries := log[nextIndex[server]..];
        calls := {AppendCall(server, nextIndex[server] + |entries|,
                             AppendArgs(currentTerm, me, nextIndex[server] - 1, log[nextIndex[server] - 1].term,
                               entries, commitIndex))};
      }
    }

    /** How many other peers have reached index m. */
    method CountAgreeing(m: nat) returns (count: nat)
      requires Valid()
      ensures count == |Agreeing(matchIndex[..], me, m)|
    {
      count := 0;
      ghost var found: set<nat> := {};
      for i := 0 to numPeers
        invariant found == set j: nat | j < i && j != me && matchIndex[j] >= m
        invariant count == |found|
      {
        if i != me && matchIndex[i] >= m {
          count := count + 1;
          found := found + {i};
        }
      }
      assert found == Agreeing(matchIndex[..], me, m);
    }

    // --- applying ----------------------------------------------------------

    /** One round of the apply loop under the lock: copy the newly committed entries. */
    method CollectCommitted() returns (some: bool)
      requires Valid() && toApply == [] && (lastApplied < commitIndex ==> commitIndex < |log|)
      modifies this
      ensures Valid() && some == old(lastApplied < commitIndex)
      ensures some ==> View() == Collect(old(View()))
      ensures some ==>
                && lastApplied == commitIndex && |toApply| == commitIndex - old(lastApplied)
                && forall x | old(lastApplied) < x <= commitIndex :: toApply[x - old(lastApplied) - 1] == log[x]
      ensures !some ==> View() == old(View())
    {
      some := lastApplied < commitIndex;
      if some {
        toApply := log[lastApplied + 1 .. commitIndex + 1];
        lastApplied := commitIndex;
      }
    }

    /** Send the copied batch on the apply channel, entry by entry. */
    method EmitBatch()
      requires Valid()
      modifies this
      ensures Valid() && toApply == []
      ensures applied == old(applied) + seq(|old(toApply)|,
              i requires 0 <= i < |old(toApply)| => Message(old(toApply)[i]))
      ensures View() == old(View()).(toApply := [], applied := applied)
    {
      ghost var p := View();
      ghost var batch := toApply;
      ghost var k := 0;
      while toApply != []
        invariant 0 <= k <= |batch| && toApply == batch[k..] && Valid()
        invariant applied == p.applied + seq(k, i requires 0 <= i < k => Message(batch[i]))
        invariant View() == p.(toApply := toApply, applied := applied)
        decreases |toApply|
      {
        applied := applied + [Message(toApply[0])];
        toApply := toApply[1..];
        k := k + 1;
      }
    }
  }
}
