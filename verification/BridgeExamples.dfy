/**
 Runs of the bridge in which a vote against a proposal carries it out, and in which its counts decide
 wrongly: a former relayer's vote rejects too early, and a raised threshold keeps a hopeless proposal open.
 */
module BridgeExamples {
  import opened Base
  import opened Proposals
  import opened BridgeState
  import opened BridgeInvariants
  import opened BridgeTheorems

  ghost function Chain(): Config { Config(5, 10, 0, 1, {}) }

  ghost function Fresh(): State {
    State(0, Voting(1, {}, 0, map[]), Outgoing(map[], []),
        Vault(map[[9] := AssetInfo(0, None)], map[None := Token(0, map[])]), [])
  }

  ghost function Arrival(): Key { Key(7, 1, TransferIn(4, 100, [9])) }

  lemma Listing(s: State, id: ChainId)
    requires id != 5 && id !in s.outgoing.nonces
    ensures var t := Step(Chain(), s, CallWhitelistChain(Root, id));
            && StepsTo(Chain(), s, CallWhitelistChain(Root, id), t)
            && t.outgoing == s.outgoing.(nonces := s.outgoing.nonces[id := 0])
            && t.now == s.now && t.voting == s.voting && t.vault == s.vault
  {
  }

  lemma Setting(s: State, threshold: u32)
    requires 0 < threshold
    ensures var t := Step(Chain(), s, CallSetThreshold(Root, threshold));
            && StepsTo(Chain(), s, CallSetThreshold(Root, threshold), t)
            && t.voting == s.voting.(threshold := threshold)
            && t.now == s.now && t.outgoing == s.outgoing && t.vault == s.vault
  {
  }

  lemma Joining(s: State, who: AccountId)
    requires who !in s.voting.relayers && s.voting.relayerCount < 100
    ensures var t := Step(Chain(), s, CallAddRelayer(Root, who));
            && StepsTo(Chain(), s, CallAddRelayer(Root, who), t)
            && t.voting == s.voting.(relayers := s.voting.relayers + {who}, relayerCount := s.voting.relayerCount + 1)
            && t.now == s.now && t.outgoing == s.outgoing && t.vault == s.vault
  {
  }

  /** Two relayers under a threshold of two. */
  lemma Prepared() returns (run: seq<Action>, s: State)
    ensures Genesis(Fresh()) && Reaches(Chain(), Fresh(), run, s)
    ensures s.now == 0 && s.voting == Voting(2, {2, 3}, 2, map[]) && s.outgoing.nonces == map[7 := 0]
    ensures s.vault == Fresh().vault
  {
    var a, b, c, d := CallWhitelistChain(Root, 7), CallSetThreshold(Root, 2), CallAddRelayer(Root, 2),
        CallAddRelayer(Root, 3);
    var s0 := Fresh();
    Listing(s0, 7);
    var s1 := Step(Chain(), s0, a);
    ReachesNext(Chain(), s0, [], s0, a, s1);
    Setting(s1, 2);
    var s2 := Step(Chain(), s1, b);
    ReachesNext(Chain(), s0, [] + [a], s1, b, s2);
    Joining(s2, 2);
    var s3 := Step(Chain(), s2, c);
    ReachesNext(Chain(), s0, [] + [a] + [b], s2, c, s3);
    Joining(s3, 3);
    s := Step(Chain(), s3, d);
    ReachesNext(Chain(), s0, [] + [a] + [b] + [c], s3, d, s);
    run := [] + [a] + [b] + [c] + [d];
  }

  /** The first one's vote in favour is not enough. */
  lemma OneVoteFor() returns (run: seq<Action>, s: State)
    ensures Genesis(Fresh()) && Reaches(Chain(), Fresh(), run, s)
    ensures s.now == 0 && s.voting.threshold == 2 && s.voting.relayers == {2, 3} && s.outgoing.nonces == map[7 := 0]
    ensures s.voting.votes == map[Arrival() := ProposalVotes([2], [], Initiated, 10)] && s.vault == Fresh().vault
  {
    var earlier, s4 := Prepared();
    var e := CallVote(Signed(2), Arrival(), true, {});
    s := Step(Chain(), s4, e);
    ReachesNext(Chain(), Fresh(), earlier, s4, e, s);
    run := earlier + [e];
    FirstVote(s4);
  }

  lemma FirstVote(s: State)
    requires s.now == 0 && s.voting == Voting(2, {2, 3}, 2, map[]) && s.outgoing.nonces == map[7 := 0]
    ensures var t := Step(Chain(), s, CallVote(Signed(2), Arrival(), true, {}));
            && t.now == 0 && t.vault == s.vault && t.outgoing == s.outgoing
            && t.voting == s.voting.(votes := map[Arrival() := ProposalVotes([2], [], Initiated, 10)])
  {
    var v := NewVotes(10).Cast(2, true);
    assert v == ProposalVotes([2], [], Initiated, 10);
    assert v.Completed(2, 2) == v;
    var s1 := CommitVote(Chain(), s, 2, Arrival(), true).value;
    assert s1.voting.votes == map[Arrival() := v];
    assert TryResolveProposal(Chain(), s1, Arrival(), {}).Ok?;
  }

  /** The threshold goes down to one, and the other relayer's vote against mints the transfer. */
  lemma VoteAgainstExecutes() returns (run: seq<Action>, s: State)
    ensures Genesis(Fresh()) && Reaches(Chain(), Fresh(), run, s)
    ensures run != [] && run[|run| - 1] == CallVote(Signed(3), Arrival(), false, {})
    ensures s.log != [] && s.log[|s.log| - 1] == ProposalSucceeded(Arrival())
    ensures IsApproved(s.voting, Arrival()) && s.voting.votes[Arrival()].votesAgainst == [3]
          && BalanceOf(s.vault, None, 4) == 100
  {
    var earlier, s5 := OneVoteFor();
    var f, g := CallSetThreshold(Root, 1), CallVote(Signed(3), Arrival(), false, {});
    Setting(s5, 1);
    var s6 := Step(Chain(), s5, f);
    ReachesNext(Chain(), Fresh(), earlier, s5, f, s6);
    s := Step(Chain(), s6, g);
    ReachesNext(Chain(), Fresh(), earlier + [f], s6, g, s);
    run := earlier + [f] + [g];
    LastVote(s6);
  }

  lemma LastVote(s: State)
    requires s.now == 0 && s.voting.threshold == 1 && s.voting.relayers == {2, 3} && s.outgoing.nonces == map[7 := 0]
    requires s.voting.votes == map[Arrival() := ProposalVotes([2], [], Initiated, 10)] && s.vault == Fresh().vault
    ensures var t := Step(Chain(), s, CallVote(Signed(3), Arrival(), false, {}));
            && Vote(Chain(), s, Signed(3), Arrival(), false, {}) == Ok(t)
            && t.log != [] && t.log[|t.log| - 1] == ProposalSucceeded(Arrival())
            && IsApproved(t.voting, Arrival()) && t.voting.votes[Arrival()].votesAgainst == [3]
            && BalanceOf(t.vault, None, 4) == 100
  {
    var s1 := CommitVote(Chain(), s, 3, Arrival(), false).value;
    assert s1.voting.votes[Arrival()] == ProposalVotes([2], [3], Initiated, 10);
    assert Dispatch(Chain(), s1.vault, Arrival().call, {}).Ok?;
    assert TryResolveProposal(Chain(), s1, Arrival(), {}).Ok?;
  }

  ghost function Question(): Key { Key(7, 1, Remark) }

  ghost function Against(who: AccountId): Action { CallVote(Signed(who), Question(), false, {}) }

  lemma Leaving(s: State, who: AccountId)
    requires who in s.voting.relayers && 0 < s.voting.relayerCount
    ensures var t := Step(Chain(), s, CallRemoveRelayer(Root, who));
            && StepsTo(Chain(), s, CallRemoveRelayer(Root, who), t)
            && t.voting == s.voting.(relayers := s.voting.relayers - {who}, relayerCount := s.voting.relayerCount - 1)
            && t.now == s.now && t.outgoing == s.outgoing && t.vault == s.vault
  {
  }

  /** A vote against at block 0, from the entry before it and the one it leaves. */
  lemma Rejecting(s: State, who: AccountId, v: ProposalVotes, decided: ProposalVotes)
    requires s.now == 0 && who in s.voting.relayers && 7 in s.outgoing.nonces
    requires v == if Question() in s.voting.votes then s.voting.votes[Question()] else NewVotes(10)
    requires v.status.Initiated? && v.expiry == 10 && !v.HasVoted(who)
    requires decided == v.Cast(who, false).Completed(s.voting.threshold, s.voting.relayerCount)
    requires !decided.status.Approved?
    ensures var t := Step(Chain(), s, Against(who));
            && StepsTo(Chain(), s, Against(who), t)
            && Vote(Chain(), s, Signed(who), Question(), false, {}) == Ok(t)
            && t.voting == s.voting.(votes := s.voting.votes[Question() := decided])
            && t.now == s.now && t.outgoing == s.outgoing && t.vault == s.vault
  {
    var cast := v.Cast(who, false);
    var s1 := CommitVote(Chain(), s, who, Question(), false).value;
    assert s1.voting.votes == s.voting.votes[Question() := cast];
    assert s1.voting.votes[Question() := decided] == s.voting.votes[Question() := decided];
  }

  /** Relayer 1 has voted against and is no relayer any more. */
  lemma FormerVote() returns (run: seq<Action>, s: State)
    ensures Genesis(Fresh()) && Reaches(Chain(), Fresh(), run, s)
    ensures s.now == 0 && 7 in s.outgoing.nonces
    ensures s.voting == Voting(2, {}, 0, map[Question() := ProposalVotes([], [1], Initiated, 10)])
  {
    var a, b, c, d := CallWhitelistChain(Root, 7), CallSetThreshold(Root, 2), CallAddRelayer(Root, 1), Against(1);
    var s0 := Fresh();
    Listing(s0, 7);
    var s1 := Step(Chain(), s0, a);
    ReachesNext(Chain(), s0, [], s0, a, s1);
    Setting(s1, 2);
    var s2 := Step(Chain(), s1, b);
    ReachesNext(Chain(), s0, [] + [a], s1, b, s2);
    Joining(s2, 1);
    var s3 := Step(Chain(), s2, c);
    ReachesNext(Chain(), s0, [] + [a] + [b], s2, c, s3);
    Rejecting(s3, 1, NewVotes(10), ProposalVotes([], [1], Initiated, 10));
    var s4 := Step(Chain(), s3, d);
    ReachesNext(Chain(), s0, [] + [a] + [b] + [c], s3, d, s4);
    Leaving(s4, 1);
    s := Step(Chain(), s4, CallRemoveRelayer(Root, 1));
    ReachesNext(Chain(), s0, [] + [a] + [b] + [c] + [d], s4, CallRemoveRelayer(Root, 1), s);
    run := [] + [a] + [b] + [c] + [d] + [CallRemoveRelayer(Root, 1)];
  }

  lemma NewRelayers() returns (run: seq<Action>, s: State)
    ensures Genesis(Fresh()) && Reaches(Chain(), Fresh(), run, s)
    ensures s.now == 0 && 7 in s.outgoing.nonces
    ensures s.voting == Voting(2, {2, 3, 4}, 3, map[Question() := ProposalVotes([], [1], Initiated, 10)])
  {
    var earlier, s0 := FormerVote();
    var a, b, c := CallAddRelayer(Root, 2), CallAddRelayer(Root, 3), CallAddRelayer(Root, 4);
    Joining(s0, 2);
    var s1 := Step(Chain(), s0, a);
    ReachesNext(Chain(), Fresh(), earlier, s0, a, s1);
    Joining(s1, 3);
    var s2 := Step(Chain(), s1, b);
    ReachesNext(Chain(), Fresh(), earlier + [a], s1, b, s2);
    Joining(s2, 4);
    s := Step(Chain(), s2, c);
    ReachesNext(Chain(), Fresh(), earlier + [a] + [b], s2, c, s);
    run := earlier + [a] + [b] + [c];
    assert s.voting.relayers == {2, 3, 4};
  }

  /**
   Three relayers and a threshold of two: one relayer's vote against, on top of a former relayer's,
   rejects the proposal although the other two could still approve it.
   */
  lemma FormerVoteRejectsEarly() returns (run: seq<Action>, s: State)
    ensures Genesis(Fresh()) && Reaches(Chain(), Fresh(), run, s)
    ensures run != [] && run[|run| - 1] == Against(2) && Question() in s.voting.votes
    ensures var v := s.voting.votes[Question()];
            && v.status.Rejected? && StillReachable(v, s.voting.relayers, s.voting.threshold)
            && !CountsAgree(v, s.voting.relayers, s.voting.threshold)
  {
    var earlier, s0 := NewRelayers();
    var v := ProposalVotes([], [1, 2], Rejected, 10);
    assert [1] + [2] == [1, 2];
    Rejecting(s0, 2, ProposalVotes([], [1], Initiated, 10), v);
    s := Step(Chain(), s0, Against(2));
    ReachesNext(Chain(), Fresh(), earlier, s0, Against(2), s);
    run := earlier + [Against(2)];
    TooEarly();
  }

  lemma TwoVoters(a: AccountId, b: AccountId)
    ensures Voters([a, b]) == {a, b} && Voters([]) == {}
  {
  }

  lemma TooEarly()
    ensures var v, relayers := ProposalVotes([], [1, 2], Rejected, 10), {2, 3, 4};
            StillReachable(v, relayers, 2) && !CountsAgree(v, relayers, 2)
  {
    var v, relayers := ProposalVotes([], [1, 2], Rejected, 10), {2, 3, 4};
    TwoVoters(1, 2);
    assert Suffices(v, relayers, 2, {3, 4}) by {
      assert {} + {3, 4} == {3, 4};
    }
    EarlyCounts(v, relayers);
  }

  lemma EarlyCounts(v: ProposalVotes, relayers: set<AccountId>)
    requires Voters(v.votesFor) == {} && Voters(v.votesAgainst) == {1, 2} && relayers == {2, 3, 4}
    ensures |relayers| == 3 && FormerFor(v, relayers) == 0 && CurrentAgainst(v, relayers) == 1
  {
    assert {1, 2} * relayers == {2};
    assert Voters(v.votesFor) - relayers == {};
  }

  /** Two relayers and a threshold raised to three: both vote against, and the hopeless proposal stays open. */
  lemma RaisedThresholdStaysOpen() returns (run: seq<Action>, s: State)
    ensures Genesis(Fresh()) && Reaches(Chain(), Fresh(), run, s)
    ensures run != [] && run[|run| - 1] == Against(3) && Question() in s.voting.votes
    ensures var v := s.voting.votes[Question()];
            && v.status.Initiated? && Voters(v.votesAgainst) == s.voting.relayers
            && !StillReachable(v, s.voting.relayers, s.voting.threshold)
            && !CountsAgree(v, s.voting.relayers, s.voting.threshold)
  {
    var earlier, s0 := Prepared();
    var a := CallSetThreshold(Root, 3);
    Setting(s0, 3);
    var s1 := Step(Chain(), s0, a);
    ReachesNext(Chain(), Fresh(), earlier, s0, a, s1);
    var v, w := ProposalVotes([], [2], Initiated, 10), ProposalVotes([], [2, 3], Initiated, 10);
    Rejecting(s1, 2, NewVotes(10), v);
    var s2 := Step(Chain(), s1, Against(2));
    ReachesNext(Chain(), Fresh(), earlier + [a], s1, Against(2), s2);
    assert [2] + [3] == [2, 3];
    Rejecting(s2, 3, v, w);
    s := Step(Chain(), s2, Against(3));
    ReachesNext(Chain(), Fresh(), earlier + [a] + [Against(2)], s2, Against(3), s);
    run := earlier + [a] + [Against(2)] + [Against(3)];
    Hopeless();
  }

  lemma Hopeless()
    ensures var v, relayers := ProposalVotes([], [2, 3], Initiated, 10), {2, 3};
            Voters(v.votesAgainst) == relayers && !StillReachable(v, relayers, 3) && !CountsAgree(v, relayers, 3)
  {
    var v, relayers := ProposalVotes([], [2, 3], Initiated, 10), {2, 3};
    TwoVoters(2, 3);
    LateCounts(v, relayers);
    forall more ensures !Suffices(v, relayers, 3, more) {
      assert Undecided(v, relayers) == {};
    }
  }

  lemma LateCounts(v: ProposalVotes, relayers: set<AccountId>)
    requires Voters(v.votesFor) == {} && Voters(v.votesAgainst) == {2, 3} == relayers
    ensures |relayers| == 2 && FormerFor(v, relayers) == 0 && CurrentAgainst(v, relayers) == 2
  {
    assert {2, 3} * relayers == relayers;
    assert Voters(v.votesFor) - relayers == {};
  }
}
