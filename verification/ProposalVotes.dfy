/**
 The votes on one proposal and the decision they lead to.  `ProposalVotes` is the stored value;
 `Ballot` is the working copy the pallet mutates before writing it back.
 */
module Proposals {
  import opened Base

  datatype Status = Initiated | Approved | Rejected

  datatype ProposalVotes = ProposalVotes(
    votesFor: seq<AccountId>,
    votesAgainst: seq<AccountId>,
    status: Status,
    expiry: BlockNumber)
  {
    predicate IsComplete() { status != Initiated }

    predicate HasVoted(who: AccountId) { who in votesFor || who in votesAgainst }

    predicate IsExpired(now: BlockNumber) { expiry <= now }

    /** What the votes decide; the sum on the rejecting side wraps as a u32 does. */
    function Decision(threshold: u32, total: u32): Status {
      if |votesFor| >= threshold then Approved
      else if total >= threshold && (|votesAgainst| % U32_LIMIT + threshold) % U32_LIMIT > total then Rejected
      else Initiated
    }

    function Completed(threshold: u32, total: u32): ProposalVotes {
      if Decision(threshold, total).Initiated? then this else this.(status := Decision(threshold, total))
    }

    function Cast(who: AccountId, inFavour: bool): ProposalVotes {
      if inFavour then this.(votesFor := votesFor + [who]) else this.(votesAgainst := votesAgainst + [who])
    }
  }

  function NewVotes(expiry: BlockNumber): ProposalVotes {
    ProposalVotes([], [], Initiated, expiry)
  }

  class Ballot {
    var votesFor: seq<AccountId>
    var votesAgainst: seq<AccountId>
    var status: Status
    var expiry: BlockNumber

    constructor (stored: ProposalVotes)
      ensures Value() == stored
    {
      votesFor, votesAgainst, status, expiry := stored.votesFor, stored.votesAgainst, stored.status, stored.expiry;
    }

    function Value(): ProposalVotes
      reads this
    {
      ProposalVotes(votesFor, votesAgainst, status, expiry)
    }

    method TryToComplete(threshold: u32, total: u32) returns (decided: Status)
      modifies `status
      ensures decided == old(Value()).Decision(threshold, total)
      ensures Value() == old(Value()).Completed(threshold, total)
    {
      if |votesFor| >= threshold {
        status := Approved;
        return Approved;
      } else if total >= threshold && (|votesAgainst| % U32_LIMIT + threshold) % U32_LIMIT > total {
        status := Rejected;
        return Rejected;
      } else {
        return Initiated;
      }
    }

    method Push(who: AccountId, inFavour: bool)
      modifies `votesFor, `votesAgainst
      ensures Value() == old(Value()).Cast(who, inFavour)
    {
      if inFavour {
        votesFor := votesFor + [who];
      } else {
        votesAgainst := votesAgainst + [who];
      }
    }
  }

  ghost predicate Distinct(s: seq<AccountId>) {
    forall i, j :: 0 <= i < j < |s| ==> s[i] != s[j]
  }

  ghost function Voters(s: seq<AccountId>): set<AccountId> {
    set a | a in s
  }

  lemma {:induction false} DistinctSize(s: seq<AccountId>)
    requires Distinct(s)
    ensures |Voters(s)| == |s|
  {
    if s == [] {
      assert Voters(s) == {};
    } else {
      var rest, last := s[..|s| - 1], s[|s| - 1];
      DistinctSize(rest);
      assert s == rest + [last];
      assert Voters(s) == Voters(rest) + {last};
    }
  }

  /** Nobody votes twice, neither on one side nor on both. */
  ghost predicate OneVoteEach(v: ProposalVotes) {
    Distinct(v.votesFor) && Distinct(v.votesAgainst) && Voters(v.votesFor) !! Voters(v.votesAgainst)
  }

  ghost function Undecided(v: ProposalVotes, relayers: set<AccountId>): set<AccountId> {
    relayers - Voters(v.votesFor) - Voters(v.votesAgainst)
  }

  /** Votes in favour by `more` of the relayers that have not voted would approve the proposal. */
  ghost predicate Suffices(v: ProposalVotes, relayers: set<AccountId>, threshold: u32, more: set<AccountId>) {
    more <= Undecided(v, relayers) && |Voters(v.votesFor) + more| >= threshold
  }

  ghost predicate StillReachable(v: ProposalVotes, relayers: set<AccountId>, threshold: u32) {
    exists more :: Suffices(v, relayers, threshold, more)
  }

  lemma SubsetSize(a: set<AccountId>, b: set<AccountId>)
    requires a <= b
    ensures |a| <= |b|
    decreases |a|
  {
    if a != {} {
      var x :| x in a;
      SubsetSize(a - {x}, b - {x});
    }
  }

  /** The votes in favour by accounts that are no longer relayers: they still count. */
  ghost function FormerFor(v: ProposalVotes, relayers: set<AccountId>): nat {
    |Voters(v.votesFor) - relayers|
  }

  /** The votes against by current relayers: those by former ones block nobody. */
  ghost function CurrentAgainst(v: ProposalVotes, relayers: set<AccountId>): nat {
    |Voters(v.votesAgainst) * relayers|
  }

  /** The threshold stays reachable while the relayers not against, and the former ones in favour, suffice for it. */
  lemma ReachableIff(v: ProposalVotes, relayers: set<AccountId>, threshold: u32)
    requires OneVoteEach(v)
    ensures StillReachable(v, relayers, threshold) <==>
              CurrentAgainst(v, relayers) + threshold <= |relayers| + FormerFor(v, relayers)
  {
    var yes, no, rest := Voters(v.votesFor), Voters(v.votesAgainst), Undecided(v, relayers);
    assert relayers == (yes * relayers) + (no * relayers) + rest;
    assert |relayers| == |yes * relayers| + |no * relayers| + |rest|;
    assert yes == (yes * relayers) + (yes - relayers);
    assert |yes + rest| == |yes| + |rest| == |relayers| + |yes - relayers| - |no * relayers|;
    if CurrentAgainst(v, relayers) + threshold <= |relayers| + FormerFor(v, relayers) {
      assert Suffices(v, relayers, threshold, rest);
    }
    forall more | Suffices(v, relayers, threshold, more) ensures threshold <= |yes + rest| {
      SubsetSize(yes + more, yes + rest);
    }
  }

  /**
   When the counts by which the program decides say what the relayers can still do.  It counts all
   votes against and the relayers only: so under a threshold they could meet, former relayers' votes
   can reject too early; above it nothing rejects, however hopeless.
   */
  ghost predicate CountsAgree(v: ProposalVotes, relayers: set<AccountId>, threshold: u32) {
    var n := |relayers|;
    if threshold <= n then
      || |v.votesAgainst| + threshold <= n
      || n + FormerFor(v, relayers) < CurrentAgainst(v, relayers) + threshold
    else
      CurrentAgainst(v, relayers) + threshold <= n + FormerFor(v, relayers)
  }

  /**
   Exactly when the decision is right for a proposal that is not approved, that is, rejects it if and
   only if no votes by the relayers that have not voted could still approve it: when those counts agree,
   if the votes against plus the threshold fit a u32.
   */
  lemma DecisionExactIff(v: ProposalVotes, relayers: set<AccountId>, threshold: u32, total: u32)
    requires OneVoteEach(v) && total == |relayers| && |v.votesAgainst| + threshold < U32_LIMIT
    requires !v.Decision(threshold, total).Approved?
    ensures (v.Decision(threshold, total).Rejected? <==> !StillReachable(v, relayers, threshold))
              <==> CountsAgree(v, relayers, threshold)
  {
    ReachableIff(v, relayers, threshold);
    CurrentWithinAgainst(v, relayers);
  }

  lemma CurrentWithinAgainst(v: ProposalVotes, relayers: set<AccountId>)
    requires OneVoteEach(v)
    ensures CurrentAgainst(v, relayers) <= |v.votesAgainst|
    ensures CurrentAgainst(v, relayers) <= |relayers|
  {
    DistinctSize(v.votesAgainst);
    SubsetSize(Voters(v.votesAgainst) * relayers, Voters(v.votesAgainst));
    SubsetSize(Voters(v.votesAgainst) * relayers, relayers);
  }

  /** While every voter is a relayer and they could meet the threshold, the counts agree. */
  lemma CurrentVotersAgree(v: ProposalVotes, relayers: set<AccountId>, threshold: u32)
    requires OneVoteEach(v) && Voters(v.votesFor) + Voters(v.votesAgainst) <= relayers && threshold <= |relayers|
    ensures CountsAgree(v, relayers, threshold)
  {
    DistinctSize(v.votesAgainst);
    assert Voters(v.votesAgainst) * relayers == Voters(v.votesAgainst);
    assert Voters(v.votesFor) - relayers == {};
  }

  /** When the sum does not fit, while every voter is a relayer, the wrap keeps a hopeless proposal open. */
  lemma WrapKeepsOpen(v: ProposalVotes, relayers: set<AccountId>, threshold: u32, total: u32)
    requires OneVoteEach(v) && Voters(v.votesAgainst) <= relayers && total == |relayers|
    requires !v.Decision(threshold, total).Approved? && U32_LIMIT <= |v.votesAgainst| + threshold
    ensures v.Decision(threshold, total).Initiated?
    ensures Voters(v.votesFor) <= relayers ==> !StillReachable(v, relayers, threshold)
  {
    ReachableIff(v, relayers, threshold);
    DistinctSize(v.votesAgainst);
    SubsetSize(Voters(v.votesAgainst), relayers);
    assert Voters(v.votesAgainst) * relayers == Voters(v.votesAgainst);
    if Voters(v.votesFor) <= relayers {
      assert Voters(v.votesFor) - relayers == {};
    }
  }

  /**
   Once every relayer has voted, whoever else has, a proposal stays open exactly when it is short of a
   threshold that the relayers could not meet, or of one that wraps the rejecting sum.
   */
  lemma EveryVoteDecidesIff(v: ProposalVotes, relayers: set<AccountId>, threshold: u32, total: u32)
    requires OneVoteEach(v) && relayers <= Voters(v.votesFor) + Voters(v.votesAgainst) && total == |relayers|
    requires |v.votesAgainst| < U32_LIMIT
    ensures v.Decision(threshold, total).Initiated? <==>
              |v.votesFor| < threshold && (total < threshold || U32_LIMIT <= |v.votesAgainst| + threshold)
  {
    DistinctSize(v.votesFor);
    DistinctSize(v.votesAgainst);
    SubsetSize(relayers, Voters(v.votesFor) + Voters(v.votesAgainst));
    assert |Voters(v.votesFor) + Voters(v.votesAgainst)| == |v.votesFor| + |v.votesAgainst|;
  }
}
