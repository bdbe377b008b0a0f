/** What holds of the bridge in every reachable state, whatever relayers, committee and users do. */
module BridgeTheorems {
  import opened Base
  import opened Sums
  import opened Proposals
  import opened BridgeState
  import opened BridgeHistory
  import opened BridgeInvariants

  /** Block numbers stay in range and nobody signs as the bridge's own account. */
  ghost predicate Admissible(cfg: Config, s: State, a: Action) {
    && (a.NextBlock? ==> s.now + 1 < U32_LIMIT)
    && (a.CallTransfer? ==> a.origin != Signed(cfg.account))
  }

  ghost predicate StepsTo(cfg: Config, s: State, a: Action, t: State) {
    Admissible(cfg, s, a) && t == Step(cfg, s, a)
  }

  ghost predicate Reaches(cfg: Config, from: State, run: seq<Action>, to: State) {
    if run == [] then to == from
    else
      var rest, last := run[..|run| - 1], run[|run| - 1];
      exists mid :: Reaches(cfg, from, rest, mid) && StepsTo(cfg, mid, last, to)
  }

  lemma ReachesNext(cfg: Config, from: State, run: seq<Action>, mid: State, a: Action, to: State)
    requires Reaches(cfg, from, run, mid) && StepsTo(cfg, mid, a, to)
    ensures Reaches(cfg, from, run + [a], to)
  {
    assert (run + [a])[..|run + [a]| - 1] == run;
  }

  lemma VoteFaithful(cfg: Config, initial: Vault, s: State, origin: Origin, key: Key, inFavour: bool, refused: Refused)
    requires Faithful(cfg, initial, s) && Vote(cfg, s, origin, key, inFavour, refused).Ok?
    ensures Faithful(cfg, initial, Vote(cfg, s, origin, key, inFavour, refused).value)
  {
    CommitFaithful(cfg, initial, s, origin.who, key, inFavour);
    ResolveFaithful(cfg, initial, CommitVote(cfg, s, origin.who, key, inFavour).value, key, refused);
  }

  predicate ByCommittee(a: Action) {
    || a.CallSetThreshold? || a.CallWhitelistChain? || a.CallAddRelayer? || a.CallRemoveRelayer?
    || a.CallSetResource? || a.CallRemoveResource?
  }

  lemma CommitteeFaithful(cfg: Config, initial: Vault, s: State, a: Action)
    requires Faithful(cfg, initial, s) && ByCommittee(a) && Call(cfg, s, a).Ok?
    ensures Faithful(cfg, initial, Call(cfg, s, a).value)
  {
    match a
    case CallSetThreshold(origin, threshold) => ThresholdFaithful(cfg, initial, s, origin, threshold);
    case CallWhitelistChain(origin, id) => WhitelistFaithful(cfg, initial, s, origin, id);
    case CallAddRelayer(origin, who) => AddRelayerFaithful(cfg, initial, s, origin, who);
    case CallRemoveRelayer(origin, who) => RemoveRelayerFaithful(cfg, initial, s, origin, who);
    case CallSetResource(_, rid, info) =>
      var w := s.vault.(resources := s.vault.resources[rid := info]);
      ResourceFaithful(cfg, initial, s, w, ResourceUpdated(rid, info));
    case CallRemoveResource(_, rid) =>
      ResourceFaithful(cfg, initial, s, s.vault.(resources := s.vault.resources - {rid}), ResourceRemoved(rid));
  }

  lemma OthersFaithful(cfg: Config, initial: Vault, s: State, a: Action)
    requires Faithful(cfg, initial, s) && Admissible(cfg, s, a) && !a.NextBlock? && !ByCommittee(a)
          && Call(cfg, s, a).Ok?
    ensures Faithful(cfg, initial, Call(cfg, s, a).value)
  {
    match a
    case CallVote(origin, key, inFavour, refused) => VoteFaithful(cfg, initial, s, origin, key, inFavour, refused);
    case CallEvalVoteState(_, key, refused) => ResolveFaithful(cfg, initial, s, key, refused);
    case CallTransferAssets(origin, amount, recipient, dest, rid, refused) =>
      TransferAssetsFaithful(cfg, initial, s, origin, amount, recipient, dest, rid, refused);
    case OutsideMove(asset, from, to, amount) => OutsideFaithful(cfg, initial, s, asset, from, to, amount);
    case CallTransfer(_, _, _, _, _) =>
      assert false;
  }

  lemma StepFaithful(cfg: Config, initial: Vault, s: State, a: Action)
    requires Faithful(cfg, initial, s) && Admissible(cfg, s, a)
    ensures Faithful(cfg, initial, Step(cfg, s, a))
  {
    if a.NextBlock? {
      BlockFaithful(cfg, initial, s, s.now + 1);
    } else if Call(cfg, s, a).Ok? {
      if ByCommittee(a) {
        CommitteeFaithful(cfg, initial, s, a);
      } else {
        OthersFaithful(cfg, initial, s, a);
      }
    }
  }

  /** In every reachable state the storage is the reading of a lawful log. */
  lemma {:induction false} ReachableFaithful(cfg: Config, g: State, run: seq<Action>, s: State)
    requires Genesis(g) && Reaches(cfg, g, run, s)
    ensures Faithful(cfg, g.vault, s)
    decreases |run|
  {
    if run == [] {
      GenesisFaithful(cfg, g);
    } else {
      var mid :| Reaches(cfg, g, run[..|run| - 1], mid) && StepsTo(cfg, mid, run[|run| - 1], s);
      ReachableFaithful(cfg, g, run[..|run| - 1], mid);
      StepFaithful(cfg, g.vault, mid, run[|run| - 1]);
    }
  }

  // Exactly-once execution

  ghost predicate IsApproved(v: Voting, key: Key) {
    key in v.votes && v.votes[key].status.Approved?
  }

  /** A proposal has been carried out once if it is stored as approved, and never otherwise. */
  lemma ExecutedExactlyOnce(cfg: Config, g: State, run: seq<Action>, s: State, key: Key)
    requires Genesis(g) && Reaches(cfg, g, run, s)
    ensures Executions(s.log, key) == if IsApproved(s.voting, key) then 1 else 0
  {
    ReachableFaithful(cfg, g, run, s);
    assert EntryMatches(cfg, s.voting.votes, s.log, key);
  }

  ghost predicate ApprovedAt(log: seq<Event>, i: int, key: Key) {
    0 <= i < |log| && log[i] == ProposalApproved(key)
  }

  lemma {:induction false} ApprovedSomewhere(log: seq<Event>, key: Key)
    requires StatusOf(log, key).Approved?
    ensures exists i :: ApprovedAt(log, i, key)
  {
    if Last(log) == ProposalApproved(key) {
      assert ApprovedAt(log, |log| - 1, key);
    } else {
      ApprovedSomewhere(Front(log), key);
      var i :| ApprovedAt(Front(log), i, key);
      assert ApprovedAt(log, i, key);
    }
  }

  /**
   An approved proposal was approved at one moment of the run, before it expired, by at least as many
   different accounts as the threshold asked for at that moment, each of them a relayer when it voted
   from a listed chain, and the stored votes in favour are still those.
   */
  lemma ApprovedByThreshold(cfg: Config, g: State, run: seq<Action>, s: State, key: Key) returns (i: nat)
    requires Genesis(g) && Reaches(cfg, g, run, s) && IsApproved(s.voting, key)
    ensures ApprovedAt(s.log, i, key) && (forall j :: ApprovedAt(s.log, j, key) ==> j == i)
    ensures s.voting.votes[key].votesFor == VotesFor(s.log[..i], key)
    ensures |Voters(s.voting.votes[key].votesFor)| >= ThresholdOf(s.log[..i]) > 0
    ensures BlockOf(s.log[..i]) < s.voting.votes[key].expiry
    ensures forall who :: who in s.voting.votes[key].votesFor ==> VotedAsRelayer(s.log[..i], key, who)
  {
    ReachableFaithful(cfg, g, run, s);
    assert EntryMatches(cfg, s.voting.votes, s.log, key);
    ApprovedSomewhere(s.log, key);
    i :| ApprovedAt(s.log, i, key);
    ApprovalIsJustified(cfg, s.log, i, key);
  }

  ghost predicate Closed(s: State, key: Key) {
    key in s.voting.votes && (s.voting.votes[key].IsComplete() || s.voting.votes[key].IsExpired(s.now))
  }

  /** From any state, a decided or expired proposal is left as it is. */
  lemma StepKeepsClosed(cfg: Config, s: State, a: Action, key: Key)
    requires Admissible(cfg, s, a) && Closed(s, key)
    ensures var t := Step(cfg, s, a); Closed(t, key) && t.voting.votes[key] == s.voting.votes[key]
  {
    match a
    case CallVote(origin, k, inFavour, refused) =>
      if Vote(cfg, s, origin, k, inFavour, refused).Ok? {
        var s1 := CommitVote(cfg, s, origin.who, k, inFavour).value;
        ResolveKeepsOthers(cfg, s1, k, refused, key);
      }
    case CallEvalVoteState(origin, k, refused) =>
      if TryResolveProposal(cfg, s, k, refused).Ok? {
        ResolveKeepsOthers(cfg, s, k, refused, key);
      }
    case _ =>
  }

  lemma ResolveKeepsOthers(cfg: Config, s: State, k: Key, refused: Refused, key: Key)
    requires TryResolveProposal(cfg, s, k, refused).Ok? && k != key && key in s.voting.votes
    ensures var t := TryResolveProposal(cfg, s, k, refused).value;
            t.now == s.now && key in t.voting.votes && t.voting.votes[key] == s.voting.votes[key]
  {
  }

  /** Over a whole run a decided or expired proposal never changes again. */
  lemma {:induction false} RunKeepsClosed(cfg: Config, s: State, run: seq<Action>, t: State, key: Key)
    requires Reaches(cfg, s, run, t) && Closed(s, key)
    ensures Closed(t, key) && t.voting.votes[key] == s.voting.votes[key]
    decreases |run|
  {
    if run != [] {
      var mid :| Reaches(cfg, s, run[..|run| - 1], mid) && StepsTo(cfg, mid, run[|run| - 1], t);
      RunKeepsClosed(cfg, s, run[..|run| - 1], mid, key);
      StepKeepsClosed(cfg, mid, run[|run| - 1], key);
    }
  }

  // The decision

  /** The stored count is always the number of relayers as a u32. */
  lemma ReachableRelayerCount(cfg: Config, g: State, run: seq<Action>, s: State)
    requires Genesis(g) && Reaches(cfg, g, run, s)
    ensures s.voting.relayerCount == |s.voting.relayers| % U32_LIMIT
    ensures s.voting.relayers == RelayersOf(s.log) && s.voting.threshold == ThresholdOf(s.log) > 0
  {
    ReachableFaithful(cfg, g, run, s);
    ThresholdPositive(cfg, s.log);
  }

  /** The stored votes on a proposal are distinct and on one side only. */
  lemma ReachableVotes(cfg: Config, g: State, run: seq<Action>, s: State, key: Key)
    requires Genesis(g) && Reaches(cfg, g, run, s) && key in s.voting.votes
    ensures OneVoteEach(s.voting.votes[key])
  {
    ReachableFaithful(cfg, g, run, s);
    assert EntryMatches(cfg, s.voting.votes, s.log, key);
    LawfulVotes(cfg, s.log, key);
  }

  /** What a vote or an evaluation leaves behind is what the votes decide under the current settings. */
  lemma ResolveDecides(cfg: Config, s: State, key: Key, refused: Refused)
    requires TryResolveProposal(cfg, s, key, refused).Ok?
    ensures var t := TryResolveProposal(cfg, s, key, refused).value;
            && key in s.voting.votes && key in t.voting.votes
            && t.voting.relayers == s.voting.relayers && t.voting.relayerCount == s.voting.relayerCount
            && t.voting.threshold == s.voting.threshold
            && t.voting.votes[key].votesFor == s.voting.votes[key].votesFor
            && t.voting.votes[key].votesAgainst == s.voting.votes[key].votesAgainst
            && t.voting.votes[key].status == s.voting.votes[key].Decision(s.voting.threshold, s.voting.relayerCount)
  {
  }

  /** The votes against plus the threshold do not fit a u32, while the relayers do. */
  ghost predicate WrapsAgainst(voting: Voting, v: ProposalVotes) {
    |voting.relayers| < U32_LIMIT <= |v.votesAgainst| + voting.threshold
  }

  /**
   What the votes leave of a proposal: distinct voters, approved exactly by its votes in favour, and
   otherwise rejected exactly when it is hopeless if and only if the counts agree, as they do while all
   voters are relayers who could meet the threshold; a rejecting sum that wraps leaves it open.
   */
  ghost predicate SettledExactly(voting: Voting, v: ProposalVotes) {
    && OneVoteEach(v)
    && (v.status.Approved? <==> |v.votesFor| >= voting.threshold)
    && (!v.status.Approved? && |voting.relayers| < U32_LIMIT && |v.votesAgainst| + voting.threshold < U32_LIMIT ==>
          ((v.status.Rejected? <==> !StillReachable(v, voting.relayers, voting.threshold))
             <==> CountsAgree(v, voting.relayers, voting.threshold)))
    && (Voters(v.votesFor) + Voters(v.votesAgainst) <= voting.relayers && voting.threshold <= |voting.relayers| ==>
          CountsAgree(v, voting.relayers, voting.threshold))
    && (Voters(v.votesAgainst) <= voting.relayers && WrapsAgainst(voting, v) ==> !v.status.Rejected?)
  }

  /** After every successful vote, for or against, the votes have settled the proposal exactly so. */
  lemma VoteSettlesExactly(cfg: Config, g: State, run: seq<Action>, s: State, origin: Origin, key: Key,
          inFavour: bool, refused: Refused)
    requires Genesis(g) && Reaches(cfg, g, run, s) && Vote(cfg, s, origin, key, inFavour, refused).Ok?
    ensures var t := Vote(cfg, s, origin, key, inFavour, refused).value;
            key in t.voting.votes && t.voting.votes[key].HasVoted(origin.who)
                && SettledExactly(t.voting, t.voting.votes[key])
  {
    ReachableFaithful(cfg, g, run, s);
    CommitFaithful(cfg, g.vault, s, origin.who, key, inFavour);
    var s1 := CommitVote(cfg, s, origin.who, key, inFavour).value;
    ResolveSettles(cfg, g.vault, s1, key, refused);
  }

  /** So has every successful evaluation. */
  lemma EvalSettlesExactly(cfg: Config, g: State, run: seq<Action>, s: State, origin: Origin, key: Key,
          refused: Refused)
    requires Genesis(g) && Reaches(cfg, g, run, s) && EvalVoteState(cfg, s, origin, key, refused).Ok?
    ensures var t := EvalVoteState(cfg, s, origin, key, refused).value;
            key in t.voting.votes && SettledExactly(t.voting, t.voting.votes[key])
  {
    ReachableFaithful(cfg, g, run, s);
    ResolveSettles(cfg, g.vault, s, key, refused);
  }

  /** How many votes in favour a vote leaves. */
  ghost function FavourAfter(s: State, key: Key, inFavour: bool): nat {
    (if key in s.voting.votes then |s.voting.votes[key].votesFor| else 0) + (if inFavour then 1 else 0)
  }

  /**
   A successful vote carries the proposal's call out exactly when the votes in favour, this one
   included if it is one, meet the threshold: a vote against does so when they already did.
   */
  lemma VoteExecutesIff(cfg: Config, s: State, origin: Origin, key: Key, inFavour: bool, refused: Refused)
    requires Vote(cfg, s, origin, key, inFavour, refused).Ok?
    ensures var t := Vote(cfg, s, origin, key, inFavour, refused).value;
            var executed := FavourAfter(s, key, inFavour) >= s.voting.threshold;
            && s.log <= t.log
            && (ProposalSucceeded(key) in t.log[|s.log|..] <==> executed)
            && (if executed then Dispatch(cfg, s.vault, key.call, refused) == Ok(t.vault) else t.vault == s.vault)
  {
    var s1 := CommitVote(cfg, s, origin.who, key, inFavour).value;
    ResolveExecutesIff(cfg, s1, key, refused);
    var t := Vote(cfg, s, origin, key, inFavour, refused).value;
    assert t.log[|s.log|..] == s1.log[|s.log|..] + t.log[|s1.log|..];
  }

  lemma ResolveExecutesIff(cfg: Config, s: State, key: Key, refused: Refused)
    requires TryResolveProposal(cfg, s, key, refused).Ok?
    ensures var t := TryResolveProposal(cfg, s, key, refused).value;
            && key in s.voting.votes && s.log <= t.log
            && (var executed := |s.voting.votes[key].votesFor| >= s.voting.threshold;
                && (ProposalSucceeded(key) in t.log[|s.log|..] <==> executed)
                && (if executed then Dispatch(cfg, s.vault, key.call, refused) == Ok(t.vault) else t.vault == s.vault))
  {
    var t := TryResolveProposal(cfg, s, key, refused).value;
    if |s.voting.votes[key].votesFor| >= s.voting.threshold {
      assert t.log == s.log + [ProposalApproved(key)] + [ProposalSucceeded(key)];
      assert t.log[|s.log|..] == [ProposalApproved(key), ProposalSucceeded(key)];
    } else {
      assert t.log[|s.log|..] == [] || t.log[|s.log|..] == [ProposalRejected(key)];
    }
  }

  lemma ResolveSettles(cfg: Config, initial: Vault, s: State, key: Key, refused: Refused)
    requires Faithful(cfg, initial, s) && TryResolveProposal(cfg, s, key, refused).Ok?
    ensures var t := TryResolveProposal(cfg, s, key, refused).value;
            && key in t.voting.votes && key in s.voting.votes
            && t.voting.votes[key].votesFor == s.voting.votes[key].votesFor
            && t.voting.votes[key].votesAgainst == s.voting.votes[key].votesAgainst
            && SettledExactly(t.voting, t.voting.votes[key])
  {
    var t := TryResolveProposal(cfg, s, key, refused).value;
    ResolveDecides(cfg, s, key, refused);
    assert EntryMatches(cfg, s.voting.votes, s.log, key);
    LawfulVotes(cfg, s.log, key);
    DecisionSettles(t.voting, t.voting.votes[key]);
  }

  lemma DecisionSettles(voting: Voting, v: ProposalVotes)
    requires OneVoteEach(v) && voting.relayerCount == |voting.relayers| % U32_LIMIT
    requires v.status == v.Decision(voting.threshold, voting.relayerCount)
    ensures SettledExactly(voting, v)
  {
    if !v.status.Approved? && |voting.relayers| < U32_LIMIT {
      if |v.votesAgainst| + voting.threshold < U32_LIMIT {
        DecisionExactIff(v, voting.relayers, voting.threshold, voting.relayerCount);
      } else if Voters(v.votesAgainst) <= voting.relayers {
        WrapKeepsOpen(v, voting.relayers, voting.threshold, voting.relayerCount);
      }
    }
    if Voters(v.votesFor) + Voters(v.votesAgainst) <= voting.relayers && voting.threshold <= |voting.relayers| {
      CurrentVotersAgree(v, voting.relayers, voting.threshold);
    }
  }

  // Nonces

  /**
   The nonces announced to a chain are exactly 1 up to its stored nonce, and the stored transfers are
   this block's.
   */
  lemma ReachableNonces(cfg: Config, g: State, run: seq<Action>, s: State, dest: ChainId)
    requires Genesis(g) && Reaches(cfg, g, run, s)
    ensures |SentTo(s.log, dest)| == if dest in s.outgoing.nonces then s.outgoing.nonces[dest] else 0
    ensures forall i :: 0 <= i < |SentTo(s.log, dest)| ==> SentTo(s.log, dest)[i].nonce == i + 1
    ensures s.outgoing.bridgeEvents == SentThisBlock(s.log)
  {
    ReachableFaithful(cfg, g, run, s);
    NoncesAreGapless(cfg, s.log, dest);
  }

  // Supply

  /** The stored approved transfers into an asset, by proposal. */
  ghost function ApprovedAmounts(votes: map<Key, ProposalVotes>, resources: map<ResourceId, AssetInfo>,
          asset: Asset): map<Key, int> {
    map key | key in votes && votes[key].status.Approved? && key.call.TransferIn?
        && Backs(resources, key.call.rid, asset)
      :: key.call.amount
  }

  /** The amounts announced out of an asset. */
  ghost function SentAmounts(log: seq<Event>, resources: map<ResourceId, AssetInfo>, asset: Asset): int {
    if log == [] then 0
    else SentAmounts(Front(log), resources, asset) + (match Last(log)
      case TransferSignalled(t) => if Backs(resources, t.rid, asset) then t.amount else 0
      case _ => 0)
  }

  /** The executed transfers into an asset, by proposal. */
  ghost function Carried(log: seq<Event>, resources: map<ResourceId, AssetInfo>, asset: Asset): map<Key, int> {
    if log == [] then map[]
    else match Last(log)
      case ProposalSucceeded(key) =>
        if key.call.TransferIn? && Backs(resources, key.call.rid, asset)
        then Carried(Front(log), resources, asset)[key := key.call.amount]
        else Carried(Front(log), resources, asset)
      case _ => Carried(Front(log), resources, asset)
  }

  lemma {:induction false} CarriedWhenExecuted(log: seq<Event>, resources: map<ResourceId, AssetInfo>, asset: Asset,
          key: Key)
    ensures key in Carried(log, resources, asset) <==>
              Executions(log, key) > 0 && key.call.TransferIn? && Backs(resources, key.call.rid, asset)
    ensures key in Carried(log, resources, asset) ==> Carried(log, resources, asset)[key] == key.call.amount
  {
    if log != [] {
      CarriedWhenExecuted(Front(log), resources, asset, key);
    }
  }

  ghost predicate ResourcesFixed(log: seq<Event>) {
    forall i :: 0 <= i < |log| ==> !log[i].ResourceUpdated? && !log[i].ResourceRemoved?
  }

  lemma {:induction false} NetSplits(cfg: Config, resources: map<ResourceId, AssetInfo>, log: seq<Event>, asset: Asset)
    requires Lawful(cfg, log) && ResourcesFixed(log)
    ensures ResourcesOf(resources, log) == resources
    ensures Net(resources, log, asset) == Total(Carried(log, resources, asset)) - SentAmounts(log, resources, asset)
  {
    if log != [] {
      assert Last(log) == log[|log| - 1];
      assert ResourcesFixed(Front(log));
      NetSplits(cfg, resources, Front(log), asset);
      if Last(log).ProposalSucceeded? {
        var key := Last(log).key;
        CarriedWhenExecuted(Front(log), resources, asset, key);
        if key.call.TransferIn? {
          TotalPut(Carried(Front(log), resources, asset), key, key.call.amount);
        }
      }
    }
  }

  /**
   Cross-chain supply, whatever happens to the resource map: each asset's issuance has moved by
   exactly the transfers carried out into it less those announced out of it, each taken under the
   resources of its moment, and equals the sum of all holdings.
   */
  lemma ReachableSupply(cfg: Config, g: State, run: seq<Action>, s: State, asset: Asset)
    requires Genesis(g) && Reaches(cfg, g, run, s)
    ensures Issuance(s.vault.tokens, asset) == Issuance(g.vault.tokens, asset) + Net(g.vault.resources, s.log, asset)
    ensures asset in s.vault.tokens ==> s.vault.tokens[asset].issuance == Total(s.vault.tokens[asset].accounts)
  {
    ReachableFaithful(cfg, g, run, s);
  }

  /**
   While the resources stay as they were, an asset's issuance is the initial one plus the amounts of
   the proposals stored as approved less the amounts of the transfers announced.
   */
  lemma ReachableFixedSupply(cfg: Config, g: State, run: seq<Action>, s: State, asset: Asset)
    requires Genesis(g) && Reaches(cfg, g, run, s) && ResourcesFixed(s.log)
    ensures Issuance(s.vault.tokens, asset) == Issuance(g.vault.tokens, asset)
              + Total(ApprovedAmounts(s.voting.votes, g.vault.resources, asset))
              - SentAmounts(s.log, g.vault.resources, asset)
  {
    ReachableFaithful(cfg, g, run, s);
    NetSplits(cfg, g.vault.resources, s.log, asset);
    CarriedIsApproved(cfg, s, g.vault.resources, asset);
  }

  lemma CarriedIsApproved(cfg: Config, s: State, resources: map<ResourceId, AssetInfo>, asset: Asset)
    requires VotingMatches(cfg, s.voting, s.log) && ExecutedAsApproved(s.log)
    ensures Carried(s.log, resources, asset) == ApprovedAmounts(s.voting.votes, resources, asset)
  {
    var carried, approved := Carried(s.log, resources, asset), ApprovedAmounts(s.voting.votes, resources, asset);
    forall key
      ensures key in carried <==> key in approved
      ensures key in carried ==> carried[key] == approved[key]
    {
      CarriedWhenExecuted(s.log, resources, asset, key);
      assert EntryMatches(cfg, s.voting.votes, s.log, key);
      assert Executions(s.log, key) == if StatusOf(s.log, key).Approved? then 1 else 0;
    }
  }

  // Outgoing transfers

  function BalanceOf(v: Vault, asset: Asset, who: AccountId): Balance {
    if asset in v.tokens then GetOrZero(v.tokens[asset].accounts, who) else 0
  }

  lemma HolderWithin(v: Vault, asset: Asset, who: AccountId)
    requires Held(v.tokens) && asset in v.tokens
    ensures BalanceOf(v, asset, who) <= v.tokens[asset].issuance
  {
    var accounts: map<AccountId, int> := v.tokens[asset].accounts;
    TotalNonNegative(accounts);
    if who in accounts {
      TotalCovers(accounts, who);
    }
  }

  ghost predicate CanLeave(cfg: Config, s: State, origin: Origin, amount: Balance, dest: ChainId, rid: ResourceId,
          refused: Refused) {
    && origin.Signed? && origin.who in cfg.members && {origin.who, cfg.treasury} !! refused
    && rid in s.vault.resources && s.vault.resources[rid].asset in s.vault.tokens
    && s.vault.resources[rid].fee < amount <= BalanceOf(s.vault, s.vault.resources[rid].asset, origin.who)
    && dest in s.outgoing.nonces && s.outgoing.nonces[dest] < U64_LIMIT - 1
  }

  /**
   An outgoing transfer goes through exactly for a member whose funds cover more than the fee, to a
   listed chain with a nonce left.
   */
  lemma TransferAssetsSucceedsIff(cfg: Config, s: State, origin: Origin, amount: Balance, recipient: seq<u8>,
          dest: ChainId, rid: ResourceId, refused: Refused)
    requires Held(s.vault.tokens)
    ensures TransferAssets(cfg, s, origin, amount, recipient, dest, rid, refused).Ok? <==>
              CanLeave(cfg, s, origin, amount, dest, rid, refused)
  {
    if origin.Signed? && rid in s.vault.resources {
      var info := s.vault.resources[rid];
      if info.asset in s.vault.tokens {
        HolderWithin(s.vault, info.asset, origin.who);
        var burnt := BurnFrom(s.vault, info.asset, origin.who, amount, refused);
        if burnt.Ok? {
          BurnShifts(s.vault, info.asset, origin.who, amount, refused);
          HolderWithin(burnt.value, info.asset, cfg.treasury);
        }
      }
    }
  }

  /**
   What an outgoing transfer does to holdings: its sender pays the amount, the treasury gains the fee,
   nobody else is touched.
   */
  lemma TransferAssetsPays(cfg: Config, s: State, origin: Origin, amount: Balance, recipient: seq<u8>, dest: ChainId,
          rid: ResourceId, refused: Refused, asset: Asset, who: AccountId)
    requires TransferAssets(cfg, s, origin, amount, recipient, dest, rid, refused).Ok?
    ensures var t := TransferAssets(cfg, s, origin, amount, recipient, dest, rid, refused).value;
            && rid in s.vault.resources
            && BalanceOf(t.vault, asset, who) == BalanceOf(s.vault, asset, who)
                 - (if asset == s.vault.resources[rid].asset && who == origin.who then amount else 0)
                 + (if asset == s.vault.resources[rid].asset
                     && who == cfg.treasury then s.vault.resources[rid].fee else 0)
  {
  }
}
