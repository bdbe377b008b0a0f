/**
 What every step of the bridge keeps: the storage is the reading of a lawful log, approved
 proposals have been carried out exactly once, and every asset's supply is accounted for.
 */
module BridgeInvariants {
  import opened Base
  import opened Sums
  import opened Proposals
  import opened BridgeState
  import opened BridgeHistory

  /** What is stored for a proposal is what the log says about it. */
  ghost predicate EntryMatches(cfg: Config, votes: map<Key, ProposalVotes>, log: seq<Event>, key: Key) {
    if key in votes then
      && votes[key].votesFor == VotesFor(log, key)
      && votes[key].votesAgainst == VotesAgainst(log, key)
      && votes[key].status == StatusOf(log, key)
      && DeadlineOf(cfg, log, key) == Some(votes[key].expiry)
    else
      VotesFor(log, key) == [] && VotesAgainst(log, key) == [] && StatusOf(log, key).Initiated?
          && DeadlineOf(cfg, log, key).None?
  }

  ghost predicate VotingMatches(cfg: Config, v: Voting, log: seq<Event>) {
    && v.threshold == ThresholdOf(log)
    && v.relayers == RelayersOf(log)
    && v.relayerCount == |v.relayers| % U32_LIMIT
    && (forall key :: EntryMatches(cfg, v.votes, log, key))
  }

  ghost predicate OutgoingMatches(o: Outgoing, log: seq<Event>) {
    && o.nonces.Keys == ChainsOf(log)
    && (forall dest :: |SentTo(log, dest)| == if dest in o.nonces then o.nonces[dest] else 0)
    && o.bridgeEvents == SentThisBlock(log)
  }

  ghost predicate ExecutedAsApproved(log: seq<Event>) {
    forall key :: Executions(log, key) == if StatusOf(log, key).Approved? then 1 else 0
  }

  /** Every token's issuance is the sum of what its holders have. */
  ghost predicate Held(tokens: map<Asset, Token>) {
    forall asset :: asset in tokens ==> tokens[asset].issuance == Total(tokens[asset].accounts)
  }

  ghost function Issuance(tokens: map<Asset, Token>, asset: Asset): int {
    if asset in tokens then tokens[asset].issuance else 0
  }

  ghost predicate VaultMatches(initial: Vault, v: Vault, log: seq<Event>) {
    && v.resources == ResourcesOf(initial.resources, log)
    && Held(v.tokens)
    && (forall asset :: Issuance(v.tokens, asset)
         == Issuance(initial.tokens, asset) + Net(initial.resources, log, asset))
  }

  ghost predicate Faithful(cfg: Config, initial: Vault, s: State) {
    && Lawful(cfg, s.log)
    && s.now == BlockOf(s.log)
    && VotingMatches(cfg, s.voting, s.log)
    && OutgoingMatches(s.outgoing, s.log)
    && ExecutedAsApproved(s.log)
    && VaultMatches(initial, s.vault, s.log)
  }

  ghost predicate Genesis(s: State) {
    && s.now == 0 && s.log == []
    && s.voting == Voting(1, {}, 0, map[])
    && s.outgoing == Outgoing(map[], [])
    && Held(s.vault.tokens)
  }

  lemma GenesisFaithful(cfg: Config, s: State)
    requires Genesis(s)
    ensures Faithful(cfg, s.vault, s)
  {
  }

  // One event at a time

  /** The proposal whose votes or decision an event is about. */
  function Concerned(e: Event): Option<Key> {
    match e
    case VoteFor(key, _) => Some(key)
    case VoteAgainst(key, _) => Some(key)
    case ProposalApproved(key) => Some(key)
    case ProposalRejected(key) => Some(key)
    case _ => None
  }

  lemma LawfulNext(cfg: Config, log: seq<Event>, e: Event)
    requires Lawful(cfg, log) && Allowed(cfg, log, e)
    ensures Lawful(cfg, log + [e])
  {
    Extended(log, e);
  }

  lemma EntryUntouched(cfg: Config, votes: map<Key, ProposalVotes>, log: seq<Event>, e: Event, key: Key)
    requires EntryMatches(cfg, votes, log, key) && Concerned(e) != Some(key)
    ensures EntryMatches(cfg, votes, log + [e], key)
  {
    Extended(log, e);
  }

  lemma VotingKept(cfg: Config, v: Voting, log: seq<Event>, e: Event)
    requires VotingMatches(cfg, v, log) && Concerned(e).None?
    requires !e.RelayerThresholdChanged? && !e.RelayerAdded? && !e.RelayerRemoved?
    ensures VotingMatches(cfg, v, log + [e])
  {
    Extended(log, e);
    forall key ensures EntryMatches(cfg, v.votes, log + [e], key) {
      EntryUntouched(cfg, v.votes, log, e, key);
    }
  }

  lemma EntryWritten(cfg: Config, v: Voting, log: seq<Event>, e: Event, key: Key, entry: ProposalVotes)
    requires VotingMatches(cfg, v, log) && Concerned(e) == Some(key)
    requires EntryMatches(cfg, v.votes[key := entry], log + [e], key)
    ensures VotingMatches(cfg, v.(votes := v.votes[key := entry]), log + [e])
  {
    Extended(log, e);
    var votes, after := v.votes[key := entry], log + [e];
    forall k ensures EntryMatches(cfg, votes, after, k) {
      if k != key {
        EntryUntouched(cfg, v.votes, log, e, k);
      }
    }
  }

  lemma SettingsWritten(cfg: Config, v: Voting, w: Voting, log: seq<Event>, e: Event)
    requires VotingMatches(cfg, v, log) && w.votes == v.votes && Concerned(e).None?
    requires w.threshold == ThresholdOf(log + [e]) && w.relayers == RelayersOf(log + [e])
    requires w.relayerCount == |w.relayers| % U32_LIMIT
    ensures VotingMatches(cfg, w, log + [e])
  {
    forall key ensures EntryMatches(cfg, w.votes, log + [e], key) {
      EntryUntouched(cfg, v.votes, log, e, key);
    }
  }

  lemma OutgoingKept(o: Outgoing, log: seq<Event>, e: Event)
    requires OutgoingMatches(o, log) && !e.BlockStarted? && !e.TransferSignalled? && !e.ChainWhitelisted?
    ensures OutgoingMatches(o, log + [e])
  {
    Extended(log, e);
    forall dest ensures SentTo(log + [e], dest) == SentTo(log, dest) {
    }
  }

  lemma ExecutedKept(cfg: Config, log: seq<Event>, e: Event)
    requires ExecutedAsApproved(log) && Lawful(cfg, log + [e])
    requires !e.ProposalApproved? && !e.ProposalSucceeded?
    ensures ExecutedAsApproved(log + [e])
  {
    Extended(log, e);
    forall key ensures Executions(log + [e], key) == if StatusOf(log + [e], key).Approved? then 1 else 0 {
    }
  }

  /** An approval and the execution that follows it in the same call count once each. */
  lemma ExecutedNow(log: seq<Event>, key: Key)
    requires ExecutedAsApproved(log) && StatusOf(log, key).Initiated?
    ensures var approved := log + [ProposalApproved(key)];
            && Executions(approved, key) == 0 && StatusOf(approved, key).Approved?
            && ExecutedAsApproved(approved + [ProposalSucceeded(key)])
  {
    var approved := log + [ProposalApproved(key)];
    Extended(log, ProposalApproved(key));
    Extended(approved, ProposalSucceeded(key));
    assert Executions(log, key) == 0;
    forall k ensures Executions(approved + [ProposalSucceeded(key)], k)
                       == if StatusOf(approved + [ProposalSucceeded(key)], k).Approved? then 1 else 0 {
      assert Executions(approved, k) == Executions(log, k);
    }
  }

  lemma VaultKept(initial: Vault, v: Vault, log: seq<Event>, e: Event)
    requires VaultMatches(initial, v, log)
    requires !e.ProposalSucceeded? && !e.TransferSignalled? && !e.ResourceUpdated? && !e.ResourceRemoved?
    ensures VaultMatches(initial, v, log + [e])
  {
    Extended(log, e);
    forall asset ensures Net(initial.resources, log + [e], asset) == Net(initial.resources, log, asset) {
    }
  }

  /** The issuance of one asset has changed by `change` and that of no other, and holdings still add up. */
  ghost predicate Shifted(v: Vault, w: Vault, asset: Asset, change: int) {
    && w.resources == v.resources
    && Held(w.tokens)
    && (forall a :: Issuance(w.tokens, a) == Issuance(v.tokens, a) + if a == asset then change else 0)
  }

  lemma MintShifts(v: Vault, asset: Asset, who: AccountId, amount: Balance, refused: Refused)
    requires Held(v.tokens) && MintInto(v, asset, who, amount, refused).Ok?
    ensures Shifted(v, MintInto(v, asset, who, amount, refused).value, asset, amount)
  {
    TotalPut(v.tokens[asset].accounts, who, GetOrZero(v.tokens[asset].accounts, who) + amount);
  }

  lemma BurnShifts(v: Vault, asset: Asset, who: AccountId, amount: Balance, refused: Refused)
    requires Held(v.tokens) && BurnFrom(v, asset, who, amount, refused).Ok?
    ensures Shifted(v, BurnFrom(v, asset, who, amount, refused).value, asset, Out(amount))
  {
    TotalPut(v.tokens[asset].accounts, who, GetOrZero(v.tokens[asset].accounts, who) - amount);
  }

  lemma MoveShifts(v: Vault, asset: Asset, from: AccountId, to: AccountId, amount: Balance)
    requires Held(v.tokens) && MoveHoldings(v, asset, from, to, amount).Ok?
    ensures Shifted(v, MoveHoldings(v, asset, from, to, amount).value, asset, 0)
  {
    var accounts := v.tokens[asset].accounts;
    var have, got := GetOrZero(accounts, from), GetOrZero(accounts, to);
    if from != to {
      TotalPut(accounts, from, have - amount);
      TotalPut(accounts[from := have - amount], to, got + amount);
    }
  }

  /** Moving holdings about keeps every supply accounted for. */
  lemma OutsideFaithful(cfg: Config, initial: Vault, s: State, asset: Asset, from: AccountId, to: AccountId,
          amount: Balance)
    requires Faithful(cfg, initial, s) && TransferOutside(s, asset, from, to, amount).Ok?
    ensures Faithful(cfg, initial, TransferOutside(s, asset, from, to, amount).value)
  {
    MoveShifts(s.vault, asset, from, to, amount);
  }

  lemma SupplyMoved(initial: Vault, v: Vault, w: Vault, log: seq<Event>, e: Event, asset: Asset, change: int)
    requires VaultMatches(initial, v, log) && Shifted(v, w, asset, change)
    requires !e.ResourceUpdated? && !e.ResourceRemoved?
    requires forall a :: Inflow(v.resources, e, a) == if a == asset then change else 0
    ensures VaultMatches(initial, w, log + [e])
  {
    Extended(log, e);
    forall a ensures Issuance(w.tokens, a) == Issuance(initial.tokens, a) + Net(initial.resources, log + [e], a) {
    }
  }

  /** A dispatched call mints exactly what its success brings in. */
  lemma DispatchSupplies(cfg: Config, initial: Vault, v: Vault, log: seq<Event>, key: Key, refused: Refused)
    requires VaultMatches(initial, v, log) && Dispatch(cfg, v, key.call, refused).Ok?
    ensures VaultMatches(initial, Dispatch(cfg, v, key.call, refused).value, log + [ProposalSucceeded(key)])
  {
    var w := Dispatch(cfg, v, key.call, refused).value;
    if key.call.TransferIn? {
      var asset := v.resources[key.call.rid].asset;
      MintShifts(v, asset, key.call.to, key.call.amount, refused);
      SupplyMoved(initial, v, w, log, ProposalSucceeded(key), asset, key.call.amount);
    } else {
      SupplyMoved(initial, v, w, log, ProposalSucceeded(key), None, 0);
    }
  }

  /** A departure burns the amount and mints the fee: the supply shrinks by what is announced. */
  lemma DepartureShifts(cfg: Config, v: Vault, rid: ResourceId, who: AccountId, amount: Balance, refused: Refused)
    requires Held(v.tokens) && PrepareTokenBridgeOut(cfg, v, rid, who, amount, refused).Ok?
    ensures var d := PrepareTokenBridgeOut(cfg, v, rid, who, amount, refused).value;
            && rid in v.resources
            && d.amount + v.resources[rid].fee == amount && d.amount > 0
            && Shifted(v, d.vault, v.resources[rid].asset, Out(d.amount))
  {
    var info := v.resources[rid];
    BurnShifts(v, info.asset, who, amount, refused);
    var burnt := BurnFrom(v, info.asset, who, amount, refused).value;
    MintShifts(burnt, info.asset, cfg.treasury, info.fee, refused);
  }

  // One call at a time

  lemma QuietEvent(cfg: Config, initial: Vault, s: State, e: Event)
    requires Faithful(cfg, initial, s) && Allowed(cfg, s.log, e)
    requires !e.BlockStarted? && !e.TransferSignalled? && !e.ProposalApproved? && !e.ProposalSucceeded?
    requires !e.ResourceUpdated? && !e.ResourceRemoved? && !e.ChainWhitelisted?
    ensures Lawful(cfg, s.log + [e]) && BlockOf(s.log + [e]) == s.now && OutgoingMatches(s.outgoing, s.log + [e])
    ensures ExecutedAsApproved(s.log + [e]) && VaultMatches(initial, s.vault, s.log + [e])
  {
    LawfulNext(cfg, s.log, e);
    OutgoingKept(s.outgoing, s.log, e);
    ExecutedKept(cfg, s.log, e);
    VaultKept(initial, s.vault, s.log, e);
  }

  /** A change of threshold or relayers that the log records. */
  lemma SettingsFaithful(cfg: Config, initial: Vault, s: State, w: Voting, e: Event)
    requires Faithful(cfg, initial, s) && Allowed(cfg, s.log, e) && w.votes == s.voting.votes
    requires e.RelayerThresholdChanged? || e.RelayerAdded? || e.RelayerRemoved?
    requires w.threshold == ThresholdOf(s.log + [e]) && w.relayers == RelayersOf(s.log + [e])
    requires w.relayerCount == |w.relayers| % U32_LIMIT
    ensures Faithful(cfg, initial, Log(s.(voting := w), e))
  {
    QuietEvent(cfg, initial, s, e);
    SettingsWritten(cfg, s.voting, w, s.log, e);
  }

  lemma ThresholdFaithful(cfg: Config, initial: Vault, s: State, origin: Origin, threshold: u32)
    requires Faithful(cfg, initial, s) && SetThreshold(s, origin, threshold).Ok?
    ensures Faithful(cfg, initial, SetThreshold(s, origin, threshold).value)
  {
    var e := RelayerThresholdChanged(threshold);
    Extended(s.log, e);
    SettingsFaithful(cfg, initial, s, s.voting.(threshold := threshold), e);
  }

  lemma WrappedStep(n: nat)
    ensures (n % U32_LIMIT + 1) % U32_LIMIT == (n + 1) % U32_LIMIT
    ensures 0 < n ==> (n % U32_LIMIT - 1) % U32_LIMIT == (n - 1) % U32_LIMIT
  {
  }

  lemma RelayerCounted(relayers: set<AccountId>, count: u32, who: AccountId)
    requires count == |relayers| % U32_LIMIT
    ensures who !in relayers ==> (count + 1) % U32_LIMIT == |relayers + {who}| % U32_LIMIT
    ensures who in relayers ==> (count - 1) % U32_LIMIT == |relayers - {who}| % U32_LIMIT
  {
    WrappedStep(|relayers|);
    if who in relayers {
      assert |relayers - {who}| == |relayers| - 1;
    } else {
      assert |relayers + {who}| == |relayers| + 1;
    }
  }

  lemma AddRelayerFaithful(cfg: Config, initial: Vault, s: State, origin: Origin, who: AccountId)
    requires Faithful(cfg, initial, s) && AddRelayer(s, origin, who).Ok?
    ensures Faithful(cfg, initial, AddRelayer(s, origin, who).value)
  {
    RelayersLogged(s.log, who);
    RelayerCounted(s.voting.relayers, s.voting.relayerCount, who);
    SettingsFaithful(cfg, initial, s, AddRelayer(s, origin, who).value.voting, RelayerAdded(who));
  }

  lemma RemoveRelayerFaithful(cfg: Config, initial: Vault, s: State, origin: Origin, who: AccountId)
    requires Faithful(cfg, initial, s) && RemoveRelayer(s, origin, who).Ok?
    ensures Faithful(cfg, initial, RemoveRelayer(s, origin, who).value)
  {
    RelayersLogged(s.log, who);
    RelayerCounted(s.voting.relayers, s.voting.relayerCount, who);
    SettingsFaithful(cfg, initial, s, RemoveRelayer(s, origin, who).value.voting, RelayerRemoved(who));
  }

  lemma RelayersLogged(log: seq<Event>, who: AccountId)
    ensures RelayersOf(log + [RelayerAdded(who)]) == RelayersOf(log) + {who}
    ensures ThresholdOf(log + [RelayerAdded(who)]) == ThresholdOf(log)
    ensures RelayersOf(log + [RelayerRemoved(who)]) == RelayersOf(log) - {who}
    ensures ThresholdOf(log + [RelayerRemoved(who)]) == ThresholdOf(log)
  {
    Extended(log, RelayerAdded(who));
    Extended(log, RelayerRemoved(who));
  }

  lemma WhitelistFaithful(cfg: Config, initial: Vault, s: State, origin: Origin, id: ChainId)
    requires Faithful(cfg, initial, s) && WhitelistChain(cfg, s, origin, id).Ok?
    ensures Faithful(cfg, initial, WhitelistChain(cfg, s, origin, id).value)
  {
    var e := ChainWhitelisted(id);
    LawfulNext(cfg, s.log, e);
    VotingKept(cfg, s.voting, s.log, e);
    ExecutedKept(cfg, s.log, e);
    VaultKept(initial, s.vault, s.log, e);
    Extended(s.log, e);
    forall dest ensures SentTo(s.log + [e], dest) == SentTo(s.log, dest) {
    }
  }

  lemma ResourceFaithful(cfg: Config, initial: Vault, s: State, w: Vault, e: Event)
    requires Faithful(cfg, initial, s) && w.tokens == s.vault.tokens
    requires match e
             case ResourceUpdated(rid, info) => w.resources == s.vault.resources[rid := info]
             case ResourceRemoved(rid) => w.resources == s.vault.resources - {rid}
             case _ => false
    ensures Faithful(cfg, initial, Log(s.(vault := w), e))
  {
    LawfulNext(cfg, s.log, e);
    VotingKept(cfg, s.voting, s.log, e);
    OutgoingKept(s.outgoing, s.log, e);
    ExecutedKept(cfg, s.log, e);
    Extended(s.log, e);
    forall asset ensures Net(initial.resources, s.log + [e], asset) == Net(initial.resources, s.log, asset) {
    }
  }

  lemma CommitAllowed(cfg: Config, initial: Vault, s: State, who: AccountId, key: Key, inFavour: bool)
    requires Faithful(cfg, initial, s) && who in s.voting.relayers && key.src in s.outgoing.nonces
    requires CommitVote(cfg, s, who, key, inFavour).Ok?
    ensures Electable(cfg, s.log, key, who)
  {
    assert EntryMatches(cfg, s.voting.votes, s.log, key);
  }

  function VoteEvent(key: Key, who: AccountId, inFavour: bool): Event {
    if inFavour then VoteFor(key, who) else VoteAgainst(key, who)
  }

  lemma FirstVoteWritten(cfg: Config, votes: map<Key, ProposalVotes>, log: seq<Event>, key: Key, who: AccountId,
          inFavour: bool, deadline: BlockNumber)
    requires EntryMatches(cfg, votes, log, key) && key !in votes
    requires deadline == (BlockOf(log) + cfg.lifetime) % U32_LIMIT
    ensures EntryMatches(cfg, votes[key := NewVotes(deadline).Cast(who, inFavour)],
          log + [VoteEvent(key, who, inFavour)], key)
  {
    Extended(log, VoteEvent(key, who, inFavour));
  }

  lemma LaterVoteWritten(cfg: Config, votes: map<Key, ProposalVotes>, log: seq<Event>, key: Key, who: AccountId,
          inFavour: bool)
    requires EntryMatches(cfg, votes, log, key) && key in votes
    ensures EntryMatches(cfg, votes[key := votes[key].Cast(who, inFavour)], log + [VoteEvent(key, who, inFavour)], key)
  {
    Extended(log, VoteEvent(key, who, inFavour));
  }

  lemma VoteWritten(cfg: Config, v: Voting, log: seq<Event>, key: Key, who: AccountId, inFavour: bool,
          base: ProposalVotes)
    requires VotingMatches(cfg, v, log)
    requires key in v.votes ==> base == v.votes[key]
    requires key !in v.votes ==> base == NewVotes((BlockOf(log) + cfg.lifetime) % U32_LIMIT)
    ensures VotingMatches(cfg, v.(votes := v.votes[key := base.Cast(who, inFavour)]),
          log + [VoteEvent(key, who, inFavour)])
  {
    assert EntryMatches(cfg, v.votes, log, key);
    if key in v.votes {
      LaterVoteWritten(cfg, v.votes, log, key, who, inFavour);
    } else {
      FirstVoteWritten(cfg, v.votes, log, key, who, inFavour, base.expiry);
    }
    EntryWritten(cfg, v, log, VoteEvent(key, who, inFavour), key, base.Cast(who, inFavour));
  }

  lemma CommitWritten(cfg: Config, s: State, who: AccountId, key: Key, inFavour: bool)
    requires VotingMatches(cfg, s.voting, s.log) && s.now == BlockOf(s.log)
          && CommitVote(cfg, s, who, key, inFavour).Ok?
    ensures var t := CommitVote(cfg, s, who, key, inFavour).value;
            VotingMatches(cfg, t.voting, t.log)
  {
    var base := if key in s.voting.votes then s.voting.votes[key] else NewVotes((s.now + cfg.lifetime) % U32_LIMIT);
    VoteWritten(cfg, s.voting, s.log, key, who, inFavour, base);
  }

  lemma CommitFaithful(cfg: Config, initial: Vault, s: State, who: AccountId, key: Key, inFavour: bool)
    requires Faithful(cfg, initial, s) && who in s.voting.relayers && key.src in s.outgoing.nonces
    requires CommitVote(cfg, s, who, key, inFavour).Ok?
    ensures Faithful(cfg, initial, CommitVote(cfg, s, who, key, inFavour).value)
  {
    CommitAllowed(cfg, initial, s, who, key, inFavour);
    CommitWritten(cfg, s, who, key, inFavour);
    QuietEvent(cfg, initial, s, VoteEvent(key, who, inFavour));
  }

  lemma ResolveFaithful(cfg: Config, initial: Vault, s: State, key: Key, refused: Refused)
    requires Faithful(cfg, initial, s) && TryResolveProposal(cfg, s, key, refused).Ok?
    ensures Faithful(cfg, initial, TryResolveProposal(cfg, s, key, refused).value)
  {
    var t := TryResolveProposal(cfg, s, key, refused).value;
    var votes := s.voting.votes[key];
    var decided := votes.Completed(s.voting.threshold, s.voting.relayerCount);
    assert EntryMatches(cfg, s.voting.votes, s.log, key);
    match decided.status
    case Initiated =>
      assert s.voting.votes[key := decided] == s.voting.votes;
    case Rejected =>
      RejectionFaithful(cfg, initial, s, key);
    case Approved =>
      ApprovalFaithful(cfg, initial, s, key, refused);
  }

  lemma RejectionFaithful(cfg: Config, initial: Vault, s: State, key: Key)
    requires Faithful(cfg, initial, s) && key in s.voting.votes && s.voting.votes[key].status.Initiated?
          && !s.voting.votes[key].IsExpired(s.now)
    requires s.voting.votes[key].Decision(s.voting.threshold, s.voting.relayerCount).Rejected?
    ensures var decided := s.voting.votes[key].(status := Rejected);
            Faithful(cfg, initial, Log(s.(voting := s.voting.(votes := s.voting.votes[key := decided])),
                ProposalRejected(key)))
  {
    var e := ProposalRejected(key);
    assert EntryMatches(cfg, s.voting.votes, s.log, key);
    WrappedSum(|s.voting.votes[key].votesAgainst|, s.voting.threshold);
    QuietEvent(cfg, initial, s, e);
    Extended(s.log, e);
    EntryWritten(cfg, s.voting, s.log, e, key, s.voting.votes[key].(status := Rejected));
  }

  lemma WrappedSum(a: nat, b: nat)
    ensures (a % U32_LIMIT + b) % U32_LIMIT == (a + b) % U32_LIMIT
  {
  }

  lemma ApprovalFaithful(cfg: Config, initial: Vault, s: State, key: Key, refused: Refused)
    requires Faithful(cfg, initial, s) && key in s.voting.votes && s.voting.votes[key].status.Initiated?
          && !s.voting.votes[key].IsExpired(s.now)
    requires s.voting.votes[key].Decision(s.voting.threshold, s.voting.relayerCount).Approved?
    requires Dispatch(cfg, s.vault, key.call, refused).Ok?
    ensures var decided := s.voting.votes[key].(status := Approved);
            var s1 := s.(voting := s.voting.(votes := s.voting.votes[key := decided]));
            && FinalizeExecution(cfg, s1, key, refused).Ok?
            && Faithful(cfg, initial, FinalizeExecution(cfg, s1, key, refused).value)
  {
    var e, f := ProposalApproved(key), ProposalSucceeded(key);
    var decided := s.voting.votes[key].(status := Approved);
    var voting := s.voting.(votes := s.voting.votes[key := decided]);
    var approved := s.log + [e];
    assert EntryMatches(cfg, s.voting.votes, s.log, key);
    Extended(s.log, e);
    LawfulNext(cfg, s.log, e);
    ExecutedNow(s.log, key);
    LawfulNext(cfg, approved, f);
    EntryWritten(cfg, s.voting, s.log, e, key, decided);
    VotingKept(cfg, voting, approved, f);
    OutgoingKept(s.outgoing, s.log, e);
    OutgoingKept(s.outgoing, approved, f);
    VaultKept(initial, s.vault, s.log, e);
    DispatchSupplies(cfg, initial, s.vault, approved, key, refused);
  }

  lemma TransferAssetsFaithful(cfg: Config, initial: Vault, s: State, origin: Origin, amount: Balance,
          recipient: seq<u8>, dest: ChainId, rid: ResourceId, refused: Refused)
    requires Faithful(cfg, initial, s) && TransferAssets(cfg, s, origin, amount, recipient, dest, rid, refused).Ok?
    ensures Faithful(cfg, initial, TransferAssets(cfg, s, origin, amount, recipient, dest, rid, refused).value)
  {
    var d := PrepareTokenBridgeOut(cfg, s.vault, rid, origin.who, amount, refused).value;
    DepartureShifts(cfg, s.vault, rid, origin.who, amount, refused);
    SignalFaithful(cfg, initial, s, d.vault, dest, rid, recipient, d.amount);
  }

  lemma SignalFaithful(cfg: Config, initial: Vault, s: State, w: Vault, dest: ChainId, rid: ResourceId,
          recipient: seq<u8>, amount: Balance)
    requires Faithful(cfg, initial, s) && SignalTransferFungible(s.(vault := w), dest, rid, recipient, amount).Ok?
    requires rid in s.vault.resources && Shifted(s.vault, w, s.vault.resources[rid].asset, Out(amount))
    ensures Faithful(cfg, initial, SignalTransferFungible(s.(vault := w), dest, rid, recipient, amount).value)
  {
    var t := SignalTransferFungible(s.(vault := w), dest, rid, recipient, amount).value;
    var sent := FungibleTransfer(dest, t.outgoing.nonces[dest], rid, amount, recipient);
    var e := TransferSignalled(sent);
    LawfulNext(cfg, s.log, e);
    VotingKept(cfg, s.voting, s.log, e);
    ExecutedKept(cfg, s.log, e);
    SupplyMoved(initial, s.vault, w, s.log, e, s.vault.resources[rid].asset, Out(amount));
    SentMatches(s.outgoing, s.log, sent);
    Extended(s.log, e);
  }

  lemma SentMatches(o: Outgoing, log: seq<Event>, sent: Transfer)
    requires OutgoingMatches(o, log) && sent.dest in o.nonces && (sent.nonce as int) == (o.nonces[sent.dest] as int) + 1
    ensures OutgoingMatches(Outgoing(o.nonces[sent.dest := sent.nonce], o.bridgeEvents + [sent]),
          log + [TransferSignalled(sent)])
  {
    var after := log + [TransferSignalled(sent)];
    Extended(log, TransferSignalled(sent));
    forall dest ensures |SentTo(after, dest)| == |SentTo(log, dest)| + if dest == sent.dest then 1 else 0 {
    }
  }

  lemma BlockFaithful(cfg: Config, initial: Vault, s: State, n: BlockNumber)
    requires Faithful(cfg, initial, s)
    ensures Faithful(cfg, initial, BeginBlock(s, n))
  {
    var e := BlockStarted(n);
    LawfulNext(cfg, s.log, e);
    VotingKept(cfg, s.voting, s.log, e);
    ExecutedKept(cfg, s.log, e);
    VaultKept(initial, s.vault, s.log, e);
    Extended(s.log, e);
    forall dest ensures SentTo(s.log + [e], dest) == SentTo(s.log, dest) {
    }
  }
}
