/**
 When each call of the bridge is accepted and what it leaves behind, in terms of the state before it and its
 arguments; and that every refusal is for a true reason.
 */
module BridgeEffects {
  import opened Base
  import opened Proposals
  import opened BridgeState
  import opened BridgeInvariants
  import opened BridgeTheorems

  // Holdings

  /** One account of one asset gains or loses an amount, and with it the issuance; no other holding changes. */
  ghost predicate Gains(v: Vault, w: Vault, asset: Asset, who: AccountId, change: int) {
    && w.resources == v.resources && w.tokens.Keys == v.tokens.Keys
    && (forall a, x :: BalanceOf(w, a, x) == BalanceOf(v, a, x) + if a == asset && x == who then change else 0)
    && (forall a :: Issuance(w.tokens, a) == Issuance(v.tokens, a) + if a == asset then change else 0)
  }

  lemma MintGains(v: Vault, asset: Asset, who: AccountId, amount: Balance, refused: Refused)
    requires MintInto(v, asset, who, amount, refused).Ok?
    ensures Gains(v, MintInto(v, asset, who, amount, refused).value, asset, who, amount)
  {
  }

  /** The token pallet can mint an amount for an account. */
  ghost predicate CanMint(v: Vault, asset: Asset, who: AccountId, amount: Balance, refused: Refused) {
    && who !in refused && asset in v.tokens
    && v.tokens[asset].issuance + amount < U128_LIMIT && BalanceOf(v, asset, who) + amount < U128_LIMIT
  }

  lemma MintIff(v: Vault, asset: Asset, who: AccountId, amount: Balance, refused: Refused)
    ensures MintInto(v, asset, who, amount, refused).Ok? <==> CanMint(v, asset, who, amount, refused)
  {
  }

  // Arriving transfers

  /** A proposal's call can be carried out: a remark always, a transfer of a known resource that can be minted. */
  ghost predicate CanArrive(v: Vault, call: Proposal, refused: Refused) {
    match call
    case Remark => true
    case TransferIn(to, amount, rid) => rid in v.resources && CanMint(v, v.resources[rid].asset, to, amount, refused)
  }

  /** Carrying it out gives the receiver of a transfer exactly its amount. */
  ghost predicate Arrives(v: Vault, w: Vault, call: Proposal) {
    match call
    case Remark => w == v
    case TransferIn(to, amount, rid) => rid in v.resources && Gains(v, w, v.resources[rid].asset, to, amount)
  }

  lemma DispatchExactly(cfg: Config, v: Vault, call: Proposal, refused: Refused)
    ensures Dispatch(cfg, v, call, refused).Ok? <==> CanArrive(v, call, refused)
    ensures Dispatch(cfg, v, call, refused).Ok? ==> Arrives(v, Dispatch(cfg, v, call, refused).value, call)
  {
    if call.TransferIn? && call.rid in v.resources {
      MintIff(v, v.resources[call.rid].asset, call.to, call.amount, refused);
      if Dispatch(cfg, v, call, refused).Ok? {
        MintGains(v, v.resources[call.rid].asset, call.to, call.amount, refused);
      }
    }
  }

  /** The transfer call does the same, for the bridge's own account only. */
  lemma TransferExactly(cfg: Config, s: State, origin: Origin, to: AccountId, amount: Balance, rid: ResourceId,
          refused: Refused)
    ensures var a := CallTransfer(origin, to, amount, rid, refused);
            && (Call(cfg, s, a).Ok? <==>
                  origin == Signed(cfg.account) && CanArrive(s.vault, TransferIn(to, amount, rid), refused))
            && (Call(cfg, s, a).Ok? ==>
                  var t := Step(cfg, s, a);
                  Arrives(s.vault, t.vault, TransferIn(to, amount, rid)) && t == s.(vault := t.vault))
  {
    DispatchExactly(cfg, s.vault, TransferIn(to, amount, rid), refused);
  }

  // Votes

  /** A stored proposal, or one that its first vote would open. */
  ghost function EntryFor(cfg: Config, s: State, key: Key): ProposalVotes {
    if key in s.voting.votes then s.voting.votes[key]
    else ProposalVotes([], [], Initiated, (s.now + cfg.lifetime) % U32_LIMIT)
  }

  ghost predicate Open(v: ProposalVotes, now: BlockNumber) {
    v.status.Initiated? && now < v.expiry
  }

  /** A voter is put last on its side, and on no other. */
  ghost predicate VoteAdded(v: ProposalVotes, w: ProposalVotes, who: AccountId, inFavour: bool) {
    && w.votesFor == v.votesFor + (if inFavour then [who] else [])
    && w.votesAgainst == v.votesAgainst + (if inFavour then [] else [who])
    && w.expiry == v.expiry
  }

  /** The votes in favour meet the threshold, or cannot be outweighed any more by the program's count. */
  ghost predicate MeetsThreshold(voting: Voting, v: ProposalVotes) {
    voting.threshold <= |v.votesFor|
  }

  ghost predicate TurnsDown(voting: Voting, v: ProposalVotes) {
    && !MeetsThreshold(voting, v)
    && voting.threshold <= voting.relayerCount < (|v.votesAgainst| + voting.threshold) % U32_LIMIT
  }

  ghost function Decided(key: Key, status: Status): seq<Event> {
    match status
    case Initiated => []
    case Approved => [ProposalApproved(key), ProposalSucceeded(key)]
    case Rejected => [ProposalRejected(key)]
  }

  /** What resolving an entry makes of its status, the holdings and the log after what was voted. */
  ghost predicate Resolved(s: State, v: ProposalVotes, t: State, key: Key, voted: seq<Event>) {
    && key in t.voting.votes
    && var w := t.voting.votes[key];
       && w == v.(status := w.status)
       && (w.status.Approved? <==> MeetsThreshold(s.voting, v))
       && (w.status.Rejected? <==> TurnsDown(s.voting, v))
       && (if w.status.Approved? then Arrives(s.vault, t.vault, key.call) else t.vault == s.vault)
       && t.log == s.log + voted + Decided(key, w.status)
       && t == s.(voting := s.voting.(votes := s.voting.votes[key := w]), vault := t.vault, log := t.log)
  }

  /** A vote is accepted from a relayer, from a listed chain, once, on a proposal that is open or opens with it. */
  ghost predicate CanVote(cfg: Config, s: State, origin: Origin, key: Key, inFavour: bool, refused: Refused) {
    && origin.Signed? && origin.who in s.voting.relayers && key.src in s.outgoing.nonces
    && var v := EntryFor(cfg, s, key);
       && Open(v, s.now) && origin.who !in v.votesFor && origin.who !in v.votesAgainst
       && (s.voting.threshold <= |v.votesFor| + (if inFavour then 1 else 0) ==> CanArrive(s.vault, key.call, refused))
  }

  lemma ResolveExactly(cfg: Config, s: State, key: Key, refused: Refused)
    ensures TryResolveProposal(cfg, s, key, refused).Ok? <==>
              && key in s.voting.votes && Open(s.voting.votes[key], s.now)
              && (MeetsThreshold(s.voting, s.voting.votes[key]) ==> CanArrive(s.vault, key.call, refused))
    ensures TryResolveProposal(cfg, s, key, refused).Ok? ==>
              Resolved(s, s.voting.votes[key], TryResolveProposal(cfg, s, key, refused).value, key, [])
  {
    DispatchExactly(cfg, s.vault, key.call, refused);
    assert s.log + [] == s.log;
    if key in s.voting.votes {
      DecidedLog(s.log, key);
    }
  }

  lemma DecidedLog(log: seq<Event>, key: Key)
    ensures log + [ProposalApproved(key)] + [ProposalSucceeded(key)] == log + Decided(key, Approved)
    ensures log + Decided(key, Initiated) == log
  {
  }

  /** Anybody may have a stored open proposal resolved, and that is what it does. */
  lemma EvalExactly(cfg: Config, s: State, origin: Origin, key: Key, refused: Refused)
    ensures var a := CallEvalVoteState(origin, key, refused);
            && (Call(cfg, s, a).Ok? <==>
                  && origin.Signed? && key in s.voting.votes && Open(s.voting.votes[key], s.now)
                  && (s.voting.threshold <= |s.voting.votes[key].votesFor| ==> CanArrive(s.vault, key.call, refused)))
            && (Call(cfg, s, a).Ok? ==> Resolved(s, s.voting.votes[key], Step(cfg, s, a), key, []))
  {
    ResolveExactly(cfg, s, key, refused);
  }

  lemma CommitExactly(cfg: Config, s: State, who: AccountId, key: Key, inFavour: bool)
    ensures CommitVote(cfg, s, who, key, inFavour).Ok? <==>
              var v := EntryFor(cfg, s, key);
              Open(v, s.now) && who !in v.votesFor && who !in v.votesAgainst
    ensures CommitVote(cfg, s, who, key, inFavour).Ok? ==>
              var t := CommitVote(cfg, s, who, key, inFavour).value;
              && key in t.voting.votes && VoteAdded(EntryFor(cfg, s, key), t.voting.votes[key], who, inFavour)
              && t == s.(voting := s.voting.(votes := s.voting.votes[key := t.voting.votes[key]]),
                         log := s.log + [Voted(key, who, inFavour)])
  {
  }

  ghost function Voted(key: Key, who: AccountId, inFavour: bool): Event {
    if inFavour then VoteFor(key, who) else VoteAgainst(key, who)
  }

  /**
   A vote in full: accepted exactly as said, it is put on its side of the entry, and the entry with it is
   resolved.  Nothing else changes.
   */
  lemma VoteExactly(cfg: Config, s: State, origin: Origin, key: Key, inFavour: bool,
          refused: Refused) returns (v: ProposalVotes)
    ensures var a := CallVote(origin, key, inFavour, refused);
            && (Call(cfg, s, a).Ok? <==> CanVote(cfg, s, origin, key, inFavour, refused))
            && (Call(cfg, s, a).Ok? ==>
                  && VoteAdded(EntryFor(cfg, s, key), v, origin.who, inFavour)
                  && Resolved(s, v, Step(cfg, s, a), key, [Voted(key, origin.who, inFavour)]))
  {
    v := EntryFor(cfg, s, key);
    if origin.Signed? {
      CommitExactly(cfg, s, origin.who, key, inFavour);
      var committed := CommitVote(cfg, s, origin.who, key, inFavour);
      if committed.Ok? {
        v := committed.value.voting.votes[key];
        ResolveExactly(cfg, committed.value, key, refused);
      }
    }
  }

  // Outgoing transfers

  /**
   An outgoing transfer in full: it is announced under the next nonce of its destination, for the recipient
   named, with what is left of the amount after the fee; sender and treasury are as said elsewhere.
   */
  lemma TransferAssetsAnnounces(cfg: Config, s: State, origin: Origin, amount: Balance, recipient: seq<u8>,
          dest: ChainId, rid: ResourceId, refused: Refused)
    requires Call(cfg, s, CallTransferAssets(origin, amount, recipient, dest, rid, refused)).Ok?
    ensures rid in s.vault.resources && s.vault.resources[rid].fee < amount
    ensures dest in s.outgoing.nonces && s.outgoing.nonces[dest] + 1 < U64_LIMIT
    ensures var t := Step(cfg, s, CallTransferAssets(origin, amount, recipient, dest, rid, refused));
            var sent := FungibleTransfer(dest, s.outgoing.nonces[dest] + 1, rid,
                            amount - s.vault.resources[rid].fee, recipient);
            && t.outgoing.bridgeEvents == s.outgoing.bridgeEvents + [sent]
            && t.outgoing.nonces == s.outgoing.nonces[dest := sent.nonce]
            && t.log == s.log + [TransferSignalled(sent)]
            && t.now == s.now && t.voting == s.voting && t.vault.resources == s.vault.resources
  {
  }

  // The committee and the blocks

  /** What the committee's calls ask. */
  ghost predicate Permitted(cfg: Config, s: State, a: Action)
    requires ByCommittee(a)
  {
    && a.origin.Root?
    && match a
       case CallSetThreshold(_, threshold) => 0 < threshold
       case CallWhitelistChain(_, id) => id != cfg.chain && id !in s.outgoing.nonces
       case CallAddRelayer(_, who) => who !in s.voting.relayers
       case CallRemoveRelayer(_, who) => who in s.voting.relayers
       case CallSetResource(_, _, _) => true
       case CallRemoveResource(_, _) => true
  }

  /** What they leave behind: the setting named in the call, and its event. */
  ghost predicate Enacted(s: State, a: Action, t: State)
    requires ByCommittee(a)
  {
    match a
    case CallSetThreshold(_, threshold) =>
      t == s.(voting := s.voting.(threshold := threshold), log := s.log + [RelayerThresholdChanged(threshold)])
    case CallWhitelistChain(_, id) =>
      t == s.(outgoing := s.outgoing.(nonces := s.outgoing.nonces[id := 0]), log := s.log + [ChainWhitelisted(id)])
    case CallAddRelayer(_, who) =>
      && t.voting.relayers == s.voting.relayers + {who}
      && (t.voting.relayerCount - s.voting.relayerCount - 1) % U32_LIMIT == 0
      && t == s.(voting := s.voting.(relayers := t.voting.relayers, relayerCount := t.voting.relayerCount),
                 log := s.log + [RelayerAdded(who)])
    case CallRemoveRelayer(_, who) =>
      && t.voting.relayers == s.voting.relayers - {who}
      && (s.voting.relayerCount - t.voting.relayerCount - 1) % U32_LIMIT == 0
      && t == s.(voting := s.voting.(relayers := t.voting.relayers, relayerCount := t.voting.relayerCount),
                 log := s.log + [RelayerRemoved(who)])
    case CallSetResource(_, rid, info) =>
      t == s.(vault := s.vault.(resources := s.vault.resources[rid := info]),
          log := s.log + [ResourceUpdated(rid, info)])
    case CallRemoveResource(_, rid) =>
      t == s.(vault := s.vault.(resources := s.vault.resources - {rid}), log := s.log + [ResourceRemoved(rid)])
  }

  /** Each call of the committee is accepted exactly as it asks and does exactly that, or changes nothing. */
  lemma CommitteeEnacts(cfg: Config, s: State, a: Action)
    requires ByCommittee(a)
    ensures Call(cfg, s, a).Ok? <==> Permitted(cfg, s, a)
    ensures if Permitted(cfg, s, a) then Enacted(s, a, Step(cfg, s, a)) else Step(cfg, s, a) == s
  {
  }

  /** A block moves the clock by one, forgets the transfers of the block before and marks its start. */
  lemma NextBlockForgets(cfg: Config, s: State)
    requires s.now + 1 < U32_LIMIT
    ensures var t := Step(cfg, s, NextBlock);
            && t.now as int == s.now + 1 && t.outgoing == Outgoing(s.outgoing.nonces, [])
            && t.voting == s.voting && t.vault == s.vault && t.log == s.log + [BlockStarted(t.now)]
  {
  }

  // Refusals

  /** What an error says of the call that ended with it. */
  ghost predicate Explains(cfg: Config, s: State, a: Action, e: Error)
    requires !a.NextBlock?
  {
    match a
    case CallSetThreshold(origin, threshold) =>
      (e.BadOrigin? && !origin.Root?) || (e.InvalidThreshold? && threshold == 0)
    case CallWhitelistChain(origin, id) =>
      || (e.BadOrigin? && !origin.Root?) || (e.InvalidChainId? && id == cfg.chain)
      || (e.ChainAlreadyWhitelisted? && id in s.outgoing.nonces)
    case CallAddRelayer(origin, who) =>
      (e.BadOrigin? && !origin.Root?) || (e.RelayerAlreadyExists? && who in s.voting.relayers)
    case CallRemoveRelayer(origin, who) =>
      (e.BadOrigin? && !origin.Root?) || (e.RelayerInvalid? && who !in s.voting.relayers)
    case CallVote(origin, key, inFavour, refused) => VoteRefused(cfg, s, origin, key, refused, e)
    case CallEvalVoteState(origin, key, refused) => EvalRefused(s, origin, key, refused, e)
    case CallSetResource(origin, _, _) => e.BadOrigin? && !origin.Root?
    case CallRemoveResource(origin, _) => e.BadOrigin? && !origin.Root?
    case CallTransferAssets(origin, amount, _, dest, rid, refused) =>
      DepartureRefused(cfg, s, origin, amount, dest, rid, refused, e)
    case CallTransfer(origin, to, amount, rid, refused) =>
      || (e.BadOrigin? && origin != Signed(cfg.account))
      || ArrivalRefused(s.vault, TransferIn(to, amount, rid), refused, e)
    case OutsideMove(_, _, _, _) => e.TokenFailure?
  }

  ghost predicate VoteRefused(cfg: Config, s: State, origin: Origin, key: Key, refused: Refused, e: Error) {
    if origin.Root? then e.BadOrigin?
    else
      var v := EntryFor(cfg, s, key);
      || (e.MustBeRelayer? && origin.who !in s.voting.relayers)
      || (e.ChainNotWhitelisted? && key.src !in s.outgoing.nonces)
      || EntryRefuses(v, s.now, e)
      || (e.RelayerAlreadyVoted? && (origin.who in v.votesFor || origin.who in v.votesAgainst))
      || ArrivalRefused(s.vault, key.call, refused, e)
  }

  ghost predicate EvalRefused(s: State, origin: Origin, key: Key, refused: Refused, e: Error) {
    if origin.Root? then e.BadOrigin?
    else if key !in s.voting.votes then e.ProposalDoesNotExist?
    else EntryRefuses(s.voting.votes[key], s.now, e) || ArrivalRefused(s.vault, key.call, refused, e)
  }

  ghost predicate DepartureRefused(cfg: Config, s: State, origin: Origin, amount: Balance, dest: ChainId,
          rid: ResourceId, refused: Refused, e: Error) {
    || (e.BadOrigin? && (origin.Root? || origin.who !in cfg.members))
    || (e.InvalidResourceId? && rid !in s.vault.resources)
    || (e.CannotPayAsFee? && rid in s.vault.resources && amount <= s.vault.resources[rid].fee)
    || (e.ChainNotWhitelisted? && dest !in s.outgoing.nonces)
    || (e.NonceOverFlow? && dest in s.outgoing.nonces && s.outgoing.nonces[dest] == U64_LIMIT - 1)
    || (e.TokenFailure? && origin.Signed? && rid in s.vault.resources
          && DepartureUnpaid(cfg, s.vault, s.vault.resources[rid], origin.who, amount, refused))
  }

  ghost predicate EntryRefuses(v: ProposalVotes, now: BlockNumber, e: Error) {
    (e.ProposalAlreadyComplete? && !v.status.Initiated?) || (e.ProposalExpired? && v.expiry <= now)
  }

  ghost predicate ArrivalRefused(v: Vault, call: Proposal, refused: Refused, e: Error) {
    && call.TransferIn?
    && if call.rid !in v.resources then e.InvalidResourceId?
       else e.TokenFailure? && !CanMint(v, v.resources[call.rid].asset, call.to, call.amount, refused)
  }

  /** The sender cannot be charged or the treasury not be paid. */
  ghost predicate DepartureUnpaid(cfg: Config, v: Vault, info: AssetInfo, who: AccountId, amount: Balance,
          refused: Refused) {
    || who in refused || cfg.treasury in refused || info.asset !in v.tokens
    || BalanceOf(v, info.asset, who) < amount || v.tokens[info.asset].issuance < amount
    || v.tokens[info.asset].issuance - amount + info.fee >= U128_LIMIT
    || BalanceOf(v, info.asset, cfg.treasury) + info.fee >= U128_LIMIT
  }

  lemma ArrivalErrors(cfg: Config, v: Vault, call: Proposal, refused: Refused)
    requires Dispatch(cfg, v, call, refused).Err?
    ensures ArrivalRefused(v, call, refused, Dispatch(cfg, v, call, refused).error)
  {
  }

  lemma ResolveErrors(cfg: Config, s: State, key: Key, refused: Refused)
    requires TryResolveProposal(cfg, s, key, refused).Err?
    ensures var e := TryResolveProposal(cfg, s, key, refused).error;
            if key !in s.voting.votes then e.ProposalDoesNotExist?
            else EntryRefuses(s.voting.votes[key], s.now, e) || ArrivalRefused(s.vault, key.call, refused, e)
  {
    if Dispatch(cfg, s.vault, key.call, refused).Err? {
      ArrivalErrors(cfg, s.vault, key.call, refused);
    }
  }

  lemma VoteErrors(cfg: Config, s: State, origin: Origin, key: Key, inFavour: bool, refused: Refused)
    requires Vote(cfg, s, origin, key, inFavour, refused).Err?
    ensures VoteRefused(cfg, s, origin, key, refused, Vote(cfg, s, origin, key, inFavour, refused).error)
  {
    if origin.Signed? && CommitVote(cfg, s, origin.who, key, inFavour).Ok? {
      CommitExactly(cfg, s, origin.who, key, inFavour);
      var s1 := CommitVote(cfg, s, origin.who, key, inFavour).value;
      if TryResolveProposal(cfg, s1, key, refused).Err? {
        ResolveErrors(cfg, s1, key, refused);
      }
    }
  }

  lemma DepartureErrors(cfg: Config, s: State, origin: Origin, amount: Balance, recipient: seq<u8>, dest: ChainId,
          rid: ResourceId, refused: Refused)
    requires TransferAssets(cfg, s, origin, amount, recipient, dest, rid, refused).Err?
    ensures DepartureRefused(cfg, s, origin, amount, dest, rid, refused,
          TransferAssets(cfg, s, origin, amount, recipient, dest, rid, refused).error)
  {
  }

  /** Every refusal is for a true reason, and leaves the state alone. */
  lemma RefusalsExplain(cfg: Config, s: State, a: Action)
    requires !a.NextBlock? && Call(cfg, s, a).Err?
    ensures Explains(cfg, s, a, Call(cfg, s, a).error) && Step(cfg, s, a) == s
  {
    match a
    case CallVote(origin, key, inFavour, refused) => VoteErrors(cfg, s, origin, key, inFavour, refused);
    case CallEvalVoteState(_, key, refused) =>
      if TryResolveProposal(cfg, s, key, refused).Err? {
        ResolveErrors(cfg, s, key, refused);
      }
    case CallTransferAssets(origin, amount, recipient, dest, rid, refused) =>
      DepartureErrors(cfg, s, origin, amount, recipient, dest, rid, refused);
    case _ =>
  }
}
