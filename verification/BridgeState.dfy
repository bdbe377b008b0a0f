/**
 The bridge, the asset handler and the transfer pallet as one machine: relayers vote on proposals
 from other chains, an approved proposal mints, and an outgoing transfer burns, pays its fee and is
 announced under the next nonce of its destination.  Every call is one all-or-nothing step.
 */
module BridgeState {
  import opened Base
  import opened Ledger
  import opened Proposals

  type ChainId = u8
  type Nonce = u64
  type ResourceId = seq<u8>
  type Asset = Option<AssetId>

  datatype Error =
    | BadOrigin
    | InvalidChainId
    | InvalidThreshold
    | ChainNotWhitelisted
    | ChainAlreadyWhitelisted
    | RelayerAlreadyExists
    | RelayerInvalid
    | MustBeRelayer
    | RelayerAlreadyVoted
    | ProposalDoesNotExist
    | ProposalAlreadyComplete
    | ProposalExpired
    | NonceOverFlow
    | InvalidResourceId
    | CannotPayAsFee
    | ArithmeticOverflow
    | TokenFailure

  /** The calls a proposal may carry: a bridged transfer, or a remark without effect. */
  datatype Proposal = Remark | TransferIn(to: AccountId, amount: Balance, rid: ResourceId)

  /** What votes are kept under. */
  datatype Key = Key(src: ChainId, nonce: Nonce, call: Proposal)

  datatype Transfer = FungibleTransfer(dest: ChainId, nonce: Nonce, rid: ResourceId, amount: Balance,
      recipient: seq<u8>)

  /** Where a resource lives on this chain, no asset being the native token, and its outgoing fee. */
  datatype AssetInfo = AssetInfo(fee: Balance, asset: Asset)

  /** Everything emitted so far; block starts are marked, and proposal events name the whole key. */
  datatype Event =
    | BlockStarted(n: BlockNumber)
    | RelayerThresholdChanged(threshold: u32)
    | ChainWhitelisted(id: ChainId)
    | RelayerAdded(who: AccountId)
    | RelayerRemoved(who: AccountId)
    | VoteFor(key: Key, who: AccountId)
    | VoteAgainst(key: Key, who: AccountId)
    | ProposalApproved(key: Key)
    | ProposalRejected(key: Key)
    | ProposalSucceeded(key: Key)
    | TransferSignalled(transfer: Transfer)
    | ResourceUpdated(rid: ResourceId, info: AssetInfo)
    | ResourceRemoved(rid: ResourceId)

  datatype Config = Config(
    chain: ChainId,
    lifetime: BlockNumber,
    account: AccountId,
    treasury: AccountId,
    members: set<AccountId>)

  datatype Voting = Voting(
    threshold: u32,
    relayers: set<AccountId>,
    relayerCount: u32,
    votes: map<Key, ProposalVotes>)

  datatype Outgoing = Outgoing(nonces: map<ChainId, Nonce>, bridgeEvents: seq<Transfer>)

  /** One token: its issuance and who holds it. */
  datatype Token = Token(issuance: Balance, accounts: map<AccountId, Balance>)

  datatype Vault = Vault(resources: map<ResourceId, AssetInfo>, tokens: map<Asset, Token>)

  datatype State = State(now: BlockNumber, voting: Voting, outgoing: Outgoing, vault: Vault, log: seq<Event>)

  type Outcome = Result<State, Error>

  /** Accounts whose holdings the token pallets refuse to change for reasons of their own. */
  type Refused = set<AccountId>

  function EnsureRoot(origin: Origin): Result<(), Error> {
    Need(origin.Root?, BadOrigin)
  }

  function EnsureSigned(origin: Origin): Result<AccountId, Error> {
    match origin
    case Root => Err(BadOrigin)
    case Signed(who) => Ok(who)
  }

  function Log(s: State, e: Event): State {
    s.(log := s.log + [e])
  }

  // Administration

  function SetThreshold(s: State, origin: Origin, threshold: u32): Outcome {
    var _ :- EnsureRoot(origin);
    var _ :- Need(threshold > 0, InvalidThreshold);
    Ok(Log(s.(voting := s.voting.(threshold := threshold)), RelayerThresholdChanged(threshold)))
  }

  function WhitelistChain(cfg: Config, s: State, origin: Origin, id: ChainId): Outcome {
    var _ :- EnsureRoot(origin);
    var _ :- Need(id != cfg.chain, InvalidChainId);
    var _ :- Need(id !in s.outgoing.nonces, ChainAlreadyWhitelisted);
    Ok(Log(s.(outgoing := s.outgoing.(nonces := s.outgoing.nonces[id := 0])), ChainWhitelisted(id)))
  }

  /** The count wraps as a u32 does. */
  function AddRelayer(s: State, origin: Origin, who: AccountId): Outcome {
    var _ :- EnsureRoot(origin);
    var _ :- Need(who !in s.voting.relayers, RelayerAlreadyExists);
    Ok(Log(s.(voting := s.voting.(
      relayers := s.voting.relayers + {who},
      relayerCount := (s.voting.relayerCount + 1) % U32_LIMIT)), RelayerAdded(who)))
  }

  function RemoveRelayer(s: State, origin: Origin, who: AccountId): Outcome {
    var _ :- EnsureRoot(origin);
    var _ :- Need(who in s.voting.relayers, RelayerInvalid);
    Ok(Log(s.(voting := s.voting.(
      relayers := s.voting.relayers - {who},
      relayerCount := (s.voting.relayerCount - 1) % U32_LIMIT)), RelayerRemoved(who)))
  }

  function SetResource(s: State, origin: Origin, rid: ResourceId, info: AssetInfo): Outcome {
    var _ :- EnsureRoot(origin);
    Ok(Log(s.(vault := s.vault.(resources := s.vault.resources[rid := info])), ResourceUpdated(rid, info)))
  }

  function RemoveResource(s: State, origin: Origin, rid: ResourceId): Outcome {
    var _ :- EnsureRoot(origin);
    Ok(Log(s.(vault := s.vault.(resources := s.vault.resources - {rid})), ResourceRemoved(rid)))
  }

  // Tokens

  function MintInto(v: Vault, asset: Asset, who: AccountId, amount: Balance, refused: Refused): Result<Vault, Error> {
    var _ :- Need(who !in refused, TokenFailure);
    var token :- Lookup(v.tokens, asset).OkOr(TokenFailure);
    var _ :- Need(token.issuance + amount < U128_LIMIT, TokenFailure);
    var accounts :- Credit(token.accounts, who, amount).OkOr(TokenFailure);
    Ok(v.(tokens := v.tokens[asset := Token(token.issuance + amount, accounts)]))
  }

  function BurnFrom(v: Vault, asset: Asset, who: AccountId, amount: Balance, refused: Refused): Result<Vault, Error> {
    var _ :- Need(who !in refused, TokenFailure);
    var token :- Lookup(v.tokens, asset).OkOr(TokenFailure);
    var _ :- Need(amount <= token.issuance, TokenFailure);
    var accounts :- Debit(token.accounts, who, amount).OkOr(TokenFailure);
    Ok(v.(tokens := v.tokens[asset := Token(token.issuance - amount, accounts)]))
  }

  /** A transfer arriving: the whole amount is minted to its receiver. */
  function PrepareTokenBridgeIn(v: Vault, rid: ResourceId, who: AccountId, amount: Balance,
          refused: Refused): Result<Vault, Error> {
    var info :- Lookup(v.resources, rid).OkOr(InvalidResourceId);
    MintInto(v, info.asset, who, amount, refused)
  }

  datatype Departure = Departure(vault: Vault, amount: Balance)

  /** A transfer leaving: the amount is burnt, the fee minted to the treasury, and the rest goes out. */
  function PrepareTokenBridgeOut(cfg: Config, v: Vault, rid: ResourceId, who: AccountId, amount: Balance,
          refused: Refused): Result<Departure, Error> {
    var info :- Lookup(v.resources, rid).OkOr(InvalidResourceId);
    var burnt :- BurnFrom(v, info.asset, who, amount, refused);
    var _ :- Need(amount > info.fee, CannotPayAsFee);
    var minted :- MintInto(burnt, info.asset, cfg.treasury, info.fee, refused);
    Ok(Departure(minted, amount - info.fee))
  }

  /** The transfer call, open to the bridge's own account only. */
  function TransferCall(cfg: Config, v: Vault, origin: Origin, to: AccountId, amount: Balance, rid: ResourceId,
          refused: Refused): Result<Vault, Error> {
    var _ :- Need(origin == Signed(cfg.account), BadOrigin);
    PrepareTokenBridgeIn(v, rid, to, amount, refused)
  }

  /** Holdings moved between accounts by calls of other pallets; the issuance stays. */
  function MoveHoldings(v: Vault, asset: Asset, from: AccountId, to: AccountId, amount: Balance): Result<Vault, Error> {
    var token :- Lookup(v.tokens, asset).OkOr(TokenFailure);
    var accounts :- Move(token.accounts, from, to, amount).OkOr(TokenFailure);
    Ok(v.(tokens := v.tokens[asset := token.(accounts := accounts)]))
  }

  // Voting

  function CommitVote(cfg: Config, s: State, who: AccountId, key: Key, inFavour: bool): Outcome {
    var votes := if key in s.voting.votes then s.voting.votes[key] else NewVotes((s.now + cfg.lifetime) % U32_LIMIT);
    var _ :- Need(!votes.IsComplete(), ProposalAlreadyComplete);
    var _ :- Need(!votes.IsExpired(s.now), ProposalExpired);
    var _ :- Need(!votes.HasVoted(who), RelayerAlreadyVoted);
    Ok(Log(s.(voting := s.voting.(votes := s.voting.votes[key := votes.Cast(who, inFavour)])),
           if inFavour then VoteFor(key, who) else VoteAgainst(key, who)))
  }

  /** Runs an approved call as the bridge's account. */
  function Dispatch(cfg: Config, v: Vault, call: Proposal, refused: Refused): Result<Vault, Error> {
    match call
    case Remark => Ok(v)
    case TransferIn(to, amount, rid) => TransferCall(cfg, v, Signed(cfg.account), to, amount, rid, refused)
  }

  function FinalizeExecution(cfg: Config, s: State, key: Key, refused: Refused): Outcome {
    var s1 := Log(s, ProposalApproved(key));
    var vault :- Dispatch(cfg, s1.vault, key.call, refused);
    Ok(Log(s1.(vault := vault), ProposalSucceeded(key)))
  }

  function TryResolveProposal(cfg: Config, s: State, key: Key, refused: Refused): Outcome {
    var votes :- Lookup(s.voting.votes, key).OkOr(ProposalDoesNotExist);
    var _ :- Need(!votes.IsComplete(), ProposalAlreadyComplete);
    var _ :- Need(!votes.IsExpired(s.now), ProposalExpired);
    var decided := votes.Completed(s.voting.threshold, s.voting.relayerCount);
    var s1 := s.(voting := s.voting.(votes := s.voting.votes[key := decided]));
    match decided.status
    case Initiated => Ok(s1)
    case Approved => FinalizeExecution(cfg, s1, key, refused)
    case Rejected => Ok(Log(s1, ProposalRejected(key)))
  }

  /** A vote by a relayer, for or against: both sides may settle the proposal, in either way. */
  function Vote(cfg: Config, s: State, origin: Origin, key: Key, inFavour: bool, refused: Refused): Outcome {
    var who :- EnsureSigned(origin);
    var _ :- Need(who in s.voting.relayers, MustBeRelayer);
    var _ :- Need(key.src in s.outgoing.nonces, ChainNotWhitelisted);
    var s1 :- CommitVote(cfg, s, who, key, inFavour);
    TryResolveProposal(cfg, s1, key, refused)
  }

  function EvalVoteState(cfg: Config, s: State, origin: Origin, key: Key, refused: Refused): Outcome {
    var _ :- EnsureSigned(origin);
    TryResolveProposal(cfg, s, key, refused)
  }

  // Outgoing transfers

  function SignalTransferFungible(s: State, dest: ChainId, rid: ResourceId, recipient: seq<u8>,
          amount: Balance): Outcome {
    var _ :- Need(dest in s.outgoing.nonces, ChainNotWhitelisted);
    var _ :- Need(s.outgoing.nonces[dest] + 1 < U64_LIMIT, NonceOverFlow);
    var nonce: Nonce := s.outgoing.nonces[dest] + 1;
    var sent := FungibleTransfer(dest, nonce, rid, amount, recipient);
    Ok(Log(s.(outgoing := Outgoing(s.outgoing.nonces[dest := nonce], s.outgoing.bridgeEvents + [sent])),
        TransferSignalled(sent)))
  }

  function TransferAssets(cfg: Config, s: State, origin: Origin, amount: Balance, recipient: seq<u8>, dest: ChainId,
          rid: ResourceId, refused: Refused): Outcome {
    var source :- EnsureSigned(origin);
    var _ :- Need(source in cfg.members, BadOrigin);
    var departure :- PrepareTokenBridgeOut(cfg, s.vault, rid, source, amount, refused);
    SignalTransferFungible(s.(vault := departure.vault), dest, rid, recipient, departure.amount)
  }

  function TransferBridged(cfg: Config, s: State, origin: Origin, to: AccountId, amount: Balance, rid: ResourceId,
          refused: Refused): Outcome {
    var vault :- TransferCall(cfg, s.vault, origin, to, amount, rid, refused);
    Ok(s.(vault := vault))
  }

  function TransferOutside(s: State, asset: Asset, from: AccountId, to: AccountId, amount: Balance): Outcome {
    var vault :- MoveHoldings(s.vault, asset, from, to, amount);
    Ok(s.(vault := vault))
  }

  /** The hook at the start of block `n` forgets the transfers of the block before. */
  function BeginBlock(s: State, n: BlockNumber): State {
    Log(s.(now := n, outgoing := s.outgoing.(bridgeEvents := [])), BlockStarted(n))
  }

  datatype Action =
    | NextBlock
    | CallSetThreshold(origin: Origin, threshold: u32)
    | CallWhitelistChain(origin: Origin, id: ChainId)
    | CallAddRelayer(origin: Origin, who: AccountId)
    | CallRemoveRelayer(origin: Origin, who: AccountId)
    | CallVote(origin: Origin, key: Key, inFavour: bool, refused: Refused)
    | CallEvalVoteState(origin: Origin, key: Key, refused: Refused)
    | CallSetResource(origin: Origin, rid: ResourceId, info: AssetInfo)
    | CallRemoveResource(origin: Origin, rid: ResourceId)
    | CallTransferAssets(origin: Origin, amount: Balance, recipient: seq<u8>, dest: ChainId, rid: ResourceId,
        refused: Refused)
    | CallTransfer(origin: Origin, to: AccountId, amount: Balance, rid: ResourceId, refused: Refused)
    | OutsideMove(asset: Asset, from: AccountId, to: AccountId, amount: Balance)

  function Call(cfg: Config, s: State, a: Action): Outcome
    requires !a.NextBlock?
  {
    match a
    case CallSetThreshold(origin, threshold) => SetThreshold(s, origin, threshold)
    case CallWhitelistChain(origin, id) => WhitelistChain(cfg, s, origin, id)
    case CallAddRelayer(origin, who) => AddRelayer(s, origin, who)
    case CallRemoveRelayer(origin, who) => RemoveRelayer(s, origin, who)
    case CallVote(origin, key, inFavour, refused) => Vote(cfg, s, origin, key, inFavour, refused)
    case CallEvalVoteState(origin, key, refused) => EvalVoteState(cfg, s, origin, key, refused)
    case CallSetResource(origin, rid, info) => SetResource(s, origin, rid, info)
    case CallRemoveResource(origin, rid) => RemoveResource(s, origin, rid)
    case CallTransferAssets(origin, amount, recipient, dest, rid, refused) =>
      TransferAssets(cfg, s, origin, amount, recipient, dest, rid, refused)
    case CallTransfer(origin, to, amount, rid, refused) => TransferBridged(cfg, s, origin, to, amount, rid, refused)
    case OutsideMove(asset, from, to, amount) => TransferOutside(s, asset, from, to, amount)
  }

  /** A failed call is rolled back whole. */
  function Step(cfg: Config, s: State, a: Action): State
    requires a.NextBlock? ==> s.now + 1 < U32_LIMIT
  {
    if a.NextBlock? then BeginBlock(s, s.now + 1)
    else match Call(cfg, s, a)
      case Ok(t) => t
      case Err(_) => s
  }
}
