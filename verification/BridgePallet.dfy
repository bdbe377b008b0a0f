/**
 The bridge pallets as the program runs them: storage updated in place, votes pushed and completed
 in working copies, and a failed call restored as a whole.  Every method is tied to its step on
 `State`.
 */
module BridgePallet {
  import opened Base
  import opened Ledger
  import opened Proposals
  import opened BridgeState
  import opened BridgeInvariants
  import opened BridgeTheorems
  import Spec = BridgeState

  type Done = Result<(), Error>

  /** A transactional call does what the step says, or fails with its error and changes nothing. */
  ghost predicate Transacted(step: Outcome, r: Done, before: State, after: State) {
    match step
    case Ok(t) => r == Ok(()) && after == t
    case Err(e) => r == Err(e) && after == before
  }

  /** Before the rollback a failed call may leave anything behind. */
  ghost predicate Attempted(step: Outcome, r: Done, after: State) {
    match step
    case Ok(t) => r == Ok(()) && after == t
    case Err(e) => r == Err(e)
  }

  /** The same for a change of the vault alone. */
  ghost predicate Handled(step: Result<Vault, Error>, r: Done, after: Vault) {
    match step
    case Ok(v) => r == Ok(()) && after == v
    case Err(e) => r == Err(e)
  }

  class Pallet {
    const cfg: Config
    ghost const initial: Vault
    var now: BlockNumber
    var voting: Voting
    var outgoing: Outgoing
    var vault: Vault
    var log: seq<Event>

    /** The pallets over a stored state; `initial` is what the vault held at genesis. */
    constructor (cfg: Config, s: State, ghost initial: Vault)
      ensures this.cfg == cfg && this.initial == initial && View() == s
    {
      this.cfg, this.initial := cfg, initial;
      now, voting, outgoing, vault, log := s.now, s.voting, s.outgoing, s.vault, s.log;
    }

    function View(): State
      reads this
    {
      State(now, voting, outgoing, vault, log)
    }

    /** The storage is the reading of a lawful log. */
    ghost predicate Valid()
      reads this
    {
      Faithful(cfg, initial, View())
    }

    method Restore(s: State)
      modifies this
      ensures View() == s
    {
      now, voting, outgoing, vault, log := s.now, s.voting, s.outgoing, s.vault, s.log;
    }

    method DepositEvent(e: Event)
      modifies `log
      ensures log == old(log) + [e]
    {
      log := log + [e];
    }

    method BeginBlock(n: BlockNumber)
      modifies this
      ensures View() == Spec.BeginBlock(old(View()), n)
    {
      now := n;
      outgoing := outgoing.(bridgeEvents := []);
      DepositEvent(BlockStarted(n));
    }

    method SetThreshold(origin: Origin, threshold: u32) returns (r: Done)
      modifies this
      ensures Transacted(Spec.SetThreshold(old(View()), origin, threshold), r, old(View()), View())
    {
      var _ :- EnsureRoot(origin);
      var _ :- Need(threshold > 0, InvalidThreshold);
      voting := voting.(threshold := threshold);
      DepositEvent(RelayerThresholdChanged(threshold));
      return Ok(());
    }

    method WhitelistChain(origin: Origin, id: ChainId) returns (r: Done)
      modifies this
      ensures Transacted(Spec.WhitelistChain(cfg, old(View()), origin, id), r, old(View()), View())
    {
      var _ :- EnsureRoot(origin);
      var _ :- Need(id != cfg.chain, InvalidChainId);
      var _ :- Need(id !in outgoing.nonces, ChainAlreadyWhitelisted);
      outgoing := outgoing.(nonces := outgoing.nonces[id := 0]);
      DepositEvent(ChainWhitelisted(id));
      return Ok(());
    }

    method AddRelayer(origin: Origin, who: AccountId) returns (r: Done)
      modifies this
      ensures Transacted(Spec.AddRelayer(old(View()), origin, who), r, old(View()), View())
    {
      var _ :- EnsureRoot(origin);
      var _ :- Need(who !in voting.relayers, RelayerAlreadyExists);
      voting := voting.(relayers := voting.relayers + {who});
      voting := voting.(relayerCount := (voting.relayerCount + 1) % U32_LIMIT);
      DepositEvent(RelayerAdded(who));
      return Ok(());
    }

    method RemoveRelayer(origin: Origin, who: AccountId) returns (r: Done)
      modifies this
      ensures Transacted(Spec.RemoveRelayer(old(View()), origin, who), r, old(View()), View())
    {
      var _ :- EnsureRoot(origin);
      var _ :- Need(who in voting.relayers, RelayerInvalid);
      voting := voting.(relayers := voting.relayers - {who});
      voting := voting.(relayerCount := (voting.relayerCount - 1) % U32_LIMIT);
      DepositEvent(RelayerRemoved(who));
      return Ok(());
    }

    method SetResource(origin: Origin, rid: ResourceId, info: AssetInfo) returns (r: Done)
      modifies this
      ensures Transacted(Spec.SetResource(old(View()), origin, rid, info), r, old(View()), View())
    {
      var _ :- EnsureRoot(origin);
      vault := vault.(resources := vault.resources[rid := info]);
      DepositEvent(ResourceUpdated(rid, info));
      return Ok(());
    }

    method RemoveResource(origin: Origin, rid: ResourceId) returns (r: Done)
      modifies this
      ensures Transacted(Spec.RemoveResource(old(View()), origin, rid), r, old(View()), View())
    {
      var _ :- EnsureRoot(origin);
      vault := vault.(resources := vault.resources - {rid});
      DepositEvent(ResourceRemoved(rid));
      return Ok(());
    }

    /** Mints or fails without a change. */
    method MintInto(asset: Asset, who: AccountId, amount: Balance, refused: Refused) returns (r: Done)
      modifies `vault
      ensures Handled(Spec.MintInto(old(vault), asset, who, amount, refused), r, vault)
      ensures r.Err? ==> vault == old(vault)
    {
      var _ :- Need(who !in refused, TokenFailure);
      var token :- Lookup(vault.tokens, asset).OkOr(TokenFailure);
      var _ :- Need(token.issuance + amount < U128_LIMIT, TokenFailure);
      var accounts :- Credit(token.accounts, who, amount).OkOr(TokenFailure);
      vault := vault.(tokens := vault.tokens[asset := Token(token.issuance + amount, accounts)]);
      return Ok(());
    }

    method BurnFrom(asset: Asset, who: AccountId, amount: Balance, refused: Refused) returns (r: Done)
      modifies `vault
      ensures Handled(Spec.BurnFrom(old(vault), asset, who, amount, refused), r, vault)
      ensures r.Err? ==> vault == old(vault)
    {
      var _ :- Need(who !in refused, TokenFailure);
      var token :- Lookup(vault.tokens, asset).OkOr(TokenFailure);
      var _ :- Need(amount <= token.issuance, TokenFailure);
      var accounts :- Debit(token.accounts, who, amount).OkOr(TokenFailure);
      vault := vault.(tokens := vault.tokens[asset := Token(token.issuance - amount, accounts)]);
      return Ok(());
    }

    method PrepareTokenBridgeIn(rid: ResourceId, who: AccountId, amount: Balance, refused: Refused) returns (r: Done)
      modifies `vault
      ensures Handled(Spec.PrepareTokenBridgeIn(old(vault), rid, who, amount, refused), r, vault)
    {
      var info :- Lookup(vault.resources, rid).OkOr(InvalidResourceId);
      r := MintInto(info.asset, who, amount, refused);
    }

    /** A failure after the burn leaves the burn behind for its caller to roll back. */
    method PrepareTokenBridgeOut(rid: ResourceId, who: AccountId, amount: Balance,
            refused: Refused) returns (r: Result<Balance, Error>)
      modifies `vault
      ensures match Spec.PrepareTokenBridgeOut(cfg, old(vault), rid, who, amount, refused)
              case Ok(d) => r == Ok(d.amount) && vault == d.vault
              case Err(e) => r == Err(e)
    {
      var info :- Lookup(vault.resources, rid).OkOr(InvalidResourceId);
      var _ :- BurnFrom(info.asset, who, amount, refused);
      var _ :- Need(amount > info.fee, CannotPayAsFee);
      var _ :- MintInto(info.asset, cfg.treasury, info.fee, refused);
      return Ok(amount - info.fee);
    }

    method TransferCall(origin: Origin, to: AccountId, amount: Balance, rid: ResourceId,
            refused: Refused) returns (r: Done)
      modifies `vault
      ensures Handled(Spec.TransferCall(cfg, old(vault), origin, to, amount, rid, refused), r, vault)
    {
      var _ :- Need(origin == Signed(cfg.account), BadOrigin);
      r := PrepareTokenBridgeIn(rid, to, amount, refused);
    }

    method Transfer(origin: Origin, to: AccountId, amount: Balance, rid: ResourceId, refused: Refused) returns (r: Done)
      modifies this
      ensures Transacted(TransferBridged(cfg, old(View()), origin, to, amount, rid, refused), r, old(View()), View())
    {
      var saved := View();
      r := TransferCall(origin, to, amount, rid, refused);
      if r.Err? {
        Restore(saved);
      }
    }

    /** Adds a vote to the stored entry, creating it with a fresh expiry for the first vote. */
    method CommitVote(who: AccountId, key: Key, inFavour: bool) returns (r: Done)
      modifies this
      ensures Transacted(Spec.CommitVote(cfg, old(View()), who, key, inFavour), r, old(View()), View())
    {
      var stored := if key in voting.votes then voting.votes[key] else NewVotes((now + cfg.lifetime) % U32_LIMIT);
      var ballot := new Ballot(stored);
      var _ :- Need(!ballot.Value().IsComplete(), ProposalAlreadyComplete);
      var _ :- Need(!ballot.Value().IsExpired(now), ProposalExpired);
      var _ :- Need(!ballot.Value().HasVoted(who), RelayerAlreadyVoted);
      ballot.Push(who, inFavour);
      DepositEvent(if inFavour then VoteFor(key, who) else VoteAgainst(key, who));
      voting := voting.(votes := voting.votes[key := ballot.Value()]);
      return Ok(());
    }

    method TryResolveProposal(key: Key, refused: Refused) returns (r: Done)
      modifies this
      ensures Attempted(Spec.TryResolveProposal(cfg, old(View()), key, refused), r, View())
    {
      var stored :- Lookup(voting.votes, key).OkOr(ProposalDoesNotExist);
      var ballot := new Ballot(stored);
      var _ :- Need(!ballot.Value().IsComplete(), ProposalAlreadyComplete);
      var _ :- Need(!ballot.Value().IsExpired(now), ProposalExpired);
      var decided := ballot.TryToComplete(voting.threshold, voting.relayerCount);
      voting := voting.(votes := voting.votes[key := ballot.Value()]);
      match decided {
        case Approved =>
          r := FinalizeExecution(key, refused);
        case Rejected =>
          DepositEvent(ProposalRejected(key));
          return Ok(());
        case Initiated =>
          return Ok(());
      }
    }

    method FinalizeExecution(key: Key, refused: Refused) returns (r: Done)
      modifies this
      ensures Attempted(Spec.FinalizeExecution(cfg, old(View()), key, refused), r, View())
    {
      DepositEvent(ProposalApproved(key));
      if key.call.TransferIn? {
        var _ :- TransferCall(Signed(cfg.account), key.call.to, key.call.amount, key.call.rid, refused);
      }
      DepositEvent(ProposalSucceeded(key));
      return Ok(());
    }

    /** Acknowledging is a vote in favour, rejecting one against; either may settle the proposal. */
    method Vote(origin: Origin, key: Key, inFavour: bool, refused: Refused) returns (r: Done)
      modifies this
      ensures Transacted(Spec.Vote(cfg, old(View()), origin, key, inFavour, refused), r, old(View()), View())
    {
      var who :- EnsureSigned(origin);
      var _ :- Need(who in voting.relayers, MustBeRelayer);
      var _ :- Need(key.src in outgoing.nonces, ChainNotWhitelisted);
      var saved := View();
      r := CommitVote(who, key, inFavour);
      if r.Ok? {
        r := TryResolveProposal(key, refused);
        if r.Err? {
          Restore(saved);
        }
      }
    }

    method EvalVoteState(origin: Origin, key: Key, refused: Refused) returns (r: Done)
      modifies this
      ensures Transacted(Spec.EvalVoteState(cfg, old(View()), origin, key, refused), r, old(View()), View())
    {
      var _ :- EnsureSigned(origin);
      var saved := View();
      r := TryResolveProposal(key, refused);
      if r.Err? {
        Restore(saved);
      }
    }

    /** The next nonce of a chain, which starts from zero if it is not listed; none is left at the end of a u64. */
    method BumpNonce(dest: ChainId) returns (r: Result<Nonce, Error>)
      modifies `outgoing
      ensures var nonce := if dest in old(outgoing).nonces then old(outgoing).nonces[dest] else 0;
              && r == (if nonce == U64_LIMIT - 1 then Err(NonceOverFlow) else Ok(nonce + 1))
              && outgoing == if r.Ok? then old(outgoing).(nonces := old(outgoing).nonces[dest := r.value])
                   else old(outgoing)
    {
      var nonce := if dest in outgoing.nonces then outgoing.nonces[dest] else 0;
      var _ :- Need(nonce + 1 < U64_LIMIT, NonceOverFlow);
      outgoing := outgoing.(nonces := outgoing.nonces[dest := nonce + 1]);
      return Ok(nonce + 1);
    }

    method SignalTransferFungible(dest: ChainId, rid: ResourceId, recipient: seq<u8>, amount: Balance) returns (r: Done)
      modifies this
      ensures Transacted(Spec.SignalTransferFungible(old(View()), dest, rid, recipient, amount), r, old(View()), View())
    {
      var _ :- Need(dest in outgoing.nonces, ChainNotWhitelisted);
      var nonce :- BumpNonce(dest);
      var sent := FungibleTransfer(dest, nonce, rid, amount, recipient);
      outgoing := outgoing.(bridgeEvents := outgoing.bridgeEvents + [sent]);
      DepositEvent(TransferSignalled(sent));
      return Ok(());
    }

    method TransferAssets(origin: Origin, amount: Balance, recipient: seq<u8>, dest: ChainId, rid: ResourceId,
            refused: Refused) returns (r: Done)
      modifies this
      ensures Transacted(Spec.TransferAssets(cfg, old(View()), origin, amount, recipient, dest, rid, refused), r,
            old(View()), View())
    {
      var source :- EnsureSigned(origin);
      var _ :- Need(source in cfg.members, BadOrigin);
      var saved := View();
      var actual := PrepareTokenBridgeOut(rid, source, amount, refused);
      if actual.Err? {
        Restore(saved);
        return Err(actual.error);
      }
      r := SignalTransferFungible(dest, rid, recipient, actual.value);
      if r.Err? {
        Restore(saved);
      }
    }

    /** Any call, block or outside movement: one step of a run, which keeps the storage faithful to its log. */
    method Dispatch(a: Action)
      requires Admissible(cfg, View(), a)
      modifies this
      ensures View() == Step(cfg, old(View()), a)
      ensures old(Valid()) ==> Valid()
    {
      ghost var before := View();
      if a.NextBlock? {
        BeginBlock(now + 1);
      } else {
        DispatchCall(a);
      }
      if Faithful(cfg, initial, before) {
        StepFaithful(cfg, initial, before, a);
      }
    }

    method DispatchCall(a: Action)
      requires !a.NextBlock?
      modifies this
      ensures View() == Step(cfg, old(View()), a)
    {
      match a {
        case CallSetThreshold(origin, threshold) => var _ := SetThreshold(origin, threshold);
        case CallWhitelistChain(origin, id) => var _ := WhitelistChain(origin, id);
        case CallAddRelayer(origin, who) => var _ := AddRelayer(origin, who);
        case CallRemoveRelayer(origin, who) => var _ := RemoveRelayer(origin, who);
        case CallVote(origin, key, inFavour, refused) => var _ := Vote(origin, key, inFavour, refused);
        case CallEvalVoteState(origin, key, refused) => var _ := EvalVoteState(origin, key, refused);
        case CallSetResource(origin, rid, info) => var _ := SetResource(origin, rid, info);
        case CallRemoveResource(origin, rid) => var _ := RemoveResource(origin, rid);
        case CallTransferAssets(origin, amount, recipient, dest, rid, refused) =>
          var _ := TransferAssets(origin, amount, recipient, dest, rid, refused);
        case CallTransfer(origin, to, amount, rid, refused) => var _ := Transfer(origin, to, amount, rid, refused);
        case OutsideMove(asset, from, to, amount) =>
          var moved := MoveHoldings(vault, asset, from, to, amount);
          if moved.Ok? {
            vault := moved.value;
          }
      }
    }
  }
}
