/**
 What the log of everything emitted says about the bridge: who relays, what is required, who voted,
 what was decided, which nonces went out and how much of an asset came and went.  The storage is
 compared with these readings, and `Lawful` is the protocol the log has to follow.
 */
module BridgeHistory {
  import opened Base
  import opened Proposals
  import opened BridgeState

  ghost function Front(log: seq<Event>): seq<Event>
    requires log != []
  {
    log[..|log| - 1]
  }

  ghost function Last(log: seq<Event>): Event
    requires log != []
  {
    log[|log| - 1]
  }

  lemma Extended(log: seq<Event>, e: Event)
    ensures log + [e] != [] && Front(log + [e]) == log && Last(log + [e]) == e
  {
  }

  /** The threshold last set, or one. */
  ghost function ThresholdOf(log: seq<Event>): u32 {
    if log == [] then 1
    else match Last(log)
      case RelayerThresholdChanged(threshold) => threshold
      case _ => ThresholdOf(Front(log))
  }

  /** The current block: a chain starts at block 0. */
  ghost function BlockOf(log: seq<Event>): BlockNumber {
    if log == [] then 0
    else match Last(log)
      case BlockStarted(n) => n
      case _ => BlockOf(Front(log))
  }

  ghost function ChainsOf(log: seq<Event>): set<ChainId> {
    if log == [] then {}
    else match Last(log)
      case ChainWhitelisted(id) => ChainsOf(Front(log)) + {id}
      case _ => ChainsOf(Front(log))
  }

  ghost function RelayersOf(log: seq<Event>): set<AccountId> {
    if log == [] then {}
    else match Last(log)
      case RelayerAdded(who) => RelayersOf(Front(log)) + {who}
      case RelayerRemoved(who) => RelayersOf(Front(log)) - {who}
      case _ => RelayersOf(Front(log))
  }

  /** Who voted for a proposal, first vote first. */
  ghost function VotesFor(log: seq<Event>, key: Key): seq<AccountId> {
    if log == [] then []
    else VotesFor(Front(log), key) + (match Last(log)
      case VoteFor(k, who) => if k == key then [who] else []
      case _ => [])
  }

  ghost function VotesAgainst(log: seq<Event>, key: Key): seq<AccountId> {
    if log == [] then []
    else VotesAgainst(Front(log), key) + (match Last(log)
      case VoteAgainst(k, who) => if k == key then [who] else []
      case _ => [])
  }

  /** The deadline a proposal's first vote has set, if there was one. */
  ghost function DeadlineOf(cfg: Config, log: seq<Event>, key: Key): Option<BlockNumber> {
    if log == [] then None
    else if DeadlineOf(cfg, Front(log), key).Some? then DeadlineOf(cfg, Front(log), key)
    else if (Last(log).VoteFor? || Last(log).VoteAgainst?) && Last(log).key == key
    then Some((BlockOf(Front(log)) + cfg.lifetime) % U32_LIMIT)
    else None
  }

  /** The proposal's deadline lies ahead, or would if its first vote came now. */
  ghost predicate InTime(cfg: Config, log: seq<Event>, key: Key) {
    match DeadlineOf(cfg, log, key)
    case Some(deadline) => BlockOf(log) < deadline
    case None => BlockOf(log) < (BlockOf(log) + cfg.lifetime) % U32_LIMIT
  }

  ghost function StatusOf(log: seq<Event>, key: Key): Status {
    if log == [] then Initiated
    else if Last(log) == ProposalApproved(key) then Approved
    else if Last(log) == ProposalRejected(key) then Rejected
    else StatusOf(Front(log), key)
  }

  ghost predicate HasVoted(log: seq<Event>, key: Key, who: AccountId) {
    who in VotesFor(log, key) || who in VotesAgainst(log, key)
  }

  /** How often a proposal's call was carried out. */
  ghost function Executions(log: seq<Event>, key: Key): nat {
    if log == [] then 0
    else Executions(Front(log), key) + (if Last(log) == ProposalSucceeded(key) then 1 else 0)
  }

  /** The transfers announced to one chain, oldest first. */
  ghost function SentTo(log: seq<Event>, dest: ChainId): seq<Transfer> {
    if log == [] then []
    else SentTo(Front(log), dest) + (match Last(log)
      case TransferSignalled(t) => if t.dest == dest then [t] else []
      case _ => [])
  }

  /** The transfers announced since the current block began. */
  ghost function SentThisBlock(log: seq<Event>): seq<Transfer> {
    if log == [] then []
    else match Last(log)
      case BlockStarted(_) => []
      case TransferSignalled(t) => SentThisBlock(Front(log)) + [t]
      case _ => SentThisBlock(Front(log))
  }

  /** The resources registered after the log, starting from those registered before it. */
  ghost function ResourcesOf(initial: map<ResourceId, AssetInfo>, log: seq<Event>): map<ResourceId, AssetInfo> {
    if log == [] then initial
    else match Last(log)
      case ResourceUpdated(rid, info) => ResourcesOf(initial, Front(log))[rid := info]
      case ResourceRemoved(rid) => ResourcesOf(initial, Front(log)) - {rid}
      case _ => ResourcesOf(initial, Front(log))
  }

  ghost predicate Backs(resources: map<ResourceId, AssetInfo>, rid: ResourceId, asset: Asset) {
    rid in resources && resources[rid].asset == asset
  }

  ghost function Out(amount: int): int { -amount }

  /** What one event brings into the supply of an asset, given the resources when it happened. */
  ghost function Inflow(resources: map<ResourceId, AssetInfo>, e: Event, asset: Asset): int {
    match e
    case ProposalSucceeded(key) =>
      if key.call.TransferIn? && Backs(resources, key.call.rid, asset) then key.call.amount else 0
    case TransferSignalled(t) =>
      if Backs(resources, t.rid, asset) then Out(t.amount) else 0
    case _ => 0
  }

  /** The approved transfers into an asset less the transfers announced out of it. */
  ghost function Net(initial: map<ResourceId, AssetInfo>, log: seq<Event>, asset: Asset): int {
    if log == [] then 0
    else Net(initial, Front(log), asset) + Inflow(ResourcesOf(initial, Front(log)), Last(log), asset)
  }

  /** A relayer may vote once, on an open proposal in time, from a listed chain. */
  ghost predicate Electable(cfg: Config, log: seq<Event>, key: Key, who: AccountId) {
    && StatusOf(log, key).Initiated? && InTime(cfg, log, key)
    && key.src in ChainsOf(log)
    && who in RelayersOf(log) && !HasVoted(log, key, who)
  }

  /** What has to be the case for an event to come next. */
  ghost predicate Allowed(cfg: Config, log: seq<Event>, e: Event) {
    match e
    case RelayerThresholdChanged(threshold) => threshold > 0
    case ChainWhitelisted(id) => id != cfg.chain && id !in ChainsOf(log)
    case RelayerAdded(who) => who !in RelayersOf(log)
    case RelayerRemoved(who) => who in RelayersOf(log)
    case VoteFor(key, who) => Electable(cfg, log, key, who)
    case VoteAgainst(key, who) => Electable(cfg, log, key, who)
    case ProposalApproved(key) =>
      && StatusOf(log, key).Initiated? && InTime(cfg, log, key)
      && |VotesFor(log, key)| >= ThresholdOf(log)
    case ProposalRejected(key) =>
      && StatusOf(log, key).Initiated? && InTime(cfg, log, key)
      && |VotesFor(log, key)| < ThresholdOf(log) <= |RelayersOf(log)| % U32_LIMIT
      && |RelayersOf(log)| % U32_LIMIT < (|VotesAgainst(log, key)| + ThresholdOf(log)) % U32_LIMIT
    case ProposalSucceeded(key) => StatusOf(log, key).Approved? && Executions(log, key) == 0
    case TransferSignalled(t) => t.dest in ChainsOf(log) && t.nonce == |SentTo(log, t.dest)| + 1
    case _ => true
  }

  /** A history in which every event was allowed when it happened. */
  ghost predicate Lawful(cfg: Config, log: seq<Event>) {
    log == [] || (Lawful(cfg, Front(log)) && Allowed(cfg, Front(log), Last(log)))
  }

  // What a lawful history guarantees

  lemma {:induction false} LawfulPrefix(cfg: Config, log: seq<Event>, i: nat)
    requires Lawful(cfg, log) && i <= |log|
    ensures Lawful(cfg, log[..i])
    decreases |log|
  {
    if i == |log| {
      assert log[..i] == log;
    } else {
      assert log[..i] == Front(log)[..i];
      LawfulPrefix(cfg, Front(log), i);
    }
  }

  lemma LawfulAt(cfg: Config, log: seq<Event>, i: nat)
    requires Lawful(cfg, log) && i < |log|
    ensures Lawful(cfg, log[..i]) && Allowed(cfg, log[..i], log[i])
  {
    LawfulPrefix(cfg, log, i + 1);
    assert Front(log[..i + 1]) == log[..i];
  }

  /** Nobody votes twice on a proposal. */
  lemma {:induction false} LawfulVotes(cfg: Config, log: seq<Event>, key: Key)
    requires Lawful(cfg, log)
    ensures Distinct(VotesFor(log, key)) && Distinct(VotesAgainst(log, key))
    ensures forall who :: !(who in VotesFor(log, key) && who in VotesAgainst(log, key))
  {
    if log != [] {
      LawfulVotes(cfg, Front(log), key);
    }
  }

  /** A voter in favour cast that vote, as a relayer at the time and from a chain listed by then. */
  ghost predicate VotedAsRelayer(log: seq<Event>, key: Key, who: AccountId) {
    exists i :: 0 <= i < |log| && log[i] == VoteFor(key, who) && who in RelayersOf(log[..i])
        && key.src in ChainsOf(log[..i])
  }

  lemma {:induction false} VotersWereRelayers(cfg: Config, log: seq<Event>, key: Key, who: AccountId)
    requires Lawful(cfg, log) && who in VotesFor(log, key)
    ensures VotedAsRelayer(log, key, who)
  {
    var k := |log| - 1;
    assert log[..k] == Front(log);
    if who in VotesFor(Front(log), key) {
      VotersWereRelayers(cfg, Front(log), key, who);
      var i :| 0 <= i < k && Front(log)[i] == VoteFor(key, who) && who in RelayersOf(Front(log)[..i])
          && key.src in ChainsOf(Front(log)[..i]);
      assert log[..i] == Front(log)[..i] && log[i] == Front(log)[i];
    } else {
      assert log[k] == VoteFor(key, who);
    }
  }

  /** A decision stands: whatever lawfully follows leaves it and the votes it rests on alone. */
  lemma {:induction false} DecisionStands(cfg: Config, log: seq<Event>, i: nat, key: Key)
    requires Lawful(cfg, log) && i <= |log| && !StatusOf(log[..i], key).Initiated?
    ensures StatusOf(log, key) == StatusOf(log[..i], key)
    ensures VotesFor(log, key) == VotesFor(log[..i], key) && VotesAgainst(log, key) == VotesAgainst(log[..i], key)
    decreases |log|
  {
    if i == |log| {
      assert log[..i] == log;
    } else {
      assert log[..i] == Front(log)[..i];
      DecisionStands(cfg, Front(log), i, key);
    }
  }

  /**
   An approval in the log: it came once, before the deadline its first vote set, the votes it needed
   at that moment were there, and they were cast by that many different accounts, each a relayer when
   voting.
   */
  lemma ApprovalIsJustified(cfg: Config, log: seq<Event>, i: nat, key: Key)
    requires Lawful(cfg, log) && i < |log| && log[i] == ProposalApproved(key)
    ensures |Voters(VotesFor(log[..i], key))| >= ThresholdOf(log[..i]) > 0
    ensures forall who :: who in VotesFor(log[..i], key) ==> VotedAsRelayer(log[..i], key, who)
    ensures StatusOf(log, key).Approved? && VotesFor(log, key) == VotesFor(log[..i], key)
    ensures DeadlineOf(cfg, log, key).Some? && BlockOf(log[..i]) < DeadlineOf(cfg, log, key).value
    ensures forall j :: 0 <= j < |log| && log[j] == ProposalApproved(key) ==> j == i
  {
    var before, after := log[..i], log[..i + 1];
    LawfulAt(cfg, log, i);
    assert Front(after) == before && Last(after) == ProposalApproved(key);
    LawfulVotes(cfg, before, key);
    DistinctSize(VotesFor(before, key));
    ThresholdPositive(cfg, before);
    forall who | who in VotesFor(before, key) ensures VotedAsRelayer(before, key, who) {
      VotersWereRelayers(cfg, before, key, who);
    }
    DecisionStands(cfg, log, i + 1, key);
    VotedHasDeadline(cfg, before, key);
    DeadlineStays(cfg, log, i, key);
    forall j | 0 <= j < |log| && log[j] == ProposalApproved(key) ensures j == i {
      ApprovedOnce(cfg, log, i, j, key);
      ApprovedOnce(cfg, log, j, i, key);
    }
  }

  lemma ApprovedOnce(cfg: Config, log: seq<Event>, i: nat, j: nat, key: Key)
    requires Lawful(cfg, log) && i < |log| && j < |log|
    requires log[i] == ProposalApproved(key) && log[j] == ProposalApproved(key)
    ensures j <= i
  {
    if i < j {
      var after := log[..i + 1];
      LawfulAt(cfg, log, j);
      LawfulPrefix(cfg, log, j);
      assert Last(after) == ProposalApproved(key);
      assert after == log[..j][..i + 1];
      DecisionStands(cfg, log[..j], i + 1, key);
    }
  }

  lemma {:induction false} ThresholdPositive(cfg: Config, log: seq<Event>)
    requires Lawful(cfg, log)
    ensures ThresholdOf(log) > 0
  {
    if log != [] {
      ThresholdPositive(cfg, Front(log));
    }
  }

  lemma {:induction false} VotedHasDeadline(cfg: Config, log: seq<Event>, key: Key)
    requires VotesFor(log, key) != [] || VotesAgainst(log, key) != []
    ensures DeadlineOf(cfg, log, key).Some?
  {
    if VotesFor(Front(log), key) != [] || VotesAgainst(Front(log), key) != [] {
      VotedHasDeadline(cfg, Front(log), key);
    }
  }

  lemma {:induction false} DeadlineStays(cfg: Config, log: seq<Event>, i: nat, key: Key)
    requires i <= |log| && DeadlineOf(cfg, log[..i], key).Some?
    ensures DeadlineOf(cfg, log, key) == DeadlineOf(cfg, log[..i], key)
    decreases |log|
  {
    if i == |log| {
      assert log[..i] == log;
    } else {
      assert log[..i] == Front(log)[..i];
      DeadlineStays(cfg, Front(log), i, key);
    }
  }

  /** The nonces announced to a chain are 1, 2, 3 and so on. */
  lemma {:induction false} NoncesAreGapless(cfg: Config, log: seq<Event>, dest: ChainId)
    requires Lawful(cfg, log)
    ensures forall i :: 0 <= i < |SentTo(log, dest)| ==>
              SentTo(log, dest)[i].nonce == i + 1 && SentTo(log, dest)[i].dest == dest
  {
    if log != [] {
      NoncesAreGapless(cfg, Front(log), dest);
    }
  }
}
