/**
 * The extractors of the FT indexer: from one block's action and event rows to the
 * set of (account, contract) pairs whose state may have changed.
 */
module Extract {
  import opened Wrappers
  import opened Text

  // The row types come from the rows decoder, which is not part of this model; only
  // the fields the extractors read are kept.

  datatype ReceiptStatus = Success | Failure

  /** Only function calls matter to the extractors; the other kinds of action are one case here. */
  datatype ActionKind = FunctionCall | OtherAction

  datatype ActionRow = ActionRow(
    status: ReceiptStatus,
    action: ActionKind,
    accountId: string,
    predecessorId: string,
    methodName: Option<string>,
    argsReceiverId: Option<string>)

  datatype EventRow = EventRow(
    status: ReceiptStatus,
    accountId: string,
    event: Option<string>,
    dataOwnerId: Option<string>,
    dataNewOwnerId: Option<string>,
    dataOldOwnerId: Option<string>)

  /** (account, contract): for token pairs the contract is the token, for staking pairs the pool. */
  type Pair = (string, string)

  /** The two token standards share one extractor; they differ in their name tables and the pool rule. */
  datatype Standard = Fungible | NonFungible

  function CallMethods(std: Standard): set<string> {
    match std
    case Fungible =>
      {"ft_transfer_call", "ft_transfer", "ft_mint", "ft_burn", "near_withdraw", "near_deposit", "deposit_and_stake"}
    case NonFungible =>
      {"nft_transfer_call", "nft_transfer", "nft_approve", "nft_revoke", "nft_revoke_all", "nft_mint", "nft_burn"}
  }

  function MintBurnEvents(std: Standard): set<string> {
    match std
    case Fungible => {"ft_mint", "ft_burn"}
    case NonFungible => {"nft_mint", "nft_burn"}
  }

  function TransferEvent(std: Standard): string {
    match std
    case Fungible => "ft_transfer"
    case NonFungible => "nft_transfer"
  }

  /** Staking pool accounts. */
  predicate IsPoolAccount(id: string) {
    EndsWith(id, ".poolv1.near") || EndsWith(id, ".pool.near")
  }

  /** The fungible-token extractor skips actions on staking pools. */
  predicate SkipsTarget(std: Standard, id: string) {
    std == Fungible && IsPoolAccount(id)
  }

  /** A successful call of a listed method on a contract the standard does not skip. */
  predicate IsTokenCall(std: Standard, a: ActionRow) {
    && a.status == Success
    && !SkipsTarget(std, a.accountId)
    && a.methodName.Some?
    && a.methodName.value in CallMethods(std)
  }

  /** A successful function call on a staking pool. */
  predicate IsStakingCall(a: ActionRow) {
    a.status == Success && a.action == FunctionCall && IsPoolAccount(a.accountId)
  }

  function OptionalPair(account: Option<string>, contract: string): set<Pair> {
    if account.Some? then {(account.value, contract)} else {}
  }

  // ---------------------------------------------------------------------------
  // What each row contributes, and what a block contributes

  function ActionPairs(std: Standard, a: ActionRow): set<Pair> {
    if IsTokenCall(std, a)
    then {(a.predecessorId, a.accountId)} + OptionalPair(a.argsReceiverId, a.accountId)
    else {}
  }

  function EventPairs(std: Standard, e: EventRow): set<Pair> {
    if e.status != Success || e.event.None? then {}
    else if e.event.value in MintBurnEvents(std) then OptionalPair(e.dataOwnerId, e.accountId)
    else if e.event.value == TransferEvent(std) then
      OptionalPair(e.dataNewOwnerId, e.accountId) + OptionalPair(e.dataOldOwnerId, e.accountId)
    else {}
  }

  function StakingActionPairs(a: ActionRow): set<Pair> {
    if IsStakingCall(a) then {(a.predecessorId, a.accountId)} else {}
  }

  function ActionsPairs(std: Standard, actions: seq<ActionRow>): set<Pair>
    decreases |actions|
  {
    if |actions| == 0 then {}
    else ActionsPairs(std, actions[..|actions| - 1]) + ActionPairs(std, actions[|actions| - 1])
  }

  function EventsPairs(std: Standard, events: seq<EventRow>): set<Pair>
    decreases |events|
  {
    if |events| == 0 then {}
    else EventsPairs(std, events[..|events| - 1]) + EventPairs(std, events[|events| - 1])
  }

  function TokenPairs(std: Standard, actions: seq<ActionRow>, events: seq<EventRow>): set<Pair> {
    ActionsPairs(std, actions) + EventsPairs(std, events)
  }

  function StakingPairs(actions: seq<ActionRow>): set<Pair>
    decreases |actions|
  {
    if |actions| == 0 then {}
    else StakingPairs(actions[..|actions| - 1]) + StakingActionPairs(actions[|actions| - 1])
  }

  // ---------------------------------------------------------------------------
  // The extractors

  /** `extract_ft_pairs` (std = Fungible) and `extract_nft_pairs` (std = NonFungible). */
  method ExtractTokenPairs(std: Standard, actions: seq<ActionRow>, events: seq<EventRow>) returns (pairs: set<Pair>)
    ensures pairs == TokenPairs(std, actions, events)
  {
    pairs := {};
    for i := 0 to |actions|
      invariant pairs == ActionsPairs(std, actions[..i])
    {
      var action := actions[i];
      assert actions[..i + 1][..i] == actions[..i];
      assert ActionsPairs(std, actions[..i + 1]) == ActionsPairs(std, actions[..i]) + ActionPairs(std, action);
      if action.status != Success {
        continue;
      }
      var tokenId := action.accountId;
      if std == Fungible && (EndsWith(tokenId, ".poolv1.near") || EndsWith(tokenId, ".pool.near")) {
        continue;
      }
      if action.methodName.Some? && action.methodName.value in CallMethods(std) {
        pairs := pairs + {(action.predecessorId, tokenId)};
        if action.argsReceiverId.Some? {
          pairs := pairs + {(action.argsReceiverId.value, tokenId)};
        }
      }
    }
    assert actions[..|actions|] == actions;
    for j := 0 to |events|
      invariant pairs == ActionsPairs(std, actions) + EventsPairs(std, events[..j])
    {
      var event := events[j];
      assert events[..j + 1][..j] == events[..j];
      assert EventsPairs(std, events[..j + 1]) == EventsPairs(std, events[..j]) + EventPairs(std, event);
      if event.status != Success {
        continue;
      }
      var tokenId := event.accountId;
      if event.event.Some? {
        var eventType := event.event.value;
        if eventType in MintBurnEvents(std) {
          if event.dataOwnerId.Some? {
            pairs := pairs + {(event.dataOwnerId.value, tokenId)};
          }
        } else if eventType == TransferEvent(std) {
          if event.dataNewOwnerId.Some? {
            pairs := pairs + {(event.dataNewOwnerId.value, tokenId)};
          }
          if event.dataOldOwnerId.Some? {
            pairs := pairs + {(event.dataOldOwnerId.value, tokenId)};
          }
        }
      }
    }
    assert events[..|events|] == events;
  }

  /** `extract_staking_pairs`: (delegator, pool) for every successful call on a staking pool. */
  method ExtractStakingPairs(actions: seq<ActionRow>) returns (pairs: set<Pair>)
    ensures pairs == StakingPairs(actions)
  {
    pairs := {};
    for i := 0 to |actions|
      invariant pairs == StakingPairs(actions[..i])
    {
      var action := actions[i];
      assert actions[..i + 1][..i] == actions[..i];
      if action.status != Success || action.action != FunctionCall {
        continue;
      }
      if EndsWith(action.accountId, ".poolv1.near") || EndsWith(action.accountId, ".pool.near") {
        pairs := pairs + {(action.predecessorId, action.accountId)};
      }
    }
    assert actions[..|actions|] == actions;
  }

  // ---------------------------------------------------------------------------
  // Which rows a pair comes from

  lemma {:induction false} ActionsPairsMember(std: Standard, actions: seq<ActionRow>, p: Pair)
    ensures p in ActionsPairs(std, actions) <==> exists i :: 0 <= i < |actions| && p in ActionPairs(std, actions[i])
    decreases |actions|
  {
    if |actions| > 0 {
      var init := actions[..|actions| - 1];
      ActionsPairsMember(std, init, p);
      if exists i :: 0 <= i < |actions| && p in ActionPairs(std, actions[i]) {
        var i :| 0 <= i < |actions| && p in ActionPairs(std, actions[i]);
        if i < |init| {
          assert init[i] == actions[i];
        }
      }
      if exists i :: 0 <= i < |init| && p in ActionPairs(std, init[i]) {
        var i :| 0 <= i < |init| && p in ActionPairs(std, init[i]);
        assert actions[i] == init[i];
      }
    }
  }

  lemma {:induction false} EventsPairsMember(std: Standard, events: seq<EventRow>, p: Pair)
    ensures p in EventsPairs(std, events) <==> exists j :: 0 <= j < |events| && p in EventPairs(std, events[j])
    decreases |events|
  {
    if |events| > 0 {
      var init := events[..|events| - 1];
      EventsPairsMember(std, init, p);
      if exists j :: 0 <= j < |events| && p in EventPairs(std, events[j]) {
        var j :| 0 <= j < |events| && p in EventPairs(std, events[j]);
        if j < |init| {
          assert init[j] == events[j];
        }
      }
      if exists j :: 0 <= j < |init| && p in EventPairs(std, init[j]) {
        var j :| 0 <= j < |init| && p in EventPairs(std, init[j]);
        assert events[j] == init[j];
      }
    }
  }

  lemma {:induction false} StakingPairsMember(actions: seq<ActionRow>, p: Pair)
    ensures p in StakingPairs(actions) <==> exists i :: 0 <= i < |actions| && p in StakingActionPairs(actions[i])
    decreases |actions|
  {
    if |actions| > 0 {
      var init := actions[..|actions| - 1];
      StakingPairsMember(init, p);
      if exists i :: 0 <= i < |actions| && p in StakingActionPairs(actions[i]) {
        var i :| 0 <= i < |actions| && p in StakingActionPairs(actions[i]);
        if i < |init| {
          assert init[i] == actions[i];
        }
      }
      if exists i :: 0 <= i < |init| && p in StakingActionPairs(init[i]) {
        var i :| 0 <= i < |init| && p in StakingActionPairs(init[i]);
        assert actions[i] == init[i];
      }
    }
  }

  /**
   * A staking pair is (predecessor, account) of an action that succeeded, is a function call
   * and targets a pool account; no other action contributes.
   */
  lemma StakingPairsExactly(actions: seq<ActionRow>, p: Pair)
    ensures p in StakingPairs(actions)
      <==> exists i :: 0 <= i < |actions| && IsStakingCall(actions[i])
                       && p == (actions[i].predecessorId, actions[i].accountId)
  {
    StakingPairsMember(actions, p);
  }

  /**
   * An action-derived token pair comes from a successful call of a listed method on a
   * non-skipped contract: the caller with the contract, or the `receiver_id` argument with it.
   */
  lemma ActionPairsExactly(std: Standard, actions: seq<ActionRow>, p: Pair)
    ensures p in ActionsPairs(std, actions)
      <==> exists i :: 0 <= i < |actions| && IsTokenCall(std, actions[i])
                       && p.1 == actions[i].accountId
                       && (p.0 == actions[i].predecessorId || actions[i].argsReceiverId == Some(p.0))
  {
    ActionsPairsMember(std, actions, p);
  }

  /**
   * An event-derived token pair comes from a successful event: the owner of a mint or burn,
   * or the new or the old owner of a transfer, with the emitting contract.
   */
  lemma EventPairsExactly(std: Standard, events: seq<EventRow>, p: Pair)
    ensures p in EventsPairs(std, events)
      <==> exists j :: 0 <= j < |events| && events[j].status == Success && events[j].event.Some?
                       && p.1 == events[j].accountId
                       && ((events[j].event.value in MintBurnEvents(std) && events[j].dataOwnerId == Some(p.0))
                           || (events[j].event.value == TransferEvent(std)
                               && (events[j].dataNewOwnerId == Some(p.0) || events[j].dataOldOwnerId == Some(p.0))))
  {
    EventsPairsMember(std, events, p);
    assert TransferEvent(std) !in MintBurnEvents(std);
  }

  /** The fungible-token extractor never takes a staking pool for a token. */
  lemma FtActionPairsSkipPools(actions: seq<ActionRow>, p: Pair)
    requires p in ActionsPairs(Fungible, actions)
    ensures !IsPoolAccount(p.1)
  {
    ActionPairsExactly(Fungible, actions, p);
  }

  /** The contract of every pair is the account of a row it came from. */
  lemma PairContractIsRowAccount(std: Standard, actions: seq<ActionRow>, events: seq<EventRow>, p: Pair)
    requires p in TokenPairs(std, actions, events)
    ensures (exists i :: 0 <= i < |actions| && actions[i].accountId == p.1)
         || (exists j :: 0 <= j < |events| && events[j].accountId == p.1)
  {
    ActionPairsExactly(std, actions, p);
    EventPairsExactly(std, events, p);
  }

  lemma StakingContractIsRowAccount(actions: seq<ActionRow>, p: Pair)
    requires p in StakingPairs(actions)
    ensures exists i :: 0 <= i < |actions| && actions[i].accountId == p.1 && actions[i].predecessorId == p.0
  {
    StakingPairsExactly(actions, p);
  }

  // ---------------------------------------------------------------------------
  // Rows that did not succeed are ignored

  function SuccessfulActions(actions: seq<ActionRow>): seq<ActionRow>
    decreases |actions|
  {
    if |actions| == 0 then []
    else
      var last := actions[|actions| - 1];
      SuccessfulActions(actions[..|actions| - 1]) + (if last.status == Success then [last] else [])
  }

  function SuccessfulEvents(events: seq<EventRow>): seq<EventRow>
    decreases |events|
  {
    if |events| == 0 then []
    else
      var last := events[|events| - 1];
      SuccessfulEvents(events[..|events| - 1]) + (if last.status == Success then [last] else [])
  }

  lemma ActionsPairsSnoc(std: Standard, actions: seq<ActionRow>, a: ActionRow)
    ensures ActionsPairs(std, actions + [a]) == ActionsPairs(std, actions) + ActionPairs(std, a)
  {
    assert (actions + [a])[..|actions|] == actions;
  }

  lemma EventsPairsSnoc(std: Standard, events: seq<EventRow>, e: EventRow)
    ensures EventsPairs(std, events + [e]) == EventsPairs(std, events) + EventPairs(std, e)
  {
    assert (events + [e])[..|events|] == events;
  }

  lemma StakingPairsSnoc(actions: seq<ActionRow>, a: ActionRow)
    ensures StakingPairs(actions + [a]) == StakingPairs(actions) + StakingActionPairs(a)
  {
    assert (actions + [a])[..|actions|] == actions;
  }

  lemma {:induction false} FailedActionsIgnored(std: Standard, actions: seq<ActionRow>)
    ensures ActionsPairs(std, actions) == ActionsPairs(std, SuccessfulActions(actions))
    decreases |actions|
  {
    if |actions| > 0 {
      var init, last := actions[..|actions| - 1], actions[|actions| - 1];
      FailedActionsIgnored(std, init);
      if last.status == Success {
        ActionsPairsSnoc(std, SuccessfulActions(init), last);
      } else {
        assert SuccessfulActions(actions) == SuccessfulActions(init) + [] == SuccessfulActions(init);
        assert ActionPairs(std, last) == {};
      }
    }
  }

  lemma {:induction false} FailedEventsIgnored(std: Standard, events: seq<EventRow>)
    ensures EventsPairs(std, events) == EventsPairs(std, SuccessfulEvents(events))
    decreases |events|
  {
    if |events| > 0 {
      var init, last := events[..|events| - 1], events[|events| - 1];
      FailedEventsIgnored(std, init);
      if last.status == Success {
        EventsPairsSnoc(std, SuccessfulEvents(init), last);
      } else {
        assert SuccessfulEvents(events) == SuccessfulEvents(init) + [] == SuccessfulEvents(init);
        assert EventPairs(std, last) == {};
      }
    }
  }

  /** Dropping every row that did not succeed changes neither token extractor's result. */
  lemma FailedRowsIgnored(std: Standard, actions: seq<ActionRow>, events: seq<EventRow>)
    ensures TokenPairs(std, actions, events) == TokenPairs(std, SuccessfulActions(actions), SuccessfulEvents(events))
  {
    FailedActionsIgnored(std, actions);
    FailedEventsIgnored(std, events);
  }

  /** Dropping every action that did not succeed does not change the staking pairs. */
  lemma {:induction false} FailedStakingActionsIgnored(actions: seq<ActionRow>)
    ensures StakingPairs(actions) == StakingPairs(SuccessfulActions(actions))
    decreases |actions|
  {
    if |actions| > 0 {
      var init, last := actions[..|actions| - 1], actions[|actions| - 1];
      FailedStakingActionsIgnored(init);
      if last.status == Success {
        StakingPairsSnoc(SuccessfulActions(init), last);
      } else {
        assert SuccessfulActions(actions) == SuccessfulActions(init) + [] == SuccessfulActions(init);
        assert StakingPairs(actions) == StakingPairs(init) + StakingActionPairs(last);
        assert StakingActionPairs(last) == {};
      }
    }
  }

  // ---------------------------------------------------------------------------
  // The worked scenario: `ft_transfer` by alice.near on usdc.near to bob.near

  function TransferByAlice(status: ReceiptStatus): ActionRow {
    ActionRow(status, FunctionCall, "usdc.near", "alice.near", Some("ft_transfer"), Some("bob.near"))
  }

  lemma FtTransferScenario()
    ensures TokenPairs(Fungible, [TransferByAlice(Success)], []) == {("alice.near", "usdc.near"), ("bob.near", "usdc.near")}
    ensures TokenPairs(Fungible, [TransferByAlice(Failure)], []) == {}
  {
    assert !IsPoolAccount("usdc.near");
    assert [TransferByAlice(Success)][..0] == [];
    assert [TransferByAlice(Failure)][..0] == [];
  }
}
