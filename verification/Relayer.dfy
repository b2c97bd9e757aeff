/** The relayer's canonical requests against the contract account they are built for. */
module Relayer {
  import opened Common
  import opened Digits
  import S = SpendAccount

  const NETWORK: string := "stellar:testnet"
  const PER_PAYMENT_LIMIT: nat := 100_000
  const TOTAL_LIMIT: nat := 200_000

  datatype Config = Config(contractId: S.Address, merchant: S.Address, usdc: S.Address, sessionPublicKey: S.PublicKey)

  /** A request body; an absent field is "" (both are falsy). `amount` is what BigInt makes of the given value. */
  datatype Body = Body(network: string, contractId: string, action: string, sessionPublicKey: string,
                       amount: Amount, destination: string, assetContractId: string)

  datatype Amount = Absent | Number(value: int) | NotANumber

  /** The record kept between prepare and submit; amounts are decimal strings. */
  datatype Canonical =
    | Grant(contractId: S.Address, sessionPublicKey: S.PublicKey, destination: S.Address, assetContractId: S.Address,
            perPaymentLimit: string, totalLimit: string, expiresAt: int)
    | Revoke(contractId: S.Address)
    | Transfer(contractId: S.Address, destination: S.Address, assetContractId: S.Address, amount: string)

  datatype RequestError =
    | Mainnet | ContractOverride | UnsupportedAction | InvalidKey | BadNumber | AmountOutsidePolicy
    | DestinationOverride | AssetOverride

  predicate Overrides(given: string, configured: string) { given != "" && given != configured }

  function ValidateCanonicalRequest(validKey: string -> bool, body: Body, config: Config, now: int): Result<Canonical, RequestError> {
    if Overrides(body.network, NETWORK) then Err(Mainnet)
    else if Overrides(body.contractId, config.contractId) then Err(ContractOverride)
    else if body.action == "revoke" then Ok(Revoke(config.contractId))
    else if body.action == "grant" then
      var signer := if body.sessionPublicKey != "" then body.sessionPublicKey else config.sessionPublicKey;
      if !validKey(signer) then Err(InvalidKey)
      else Ok(Grant(config.contractId, signer, config.merchant, config.usdc, Show(PER_PAYMENT_LIMIT), Show(TOTAL_LIMIT),
                    now / 1000 + 86_400))
    else if body.action == "transfer" then
      if body.amount.NotANumber? then Err(BadNumber) else
      var amount := if body.amount.Absent? then PER_PAYMENT_LIMIT else body.amount.value;
      if amount <= 0 || amount > PER_PAYMENT_LIMIT then Err(AmountOutsidePolicy)
      else if Overrides(body.destination, config.merchant) then Err(DestinationOverride)
      else if Overrides(body.assetContractId, config.usdc) then Err(AssetOverride)
      else Ok(Transfer(config.contractId, config.merchant, config.usdc, Show(amount)))
    else Err(UnsupportedAction)
  }

  /** The host function the transaction invokes. */
  datatype Operation =
    | GrantCall(contract: S.Address, grant: S.Grant)
    | RevokeCall(contract: S.Address)
    | TransferCall(context: S.Context)

  function ReadInteger(text: string, max: int): Option<nat> {
    if text != [] && AllDigits(text) && Value(text) <= max then Some(Value(text)) else None
  }

  /** None when a number does not fit its host type. */
  function BuildOperation(c: Canonical): Option<Operation> {
    match c
    case Revoke(contract) => Some(RevokeCall(contract))
    case Grant(contract, key, destination, asset, perPayment, total, expiresAt) =>
      var p, t := ReadInteger(perPayment, I128_MAX), ReadInteger(total, I128_MAX);
      if p.None? || t.None? || expiresAt < 0 || expiresAt > U64_MAX then None
      else Some(GrantCall(contract, S.Grant(key, [destination], [asset], p.value, t.value, expiresAt)))
    case Transfer(contract, destination, asset, amount) =>
      var a := ReadInteger(amount, I128_MAX);
      if a.None? then None
      else Some(TransferCall(S.Invocation(asset, "transfer", [S.AddressArg(contract), S.AddressArg(destination), S.AmountArg(a.value)])))
  }

  lemma ShownNumbersReadBack(n: nat, max: int)
    ensures n <= max ==> ReadInteger(Show(n), max) == Some(n)
  {
    ShowIsCanonical(n);
  }

  // ---------- agreement on one request ----------

  predicate CanonicalGrant(config: Config, g: S.Grant) {
    g.destinations == [config.merchant] && g.assets == [config.usdc] && g.perPaymentLimit == PER_PAYMENT_LIMIT && g.totalLimit == TOTAL_LIMIT
  }

  function TransferOf(config: Config, amount: i128): S.Context {
    S.Invocation(config.usdc, "transfer", [S.AddressArg(config.contractId), S.AddressArg(config.merchant), S.AmountArg(amount)])
  }

  /** A canonical grant reaches the contract with the fixed limits, and the contract takes it exactly while ledger time
      is before its expiry. */
  lemma CanonicalGrantHoldsUntilItsExpiry(validKey: string -> bool, body: Body, config: Config, now: int, t: u64)
    requires ValidateCanonicalRequest(validKey, body, config, now).Ok? && body.action == "grant"
    ensures var c := ValidateCanonicalRequest(validKey, body, config, now).value;
            var expiresAt := now / 1000 + 86_400;
            && c.Grant? && (BuildOperation(c).Some? <==> 0 <= expiresAt <= U64_MAX)
            && (BuildOperation(c).Some? ==>
                  && BuildOperation(c).value.GrantCall? && BuildOperation(c).value.contract == config.contractId
                  && var g := BuildOperation(c).value.grant;
                  && CanonicalGrant(config, g) && validKey(g.signer) && g.expiresAt == expiresAt
                  && (S.ValidatePolicy(t, g).None? <==> t < expiresAt))
  {
    ShownNumbersReadBack(PER_PAYMENT_LIMIT, I128_MAX);
    ShownNumbersReadBack(TOTAL_LIMIT, I128_MAX);
  }

  /** Exactly the transfers of 1 to 100000 base units without an override are canonical, and they reach the contract
      as that payment. */
  lemma CanonicalTransferIsThePayment(validKey: string -> bool, body: Body, config: Config, now: int)
    requires body.action == "transfer"
    ensures var r := ValidateCanonicalRequest(validKey, body, config, now);
            var amount := if body.amount.Absent? then PER_PAYMENT_LIMIT else if body.amount.Number? then body.amount.value else 0;
            && (r.Ok? <==> 0 < amount <= 100_000
                           && body.network in {"", "stellar:testnet"} && body.contractId in {"", config.contractId}
                           && body.destination in {"", config.merchant} && body.assetContractId in {"", config.usdc})
            && (r.Ok? ==> BuildOperation(r.value) == Some(TransferCall(TransferOf(config, amount))))
  {
    var amount := if body.amount.Absent? then PER_PAYMENT_LIMIT else if body.amount.Number? then body.amount.value else 0;
    if 0 < amount <= PER_PAYMENT_LIMIT { ShownNumbersReadBack(amount, I128_MAX); }
  }

  /** A revoke is canonical exactly without an override, and reaches the configured contract as a revoke. */
  lemma CanonicalRevokeIsTheRevoke(validKey: string -> bool, body: Body, config: Config, now: int)
    requires body.action == "revoke"
    ensures var r := ValidateCanonicalRequest(validKey, body, config, now);
            && (r.Ok? <==> body.network in {"", "stellar:testnet"} && body.contractId in {"", config.contractId})
            && (r.Ok? ==> BuildOperation(r.value) == Some(RevokeCall(config.contractId)))
  {
  }

  /** A grant is canonical exactly without an override and for a valid key: the body's, or else the configured one. No other
      action is canonical. */
  lemma CanonicalGrantIsExact(validKey: string -> bool, body: Body, config: Config, now: int)
    ensures var r := ValidateCanonicalRequest(validKey, body, config, now);
            var key := if body.sessionPublicKey == "" then config.sessionPublicKey else body.sessionPublicKey;
            && (body.action == "grant" ==>
                  && (r.Ok? <==> body.network in {"", "stellar:testnet"} && body.contractId in {"", config.contractId} && validKey(key))
                  && (r.Ok? ==> r.value.Grant? && r.value.sessionPublicKey == key && r.value.contractId == config.contractId))
            && (r.Ok? ==> body.action in {"grant", "revoke", "transfer"})
  {
  }

  /** An error names a check that failed. */
  lemma ErrorsNameTheFailedCheck(validKey: string -> bool, body: Body, config: Config, now: int)
    requires ValidateCanonicalRequest(validKey, body, config, now).Err?
    ensures match ValidateCanonicalRequest(validKey, body, config, now).error
            case Mainnet => body.network != "" && body.network != "stellar:testnet"
            case ContractOverride => body.contractId != "" && body.contractId != config.contractId
            case UnsupportedAction => body.action !in {"grant", "revoke", "transfer"}
            case InvalidKey => body.action == "grant"
            case BadNumber => body.action == "transfer" && body.amount.NotANumber?
            case AmountOutsidePolicy => body.action == "transfer" && body.amount.Number? && !(0 < body.amount.value <= 100_000)
            case DestinationOverride => body.action == "transfer" && body.destination != "" && body.destination != config.merchant
            case AssetOverride => body.action == "transfer" && body.assetContractId != "" && body.assetContractId != config.usdc
  {
  }

  lemma TransferIsPermitted(config: Config, g: S.Grant, p: S.Policy, amount: i128)
    requires CanonicalGrant(config, g) && 0 < amount <= PER_PAYMENT_LIMIT
    requires p == S.PolicyOf(g).(spent := p.spent, revoked := p.revoked) && 0 <= p.spent <= p.totalLimit
    ensures S.WellFormed(p) && S.AllPermitted(config.contractId, p, [TransferOf(config, amount)])
    ensures S.Total([TransferOf(config, amount)]) == amount
  {
    assert S.Permitted(config.contractId, p, TransferOf(config, amount));
    assert [TransferOf(config, amount)][1..] == [];
  }

  /** Under a canonical grant the contract takes a canonical transfer exactly when the budget of 200000 has room for it. */
  lemma CanonicalTransferFitsExactlyTheBudget(config: Config, g: S.Grant, p: S.Policy, amount: i128)
    requires CanonicalGrant(config, g) && 0 < amount <= PER_PAYMENT_LIMIT
    requires p == S.PolicyOf(g).(spent := p.spent, revoked := p.revoked) && 0 <= p.spent <= p.totalLimit
    ensures var r := S.AuthoriseBatch(config.contractId, p, [TransferOf(config, amount)]);
            && (r.Ok? <==> p.spent + amount <= TOTAL_LIMIT)
            && (r.Ok? ==> r.value == p.(spent := p.spent + amount))
  {
    TransferIsPermitted(config, g, p, amount);
    S.BatchMeansPermittedWithinBudget(config.contractId, p, [TransferOf(config, amount)]);
  }

  // ---------- every run under one configuration ----------

  /** Every grant the owner signed came through the relayer. */
  ghost predicate RelayedGrants(config: Config, run: S.History) {
    forall i :: 0 <= i < |run| ==> (run[i].op.GrantOp? ==> CanonicalGrant(config, run[i].op.grant))
  }

  function Start(owner: S.Owner): S.Account { S.Account(Some(owner), None) }

  function AcceptedGrants(config: Config, owner: S.Owner, run: S.History): nat {
    if run == [] then 0 else
    var n := |run| - 1;
    AcceptedGrants(config, owner, run[..n]) + if run[n].op.GrantOp? && S.Accepted(config.contractId, Start(owner), run, n) then 1 else 0
  }

  lemma {:induction false} GrantedTotalIsExact(config: Config, owner: S.Owner, run: S.History)
    requires RelayedGrants(config, run)
    ensures S.GrantedTotal(config.contractId, Start(owner), run) == TOTAL_LIMIT * AcceptedGrants(config, owner, run)
  {
    hide S.Outcome;
    if run != [] {
      var n := |run| - 1;
      assert forall i :: 0 <= i < n ==> run[..n][i] == run[i];
      GrantedTotalIsExact(config, owner, run[..n]);
    }
  }

  /** However the session key's requests are batched and interleaved with grants and revokes, it moves at most 200000
      base units since the last grant, and at most 200000 for each accepted grant over the whole run. */
  lemma SessionMovesAtMostTheRelayedBudget(config: Config, owner: S.Owner, run: S.History)
    requires RelayedGrants(config, run)
    ensures S.LastGrant(config.contractId, Start(owner), run) >= 0 ==> S.SpentSince(config.contractId, Start(owner), run) <= TOTAL_LIMIT
    ensures S.SessionTotal(config.contractId, Start(owner), run) <= TOTAL_LIMIT * AcceptedGrants(config, owner, run)
  {
    hide S.Outcome;
    S.EveryRunStaysWithinBudget(config.contractId, owner, run);
    GrantedTotalIsExact(config, owner, run);
  }

  /** The contract takes the relayer's transfer, signed with a session key, exactly when that key holds the last
      grant, the grant is neither revoked nor expired, and the amount fits what the key has not yet spent of 200000. */
  lemma RelayedTransferIsTakenExactlyWithinBudget(config: Config, owner: S.Owner, run: S.History, n: nat, amount: i128)
    requires RelayedGrants(config, run) && n < |run| && 0 < amount <= PER_PAYMENT_LIMIT
    requires run[n].op.CheckAuthOp? && run[n].op.signature.Session? && run[n].op.contexts == [TransferOf(config, amount)]
    ensures var before := run[..n];
            var g := S.LastGrant(config.contractId, Start(owner), before);
            S.Accepted(config.contractId, Start(owner), run, n) <==>
              && g >= 0 && !S.RevokedSince(config.contractId, Start(owner), before)
              && run[n].now <= run[g].op.grant.expiresAt
              && run[n].op.signature.publicKey == run[g].op.grant.signer && run[n].op.signature.sessionVerifies
              && S.SpentSince(config.contractId, Start(owner), before) + amount <= TOTAL_LIMIT
  {
    hide S.AuthoriseBatch, S.SpentSince, S.RevokedSince;
    var g := S.LastGrant(config.contractId, Start(owner), run[..n]);
    S.EveryRunStaysWithinBudget(config.contractId, owner, run[..n]);
    if g >= 0 {
      assert run[..n][g] == run[g];
      var p := S.After(config.contractId, Start(owner), run[..n]).session.value;
      CanonicalTransferFitsExactlyTheBudget(config, run[g].op.grant, p, amount);
    }
  }
}
