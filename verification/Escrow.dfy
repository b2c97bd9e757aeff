/** Policy Escrow V2: the owner grants session signers budgets over the escrow's tokens; each signer pays out with
    consecutive nonces. A panic rolls the whole call back. */
module Escrow {
  import opened Common
  import opened Token

  datatype EscrowError =
    | NotInitialized | NotOwner | MissingSession | RevokedSession | ExpiredSession | DestinationOutsideAllowlist
    | AssetOutsideAllowlist | InvalidAmount | AmountOverLimit | SessionBudgetExceeded | InvalidNonce | InvalidPolicy
    | AllowlistTooLarge | HostPanic

  const MAX_ALLOWLIST_ITEMS: nat := 16

  datatype Session = Session(
    destinations: seq<Address>, assets: seq<Address>, perPaymentLimit: i128, totalLimit: i128,
    spent: i128, expiresAt: u64, revoked: bool, nextNonce: u64)

  datatype Receipt = Receipt(
    signer: Address, destination: Address, asset: Address, amount: i128, reference: string, nonce: u64,
    spent: i128, remaining: int, executedAt: u64)

  datatype State = State(owner: Option<Address>, sessions: map<Address, Session>, ledger: Ledger)

  datatype Grant = Grant(destinations: seq<Address>, assets: seq<Address>, perPaymentLimit: i128, totalLimit: i128, expiresAt: u64)

  datatype Payment = Payment(destination: Address, asset: Address, amount: i128, reference: string, nonce: u64)

  /** `authorised` is the host's require_auth of the caller. TokenOp is anyone else moving their own tokens. */
  datatype Op =
    | GrantOp(ownerAuth: Address, authorised: bool, signer: Address, grant: Grant)
    | RevokeOp(ownerAuth: Address, authorised: bool, signer: Address)
    | TransferOp(authorised: bool, signer: Address, payment: Payment)
    | WithdrawOp(ownerAuth: Address, authorised: bool, destination: Address, asset: Address, amount: i128)
    | TokenOp(tokenAsset: Address, from: Address, to: Address, moved: i128)

  datatype Event = Event(now: u64, op: Op)

  function RequireOwner(s: State, ownerAuth: Address, authorised: bool): Option<EscrowError> {
    if !authorised then Some(HostPanic)
    else if s.owner.None? then Some(NotInitialized)
    else if s.owner.value != ownerAuth then Some(NotOwner)
    else None
  }

  function ValidatePolicy(now: u64, g: Grant): Option<EscrowError> {
    if |g.destinations| == 0 || |g.assets| == 0 || g.perPaymentLimit <= 0 || g.totalLimit < g.perPaymentLimit || g.expiresAt <= now
    then Some(InvalidPolicy)
    else if |g.destinations| > MAX_ALLOWLIST_ITEMS || |g.assets| > MAX_ALLOWLIST_ITEMS then Some(AllowlistTooLarge)
    else None
  }

  function ValidateTransfer(s: State, now: u64, signer: Address, p: Payment): Result<Session, EscrowError> {
    if signer !in s.sessions then Err(MissingSession) else
    var policy := s.sessions[signer];
    if policy.revoked then Err(RevokedSession)
    else if now > policy.expiresAt then Err(ExpiredSession)
    else if p.amount <= 0 then Err(InvalidAmount)
    else if p.amount > policy.perPaymentLimit then Err(AmountOverLimit)
    else if p.destination !in policy.destinations then Err(DestinationOutsideAllowlist)
    else if p.asset !in policy.assets then Err(AssetOutsideAllowlist)
    else if p.nonce != policy.nextNonce then Err(InvalidNonce)
    else Ok(policy)
  }

  function SessionOf(g: Grant): Session {
    Session(g.destinations, g.assets, g.perPaymentLimit, g.totalLimit, 0, g.expiresAt, false, 1)
  }

  /** The stored session after the payment's bookkeeping. */
  function Charge(policy: Session, amount: i128): Result<Session, EscrowError> {
    match CheckedAdd(policy.spent, amount)
    case None => Err(SessionBudgetExceeded)
    case Some(spent) =>
      if spent > policy.totalLimit then Err(SessionBudgetExceeded)
      else if policy.nextNonce == U64_MAX then Err(InvalidNonce)
      else Ok(policy.(spent := spent, nextNonce := policy.nextNonce + 1))
  }

  function ReceiptOf(signer: Address, p: Payment, charged: Session, now: u64): Receipt {
    Receipt(signer, p.destination, p.asset, p.amount, p.reference, p.nonce, charged.spent, charged.totalLimit - charged.spent, now)
  }

  /** The state an operation of the escrow at address `self` leaves, or the error that rolls it back. */
  function Outcome(self: Address, s: State, e: Event): Result<State, EscrowError> {
    match e.op
    case GrantOp(ownerAuth, authorised, signer, g) =>
      (match RequireOwner(s, ownerAuth, authorised) case Some(error) => Err(error) case None =>
       match ValidatePolicy(e.now, g) case Some(error) => Err(error) case None =>
       Ok(s.(sessions := s.sessions[signer := SessionOf(g)])))
    case RevokeOp(ownerAuth, authorised, signer) =>
      (match RequireOwner(s, ownerAuth, authorised) case Some(error) => Err(error) case None =>
       if signer !in s.sessions then Err(MissingSession)
       else Ok(s.(sessions := s.sessions[signer := s.sessions[signer].(revoked := true)])))
    case TransferOp(authorised, signer, p) =>
      if !authorised then Err(HostPanic) else
      (match ValidateTransfer(s, e.now, signer, p) case Err(error) => Err(error) case Ok(policy) =>
       match Charge(policy, p.amount) case Err(error) => Err(error) case Ok(charged) =>
       match Token.Transfer(s.ledger, p.asset, self, p.destination, p.amount) case None => Err(HostPanic) case Some(ledger) =>
       Ok(s.(sessions := s.sessions[signer := charged], ledger := ledger)))
    case WithdrawOp(ownerAuth, authorised, destination, asset, amount) =>
      (match RequireOwner(s, ownerAuth, authorised) case Some(error) => Err(error) case None =>
       if amount <= 0 then Err(InvalidAmount) else
       match Token.Transfer(s.ledger, asset, self, destination, amount) case None => Err(HostPanic) case Some(ledger) =>
       Ok(s.(ledger := ledger)))
    case TokenOp(asset, from, to, amount) =>
      if from == self then Err(HostPanic) else
      (match Token.Transfer(s.ledger, asset, from, to, amount) case None => Err(HostPanic) case Some(ledger) =>
       Ok(s.(ledger := ledger)))
  }

  function Apply(self: Address, s: State, e: Event): State {
    match Outcome(self, s, e) case Err(_) => s case Ok(s') => s'
  }

  /** The deployed contract, with the token contract's ledger beside it. */
  class PolicyEscrow {
    const self: Address
    var owner: Option<Address>
    var sessions: map<Address, Session>
    var ledger: Ledger

    constructor (self: Address, owner: Address, ledger: Ledger)
      ensures this.self == self && Now() == State(Some(owner), map[], ledger)
    {
      this.self, this.owner, this.sessions, this.ledger := self, Some(owner), map[], ledger;
    }

    function Now(): State reads this { State(owner, sessions, ledger) }

    method GrantSession(now: u64, ownerAuth: Address, authorised: bool, signer: Address, g: Grant) returns (r: Result<Session, EscrowError>)
      modifies this`sessions
      ensures Now() == Apply(self, old(Now()), Event(now, GrantOp(ownerAuth, authorised, signer, g)))
      ensures r.Ok? ==> sessions == old(sessions)[signer := r.value] && r.value.nextNonce == 1 && r.value.spent == 0
      ensures r.Err? ==> Outcome(self, old(Now()), Event(now, GrantOp(ownerAuth, authorised, signer, g))) == Err(r.error)
    {
      var error := RequireOwner(Now(), ownerAuth, authorised);
      if error.Some? { return Err(error.value); }
      error := ValidatePolicy(now, g);
      if error.Some? { return Err(error.value); }
      var policy := Session(g.destinations, g.assets, g.perPaymentLimit, g.totalLimit, 0, g.expiresAt, false, 1);
      sessions := sessions[signer := policy];
      return Ok(policy);
    }

    method RevokeSession(now: u64, ownerAuth: Address, authorised: bool, signer: Address) returns (r: Result<Session, EscrowError>)
      modifies this`sessions
      ensures Now() == Apply(self, old(Now()), Event(now, RevokeOp(ownerAuth, authorised, signer)))
      ensures r.Ok? ==> signer in old(sessions) && r.value == old(sessions)[signer].(revoked := true) && sessions == old(sessions)[signer := r.value]
      ensures r.Err? ==> Outcome(self, old(Now()), Event(now, RevokeOp(ownerAuth, authorised, signer))) == Err(r.error)
    {
      var error := RequireOwner(Now(), ownerAuth, authorised);
      if error.Some? { return Err(error.value); }
      if signer !in sessions { return Err(MissingSession); }
      var policy := sessions[signer].(revoked := true);
      sessions := sessions[signer := policy];
      return Ok(policy);
    }

    /** The session is stored before the token call; when that call panics the host restores it. */
    method ExecuteAllowedTransfer(now: u64, authorised: bool, signer: Address, p: Payment) returns (r: Result<Receipt, EscrowError>)
      modifies this`sessions, this`ledger
      ensures Now() == Apply(self, old(Now()), Event(now, TransferOp(authorised, signer, p)))
      ensures r.Ok? <==> Outcome(self, old(Now()), Event(now, TransferOp(authorised, signer, p))).Ok?
      ensures r.Ok? ==> signer in sessions && r.value == ReceiptOf(signer, p, sessions[signer], now)
      ensures r.Err? ==> Outcome(self, old(Now()), Event(now, TransferOp(authorised, signer, p))) == Err(r.error)
    {
      if !authorised { return Err(HostPanic); }
      var valid := ValidateTransfer(Now(), now, signer, p);
      if valid.Err? { return Err(valid.error); }
      var policy := valid.value;
      var spent := CheckedAdd(policy.spent, p.amount);
      if spent.None? || spent.value > policy.totalLimit { return Err(SessionBudgetExceeded); }
      if policy.nextNonce == U64_MAX { return Err(InvalidNonce); }
      var stored := sessions;
      policy := policy.(spent := spent.value, nextNonce := policy.nextNonce + 1);
      sessions := sessions[signer := policy];
      var moved := Token.Transfer(ledger, p.asset, self, p.destination, p.amount);
      if moved.None? {
        sessions := stored;
        return Err(HostPanic);
      }
      ledger := moved.value;
      return Ok(Receipt(signer, p.destination, p.asset, p.amount, p.reference, p.nonce, spent.value, policy.totalLimit - spent.value, now));
    }

    method OwnerWithdraw(now: u64, ownerAuth: Address, authorised: bool, destination: Address, asset: Address, amount: i128)
        returns (error: Option<EscrowError>)
      modifies this`ledger
      ensures Now() == Apply(self, old(Now()), Event(now, WithdrawOp(ownerAuth, authorised, destination, asset, amount)))
      ensures error.Some? ==> Outcome(self, old(Now()), Event(now, WithdrawOp(ownerAuth, authorised, destination, asset, amount))) == Err(error.value)
      ensures error.None? ==> authorised && old(owner) == Some(ownerAuth) && amount > 0
      ensures error.None? ==> Token.Transfer(old(ledger), asset, self, destination, amount) == Some(ledger)
    {
      error := RequireOwner(Now(), ownerAuth, authorised);
      if error.Some? { return; }
      if amount <= 0 { return Some(InvalidAmount); }
      var moved := Token.Transfer(ledger, asset, self, destination, amount);
      if moved.None? { return Some(HostPanic); }
      ledger := moved.value;
    }
  }

  // ---------- every run ----------

  type History = seq<Event>

  function After(self: Address, start: State, run: History): State {
    if run == [] then start else Apply(self, After(self, start, run[..|run| - 1]), run[|run| - 1])
  }

  predicate Accepted(self: Address, start: State, run: History, i: nat)
    requires i < |run|
  {
    Outcome(self, After(self, start, run[..i]), run[i]).Ok?
  }

  predicate Grants(self: Address, start: State, run: History, signer: Address, i: nat) {
    i < |run| && run[i].op.GrantOp? && run[i].op.signer == signer && Accepted(self, start, run, i)
  }

  predicate Pays(self: Address, start: State, run: History, signer: Address, i: nat) {
    i < |run| && run[i].op.TransferOp? && run[i].op.signer == signer && Accepted(self, start, run, i)
  }

  predicate Revokes(self: Address, start: State, run: History, signer: Address, i: nat) {
    i < |run| && run[i].op.RevokeOp? && run[i].op.signer == signer && Accepted(self, start, run, i)
  }

  /** Whether the signer was revoked since its last accepted grant. */
  predicate RevokedSince(self: Address, start: State, run: History, signer: Address) {
    run != [] && !Grants(self, start, run, signer, |run| - 1)
    && (Revokes(self, start, run, signer, |run| - 1) || RevokedSince(self, start, run[..|run| - 1], signer))
  }

  /** The receipts a signer has drawn since its last accepted grant, oldest first. */
  function ReceiptsSince(self: Address, start: State, run: History, signer: Address): seq<Receipt> {
    if run == [] then [] else
    var n := |run| - 1;
    if Grants(self, start, run, signer, n) then []
    else if Pays(self, start, run, signer, n) then
      var s := After(self, start, run);
      ReceiptsSince(self, start, run[..n], signer)
      + (if signer in s.sessions then [ReceiptOf(signer, run[n].op.payment, s.sessions[signer], run[n].now)] else [])
    else ReceiptsSince(self, start, run[..n], signer)
  }

  function Amounts(rs: seq<Receipt>): int {
    if rs == [] then 0 else Amounts(rs[..|rs| - 1]) + rs[|rs| - 1].amount
  }

  /** The latest accepted grant of the signer, or -1. */
  function LastGrant(self: Address, start: State, run: History, signer: Address): (g: int)
    ensures -1 <= g < |run| && (g >= 0 ==> run[g].op.GrantOp?)
  {
    if run == [] then -1
    else if Grants(self, start, run, signer, |run| - 1) then |run| - 1
    else LastGrant(self, start, run[..|run| - 1], signer)
  }

  ghost predicate ReceiptFits(r: Receipt, signer: Address, g: Grant, k: nat, before: int) {
    && r.signer == signer && r.nonce == k + 1 && 0 < r.amount <= g.perPaymentLimit
    && r.destination in g.destinations && r.asset in g.assets && r.executedAt <= g.expiresAt
    && r.spent == before + r.amount && r.remaining == g.totalLimit - r.spent >= 0
  }

  ghost predicate SessionIsExact(self: Address, start: State, run: History, signer: Address) {
    var sessions := After(self, start, run).sessions;
    var rs := ReceiptsSince(self, start, run, signer);
    var g := LastGrant(self, start, run, signer);
    && (signer in sessions <==> g >= 0) && (g < 0 ==> rs == [])
    && (signer in sessions ==>
          var p := sessions[signer];
          && p == SessionOf(run[g].op.grant).(spent := p.spent, revoked := RevokedSince(self, start, run, signer), nextNonce := p.nextNonce)
          && p.nextNonce == |rs| + 1 && p.spent == Amounts(rs) && 0 <= p.spent <= p.totalLimit
          && forall k :: 0 <= k < |rs| ==> ReceiptFits(rs[k], signer, run[g].op.grant, k, Amounts(rs[..k])))
  }

  lemma AppendReceipt(rs: seq<Receipt>, r: Receipt, signer: Address, g: Grant)
    requires forall k :: 0 <= k < |rs| ==> ReceiptFits(rs[k], signer, g, k, Amounts(rs[..k]))
    requires ReceiptFits(r, signer, g, |rs|, Amounts(rs))
    ensures Amounts(rs + [r]) == Amounts(rs) + r.amount
    ensures forall k :: 0 <= k < |rs + [r]| ==> ReceiptFits((rs + [r])[k], signer, g, k, Amounts((rs + [r])[..k]))
  {
    var all := rs + [r];
    assert all[..|all| - 1] == rs;
    forall k | 0 <= k < |all| ensures ReceiptFits(all[k], signer, g, k, Amounts(all[..k])) {
      assert all[..k] == rs[..k];
      assert rs[..|rs|] == rs;
    }
  }

  lemma PaymentKeepsSession(self: Address, start: State, run: History, signer: Address)
    requires run != [] && SessionIsExact(self, start, run[..|run| - 1], signer) && Pays(self, start, run, signer, |run| - 1)
    ensures SessionIsExact(self, start, run, signer)
  {
    var n := |run| - 1;
    var before := After(self, start, run[..n]);
    var rs := ReceiptsSince(self, start, run[..n], signer);
    var g := LastGrant(self, start, run[..n], signer);
    var charged := Charge(before.sessions[signer], run[n].op.payment.amount).value;
    AppendReceipt(rs, ReceiptOf(signer, run[n].op.payment, charged, run[n].now), signer, run[..n][g].op.grant);
  }

  /** An event that neither grants to nor pays for the signer leaves its session, or revokes it. */
  lemma SessionOtherwiseOnlyRevoked(self: Address, s: State, e: Event, signer: Address)
    requires !(e.op.GrantOp? && e.op.signer == signer && Outcome(self, s, e).Ok?)
    requires !(e.op.TransferOp? && e.op.signer == signer && Outcome(self, s, e).Ok?)
    ensures signer in Apply(self, s, e).sessions <==> signer in s.sessions
    ensures signer in s.sessions ==>
              var revokes := e.op.RevokeOp? && e.op.signer == signer && Outcome(self, s, e).Ok?;
              Apply(self, s, e).sessions[signer] == if revokes then s.sessions[signer].(revoked := true) else s.sessions[signer]
  {
  }

  lemma GrantStartsSession(self: Address, start: State, run: History, signer: Address)
    requires run != [] && Grants(self, start, run, signer, |run| - 1)
    ensures SessionIsExact(self, start, run, signer)
  {
  }

  lemma OtherEventKeepsSession(self: Address, start: State, run: History, signer: Address)
    requires run != [] && SessionIsExact(self, start, run[..|run| - 1], signer)
    requires !Pays(self, start, run, signer, |run| - 1) && !Grants(self, start, run, signer, |run| - 1)
    ensures SessionIsExact(self, start, run, signer)
  {
    hide Outcome, Apply;
    var n := |run| - 1;
    SessionOtherwiseOnlyRevoked(self, After(self, start, run[..n]), run[n], signer);
  }

  /** Over every interleaving of signers, grants, revokes, payments and withdrawals: since its last grant a signer's
      receipts carry the nonces 1..k in order and the next one is k + 1; `spent` is the sum of those receipts; each
      receipt's remaining budget is exact and never negative; and each payment respected the grant's lists, limits
      and expiry. */
  lemma {:induction false} EveryRunKeepsSessionsExact(self: Address, owner: Address, ledger: Ledger, run: History, signer: Address)
    ensures SessionIsExact(self, State(Some(owner), map[], ledger), run, signer)
  {
    if run != [] {
      var start := State(Some(owner), map[], ledger);
      EveryRunKeepsSessionsExact(self, owner, ledger, run[..|run| - 1], signer);
      if Pays(self, start, run, signer, |run| - 1) {
        PaymentKeepsSession(self, start, run, signer);
      } else if Grants(self, start, run, signer, |run| - 1) {
        GrantStartsSession(self, start, run, signer);
      } else {
        OtherEventKeepsSession(self, start, run, signer);
      }
    }
  }

  /** What one event does to a signer's revocation. */
  lemma RevocationStep(self: Address, s: State, e: Event, signer: Address)
    ensures var s' := Apply(self, s, e);
            var accepted := Outcome(self, s, e).Ok?;
            && (accepted && e.op.RevokeOp? && e.op.signer == signer ==> signer in s'.sessions && s'.sessions[signer].revoked)
            && (signer in s.sessions && s.sessions[signer].revoked ==>
                  && !(accepted && e.op.TransferOp? && e.op.signer == signer)
                  && ((accepted && e.op.GrantOp? && e.op.signer == signer) || (signer in s'.sessions && s'.sessions[signer].revoked)))
  {
  }

  lemma {:induction false} RevokedUntilGrant(self: Address, start: State, run: History, signer: Address, i: nat, n: nat)
    requires Revokes(self, start, run, signer, i) && i < n <= |run|
    requires forall k :: i < k < n ==> !Grants(self, start, run, signer, k)
    ensures var s := After(self, start, run[..n]); signer in s.sessions && s.sessions[signer].revoked
  {
    hide Outcome;
    assert run[..n][..n - 1] == run[..n - 1];
    RevocationStep(self, After(self, start, run[..n - 1]), run[n - 1], signer);
    if i < n - 1 {
      assert !Grants(self, start, run, signer, n - 1);
      RevokedUntilGrant(self, start, run, signer, i, n - 1);
    }
  }

  /** Between an accepted revoke and a later payment by the same signer there is an accepted grant to it. */
  lemma NoPaymentBetweenRevokeAndGrant(self: Address, start: State, run: History, signer: Address, i: nat, j: nat) returns (k: nat)
    requires i < j && Revokes(self, start, run, signer, i) && Pays(self, start, run, signer, j)
    ensures i < k < j && Grants(self, start, run, signer, k)
  {
    hide Outcome;
    if forall k :: i < k < j ==> !Grants(self, start, run, signer, k) {
      RevokedUntilGrant(self, start, run, signer, i, j);
      RevocationStep(self, After(self, start, run[..j]), run[j], signer);
    }
    k :| i < k < j && Grants(self, start, run, signer, k);
  }

  // ---------- what is accepted, in every run ----------

  lemma {:induction false} OwnerStays(self: Address, start: State, run: History)
    ensures After(self, start, run).owner == start.owner
  {
    if run != [] { OwnerStays(self, start, run[..|run| - 1]); }
  }

  /** Only the owner grants, and only a policy that has both lists, a budget and time left. */
  lemma GrantIsAcceptedExactly(self: Address, owner: Address, ledger: Ledger, run: History, n: nat)
    requires n < |run| && run[n].op.GrantOp?
    ensures var g := run[n].op.grant;
            Accepted(self, State(Some(owner), map[], ledger), run, n) <==>
              && run[n].op.authorised && run[n].op.ownerAuth == owner
              && 1 <= |g.destinations| <= 16 && 1 <= |g.assets| <= 16
              && 0 < g.perPaymentLimit <= g.totalLimit && run[n].now < g.expiresAt
  {
    OwnerStays(self, State(Some(owner), map[], ledger), run[..n]);
  }

  /** Only the owner revokes, and only a session that was granted. */
  lemma RevokeIsAcceptedExactly(self: Address, owner: Address, ledger: Ledger, run: History, n: nat)
    requires n < |run| && run[n].op.RevokeOp?
    ensures Accepted(self, State(Some(owner), map[], ledger), run, n) <==>
              && run[n].op.authorised && run[n].op.ownerAuth == owner
              && LastGrant(self, State(Some(owner), map[], ledger), run[..n], run[n].op.signer) >= 0
  {
    OwnerStays(self, State(Some(owner), map[], ledger), run[..n]);
    EveryRunKeepsSessionsExact(self, owner, ledger, run[..n], run[n].op.signer);
  }

  /** Only the owner withdraws, a positive amount that the escrow holds. */
  lemma WithdrawalIsAcceptedExactly(self: Address, owner: Address, ledger: Ledger, run: History, n: nat)
    requires n < |run| && run[n].op.WithdrawOp?
    ensures var l := After(self, State(Some(owner), map[], ledger), run[..n]).ledger;
            var op := run[n].op;
            Accepted(self, State(Some(owner), map[], ledger), run, n) <==>
              && op.authorised && op.ownerAuth == owner && 0 < op.amount <= Balance(l, op.asset, self)
              && (op.destination != self ==> Balance(l, op.asset, op.destination) + op.amount <= I128_MAX)
  {
    hide Token.Transfer, Balance;
    var l := After(self, State(Some(owner), map[], ledger), run[..n]).ledger;
    OwnerStays(self, State(Some(owner), map[], ledger), run[..n]);
    TransferIsExact(l, run[n].op.asset, self, run[n].op.destination, run[n].op.amount);
  }

  /** A payment is accepted exactly when the signer asks for it under its last grant, which is neither revoked since nor
      expired, within that grant's lists and limits, with the next nonce, within the budget its receipts leave, and
      from tokens the escrow holds. */
  lemma PaymentIsAcceptedExactly(self: Address, owner: Address, ledger: Ledger, run: History, n: nat)
    requires n < |run| && run[n].op.TransferOp?
    ensures var start := State(Some(owner), map[], ledger);
            var signer, p := run[n].op.signer, run[n].op.payment;
            var i := LastGrant(self, start, run[..n], signer);
            var rs := ReceiptsSince(self, start, run[..n], signer);
            var l := After(self, start, run[..n]).ledger;
            Accepted(self, start, run, n) <==>
              && run[n].op.authorised && i >= 0 && !RevokedSince(self, start, run[..n], signer)
              && var g := run[i].op.grant;
              && run[n].now <= g.expiresAt && 0 < p.amount <= g.perPaymentLimit
              && p.destination in g.destinations && p.asset in g.assets
              && p.nonce == |rs| + 1 < U64_MAX && Amounts(rs) + p.amount <= g.totalLimit
              && p.amount <= Balance(l, p.asset, self)
              && (p.destination != self ==> Balance(l, p.asset, p.destination) + p.amount <= I128_MAX)
  {
    hide Token.Transfer, Balance, After, ReceiptsSince, LastGrant, RevokedSince;
    var start := State(Some(owner), map[], ledger);
    EveryRunKeepsSessionsExact(self, owner, ledger, run[..n], run[n].op.signer);
    var p := run[n].op.payment;
    TransferIsExact(After(self, start, run[..n]).ledger, p.asset, self, p.destination, p.amount);
  }

  /** The receipt of an accepted payment repeats it, with what its session has spent, what remains and the time. */
  lemma ReceiptIsThePayment(self: Address, owner: Address, ledger: Ledger, run: History, signer: Address)
    requires run != [] && Pays(self, State(Some(owner), map[], ledger), run, signer, |run| - 1)
    ensures var start, n := State(Some(owner), map[], ledger), |run| - 1;
            var rs, p, i := ReceiptsSince(self, start, run[..n], signer), run[n].op.payment, LastGrant(self, start, run[..n], signer);
            && i >= 0 && ReceiptsSince(self, start, run, signer) == rs + [ReceiptsSince(self, start, run, signer)[|rs|]]
            && var r := ReceiptsSince(self, start, run, signer)[|rs|];
            && r.signer == signer && r.destination == p.destination && r.asset == p.asset && r.amount == p.amount
            && r.reference == p.reference && r.nonce == p.nonce && r.executedAt == run[n].now
            && r.spent == Amounts(rs) + p.amount && r.remaining == run[i].op.grant.totalLimit - r.spent
  {
    var start := State(Some(owner), map[], ledger);
    EveryRunKeepsSessionsExact(self, owner, ledger, run[..|run| - 1], signer);
    hide SessionIsExact;
  }

  /** An error names a check that failed. */
  lemma ErrorsNameTheFailedCheck(self: Address, s: State, e: Event)
    requires Outcome(self, s, e).Err?
    ensures match Outcome(self, s, e).error
            case NotInitialized => s.owner.None?
            case NotOwner => !e.op.TransferOp? && !e.op.TokenOp? && s.owner != Some(e.op.ownerAuth)
            case MissingSession => (e.op.TransferOp? || e.op.RevokeOp?) && e.op.signer !in s.sessions
            case RevokedSession => e.op.TransferOp? && s.sessions[e.op.signer].revoked
            case ExpiredSession => e.op.TransferOp? && e.now > s.sessions[e.op.signer].expiresAt
            case DestinationOutsideAllowlist => e.op.TransferOp? && e.op.payment.destination !in s.sessions[e.op.signer].destinations
            case AssetOutsideAllowlist => e.op.TransferOp? && e.op.payment.asset !in s.sessions[e.op.signer].assets
            case InvalidAmount => (e.op.TransferOp? && e.op.payment.amount <= 0) || (e.op.WithdrawOp? && e.op.amount <= 0)
            case AmountOverLimit => e.op.TransferOp? && e.op.payment.amount > s.sessions[e.op.signer].perPaymentLimit
            case SessionBudgetExceeded => e.op.TransferOp? && s.sessions[e.op.signer].spent + e.op.payment.amount > s.sessions[e.op.signer].totalLimit
            case InvalidNonce => e.op.TransferOp? && (e.op.payment.nonce != s.sessions[e.op.signer].nextNonce || e.op.payment.nonce == U64_MAX)
            case InvalidPolicy =>
              e.op.GrantOp? && (e.op.grant.destinations == [] || e.op.grant.assets == [] || e.op.grant.perPaymentLimit <= 0
                                || e.op.grant.totalLimit < e.op.grant.perPaymentLimit || e.op.grant.expiresAt <= e.now)
            case AllowlistTooLarge => e.op.GrantOp? && (|e.op.grant.destinations| > 16 || |e.op.grant.assets| > 16)
            case HostPanic =>
              match e.op
              case TransferOp(authorised, _, p) => !authorised || Token.Transfer(s.ledger, p.asset, self, p.destination, p.amount).None?
              case WithdrawOp(_, authorised, to, asset, amount) => !authorised || Token.Transfer(s.ledger, asset, self, to, amount).None?
              case TokenOp(asset, from, to, amount) => from == self || Token.Transfer(s.ledger, asset, from, to, amount).None?
              case GrantOp(_, authorised, _, _) => !authorised
              case RevokeOp(_, authorised, _) => !authorised
  {
  }

  // ---------- where the tokens are ----------

  /** What an accepted event moves. */
  function MoveOf(self: Address, e: Event): seq<Move> {
    match e.op
    case TransferOp(_, _, p) => [Move(p.asset, self, p.destination, p.amount)]
    case WithdrawOp(_, _, destination, asset, amount) => [Move(asset, self, destination, amount)]
    case TokenOp(asset, from, to, amount) => [Move(asset, from, to, amount)]
    case _ => []
  }

  function Moves(self: Address, start: State, run: History): seq<Move> {
    if run == [] then [] else
    var n := |run| - 1;
    Moves(self, start, run[..n]) + if Accepted(self, start, run, n) then MoveOf(self, run[n]) else []
  }

  lemma StepAccounts(self: Address, start: Ledger, s: State, moves: seq<Move>, e: Event)
    requires Accounts(start, s.ledger, moves)
    ensures Accounts(start, Apply(self, s, e).ledger, moves + if Outcome(self, s, e).Ok? then MoveOf(self, e) else [])
  {
    hide Token.Transfer, Accounts;
    assert moves + [] == moves;
    if Outcome(self, s, e).Ok? && MoveOf(self, e) != [] {
      AccountsForOneMore(start, s.ledger, moves, MoveOf(self, e)[0]);
    }
  }

  /** Every holder's balance of every asset is the opening one plus what accepted payments, withdrawals and other
      transfers brought, minus what they took. */
  lemma {:induction false} EveryRunAccountsForTokens(self: Address, start: State, run: History)
    ensures Accounts(start.ledger, After(self, start, run).ledger, Moves(self, start, run))
  {
    if run != [] {
      hide Outcome, Apply;
      var n := |run| - 1;
      EveryRunAccountsForTokens(self, start, run[..n]);
      StepAccounts(self, start.ledger, After(self, start, run[..n]), Moves(self, start, run[..n]), run[n]);
    }
  }

  /** The amounts of the accepted payments in an asset, and of the accepted withdrawals. */
  function PaidOut(self: Address, start: State, run: History, asset: Address): int {
    if run == [] then 0 else
    var n := |run| - 1;
    PaidOut(self, start, run[..n], asset)
    + if run[n].op.TransferOp? && run[n].op.payment.asset == asset && Accepted(self, start, run, n) then run[n].op.payment.amount else 0
  }

  function Withdrawn(self: Address, start: State, run: History, asset: Address): int {
    if run == [] then 0 else
    var n := |run| - 1;
    Withdrawn(self, start, run[..n], asset)
    + if run[n].op.WithdrawOp? && run[n].op.asset == asset && Accepted(self, start, run, n) then run[n].op.amount else 0
  }

  /** Somebody else's transfer that is accepted is not out of this contract. */
  lemma OnlyOwnMovesLeave(self: Address, start: State, run: History, n: nat)
    requires n < |run| && Accepted(self, start, run, n) && run[n].op.TokenOp?
    ensures run[n].op.from != self
  {
    hide After;
  }

  lemma MoveTakes(self: Address, e: Event, moves: seq<Move>, asset: Address)
    requires e.op.TokenOp? ==> e.op.from != self
    ensures Outflow(moves + MoveOf(self, e), asset, self)
         == Outflow(moves, asset, self) + (if e.op.TransferOp? && e.op.payment.asset == asset then e.op.payment.amount else 0)
            + (if e.op.WithdrawOp? && e.op.asset == asset then e.op.amount else 0)
  {
    hide Outflow;
    assert moves + [] == moves;
    if MoveOf(self, e) != [] { OutflowOfOneMore(moves, MoveOf(self, e)[0], asset, self); }
  }

  lemma {:induction false} EscrowOutflow(self: Address, start: State, run: History, asset: Address)
    ensures Outflow(Moves(self, start, run), asset, self) == PaidOut(self, start, run, asset) + Withdrawn(self, start, run, asset)
  {
    if run != [] {
      var n := |run| - 1;
      EscrowOutflow(self, start, run[..n], asset);
      hide Outcome, After, Outflow, Accepted, MoveOf;
      var moves := Moves(self, start, run[..n]);
      assert moves + [] == moves;
      if Accepted(self, start, run, n) {
        if run[n].op.TokenOp? { OnlyOwnMovesLeave(self, start, run, n); }
        MoveTakes(self, run[n], moves, asset);
      }
    }
  }

  /** The escrow holds what it held plus what came in, minus the payments and minus the owner's withdrawals. */
  lemma EscrowBalanceIsExact(self: Address, start: State, run: History, asset: Address)
    ensures Balance(After(self, start, run).ledger, asset, self)
         == Balance(start.ledger, asset, self) + Inflow(Moves(self, start, run), asset, self)
            - PaidOut(self, start, run, asset) - Withdrawn(self, start, run, asset)
  {
    EveryRunAccountsForTokens(self, start, run);
    EscrowOutflow(self, start, run, asset);
  }

  /** Everyone a run could move tokens for. */
  ghost predicate Involves(self: Address, run: History, holders: seq<Address>) {
    && self in holders
    && forall i :: 0 <= i < |run| ==>
         match run[i].op
         case TransferOp(_, _, p) => p.destination in holders
         case WithdrawOp(_, _, destination, _, _) => destination in holders
         case TokenOp(_, from, to, _) => from in holders && to in holders
         case _ => true
  }

  lemma StepConserves(self: Address, s: State, e: Event, asset: Address, holders: seq<Address>)
    requires Distinct(holders) && Involves(self, [e], holders)
    ensures SumOver(Apply(self, s, e).ledger, asset, holders) == SumOver(s.ledger, asset, holders)
  {
    if Outcome(self, s, e).Ok? {
      assert [e][0] == e;
      match e.op
      case TransferOp(_, _, p) => TransferConserves(s.ledger, p.asset, self, p.destination, p.amount, asset, holders);
      case WithdrawOp(_, _, destination, a, amount) => TransferConserves(s.ledger, a, self, destination, amount, asset, holders);
      case TokenOp(a, from, to, amount) => TransferConserves(s.ledger, a, from, to, amount, asset, holders);
      case _ =>
    }
  }

  /** No run creates or destroys tokens. */
  lemma {:induction false} EveryRunConservesTokens(self: Address, start: State, run: History, asset: Address, holders: seq<Address>)
    requires Distinct(holders) && Involves(self, run, holders)
    ensures SumOver(After(self, start, run).ledger, asset, holders) == SumOver(start.ledger, asset, holders)
  {
    if run != [] {
      var n := |run| - 1;
      assert forall i :: 0 <= i < n ==> run[..n][i] == run[i];
      EveryRunConservesTokens(self, start, run[..n], asset, holders);
      assert [run[n]][0] == run[n];
      StepConserves(self, After(self, start, run[..n]), run[n], asset, holders);
    }
  }
}
