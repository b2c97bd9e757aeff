/** The first smart wallet: sessions without a budget, replay protection by a set of used nonces. */
module Wallet {
  import opened Common
  import opened Token

  datatype WalletError =
    | AlreadyInitialized | NotInitialized | NotOwner | MissingSession | RevokedSession | ExpiredSession
    | OutsideAllowlist | AmountOverLimit | ReplayNonce | AssetOutsideAllowlist | HostPanic

  datatype Session = Session(destinations: seq<Address>, providers: seq<string>, assets: seq<Address>,
                             perPaymentLimit: i128, expiresAt: u64, revoked: bool)

  datatype State = State(owner: Option<Address>, sessions: map<Address, Session>, nonces: set<(Address, u64)>, ledger: Ledger)

  /** Both execute entry points; a payment without an asset only records. */
  datatype Op =
    | InitOp(newOwner: Address, authorised: bool)
    | GrantOp(ownerAuth: Address, authorised: bool, signer: Address, session: Session)
    | RevokeOp(ownerAuth: Address, authorised: bool, signer: Address)
    | PaymentOp(authorised: bool, signer: Address, destination: Address, amount: i128, provider: string, nonce: u64)
    | TransferOp(authorised: bool, signer: Address, destination: Address, amount: i128, provider: string, nonce: u64, asset: Address)
    | TokenOp(tokenAsset: Address, from: Address, to: Address, moved: i128)

  datatype Event = Event(now: u64, op: Op)

  function RequireOwner(s: State, ownerAuth: Address, authorised: bool): Option<WalletError> {
    if !authorised then Some(HostPanic)
    else if s.owner.None? then Some(NotInitialized)
    else if s.owner.value != ownerAuth then Some(NotOwner)
    else None
  }

  /** The checks both entry points share, ending with the nonce being used up. */
  function ValidateSessionPayment(s: State, now: u64, signer: Address, destination: Address, amount: i128,
                                  provider: string, nonce: u64): Result<State, WalletError> {
    if signer !in s.sessions then Err(MissingSession) else
    var policy := s.sessions[signer];
    if policy.revoked then Err(RevokedSession)
    else if now > policy.expiresAt then Err(ExpiredSession)
    else if amount > policy.perPaymentLimit then Err(AmountOverLimit)
    else if destination !in policy.destinations && provider !in policy.providers then Err(OutsideAllowlist)
    else if (signer, nonce) in s.nonces then Err(ReplayNonce)
    else Ok(s.(nonces := s.nonces + {(signer, nonce)}))
  }

  function Outcome(self: Address, s: State, e: Event): Result<State, WalletError> {
    match e.op
    case InitOp(owner, authorised) =>
      if !authorised then Err(HostPanic) else if s.owner.Some? then Err(AlreadyInitialized) else Ok(s.(owner := Some(owner)))
    case GrantOp(ownerAuth, authorised, signer, session) =>
      (match RequireOwner(s, ownerAuth, authorised) case Some(error) => Err(error) case None =>
       Ok(s.(sessions := s.sessions[signer := session.(revoked := false)])))
    case RevokeOp(ownerAuth, authorised, signer) =>
      (match RequireOwner(s, ownerAuth, authorised) case Some(error) => Err(error) case None =>
       if signer !in s.sessions then Err(MissingSession)
       else Ok(s.(sessions := s.sessions[signer := s.sessions[signer].(revoked := true)])))
    case PaymentOp(authorised, signer, destination, amount, provider, nonce) =>
      if !authorised then Err(HostPanic) else ValidateSessionPayment(s, e.now, signer, destination, amount, provider, nonce)
    case TransferOp(authorised, signer, destination, amount, provider, nonce, asset) =>
      if !authorised then Err(HostPanic) else
      (match ValidateSessionPayment(s, e.now, signer, destination, amount, provider, nonce)
       case Err(error) => Err(error)
       case Ok(s') =>
         if asset !in s.sessions[signer].assets then Err(AssetOutsideAllowlist) else
         match Token.Transfer(s.ledger, asset, self, destination, amount) case None => Err(HostPanic) case Some(ledger) =>
         Ok(s'.(ledger := ledger)))
    case TokenOp(asset, from, to, amount) =>
      if from == self then Err(HostPanic) else
      (match Token.Transfer(s.ledger, asset, from, to, amount) case None => Err(HostPanic) case Some(ledger) =>
       Ok(s.(ledger := ledger)))
  }

  function Apply(self: Address, s: State, e: Event): State {
    match Outcome(self, s, e) case Err(_) => s case Ok(s') => s'
  }

  /** The deployed contract. */
  class SorobanSmartWallet {
    const self: Address
    var owner: Option<Address>
    var sessions: map<Address, Session>
    var nonces: set<(Address, u64)>
    var ledger: Ledger

    constructor (self: Address, ledger: Ledger)
      ensures this.self == self && Now() == State(None, map[], {}, ledger)
    {
      this.self, this.owner, this.sessions, this.nonces, this.ledger := self, None, map[], {}, ledger;
    }

    function Now(): State reads this { State(owner, sessions, nonces, ledger) }

    /** A scan of the stored list. */
    method Allowed(items: seq<string>, item: string) returns (found: bool)
      ensures found <==> item in items
    {
      var i := 0;
      while i < |items|
        invariant 0 <= i <= |items| && item !in items[..i]
      {
        if items[i] == item { return true; }
        i := i + 1;
      }
      assert items[..i] == items;
      return false;
    }

    method UseNonce(now: u64, signer: Address, destination: Address, amount: i128, provider: string, nonce: u64)
        returns (error: Option<WalletError>)
      modifies this`nonces
      ensures error.None? ==> ValidateSessionPayment(old(Now()), now, signer, destination, amount, provider, nonce) == Ok(Now())
      ensures error.Some? ==> ValidateSessionPayment(old(Now()), now, signer, destination, amount, provider, nonce) == Err(error.value)
                              && nonces == old(nonces)
    {
      if signer !in sessions { return Some(MissingSession); }
      var policy := sessions[signer];
      if policy.revoked { return Some(RevokedSession); }
      if now > policy.expiresAt { return Some(ExpiredSession); }
      if amount > policy.perPaymentLimit { return Some(AmountOverLimit); }
      var address := Allowed(policy.destinations, destination);
      var known := Allowed(policy.providers, provider);
      if !address && !known { return Some(OutsideAllowlist); }
      if (signer, nonce) in nonces { return Some(ReplayNonce); }
      nonces := nonces + {(signer, nonce)};
      return None;
    }

    method ExecuteAllowedPayment(now: u64, authorised: bool, signer: Address, destination: Address, amount: i128,
                                 provider: string, nonce: u64) returns (error: Option<WalletError>)
      modifies this`nonces
      ensures Now() == Apply(self, old(Now()), Event(now, PaymentOp(authorised, signer, destination, amount, provider, nonce)))
      ensures error.None? <==> Outcome(self, old(Now()), Event(now, PaymentOp(authorised, signer, destination, amount, provider, nonce))).Ok?
    {
      if !authorised { return Some(HostPanic); }
      error := UseNonce(now, signer, destination, amount, provider, nonce);
    }

    /** The nonce is used up before the asset check and the token call; their panics give it back. */
    method ExecuteAllowedTransfer(now: u64, authorised: bool, signer: Address, destination: Address, asset: Address,
                                  amount: i128, provider: string, nonce: u64) returns (error: Option<WalletError>)
      modifies this`nonces, this`ledger
      ensures Now() == Apply(self, old(Now()), Event(now, TransferOp(authorised, signer, destination, amount, provider, nonce, asset)))
      ensures error.None? <==> Outcome(self, old(Now()), Event(now, TransferOp(authorised, signer, destination, amount, provider, nonce, asset))).Ok?
    {
      if !authorised { return Some(HostPanic); }
      var stored := nonces;
      error := UseNonce(now, signer, destination, amount, provider, nonce);
      if error.Some? { return; }
      var listed := Allowed(sessions[signer].assets, asset);
      if !listed {
        nonces := stored;
        return Some(AssetOutsideAllowlist);
      }
      var moved := Token.Transfer(ledger, asset, self, destination, amount);
      if moved.None? {
        nonces := stored;
        return Some(HostPanic);
      }
      ledger := moved.value;
    }
  }

  // ---------- every run ----------

  type History = seq<Event>

  function After(self: Address, start: State, run: History): State {
    if run == [] then start else Apply(self, After(self, start, run[..|run| - 1]), run[|run| - 1])
  }

  predicate Accepted(self: Address, start: State, run: History, i: nat)
    requires i < |run|
  {
    Outcome(self, After(self, start, run[..i]), run[i]).Ok?
  }

  predicate AllAccepted(self: Address, start: State, run: History) {
    forall i :: 0 <= i < |run| ==> Accepted(self, start, run, i)
  }

  /** The (signer, nonce) pair that an execution, by either entry point, uses up. */
  function Pair(e: Event): Option<(Address, u64)> {
    match e.op
    case PaymentOp(_, signer, _, _, _, nonce) => Some((signer, nonce))
    case TransferOp(_, signer, _, _, _, nonce, _) => Some((signer, nonce))
    case _ => None
  }

  lemma {:induction false} UsedNoncesStay(self: Address, start: State, run: History, i: nat, n: nat)
    requires i < n <= |run| && Accepted(self, start, run, i) && Pair(run[i]).Some?
    ensures Pair(run[i]).value in After(self, start, run[..n]).nonces
  {
    assert run[..n][..n - 1] == run[..n - 1];
    if i < n - 1 { UsedNoncesStay(self, start, run, i, n - 1); }
  }

  /** A (signer, nonce) pair is accepted at most once in a run, across re-grants and both entry points. */
  lemma NoncePairsAreUsedOnce(self: Address, start: State, run: History, i: nat, j: nat)
    requires i < |run| && j < |run| && Accepted(self, start, run, i) && Accepted(self, start, run, j)
    requires Pair(run[i]).Some? && Pair(run[i]) == Pair(run[j])
    ensures i == j
  {
    if i < j { UsedNoncesStay(self, start, run, i, j); } else if j < i { UsedNoncesStay(self, start, run, j, i); }
  }

  // ---------- what is accepted, in every run ----------

  predicate Grants(self: Address, start: State, run: History, signer: Address, i: nat) {
    i < |run| && run[i].op.GrantOp? && run[i].op.signer == signer && Accepted(self, start, run, i)
  }

  predicate Revokes(self: Address, start: State, run: History, signer: Address, i: nat) {
    i < |run| && run[i].op.RevokeOp? && run[i].op.signer == signer && Accepted(self, start, run, i)
  }

  /** The latest accepted grant of the signer, or -1. */
  function LastGrant(self: Address, start: State, run: History, signer: Address): (g: int)
    ensures -1 <= g < |run| && (g >= 0 ==> Grants(self, start, run, signer, g))
  {
    if run == [] then -1
    else if Grants(self, start, run, signer, |run| - 1) then |run| - 1
    else
      var g := LastGrant(self, start, run[..|run| - 1], signer);
      assert g >= 0 ==> run[..|run| - 1][..g] == run[..g];
      g
  }

  /** Whether the signer was revoked since its last accepted grant. */
  predicate RevokedSince(self: Address, start: State, run: History, signer: Address) {
    run != [] && !Grants(self, start, run, signer, |run| - 1)
    && (Revokes(self, start, run, signer, |run| - 1) || RevokedSince(self, start, run[..|run| - 1], signer))
  }

  /** The owner is set once, by the first authorised init. */
  function OwnerAfter(start: State, run: History): Option<Address> {
    if run == [] then start.owner else
    var before := OwnerAfter(start, run[..|run| - 1]);
    var op := run[|run| - 1].op;
    if before.None? && op.InitOp? && op.authorised then Some(op.newOwner) else before
  }

  lemma {:induction false} OwnerIsSetOnce(self: Address, start: State, run: History)
    ensures After(self, start, run).owner == OwnerAfter(start, run)
  {
    if run != [] { OwnerIsSetOnce(self, start, run[..|run| - 1]); }
  }

  ghost predicate SessionIsExact(self: Address, start: State, run: History, signer: Address) {
    var sessions := After(self, start, run).sessions;
    var g := LastGrant(self, start, run, signer);
    && (signer in sessions <==> g >= 0)
    && (g >= 0 && signer in sessions ==>
          sessions[signer] == run[g].op.session.(revoked := RevokedSince(self, start, run, signer)))
  }

  lemma SessionStep(self: Address, s: State, e: Event, signer: Address)
    ensures var s' := Apply(self, s, e);
            var mine := Outcome(self, s, e).Ok? && (e.op.GrantOp? || e.op.RevokeOp?) && e.op.signer == signer;
            if mine && e.op.GrantOp? then signer in s'.sessions && s'.sessions[signer] == e.op.session.(revoked := false)
            else (signer in s'.sessions <==> signer in s.sessions)
                 && (signer in s.sessions ==> s'.sessions[signer] == if mine then s.sessions[signer].(revoked := true) else s.sessions[signer])
  {
  }

  lemma {:induction false} EveryRunKeepsSessionsExact(self: Address, start: State, run: History, signer: Address)
    requires start.sessions == map[]
    ensures SessionIsExact(self, start, run, signer)
  {
    hide Outcome, Apply;
    if run != [] {
      var n := |run| - 1;
      EveryRunKeepsSessionsExact(self, start, run[..n], signer);
      SessionStep(self, After(self, start, run[..n]), run[n], signer);
    }
  }

  /** An earlier accepted execution, by either entry point, used the pair. */
  ghost predicate UsedBefore(self: Address, start: State, run: History, pair: (Address, u64)) {
    exists i :: 0 <= i < |run| && Accepted(self, start, run, i) && Pair(run[i]) == Some(pair)
  }

  lemma NonceStep(self: Address, s: State, e: Event)
    ensures Apply(self, s, e).nonces == s.nonces + if Outcome(self, s, e).Ok? && Pair(e).Some? then {Pair(e).value} else {}
  {
  }

  /** The stored nonces are exactly the pairs of the accepted executions. */
  lemma {:induction false} NoncesAreThePairsUsed(self: Address, start: State, run: History, pair: (Address, u64))
    requires start.nonces == {}
    ensures pair in After(self, start, run).nonces <==> UsedBefore(self, start, run, pair)
  {
    hide Outcome, Apply, Pair;
    if run != [] {
      var n := |run| - 1;
      NoncesAreThePairsUsed(self, start, run[..n], pair);
      NonceStep(self, After(self, start, run[..n]), run[n]);
      forall i | 0 <= i < n ensures Accepted(self, start, run[..n], i) == Accepted(self, start, run, i) && run[..n][i] == run[i] {
        assert run[..n][..i] == run[..i];
      }
      if UsedBefore(self, start, run[..n], pair) {
        var i :| 0 <= i < n && Accepted(self, start, run[..n], i) && Pair(run[..n][i]) == Some(pair);
        assert Accepted(self, start, run, i) && Pair(run[i]) == Some(pair);
      }
    }
  }

  /** A session may pay this at this time: its last grant by the owner, which is neither revoked since nor expired, lists
      the destination or the provider and allows the amount, and the pair is new. */
  ghost predicate Covered(self: Address, start: State, run: History, now: u64, signer: Address, destination: Address,
                          amount: i128, provider: string, nonce: u64)
  {
    var i := LastGrant(self, start, run, signer);
    && i >= 0 && !RevokedSince(self, start, run, signer)
    && var g := run[i].op.session;
    && now <= g.expiresAt && amount <= g.perPaymentLimit && (destination in g.destinations || provider in g.providers)
    && !UsedBefore(self, start, run, (signer, nonce))
  }

  lemma PaymentIsAcceptedExactly(self: Address, start: State, run: History, n: nat)
    requires start.sessions == map[] && start.nonces == {} && n < |run| && run[n].op.PaymentOp?
    ensures var op := run[n].op;
            Accepted(self, start, run, n) <==>
              op.authorised && Covered(self, start, run[..n], run[n].now, op.signer, op.destination, op.amount, op.provider, op.nonce)
  {
    hide After, LastGrant, RevokedSince;
    EveryRunKeepsSessionsExact(self, start, run[..n], run[n].op.signer);
    NoncesAreThePairsUsed(self, start, run[..n], (run[n].op.signer, run[n].op.nonce));
  }

  /** A transfer needs its asset in the grant's list, and tokens the wallet holds. */
  lemma TransferIsAcceptedExactly(self: Address, start: State, run: History, n: nat)
    requires start.sessions == map[] && start.nonces == {} && n < |run| && run[n].op.TransferOp?
    ensures var op := run[n].op;
            var l := After(self, start, run[..n]).ledger;
            Accepted(self, start, run, n) <==>
              && op.authorised
              && Covered(self, start, run[..n], run[n].now, op.signer, op.destination, op.amount, op.provider, op.nonce)
              && op.asset in run[LastGrant(self, start, run[..n], op.signer)].op.session.assets
              && 0 <= op.amount <= Balance(l, op.asset, self)
              && (op.destination != self ==> Balance(l, op.asset, op.destination) + op.amount <= I128_MAX)
  {
    hide After, LastGrant, RevokedSince, Token.Transfer, Balance;
    var op := run[n].op;
    EveryRunKeepsSessionsExact(self, start, run[..n], op.signer);
    NoncesAreThePairsUsed(self, start, run[..n], (op.signer, op.nonce));
    TransferIsExact(After(self, start, run[..n]).ledger, op.asset, self, op.destination, op.amount);
  }

  /** Only the owner grants and revokes; anyone may become the first owner. */
  lemma AdministrationIsAcceptedExactly(self: Address, start: State, run: History, n: nat)
    requires start.sessions == map[] && n < |run|
    ensures var op, owner := run[n].op, OwnerAfter(start, run[..n]);
            && (op.InitOp? ==> (Accepted(self, start, run, n) <==> op.authorised && owner.None?))
            && (op.GrantOp? ==> (Accepted(self, start, run, n) <==> op.authorised && owner == Some(op.ownerAuth)))
            && (op.RevokeOp? ==>
                  (Accepted(self, start, run, n) <==>
                     op.authorised && owner == Some(op.ownerAuth) && LastGrant(self, start, run[..n], op.signer) >= 0))
  {
    hide After, LastGrant, RevokedSince, OwnerAfter;
    OwnerIsSetOnce(self, start, run[..n]);
    if run[n].op.RevokeOp? { EveryRunKeepsSessionsExact(self, start, run[..n], run[n].op.signer); }
  }

  /** Between an accepted revoke and a later execution by the same signer there is an accepted grant to it. */
  lemma NoExecutionBetweenRevokeAndGrant(self: Address, start: State, run: History, signer: Address, i: nat, j: nat) returns (k: nat)
    requires start.sessions == map[] && start.nonces == {}
    requires i < j < |run| && Revokes(self, start, run, signer, i)
    requires Accepted(self, start, run, j) && (run[j].op.PaymentOp? || run[j].op.TransferOp?) && run[j].op.signer == signer
    ensures i < k < j && Grants(self, start, run, signer, k)
  {
    hide Outcome, After, RevokedSince, LastGrant;
    if run[j].op.PaymentOp? { PaymentIsAcceptedExactly(self, start, run, j); } else { TransferIsAcceptedExactly(self, start, run, j); }
    if forall k :: i < k < j ==> !Grants(self, start, run, signer, k) {
      RevokedUntilGrant(self, start, run, signer, i, j);
    }
    k :| i < k < j && Grants(self, start, run, signer, k);
  }

  lemma {:induction false} RevokedUntilGrant(self: Address, start: State, run: History, signer: Address, i: nat, n: nat)
    requires Revokes(self, start, run, signer, i) && i < n <= |run|
    requires forall k :: i < k < n ==> !Grants(self, start, run, signer, k)
    ensures RevokedSince(self, start, run[..n], signer)
  {
    hide Outcome;
    assert run[..n][..n - 1] == run[..n - 1];
    if i < n - 1 {
      assert !Grants(self, start, run, signer, n - 1);
      RevokedUntilGrant(self, start, run, signer, i, n - 1);
    }
  }

  /** An error names a check that failed. */
  lemma ErrorsNameTheFailedCheck(self: Address, s: State, e: Event)
    requires Outcome(self, s, e).Err?
    ensures var pays := e.op.PaymentOp? || e.op.TransferOp?;
            match Outcome(self, s, e).error
            case AlreadyInitialized => e.op.InitOp? && s.owner.Some?
            case NotInitialized => s.owner.None?
            case NotOwner => (e.op.GrantOp? || e.op.RevokeOp?) && s.owner != Some(e.op.ownerAuth)
            case MissingSession => (pays || e.op.RevokeOp?) && e.op.signer !in s.sessions
            case RevokedSession => pays && s.sessions[e.op.signer].revoked
            case ExpiredSession => pays && e.now > s.sessions[e.op.signer].expiresAt
            case AmountOverLimit => pays && e.op.amount > s.sessions[e.op.signer].perPaymentLimit
            case OutsideAllowlist =>
              pays && e.op.destination !in s.sessions[e.op.signer].destinations && e.op.provider !in s.sessions[e.op.signer].providers
            case ReplayNonce => pays && (e.op.signer, e.op.nonce) in s.nonces
            case AssetOutsideAllowlist => e.op.TransferOp? && e.op.asset !in s.sessions[e.op.signer].assets
            case HostPanic =>
              match e.op
              case TransferOp(authorised, _, to, amount, _, _, asset) => !authorised || Token.Transfer(s.ledger, asset, self, to, amount).None?
              case TokenOp(asset, from, to, amount) => from == self || Token.Transfer(s.ledger, asset, from, to, amount).None?
              case PaymentOp(authorised, _, _, _, _, _) => !authorised
              case InitOp(_, authorised) => !authorised
              case GrantOp(_, authorised, _, _) => !authorised
              case RevokeOp(_, authorised, _) => !authorised
  {
  }

  // ---------- where the tokens are ----------

  /** What an accepted event moves; a payment only records. */
  function MoveOf(self: Address, e: Event): seq<Move> {
    match e.op
    case TransferOp(_, _, destination, amount, _, _, asset) => [Move(asset, self, destination, amount)]
    case TokenOp(asset, from, to, amount) => [Move(asset, from, to, amount)]
    case _ => []
  }

  function Moves(self: Address, start: State, run: History): seq<Move> {
    if run == [] then [] else
    var n := |run| - 1;
    Moves(self, start, run[..n]) + if Accepted(self, start, run, n) then MoveOf(self, run[n]) else []
  }

  lemma StepAccounts(self: Address, start: Ledger, s: State, moves: seq<Move>, e: Event)
    requires Accounts(start, s.ledger, moves)
    ensures Accounts(start, Apply(self, s, e).ledger, moves + if Outcome(self, s, e).Ok? then MoveOf(self, e) else [])
  {
    hide Token.Transfer, Accounts;
    assert moves + [] == moves;
    if Outcome(self, s, e).Ok? && MoveOf(self, e) != [] {
      AccountsForOneMore(start, s.ledger, moves, MoveOf(self, e)[0]);
    }
  }

  /** Every balance is the opening one plus what accepted transfers brought, minus what they took. */
  lemma {:induction false} EveryRunAccountsForTokens(self: Address, start: State, run: History)
    ensures Accounts(start.ledger, After(self, start, run).ledger, Moves(self, start, run))
  {
    if run != [] {
      hide Outcome, Apply;
      var n := |run| - 1;
      EveryRunAccountsForTokens(self, start, run[..n]);
      StepAccounts(self, start.ledger, After(self, start, run[..n]), Moves(self, start, run[..n]), run[n]);
    }
  }

  /** The amounts of the accepted transfers in an asset. */
  function PaidOut(self: Address, start: State, run: History, asset: Address): int {
    if run == [] then 0 else
    var n := |run| - 1;
    PaidOut(self, start, run[..n], asset)
    + if run[n].op.TransferOp? && run[n].op.asset == asset && Accepted(self, start, run, n) then run[n].op.amount else 0
  }

  /** Somebody else's transfer that is accepted is not out of this contract. */
  lemma OnlyOwnMovesLeave(self: Address, start: State, run: History, n: nat)
    requires n < |run| && Accepted(self, start, run, n) && run[n].op.TokenOp?
    ensures run[n].op.from != self
  {
    hide After;
  }

  lemma MoveTakes(self: Address, e: Event, moves: seq<Move>, asset: Address)
    requires e.op.TokenOp? ==> e.op.from != self
    ensures Outflow(moves + MoveOf(self, e), asset, self)
         == Outflow(moves, asset, self) + if e.op.TransferOp? && e.op.asset == asset then e.op.amount else 0
  {
    hide Outflow;
    assert moves + [] == moves;
    if MoveOf(self, e) != [] { OutflowOfOneMore(moves, MoveOf(self, e)[0], asset, self); }
  }

  lemma {:induction false} WalletOutflow(self: Address, start: State, run: History, asset: Address)
    ensures Outflow(Moves(self, start, run), asset, self) == PaidOut(self, start, run, asset)
  {
    if run != [] {
      var n := |run| - 1;
      WalletOutflow(self, start, run[..n], asset);
      hide Outcome, After, Outflow, Accepted, MoveOf;
      var moves := Moves(self, start, run[..n]);
      assert moves + [] == moves;
      if Accepted(self, start, run, n) {
        if run[n].op.TokenOp? { OnlyOwnMovesLeave(self, start, run, n); }
        MoveTakes(self, run[n], moves, asset);
      }
    }
  }

  /** The wallet holds what it held plus what came in, minus the accepted transfers: nothing else takes from it. */
  lemma WalletBalanceIsExact(self: Address, start: State, run: History, asset: Address)
    ensures Balance(After(self, start, run).ledger, asset, self)
         == Balance(start.ledger, asset, self) + Inflow(Moves(self, start, run), asset, self) - PaidOut(self, start, run, asset)
  {
    EveryRunAccountsForTokens(self, start, run);
    WalletOutflow(self, start, run, asset);
  }
}
