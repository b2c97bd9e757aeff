/** The Soroban contract account: an owner passkey administers one budgeted session key.
    An Err or a panic leaves the account as it was. */
module SpendAccount {
  import opened Common
  import opened Base64Url

  type Address = string
  type PublicKey = string

  datatype AccountError =
    | NotInitialized | InvalidCredential | InvalidWebAuthnData | InvalidChallenge | InvalidOrigin | InvalidRpId
    | MissingSession | RevokedSession | ExpiredSession | InvalidContext | InvalidTransfer
    | DestinationOutsideAllowlist | AssetOutsideAllowlist | AmountOverLimit | BudgetExceeded
    | InvalidPolicy | AllowlistTooLarge | HostPanic

  datatype Policy = Policy(
    signer: PublicKey, destinations: seq<Address>, assets: seq<Address>,
    perPaymentLimit: i128, totalLimit: i128, spent: i128, expiresAt: u64, revoked: bool)

  /** A host value passed as an argument: an address, a muxed address, an i128, or something else. */
  datatype Arg = AddressArg(address: Address) | MuxedArg(base: Address, id: u64) | AmountArg(amount: i128) | OtherArg

  /** One invocation to be authorised, or one that is not a contract call. */
  datatype Context = Invocation(contract: Address, fn: string, args: seq<Arg>) | OtherContext

  const MAX_ALLOWLIST: nat := 16

  // ---------- transfers and batches ----------

  /** The third argument counts only as an i128; the second may be a plain or a muxed address. */
  function ValidateTransferArgs(self: Address, args: seq<Arg>): Result<(Address, i128), AccountError> {
    if |args| != 3 then Err(InvalidTransfer)
    else if !args[0].AddressArg? || !(args[1].AddressArg? || args[1].MuxedArg?) || !args[2].AmountArg? then Err(InvalidTransfer)
    else if args[0].address != self || args[2].amount <= 0 then Err(InvalidTransfer)
    else Ok((if args[1].AddressArg? then args[1].address else args[1].base, args[2].amount))
  }

  /** What one context must be for the session key, or the error it draws; the payment's amount otherwise. */
  function CheckContext(self: Address, policy: Policy, c: Context): Result<i128, AccountError> {
    match c
    case OtherContext => Err(InvalidContext)
    case Invocation(contract, fn, args) =>
      if fn != "transfer" || contract !in policy.assets then Err(AssetOutsideAllowlist) else
      match ValidateTransferArgs(self, args)
      case Err(e) => Err(e)
      case Ok((destination, amount)) =>
        if destination !in policy.destinations then Err(DestinationOutsideAllowlist)
        else if amount > policy.perPaymentLimit then Err(AmountOverLimit)
        else Ok(amount)
  }

  /** The loop's running total from `total`, stopping at the first error. */
  function Scan(self: Address, policy: Policy, contexts: seq<Context>, total: i128): Result<i128, AccountError>
    decreases |contexts|
  {
    if contexts == [] then Ok(total) else
    match CheckContext(self, policy, contexts[0])
    case Err(e) => Err(e)
    case Ok(amount) =>
      match CheckedAdd(total, amount)
      case None => Err(BudgetExceeded)
      case Some(sum) => Scan(self, policy, contexts[1..], sum)
  }

  function AuthoriseBatch(self: Address, policy: Policy, contexts: seq<Context>): Result<Policy, AccountError> {
    if contexts == [] then Err(InvalidContext) else
    match Scan(self, policy, contexts, 0)
    case Err(e) => Err(e)
    case Ok(total) =>
      match CheckedAdd(policy.spent, total)
      case None => Err(BudgetExceeded)
      case Some(spent) => if spent > policy.totalLimit then Err(BudgetExceeded) else Ok(policy.(spent := spent))
  }

  /** verify_session_policy as it runs. */
  method VerifySessionPolicy(self: Address, contexts: seq<Context>, policy: Policy) returns (r: Result<Policy, AccountError>)
    ensures r == AuthoriseBatch(self, policy, contexts)
  {
    if contexts == [] { return Err(InvalidContext); }
    var total: i128 := 0;
    var i := 0;
    while i < |contexts|
      invariant 0 <= i <= |contexts|
      invariant Scan(self, policy, contexts, 0) == Scan(self, policy, contexts[i..], total)
    {
      assert contexts[i..][0] == contexts[i] && contexts[i..][1..] == contexts[i + 1..];
      match CheckContext(self, policy, contexts[i]) {
        case Err(e) => return Err(e);
        case Ok(amount) =>
          var sum := CheckedAdd(total, amount);
          if sum.None? { return Err(BudgetExceeded); }
          total := sum.value;
      }
      i := i + 1;
    }
    assert contexts[i..] == [];
    var spent := CheckedAdd(policy.spent, total);
    if spent.None? || spent.value > policy.totalLimit { return Err(BudgetExceeded); }
    return Ok(policy.(spent := spent.value));
  }

  predicate WellFormed(p: Policy) {
    && 0 <= p.spent <= p.totalLimit && 0 < p.perPaymentLimit <= p.totalLimit
    && 0 < |p.destinations| <= MAX_ALLOWLIST && 0 < |p.assets| <= MAX_ALLOWLIST
  }

  /** A context the session key may have signed for: a transfer out of this account, of an allowed asset, to an
      allowed destination, for a positive amount within the payment limit. */
  predicate Permitted(self: Address, p: Policy, c: Context) {
    && c.Invocation? && c.fn == "transfer" && c.contract in p.assets && |c.args| == 3
    && c.args[0] == AddressArg(self)
    && (c.args[1].AddressArg? || c.args[1].MuxedArg?)
    && (if c.args[1].AddressArg? then c.args[1].address else c.args[1].base) in p.destinations
    && c.args[2].AmountArg? && 0 < c.args[2].amount <= p.perPaymentLimit
  }

  /** The amount a context moves; zero for what is not a transfer. */
  function Amount(c: Context): nat {
    if c.Invocation? && |c.args| == 3 && c.args[2].AmountArg? && c.args[2].amount > 0 then c.args[2].amount else 0
  }

  function Total(contexts: seq<Context>): nat {
    if contexts == [] then 0 else Amount(contexts[0]) + Total(contexts[1..])
  }

  lemma CheckMeansPermitted(self: Address, p: Policy, c: Context)
    ensures CheckContext(self, p, c).Ok? <==> Permitted(self, p, c)
    ensures Permitted(self, p, c) ==> CheckContext(self, p, c) == Ok(Amount(c))
  {
  }

  lemma {:induction false} ScanMeansPermitted(self: Address, p: Policy, contexts: seq<Context>, total: i128)
    requires total >= 0
    ensures Scan(self, p, contexts, total).Ok? <==>
              (forall i :: 0 <= i < |contexts| ==> Permitted(self, p, contexts[i])) && total + Total(contexts) <= I128_MAX
    ensures Scan(self, p, contexts, total).Ok? ==> Scan(self, p, contexts, total) == Ok(total + Total(contexts))
    decreases |contexts|
  {
    if contexts != [] {
      CheckMeansPermitted(self, p, contexts[0]);
      assert forall i :: 0 <= i < |contexts| - 1 ==> contexts[1..][i] == contexts[i + 1];
      if Permitted(self, p, contexts[0]) && total + Amount(contexts[0]) <= I128_MAX {
        ScanMeansPermitted(self, p, contexts[1..], total + Amount(contexts[0]));
        if forall i :: 0 <= i < |contexts[1..]| ==> Permitted(self, p, contexts[1..][i]) {
          forall i | 0 <= i < |contexts| ensures Permitted(self, p, contexts[i]) {
            if i > 0 { assert contexts[1..][i - 1] == contexts[i]; }
          }
        }
      }
    }
  }

  ghost predicate AllPermitted(self: Address, p: Policy, contexts: seq<Context>) {
    forall i :: 0 <= i < |contexts| ==> Permitted(self, p, contexts[i])
  }

  /** A batch is accepted exactly when it is not empty, every context is permitted, and the whole amount fits the
      remaining budget; then nothing but `spent` moves, by exactly that amount. No overflow path accepts or
      refuses anything else. */
  lemma BatchMeansPermittedWithinBudget(self: Address, p: Policy, contexts: seq<Context>)
    requires WellFormed(p)
    ensures AuthoriseBatch(self, p, contexts).Ok? <==>
              contexts != [] && AllPermitted(self, p, contexts) && p.spent + Total(contexts) <= p.totalLimit
    ensures AuthoriseBatch(self, p, contexts).Ok? ==>
              AuthoriseBatch(self, p, contexts) == Ok(p.(spent := p.spent + Total(contexts)))
  {
    ScanMeansPermitted(self, p, contexts, 0);
  }

  lemma {:induction false} TotalOfConcat(a: seq<Context>, b: seq<Context>)
    ensures Total(a + b) == Total(a) + Total(b)
  {
    if a == [] {
      assert a + b == b;
    } else {
      assert (a + b)[1..] == a[1..] + b;
      TotalOfConcat(a[1..], b);
    }
  }

  function AuthoriseInTurn(self: Address, p: Policy, a: seq<Context>, b: seq<Context>): Result<Policy, AccountError> {
    match AuthoriseBatch(self, p, a)
    case Err(e) => Err(e)
    case Ok(q) => AuthoriseBatch(self, q, b)
  }

  /** Batch authorisation is sequential authorisation. */
  lemma BatchIsSequential(self: Address, p: Policy, a: seq<Context>, b: seq<Context>)
    requires WellFormed(p) && a != [] && b != []
    ensures AuthoriseBatch(self, p, a + b).Ok? <==> AuthoriseInTurn(self, p, a, b).Ok?
    ensures AuthoriseBatch(self, p, a + b).Ok? ==> AuthoriseBatch(self, p, a + b) == AuthoriseInTurn(self, p, a, b)
  {
    TotalOfConcat(a, b);
    BatchMeansPermittedWithinBudget(self, p, a + b);
    BatchMeansPermittedWithinBudget(self, p, a);
    PermittedInParts(self, p, a, b);
    if AuthoriseBatch(self, p, a).Ok? {
      var q := AuthoriseBatch(self, p, a).value;
      BatchMeansPermittedWithinBudget(self, q, b);
      assert forall c :: Permitted(self, q, c) <==> Permitted(self, p, c);
    }
  }

  lemma PermittedInParts(self: Address, p: Policy, a: seq<Context>, b: seq<Context>)
    ensures AllPermitted(self, p, a + b) <==> AllPermitted(self, p, a) && AllPermitted(self, p, b)
  {
    if AllPermitted(self, p, a + b) {
      forall i | 0 <= i < |a| ensures Permitted(self, p, a[i]) { assert (a + b)[i] == a[i]; }
      forall i | 0 <= i < |b| ensures Permitted(self, p, b[i]) { assert (a + b)[|a| + i] == b[i]; }
    }
  }

  lemma {:induction false} TotalOfPermutation(a: seq<Context>, b: seq<Context>)
    requires multiset(a) == multiset(b)
    ensures Total(a) == Total(b)
    decreases |a|
  {
    if a == [] {
      assert |multiset(b)| == |multiset(a)| == 0;
    } else {
      assert a[0] in multiset(a);
      assert a[0] in multiset(b) && a[0] in b;
      var k :| 0 <= k < |b| && b[k] == a[0];
      RemoveOne(a, b, k);
      TotalOfPermutation(a[1..], b[..k] + b[k + 1..]);
    }
  }

  lemma RemoveOne(a: seq<Context>, b: seq<Context>, k: nat)
    requires a != [] && k < |b| && b[k] == a[0] && multiset(a) == multiset(b)
    ensures multiset(a[1..]) == multiset(b[..k] + b[k + 1..])
    ensures Total(b) == Amount(b[k]) + Total(b[..k] + b[k + 1..])
  {
    hide Amount;
    assert multiset(b[..k] + b[k + 1..]) == multiset(b) - multiset{b[k]} by { Without(b, k); }
    assert multiset(a[..0] + a[1..]) == multiset(a) - multiset{a[0]} by { Without(a, 0); }
    assert a[..0] + a[1..] == a[1..];
    TotalWithout(b, k);
  }

  lemma Without<T>(s: seq<T>, k: nat)
    requires k < |s|
    ensures multiset(s[..k] + s[k + 1..]) == multiset(s) - multiset{s[k]}
  {
    assert s == s[..k] + ([s[k]] + s[k + 1..]);
  }

  lemma TotalWithout(b: seq<Context>, k: nat)
    requires k < |b|
    ensures Total(b) == Amount(b[k]) + Total(b[..k] + b[k + 1..])
  {
    hide Amount;
    var before, rest := b[..k], b[k + 1..];
    assert b == before + ([b[k]] + rest);
    TotalOfConcat(before, [b[k]] + rest);
    TotalOfConcat(before, rest);
    assert ([b[k]] + rest)[1..] == rest;
  }

  /** The order of the contexts in a batch does not matter. */
  lemma BatchIgnoresOrder(self: Address, p: Policy, a: seq<Context>, b: seq<Context>)
    requires WellFormed(p) && multiset(a) == multiset(b)
    ensures AuthoriseBatch(self, p, a).Ok? <==> AuthoriseBatch(self, p, b).Ok?
    ensures AuthoriseBatch(self, p, a).Ok? ==> AuthoriseBatch(self, p, a) == AuthoriseBatch(self, p, b)
  {
    TotalOfPermutation(a, b);
    BatchMeansPermittedWithinBudget(self, p, a);
    BatchMeansPermittedWithinBudget(self, p, b);
    assert |a| == |multiset(a)| == |multiset(b)| == |b|;
    if AllPermitted(self, p, a) {
      PermittedAsMultiset(self, p, a, b);
    } else if AllPermitted(self, p, b) {
      PermittedAsMultiset(self, p, b, a);
    }
  }

  lemma PermittedAsMultiset(self: Address, p: Policy, a: seq<Context>, b: seq<Context>)
    requires multiset(a) == multiset(b) && AllPermitted(self, p, a)
    ensures AllPermitted(self, p, b)
  {
    forall i | 0 <= i < |b| ensures Permitted(self, p, b[i]) {
      assert b[i] in multiset(a);
    }
  }

  // ---------- signatures ----------

  /** SHA-256, as an injective constructor. */
  datatype Hash = Sha256(preimage: string)

  datatype Owner = Owner(credentialIdHash: string, rpIdHash: seq<byte>, originHash: Hash)

  datatype ClientData = ClientData(kind: string, challenge: string, origin: string)

  /** `clientData` is the parsed JSON; `verifies` is the verdict of the P-256 check on the signed bytes. */
  datatype PasskeySignature = PasskeySignature(credentialIdHash: string, authenticatorData: seq<byte>,
                                               jsonFitsBuffer: bool, clientData: Option<ClientData>, verifies: bool)

  /** `sessionVerifies` is the verdict of the Ed25519 check, which panics instead of returning. */
  datatype Signature = Passkey(passkey: PasskeySignature) | Session(publicKey: PublicKey, sessionVerifies: bool)

  function VerifyPasskey(owner: Option<Owner>, payload: seq<byte>, s: PasskeySignature): Option<AccountError> {
    if owner.None? then Some(NotInitialized)
    else if s.credentialIdHash != owner.value.credentialIdHash then Some(InvalidCredential)
    else if |s.authenticatorData| < 37 then Some(InvalidWebAuthnData)
    else if s.authenticatorData[..32] != owner.value.rpIdHash then Some(InvalidRpId)
    else if !s.jsonFitsBuffer then Some(HostPanic)
    else if s.clientData.None? || s.clientData.value.kind != "webauthn.get" then Some(InvalidWebAuthnData)
    else if s.clientData.value.challenge != Encode(payload) then Some(InvalidChallenge)
    else if Sha256(s.clientData.value.origin) != owner.value.originHash then Some(InvalidOrigin)
    else if !s.verifies then Some(HostPanic)
    else None
  }

  /** One passkey assertion authorises one payload: the challenge it carries belongs to no other. */
  lemma PasskeyBindsOnePayload(owner: Option<Owner>, s: PasskeySignature, a: seq<byte>, b: seq<byte>)
    requires VerifyPasskey(owner, a, s).None? && VerifyPasskey(owner, b, s).None?
    ensures a == b
  {
    EncodeIsInjective(a, b);
  }

  function CheckOwnerContext(self: Address, c: Context): Option<AccountError> {
    match c
    case OtherContext => Some(InvalidContext)
    case Invocation(contract, fn, args) =>
      if contract == self then (if fn in {"grant", "revoke", "extend_ttl"} then None else Some(InvalidContext))
      else if fn == "transfer" then
        match ValidateTransferArgs(self, args) case Err(e) => Some(e) case Ok(_) => None
      else Some(InvalidContext)
  }

  function FirstOwnerError(self: Address, contexts: seq<Context>): Option<AccountError> {
    if contexts == [] then None
    else if CheckOwnerContext(self, contexts[0]).Some? then CheckOwnerContext(self, contexts[0])
    else FirstOwnerError(self, contexts[1..])
  }

  /** verify_owner_contexts as it runs. */
  method VerifyOwnerContexts(self: Address, contexts: seq<Context>) returns (r: Option<AccountError>)
    ensures r == if contexts == [] then Some(InvalidContext) else FirstOwnerError(self, contexts)
  {
    if contexts == [] { return Some(InvalidContext); }
    var i := 0;
    while i < |contexts|
      invariant 0 <= i <= |contexts|
      invariant FirstOwnerError(self, contexts) == FirstOwnerError(self, contexts[i..])
    {
      assert contexts[i..][0] == contexts[i] && contexts[i..][1..] == contexts[i + 1..];
      var e := CheckOwnerContext(self, contexts[i]);
      if e.Some? { return e; }
      i := i + 1;
    }
    return None;
  }

  function VerifySessionSignature(policy: Policy, now: u64, s: Signature): Option<AccountError>
    requires s.Session?
  {
    if policy.revoked then Some(RevokedSession)
    else if now > policy.expiresAt then Some(ExpiredSession)
    else if s.publicKey != policy.signer then Some(InvalidCredential)
    else if !s.sessionVerifies then Some(HostPanic)
    else None
  }

  /** A batch the session key may sign for contains no administration of the account. */
  lemma SessionKeyOnlyTransfers(self: Address, p: Policy, contexts: seq<Context>)
    requires WellFormed(p) && AuthoriseBatch(self, p, contexts).Ok?
    ensures forall i :: 0 <= i < |contexts| ==> contexts[i].Invocation? && contexts[i].fn !in {"grant", "revoke", "extend_ttl"}
  {
    BatchMeansPermittedWithinBudget(self, p, contexts);
    forall i | 0 <= i < |contexts| ensures contexts[i].Invocation? && contexts[i].fn == "transfer" {
      assert Permitted(self, p, contexts[i]);
    }
  }

  // ---------- the account as a state machine ----------

  datatype Account = Account(owner: Option<Owner>, session: Option<Policy>)

  datatype Grant = Grant(signer: PublicKey, destinations: seq<Address>, assets: seq<Address>,
                         perPaymentLimit: i128, totalLimit: i128, expiresAt: u64)

  /** `authorised` is the host's verdict on require_auth of the account itself. */
  datatype Op =
    | GrantOp(authorised: bool, grant: Grant)
    | RevokeOp(authorised: bool)
    | CheckAuthOp(payload: seq<byte>, signature: Signature, contexts: seq<Context>)

  datatype Event = Event(now: u64, op: Op)

  function ValidatePolicy(now: u64, g: Grant): Option<AccountError> {
    if |g.destinations| == 0 || |g.assets| == 0 || |g.destinations| > MAX_ALLOWLIST || |g.assets| > MAX_ALLOWLIST
    then Some(AllowlistTooLarge)
    else if g.perPaymentLimit <= 0 || g.totalLimit < g.perPaymentLimit || g.expiresAt <= now then Some(InvalidPolicy)
    else None
  }

  function PolicyOf(g: Grant): Policy {
    Policy(g.signer, g.destinations, g.assets, g.perPaymentLimit, g.totalLimit, 0, g.expiresAt, false)
  }

  /** The session an operation leaves, or the error that rolls it back. */
  function Outcome(self: Address, a: Account, e: Event): Result<Option<Policy>, AccountError> {
    match e.op
    case GrantOp(authorised, g) =>
      if !authorised then Err(HostPanic) else
      (match ValidatePolicy(e.now, g) case Some(error) => Err(error) case None => Ok(Some(PolicyOf(g))))
    case RevokeOp(authorised) =>
      if !authorised then Err(HostPanic)
      else if a.session.None? then Err(MissingSession)
      else Ok(Some(a.session.value.(revoked := true)))
    case CheckAuthOp(payload, Passkey(passkey), contexts) =>
      (match VerifyPasskey(a.owner, payload, passkey)
       case Some(error) => Err(error)
       case None =>
         if contexts == [] then Err(InvalidContext) else
         match FirstOwnerError(self, contexts) case Some(error) => Err(error) case None => Ok(a.session))
    case CheckAuthOp(payload, Session(key, verifies), contexts) =>
      if a.session.None? then Err(MissingSession) else
      (match VerifySessionSignature(a.session.value, e.now, e.op.signature)
       case Some(error) => Err(error)
       case None =>
         match AuthoriseBatch(self, a.session.value, contexts) case Err(error) => Err(error) case Ok(p) => Ok(Some(p)))
  }

  function Apply(self: Address, a: Account, e: Event): Account {
    match Outcome(self, a, e) case Err(_) => a case Ok(session) => a.(session := session)
  }

  /** The deployed contract. */
  class SpendAccountContract {
    const self: Address
    var owner: Option<Owner>
    var session: Option<Policy>

    constructor (self: Address, owner: Owner)
      ensures this.self == self && State() == Account(Some(owner), None)
    {
      this.self := self;
      this.owner := Some(owner);
      this.session := None;
    }

    function State(): Account reads this { Account(owner, session) }

    method GrantSession(authorised: bool, now: u64, g: Grant) returns (r: Result<Policy, AccountError>)
      modifies this
      ensures State() == Apply(self, old(State()), Event(now, GrantOp(authorised, g)))
      ensures r.Ok? <==> authorised && ValidatePolicy(now, g).None?
      ensures r.Ok? ==> session == Some(r.value) && r.value.spent == 0 && !r.value.revoked
    {
      if !authorised { return Err(HostPanic); }
      var error := ValidatePolicy(now, g);
      if error.Some? { return Err(error.value); }
      var policy := Policy(g.signer, g.destinations, g.assets, g.perPaymentLimit, g.totalLimit, 0, g.expiresAt, false);
      session := Some(policy);
      return Ok(policy);
    }

    method Revoke(authorised: bool, now: u64) returns (r: Result<Policy, AccountError>)
      modifies this
      ensures State() == Apply(self, old(State()), Event(now, RevokeOp(authorised)))
      ensures r.Ok? <==> authorised && old(session).Some?
      ensures r.Ok? ==> session == Some(r.value) && r.value == old(session).value.(revoked := true)
    {
      if !authorised { return Err(HostPanic); }
      if session.None? { return Err(MissingSession); }
      var policy := session.value;
      policy := policy.(revoked := true);
      session := Some(policy);
      return Ok(policy);
    }

    method CheckAuth(now: u64, payload: seq<byte>, signature: Signature, contexts: seq<Context>) returns (r: Option<AccountError>)
      modifies this
      ensures State() == Apply(self, old(State()), Event(now, CheckAuthOp(payload, signature, contexts)))
      ensures r.None? <==> Outcome(self, old(State()), Event(now, CheckAuthOp(payload, signature, contexts))).Ok?
      ensures r.Some? ==> Outcome(self, old(State()), Event(now, CheckAuthOp(payload, signature, contexts))) == Err(r.value)
    {
      match signature {
        case Passkey(passkey) =>
          r := VerifyPasskey(owner, payload, passkey);
          if r.Some? { return; }
          r := VerifyOwnerContexts(self, contexts);
        case Session(_, _) =>
          if session.None? { return Some(MissingSession); }
          r := VerifySessionSignature(session.value, now, signature);
          if r.Some? { return; }
          var policy := VerifySessionPolicy(self, contexts, session.value);
          if policy.Err? { return Some(policy.error); }
          session := Some(policy.value);
      }
    }
  }

  // ---------- every run ----------

  type History = seq<Event>

  function After(self: Address, start: Account, run: History): Account {
    if run == [] then start else Apply(self, After(self, start, run[..|run| - 1]), run[|run| - 1])
  }

  /** The event was not rolled back. */
  predicate Accepted(self: Address, start: Account, run: History, i: nat)
    requires i < |run|
  {
    Outcome(self, After(self, start, run[..i]), run[i]).Ok?
  }

  predicate SessionAuthorised(self: Address, start: Account, run: History, i: nat)
    requires i < |run|
  {
    Accepted(self, start, run, i) && run[i].op.CheckAuthOp? && run[i].op.signature.Session?
  }

  /** Index of the last accepted grant, or -1. */
  function LastGrant(self: Address, start: Account, run: History): (g: int)
    ensures -1 <= g < |run| && (g >= 0 ==> run[g].op.GrantOp?)
  {
    if run == [] then -1
    else if run[|run| - 1].op.GrantOp? && Accepted(self, start, run, |run| - 1) then |run| - 1
    else LastGrant(self, start, run[..|run| - 1])
  }

  /** Whether a revoke was accepted since the last accepted grant. */
  function RevokedSince(self: Address, start: Account, run: History): bool {
    if run == [] then false
    else if run[|run| - 1].op.GrantOp? && Accepted(self, start, run, |run| - 1) then false
    else (run[|run| - 1].op.RevokeOp? && Accepted(self, start, run, |run| - 1)) || RevokedSince(self, start, run[..|run| - 1])
  }

  /** Amounts the session key was allowed to move since the last accepted grant. */
  function SpentSince(self: Address, start: Account, run: History): nat {
    if run == [] then 0
    else if run[|run| - 1].op.GrantOp? && Accepted(self, start, run, |run| - 1) then 0
    else SpentSince(self, start, run[..|run| - 1])
         + if SessionAuthorised(self, start, run, |run| - 1) then Total(run[|run| - 1].op.contexts) else 0
  }

  /** The same over the whole run, and what all accepted grants together allowed. */
  function SessionTotal(self: Address, start: Account, run: History): nat {
    if run == [] then 0
    else SessionTotal(self, start, run[..|run| - 1])
         + if SessionAuthorised(self, start, run, |run| - 1) then Total(run[|run| - 1].op.contexts) else 0
  }

  function GrantedTotal(self: Address, start: Account, run: History): int {
    if run == [] then 0
    else GrantedTotal(self, start, run[..|run| - 1])
         + if run[|run| - 1].op.GrantOp? && Accepted(self, start, run, |run| - 1) then run[|run| - 1].op.grant.totalLimit else 0
  }

  ghost predicate BudgetIsExact(self: Address, start: Account, run: History) {
    var session := After(self, start, run).session;
    var g := LastGrant(self, start, run);
    && After(self, start, run).owner == start.owner
    && (session.None? <==> g < 0)
    && (session.Some? ==>
          var p := session.value;
          && WellFormed(p)
          && p == PolicyOf(run[g].op.grant).(spent := p.spent, revoked := RevokedSince(self, start, run))
          && p.spent == SpentSince(self, start, run)
          && SessionTotal(self, start, run) + (p.totalLimit - p.spent) <= GrantedTotal(self, start, run))
    && (session.None? ==> SessionTotal(self, start, run) == 0 <= GrantedTotal(self, start, run))
  }

  lemma BudgetStep(self: Address, start: Account, run: History)
    requires run != [] && BudgetIsExact(self, start, run[..|run| - 1])
    ensures BudgetIsExact(self, start, run)
  {
    var e := run[|run| - 1];
    var before := After(self, start, run[..|run| - 1]);
    if e.op.CheckAuthOp? && e.op.signature.Session? && before.session.Some? {
      BatchMeansPermittedWithinBudget(self, before.session.value, e.op.contexts);
    }
  }

  /** Over every run of grants, revokes and authorisations: 0 <= spent <= total_limit, `spent` is exactly what the
      session key moved since the last grant, and over the whole run it never moves more than was granted. */
  lemma {:induction false} EveryRunStaysWithinBudget(self: Address, owner: Owner, run: History)
    ensures BudgetIsExact(self, Account(Some(owner), None), run)
    ensures SessionTotal(self, Account(Some(owner), None), run) <= GrantedTotal(self, Account(Some(owner), None), run)
  {
    if run != [] {
      EveryRunStaysWithinBudget(self, owner, run[..|run| - 1]);
      BudgetStep(self, Account(Some(owner), None), run);
    }
  }

  /** Every session authorisation is covered by the latest accepted grant: not revoked since, not expired, signed by
      its key, and each context within its lists and limits. */
  lemma AuthorisationIsCoveredByTheLastGrant(self: Address, owner: Owner, run: History, j: nat)
    requires j < |run| && SessionAuthorised(self, Account(Some(owner), None), run, j)
    ensures var start := Account(Some(owner), None);
            var g := LastGrant(self, start, run[..j]);
            && g >= 0 && !RevokedSince(self, start, run[..j])
            && run[j].now <= run[g].op.grant.expiresAt && run[j].op.signature.publicKey == run[g].op.grant.signer
            && run[j].op.contexts != [] && AllPermitted(self, PolicyOf(run[g].op.grant), run[j].op.contexts)
  {
    var start := Account(Some(owner), None);
    EveryRunStaysWithinBudget(self, owner, run[..j]);
    var p := After(self, start, run[..j]).session.value;
    BatchMeansPermittedWithinBudget(self, p, run[j].op.contexts);
    assert forall c :: Permitted(self, p, c) <==> Permitted(self, PolicyOf(run[..j][LastGrant(self, start, run[..j])].op.grant), c);
  }

  /** Between an accepted revoke and a later session authorisation there is an accepted grant. */
  lemma {:induction false} NoAuthorisationBetweenRevokeAndGrant(self: Address, owner: Owner, run: History, i: nat, j: nat)
      returns (k: nat)
    requires i < j < |run| && SessionAuthorised(self, Account(Some(owner), None), run, j)
    requires run[i].op.RevokeOp? && Accepted(self, Account(Some(owner), None), run, i)
    ensures i < k < j && run[k].op.GrantOp? && Accepted(self, Account(Some(owner), None), run, k)
  {
    AuthorisationIsCoveredByTheLastGrant(self, owner, run, j);
    k := GrantAfterRevoke(self, Account(Some(owner), None), run, i, j);
  }

  lemma {:induction false} GrantAfterRevoke(self: Address, start: Account, run: History, i: nat, j: nat) returns (k: nat)
    requires i < j <= |run| && !RevokedSince(self, start, run[..j])
    requires run[i].op.RevokeOp? && Accepted(self, start, run, i)
    ensures i < k < j && run[k].op.GrantOp? && Accepted(self, start, run, k)
    decreases j
  {
    assert run[..j][..j - 1] == run[..j - 1];
    if run[j - 1].op.GrantOp? && Accepted(self, start, run, j - 1) {
      k := j - 1;
    } else {
      k := GrantAfterRevoke(self, start, run, i, j - 1);
    }
  }

  // ---------- what is accepted, in every run ----------

  /** A grant needs the account's own authorisation, both lists of 1 to 16 entries, a budget and time left. */
  lemma GrantIsAcceptedExactly(self: Address, start: Account, run: History, n: nat)
    requires n < |run| && run[n].op.GrantOp?
    ensures var g := run[n].op.grant;
            Accepted(self, start, run, n) <==>
              && run[n].op.authorised && 1 <= |g.destinations| <= 16 && 1 <= |g.assets| <= 16
              && 0 < g.perPaymentLimit <= g.totalLimit && run[n].now < g.expiresAt
  {
    hide After;
  }

  /** A revoke needs the account's own authorisation and a session. */
  lemma RevokeIsAcceptedExactly(self: Address, owner: Owner, run: History, n: nat)
    requires n < |run| && run[n].op.RevokeOp?
    ensures Accepted(self, Account(Some(owner), None), run, n) <==>
              run[n].op.authorised && LastGrant(self, Account(Some(owner), None), run[..n]) >= 0
  {
    EveryRunStaysWithinBudget(self, owner, run[..n]);
  }

  /** What the owner's passkey may sign for: administration of the account, or a payment out of it by another contract. */
  ghost predicate OwnerMaySign(self: Address, c: Context) {
    && c.Invocation?
    && if c.contract == self then c.fn in {"grant", "revoke", "extend_ttl"}
       else && c.fn == "transfer" && |c.args| == 3 && c.args[0] == AddressArg(self)
            && (c.args[1].AddressArg? || c.args[1].MuxedArg?) && c.args[2].AmountArg? && c.args[2].amount > 0
  }

  lemma {:induction false} OwnerContextsAreExact(self: Address, contexts: seq<Context>)
    ensures FirstOwnerError(self, contexts).None? <==> forall i :: 0 <= i < |contexts| ==> OwnerMaySign(self, contexts[i])
  {
    if contexts != [] {
      OwnerContextsAreExact(self, contexts[1..]);
      assert contexts == [contexts[0]] + contexts[1..];
    }
  }

  /** Over every run a passkey authorises exactly when the signature verifies, credential, relying party, type, challenge
      and origin are the owner's for this payload, and each of its contexts, at least one, is one the owner may sign for. */
  lemma PasskeyAuthorisationIsExact(self: Address, owner: Owner, run: History, n: nat)
    requires n < |run| && run[n].op.CheckAuthOp? && run[n].op.signature.Passkey?
    ensures var s, contexts := run[n].op.signature.passkey, run[n].op.contexts;
            Accepted(self, Account(Some(owner), None), run, n) <==>
              && s.verifies && s.credentialIdHash == owner.credentialIdHash
              && |s.authenticatorData| >= 37 && s.authenticatorData[..32] == owner.rpIdHash
              && s.jsonFitsBuffer && s.clientData.Some? && s.clientData.value.kind == "webauthn.get"
              && s.clientData.value.challenge == Encode(run[n].op.payload) && Sha256(s.clientData.value.origin) == owner.originHash
              && contexts != [] && forall i :: 0 <= i < |contexts| ==> OwnerMaySign(self, contexts[i])
  {
    hide After, Encode, OwnerMaySign, FirstOwnerError;
    EveryRunStaysWithinBudget(self, owner, run[..n]);
    OwnerContextsAreExact(self, run[n].op.contexts);
  }

  /** Over every run the session key authorises exactly under the last grant, neither revoked since nor expired, with a
      signature of its key over a batch, not empty, of permitted payments that fit what it has not spent. */
  lemma SessionAuthorisationIsExact(self: Address, owner: Owner, run: History, n: nat)
    requires n < |run| && run[n].op.CheckAuthOp? && run[n].op.signature.Session?
    ensures var start := Account(Some(owner), None);
            var i := LastGrant(self, start, run[..n]);
            Accepted(self, start, run, n) <==>
              && i >= 0 && !RevokedSince(self, start, run[..n])
              && var g := run[i].op.grant;
              && run[n].now <= g.expiresAt && run[n].op.signature.publicKey == g.signer && run[n].op.signature.sessionVerifies
              && run[n].op.contexts != [] && AllPermitted(self, PolicyOf(g), run[n].op.contexts)
              && SpentSince(self, start, run[..n]) + Total(run[n].op.contexts) <= g.totalLimit
  {
    hide After, LastGrant, RevokedSince, SpentSince, AuthoriseBatch;
    var start := Account(Some(owner), None);
    EveryRunStaysWithinBudget(self, owner, run[..n]);
    var i := LastGrant(self, start, run[..n]);
    if i >= 0 {
      var p := After(self, start, run[..n]).session.value;
      BatchMeansPermittedWithinBudget(self, p, run[n].op.contexts);
      assert forall c :: Permitted(self, p, c) <==> Permitted(self, PolicyOf(run[i].op.grant), c);
    }
  }

  /** An error names a check that failed. */
  lemma ErrorsNameTheFailedCheck(self: Address, a: Account, e: Event)
    requires Outcome(self, a, e).Err? && (e.op.CheckAuthOp? ==> e.op.signature.Session?)
    ensures var session := e.op.CheckAuthOp?;
            match Outcome(self, a, e).error
            case MissingSession => a.session.None? && !e.op.GrantOp?
            case RevokedSession => session && a.session.value.revoked
            case ExpiredSession => session && e.now > a.session.value.expiresAt
            case InvalidCredential => session && e.op.signature.publicKey != a.session.value.signer
            case InvalidContext => session && (e.op.contexts == [] || exists i :: 0 <= i < |e.op.contexts| && e.op.contexts[i].OtherContext?)
            case AllowlistTooLarge =>
              e.op.GrantOp? && !(1 <= |e.op.grant.destinations| <= 16 && 1 <= |e.op.grant.assets| <= 16)
            case InvalidPolicy =>
              e.op.GrantOp? && !(0 < e.op.grant.perPaymentLimit <= e.op.grant.totalLimit && e.now < e.op.grant.expiresAt)
            case HostPanic => if session then !e.op.signature.sessionVerifies else !e.op.authorised
            case _ => session
  {
    if e.op.CheckAuthOp? && a.session.Some? && Scan(self, a.session.value, e.op.contexts, 0).Err? {
      ScanErrors(self, a.session.value, e.op.contexts, 0);
    }
  }

  /** The loop stops at the first context that is not a permitted payment, or where the amounts overflow. */
  lemma {:induction false} ScanErrors(self: Address, p: Policy, contexts: seq<Context>, total: i128)
    requires Scan(self, p, contexts, total).Err?
    ensures match Scan(self, p, contexts, total).error
            case InvalidContext => exists i :: 0 <= i < |contexts| && contexts[i].OtherContext?
            case AssetOutsideAllowlist =>
              exists i :: 0 <= i < |contexts| && contexts[i].Invocation? && (contexts[i].fn != "transfer" || contexts[i].contract !in p.assets)
            case InvalidTransfer | DestinationOutsideAllowlist | AmountOverLimit =>
              exists i :: 0 <= i < |contexts| && contexts[i].Invocation? && contexts[i].contract in p.assets && !Permitted(self, p, contexts[i])
            case BudgetExceeded => true
            case _ => false
    decreases |contexts|
  {
    var first := CheckContext(self, p, contexts[0]);
    if first.Ok? && CheckedAdd(total, first.value).Some? {
      ScanErrors(self, p, contexts[1..], CheckedAdd(total, first.value).value);
      assert forall i :: 0 <= i < |contexts| - 1 ==> contexts[1..][i] == contexts[i + 1];
    }
  }

  /** A context the owner may not sign for is an invalid transfer by another contract, or an invalid context. */
  lemma {:induction false} OwnerErrorsNameTheContext(self: Address, contexts: seq<Context>)
    requires FirstOwnerError(self, contexts).Some?
    ensures FirstOwnerError(self, contexts).value in {InvalidContext, InvalidTransfer}
    ensures FirstOwnerError(self, contexts).value == InvalidTransfer ==>
              exists i :: && 0 <= i < |contexts| && contexts[i].Invocation? && contexts[i].contract != self
                          && contexts[i].fn == "transfer" && !OwnerMaySign(self, contexts[i])
  {
    assert contexts == [contexts[0]] + contexts[1..];
    if CheckOwnerContext(self, contexts[0]).None? {
      OwnerErrorsNameTheContext(self, contexts[1..]);
      assert forall i :: 0 <= i < |contexts| - 1 ==> contexts[1..][i] == contexts[i + 1];
    }
  }

  /** A passkey's batch without contexts is refused as an invalid one. */
  lemma EmptyPasskeyBatchIsInvalid(self: Address, a: Account, now: u64, payload: seq<byte>, s: PasskeySignature)
    requires VerifyPasskey(a.owner, payload, s).None?
    ensures Outcome(self, a, Event(now, CheckAuthOp(payload, Passkey(s), []))) == Err(InvalidContext)
  {
    hide Encode;
  }

  lemma PasskeyErrorsNameTheFailedCheck(owner: Option<Owner>, payload: seq<byte>, s: PasskeySignature)
    requires VerifyPasskey(owner, payload, s).Some?
    ensures match VerifyPasskey(owner, payload, s).value
            case NotInitialized => owner.None?
            case InvalidCredential => s.credentialIdHash != owner.value.credentialIdHash
            case InvalidRpId => |s.authenticatorData| >= 37 && s.authenticatorData[..32] != owner.value.rpIdHash
            case InvalidWebAuthnData => |s.authenticatorData| < 37 || s.clientData.None? || s.clientData.value.kind != "webauthn.get"
            case InvalidChallenge => s.clientData.value.challenge != Encode(payload)
            case InvalidOrigin => Sha256(s.clientData.value.origin) != owner.value.originHash
            case HostPanic => !s.jsonFitsBuffer || !s.verifies
            case _ => false
  {
    hide Encode;
  }
}
