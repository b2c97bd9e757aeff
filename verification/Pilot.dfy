/** The provider pilot: one payment request goes from draft through human approval and a buyer's lease to
    settlement, while agent, human and any number of buyers race on it through the optimistic store.
    Digests and the approval HMAC are free constructors, which is injectivity and nothing more. */
module Pilot {
  import opened Common
  import opened Optimistic
  import opened Money

  const APPROVAL_TTL_MS: nat := 600_000
  const CLAIM_TTL_MS: nat := 120_000

  /** Text that reaches a digest: an approval token (the HMAC of request and expiry) or any other text. */
  datatype Text = ApprovalToken(requestId: string, expiresAt: nat) | Plain(s: string)
  datatype Digest = Digest(preimage: Text)

  datatype Status = Draft | Prepared | Approved | Settling | Settled | Expired

  /** What a draft fixes for good. */
  datatype Terms = Terms(providerId: string, resourceId: string, amount: string, asset: string,
                         assetContractId: string, network: string, recipient: string)

  datatype Receipt = Receipt(status: string, transactionHash: string, network: string, asset: string,
                             assetContractId: string, amount: string, recipient: string,
                             providerId: string, resourceId: string, settledAt: string)

  datatype Request = Request(
    requestId: string, terms: Terms, status: Status,
    approvalTokenHash: Option<Digest>, approvalExpiresAt: Option<nat>, approvedAt: Option<nat>,
    claimIdHash: Option<Digest>, claimExpiresAt: Option<nat>,
    transactionHash: Option<string>, receipt: Option<Receipt>, settledAt: Option<string>)

  /** The buyer's claim of what happened. */
  datatype Completion = Completion(transactionHash: string, paymentStatus: string, network: string, asset: string,
                                   assetContractId: string, amount: string, recipient: string, settledAt: string)

  datatype BalanceChange = BalanceChange(kind: string, assetCode: string, to: string, amount: string)
  datatype Operation = Operation(successful: bool, transactionHash: string, kind: string,
                                 contractId: Option<string>, changes: seq<BalanceChange>)

  /** The answers of the RPC node, of Horizon and of the sensitive-data scan; arbitrary. */
  datatype Chain = Chain(officialRpc: bool, rpcAvailable: bool, success: bool,
                         horizonAvailable: bool, operations: seq<Operation>, scanAllows: bool)

  datatype PilotCall =
    | PrepareCall(secretConfigured: bool)
    | ApproveCall(token: Text)
    | ClaimCall(claimId: string)
    | CompleteCall(completeWith: string, completion: Completion, chain: Chain)

  /** The closures handed to the repository's update. */
  datatype PilotJob =
    | PrepareJob(expiresAt: nat)
    | ExpireJob
    | ApproveJob(approvedToken: Text)
    | ClaimJob(newClaimId: string, claimExpiresAt: nat)
    | CompleteJob(heldClaimId: string, receipt: Receipt)

  // ---------- settlement verification ----------

  function LowerCase(s: string): (r: string)
    ensures |r| == |s| && forall i :: 0 <= i < |s| ==> !('A' <= r[i] <= 'Z')
    ensures forall i :: 0 <= i < |s| ==> (r[i] as int == s[i] as int || ('A' <= s[i] <= 'Z' && r[i] as int == s[i] as int + 32))
  {
    seq(|s|, i requires 0 <= i < |s| => if 'A' <= s[i] <= 'Z' then (s[i] as int + 32) as char else s[i])
  }

  predicate IsTransactionHash(s: string) {
    |s| == 64 && forall i :: 0 <= i < 64 ==> '0' <= s[i] <= '9' || 'a' <= s[i] <= 'f'
  }

  predicate IsTransferOf(change: BalanceChange, recipient: string, amount: string) {
    && change.kind == "transfer" && change.assetCode == "USDC" && change.to == recipient
    && DecimalToBaseUnits(change.amount) == DecimalToBaseUnits(amount)
  }

  predicate IsVerifiedTransfer(op: Operation, hash: string, terms: Terms) {
    && op.successful && op.transactionHash == hash && op.kind == "invoke_host_function"
    && op.contractId == Some(terms.assetContractId)
    && exists i :: 0 <= i < |op.changes| && IsTransferOf(op.changes[i], terms.recipient, terms.amount)
  }

  predicate HasVerifiedTransfer(operations: seq<Operation>, hash: string, terms: Terms) {
    exists i :: 0 <= i < |operations| && IsVerifiedTransfer(operations[i], hash, terms)
  }

  function ReceiptOf(terms: Terms, c: Completion): Receipt {
    Receipt(c.paymentStatus, LowerCase(c.transactionHash), c.network, c.asset, c.assetContractId, c.amount,
            c.recipient, terms.providerId, terms.resourceId, c.settledAt)
  }

  /** The fields the receipt must share with the draft. */
  predicate Pinned(receipt: Receipt, terms: Terms) {
    && receipt.network == terms.network && receipt.asset == terms.asset
    && receipt.assetContractId == terms.assetContractId && receipt.amount == terms.amount
    && receipt.recipient == terms.recipient
  }

  function VerifySettlement(terms: Terms, c: Completion, chain: Chain): Result<Receipt, nat> {
    var receipt := ReceiptOf(terms, c);
    if !IsTransactionHash(receipt.transactionHash) then Err(400)
    else if receipt.status != "success" && receipt.status != "settled" then Err(409)
    else if !Pinned(receipt, terms) then Err(409)
    else if !chain.officialRpc then Err(409)
    else if !chain.rpcAvailable then Err(503)
    else if !chain.success then Err(409)
    else if !chain.horizonAvailable then Err(503)
    else if !HasVerifiedTransfer(chain.operations, receipt.transactionHash, terms) then Err(409)
    else if !chain.scanAllows then Err(400)
    else Ok(receipt)
  }

  // ---------- the service over the store ----------

  /** A parsed timestamp that is not in the future; a missing one parses to NaN and never compares. */
  predicate Reached(t: Option<nat>, now: nat) { t.Some? && t.value <= now }

  predicate Preparable(status: Status) { status == Draft || status == Prepared }

  predicate IsDraft(key: string, r: Request) {
    r == Request(key, r.terms, Draft, None, None, None, None, None, None, None, None)
  }

  function Begin(call: PilotCall, now: nat): Option<PilotJob> {
    match call
    case ClaimCall(claimId) => Some(ClaimJob(claimId, now + CLAIM_TTL_MS))
    case _ => None
  }

  function Decide(call: PilotCall, r: Request, now: nat): Decision<PilotJob> {
    match call
    case PrepareCall(secretConfigured) =>
      if !Preparable(r.status) then Stop(409)
      else if !secretConfigured then Stop(503)
      else if r.approvalExpiresAt.Some? && r.approvalExpiresAt.value > now
      then Proceed(PrepareJob(r.approvalExpiresAt.value))
      else Proceed(PrepareJob(now + APPROVAL_TTL_MS))
    case ApproveCall(token) =>
      if r.status != Prepared then Stop(409)
      else if Reached(r.approvalExpiresAt, now) then Proceed(ExpireJob)
      else if r.approvalTokenHash != Some(Digest(token)) then Stop(403)
      else Proceed(ApproveJob(token))
    case ClaimCall(_) => Stop(500)
    case CompleteCall(claimId, completion, chain) =>
      if r.status != Settling then Stop(409)
      else if Reached(r.claimExpiresAt, now) then Stop(410)
      else if r.claimIdHash != Some(Digest(Plain(claimId))) then Stop(403)
      else match VerifySettlement(r.terms, completion, chain)
           case Err(status) => Stop(status)
           case Ok(receipt) => Proceed(CompleteJob(claimId, receipt))
  }

  function Mutate(job: PilotJob, r: Request, now: nat): Result<Request, nat> {
    match job
    case PrepareJob(expiresAt) =>
      if !Preparable(r.status) then Err(409) else
      Ok(r.(status := Prepared, approvalExpiresAt := Some(expiresAt),
            approvalTokenHash := Some(Digest(ApprovalToken(r.requestId, expiresAt)))))
    case ExpireJob => Ok(r.(status := Expired))
    case ApproveJob(_) =>
      if r.status != Prepared then Err(409) else
      Ok(r.(status := Approved, approvedAt := Some(now), approvalTokenHash := None))
    case ClaimJob(claimId, claimExpiresAt) =>
      if r.status != Approved && !(r.status == Settling && Reached(r.claimExpiresAt, now)) then Err(409) else
      Ok(r.(status := Settling, claimIdHash := Some(Digest(Plain(claimId))), claimExpiresAt := Some(claimExpiresAt)))
    case CompleteJob(claimId, receipt) =>
      if r.status != Settling then Err(409)
      else if r.claimIdHash != Some(Digest(Plain(claimId))) then Err(403)
      else Ok(r.(status := Settled, transactionHash := Some(receipt.transactionHash), receipt := Some(receipt),
                 settledAt := Some(receipt.settledAt), claimIdHash := None))
  }

  const PILOT: Protocol<Request, PilotJob, PilotCall> := Protocol(IsDraft, Begin, Decide, Mutate)

  type Log = seq<Entry<Request, PilotJob, PilotCall>>

  function Rank(s: Status): nat {
    match s case Draft => 0 case Prepared => 1 case Approved => 2 case Settling => 3 case Settled => 4 case Expired => 5
  }

  /** Both entries are about one request, the second one later or the same. */
  ghost predicate SameRequest(log: Log, i: nat, j: nat) {
    i <= j < |log| && log[i].key == log[j].key
  }

  ghost predicate Completes(log: Log, i: nat) { i < |log| && log[i].Committed? && log[i].job.CompleteJob? }
  ghost predicate Claims(log: Log, i: nat) { i < |log| && log[i].Committed? && log[i].job.ClaimJob? }

  function After(log: Log, i: nat): Request
    requires i < |log|
  {
    log[i].after.body
  }

  // ---------- what every history keeps ----------

  /** Before settlement there is nothing to show; a settled request shows its whole receipt. A prepared request awaits the
      token of its own id and expiry, which is gone once approved; the claim is gone once settled. */
  ghost predicate Sane(r: Request) {
    && (Rank(r.status) < 4 ==> r.receipt.None? && r.transactionHash.None? && r.settledAt.None?)
    && (r.status == Settled ==>
          r.receipt.Some? && r.transactionHash == Some(r.receipt.value.transactionHash)
          && r.settledAt == Some(r.receipt.value.settledAt) && r.claimIdHash.None?)
    && (r.status == Prepared ==>
          r.approvalExpiresAt.Some? && r.approvalTokenHash == Some(Digest(ApprovalToken(r.requestId, r.approvalExpiresAt.value))))
    && (r.status in {Approved, Settling, Settled} ==> r.approvalTokenHash.None? && r.approvedAt.Some?)
    && (r.status == Settling ==> r.claimExpiresAt.Some? && r.claimIdHash.Some?)
  }

  lemma {:induction false} RecordsAreSane(log: Log, i: nat)
    requires ValidLog(PILOT, log) && i < |log|
    ensures Sane(After(log, i))
  {
    assert ValidEntry(PILOT, log, i);
    if log[i].Committed? { RecordsAreSane(log, Prev(log, i, log[i].key)); }
  }

  /** What no commit ever undoes, from one record to a later one of the same request: the rank never drops,
      the terms never change, and the receipt and transaction hash are written once. */
  ghost predicate Advances(a: Request, b: Request) {
    && Rank(a.status) <= Rank(b.status) && a.requestId == b.requestId && a.terms == b.terms
    && (a.receipt.Some? ==> b.receipt == a.receipt && b.transactionHash == a.transactionHash && b.settledAt == a.settledAt)
  }

  lemma {:induction false} HistoryAdvances(log: Log, i: nat, j: nat)
    requires ValidLog(PILOT, log) && SameRequest(log, i, j)
    ensures Advances(After(log, i), After(log, j))
    decreases j
  {
    hide VerifySettlement, Decide, Begin;
    if i < j {
      assert ValidEntry(PILOT, log, j);
      var k := Prev(log, j, log[j].key);
      RecordsAreSane(log, k);
      HistoryAdvances(log, i, k);
    }
  }

  /** At most one complete call ever commits on a request. */
  lemma AtMostOneCompletion(log: Log, i: nat, j: nat)
    requires ValidLog(PILOT, log) && Completes(log, i) && Completes(log, j) && log[i].key == log[j].key
    ensures i == j
  {
    hide VerifySettlement, Decide, Begin;
    if i < j { CompletionIsFinal(log, i, j); } else if j < i { CompletionIsFinal(log, j, i); }
  }

  lemma CompletionIsFinal(log: Log, i: nat, j: nat)
    requires ValidLog(PILOT, log) && Completes(log, i) && i < j && SameRequest(log, i, j)
    ensures log[j].Committed? && log[j].job.ExpireJob?
  {
    hide VerifySettlement, Decide, Begin;
    assert ValidEntry(PILOT, log, i) && ValidEntry(PILOT, log, j);
    HistoryAdvances(log, i, Prev(log, j, log[j].key));
  }

  // ---------- leases ----------

  /** Claim i holds the request at time t: from its commit up to its expiry. */
  ghost predicate HoldsLease(log: Log, i: nat, t: nat) {
    Claims(log, i) && log[i].at <= t < log[i].job.claimExpiresAt
  }

  /** Successive leases do not overlap: a later claim commits no earlier than every earlier lease's end. */
  lemma {:induction false} LeasesAreDisjoint(log: Log, i: nat, j: nat)
    requires ValidLog(PILOT, log) && Claims(log, i) && Claims(log, j) && i < j && SameRequest(log, i, j)
    ensures log[i].job.claimExpiresAt <= log[j].at
    ensures forall t :: !(HoldsLease(log, i, t) && HoldsLease(log, j, t))
    decreases j
  {
    hide VerifySettlement, Decide, Begin;
    assert ValidEntry(PILOT, log, j) && ValidEntry(PILOT, log, i);
    var k := Prev(log, j, log[j].key);
    HistoryAdvances(log, i, k);
    assert ValidEntry(PILOT, log, k);
    if i < k { LeasesAreDisjoint(log, i, k); }
  }

  // ---------- where a settlement comes from ----------

  lemma {:induction false} FindDraft(log: Log, i: nat) returns (d: nat)
    requires ValidLog(PILOT, log) && i < |log|
    ensures SameRequest(log, d, i) && log[d].Created? && After(log, d).terms == After(log, i).terms
  {
    hide VerifySettlement, Decide, Begin;
    assert ValidEntry(PILOT, log, i);
    if log[i].Created? {
      d := i;
    } else {
      d := FindDraft(log, Prev(log, i, log[i].key));
    }
  }

  lemma {:induction false} FindApproval(log: Log, i: nat) returns (a: nat)
    requires ValidLog(PILOT, log) && i < |log| && (After(log, i).status == Approved || After(log, i).status == Settling)
    ensures SameRequest(log, a, i) && log[a].Committed? && log[a].job.ApproveJob?
  {
    hide VerifySettlement, Decide, Begin;
    assert ValidEntry(PILOT, log, i);
    if log[i].job.ApproveJob? {
      a := i;
    } else {
      a := FindApproval(log, Prev(log, i, log[i].key));
    }
  }

  /** The approval token of a committed approve was issued by a committed prepare of the same request. */
  lemma ApprovalWasIssued(log: Log, a: nat) returns (q: nat)
    requires ValidLog(PILOT, log) && a < |log| && log[a].Committed? && log[a].job.ApproveJob?
    ensures q < a && SameRequest(log, q, a) && log[q].Committed? && log[q].job.PrepareJob?
    ensures log[a].job.approvedToken == ApprovalToken(After(log, q).requestId, log[q].job.expiresAt)
  {
    assert ValidEntry(PILOT, log, a);
    q := log[a].reason.index;
    assert log[..a][q] == log[q] && ValidEntry(PILOT, log, q);
  }

  /** A committed completion was decided by a verified settlement of exactly the drafted terms. */
  lemma CompletionWasVerified(log: Log, j: nat, d: nat)
    requires ValidLog(PILOT, log) && Completes(log, j) && SameRequest(log, d, j)
    ensures log[j].call.CompleteCall? && log[j].call.completeWith == log[j].job.heldClaimId
    ensures VerifySettlement(After(log, d).terms, log[j].call.completion, log[j].call.chain) == Ok(log[j].job.receipt)
    ensures Pinned(log[j].job.receipt, After(log, d).terms)
    ensures HasVerifiedTransfer(log[j].call.chain.operations, log[j].job.receipt.transactionHash, After(log, d).terms)
  {
    assert ValidEntry(PILOT, log, j);
    var k := log[j].reason.index;
    assert log[..j][k] == log[k];
    HistoryAdvances(log, k, j);
    HistoryAdvances(log, d, j);
  }

  /** The settlement check accepts exactly a completion that reports success on the drafted network, asset, contract, amount
      and recipient, under a well-formed hash that the official node calls successful, when one of that
      transaction's operations is a successful contract invocation of the drafted asset contract that transfers the
      drafted amount of USDC to the drafted recipient, and nothing sensitive is in the receipt. */
  lemma SettlementCheckIsExact(terms: Terms, c: Completion, chain: Chain)
    ensures var hash := LowerCase(c.transactionHash);
            VerifySettlement(terms, c, chain).Ok? <==>
              && |hash| == 64 && (forall i :: 0 <= i < 64 ==> '0' <= hash[i] <= '9' || 'a' <= hash[i] <= 'f')
              && c.paymentStatus in {"success", "settled"}
              && c.network == terms.network && c.asset == terms.asset && c.assetContractId == terms.assetContractId
              && c.amount == terms.amount && c.recipient == terms.recipient
              && chain.officialRpc && chain.rpcAvailable && chain.success && chain.horizonAvailable && chain.scanAllows
              && exists o, k :: && 0 <= o < |chain.operations| && 0 <= k < |chain.operations[o].changes|
                                && var op := chain.operations[o]; var change := op.changes[k];
                                && op.successful && op.transactionHash == hash && op.kind == "invoke_host_function"
                                && op.contractId == Some(terms.assetContractId)
                                && change.kind == "transfer" && change.assetCode == "USDC" && change.to == terms.recipient
                                && DecimalToBaseUnits(change.amount) == DecimalToBaseUnits(terms.amount)
    ensures VerifySettlement(terms, c, chain).Ok? ==>
              VerifySettlement(terms, c, chain).value
                == Receipt(c.paymentStatus, LowerCase(c.transactionHash), terms.network, terms.asset, terms.assetContractId,
                           terms.amount, terms.recipient, terms.providerId, terms.resourceId, c.settledAt)
  {
    hide DecimalToBaseUnits, LowerCase;
    if HasVerifiedTransfer(chain.operations, LowerCase(c.transactionHash), terms) {
      var o :| 0 <= o < |chain.operations| && IsVerifiedTransfer(chain.operations[o], LowerCase(c.transactionHash), terms);
      var k :| 0 <= k < |chain.operations[o].changes| && IsTransferOf(chain.operations[o].changes[k], terms.recipient, terms.amount);
    }
    if o, k :| && 0 <= o < |chain.operations| && 0 <= k < |chain.operations[o].changes|
               && var op := chain.operations[o]; var change := op.changes[k];
               && op.successful && op.transactionHash == LowerCase(c.transactionHash) && op.kind == "invoke_host_function"
               && op.contractId == Some(terms.assetContractId)
               && change.kind == "transfer" && change.assetCode == "USDC" && change.to == terms.recipient
               && DecimalToBaseUnits(change.amount) == DecimalToBaseUnits(terms.amount)
    {
      assert IsTransferOf(chain.operations[o].changes[k], terms.recipient, terms.amount);
      assert IsVerifiedTransfer(chain.operations[o], LowerCase(c.transactionHash), terms);
    }
  }

  /** Every committed completion was paid as drafted: operation o of the chain's answer, by its change k, moved the drafted
      amount of USDC through the drafted contract to the drafted recipient, in the receipt's transaction. */
  lemma CompletionWasPaidAsDrafted(log: Log, j: nat, d: nat) returns (o: nat, k: nat)
    requires ValidLog(PILOT, log) && Completes(log, j) && SameRequest(log, d, j)
    ensures log[j].call.CompleteCall?
    ensures var terms, receipt, chain := After(log, d).terms, log[j].job.receipt, log[j].call.chain;
            && o < |chain.operations| && k < |chain.operations[o].changes|
            && var op := chain.operations[o]; var change := op.changes[k];
            && op.successful && op.transactionHash == receipt.transactionHash && op.kind == "invoke_host_function"
            && op.contractId == Some(terms.assetContractId)
            && change.kind == "transfer" && change.assetCode == "USDC" && change.to == terms.recipient
            && DecimalToBaseUnits(change.amount) == DecimalToBaseUnits(terms.amount)
            && chain.officialRpc && chain.rpcAvailable && chain.success && chain.horizonAvailable && chain.scanAllows
            && receipt.status in {"success", "settled"}
            && receipt == Receipt(receipt.status, receipt.transactionHash, terms.network, terms.asset, terms.assetContractId,
                                  terms.amount, terms.recipient, terms.providerId, terms.resourceId, receipt.settledAt)
  {
    hide VerifySettlement, Decide, Begin, Mutate, DecimalToBaseUnits, LowerCase;
    CompletionWasVerified(log, j, d);
    var terms, chain := After(log, d).terms, log[j].call.chain;
    var hash := log[j].job.receipt.transactionHash;
    SettlementCheckIsExact(terms, log[j].call.completion, chain);
    o, k :| && 0 <= o < |chain.operations| && 0 <= k < |chain.operations[o].changes|
            && var op := chain.operations[o]; var change := op.changes[k];
            && op.successful && op.transactionHash == hash && op.kind == "invoke_host_function"
            && op.contractId == Some(terms.assetContractId)
            && change.kind == "transfer" && change.assetCode == "USDC" && change.to == terms.recipient
            && DecimalToBaseUnits(change.amount) == DecimalToBaseUnits(terms.amount);
  }

  // ---------- when a call goes on, and where it stops ----------

  /** A prepare goes on for a drafted or prepared request when the secret is there; it keeps an expiry still ahead and
      sets one ten minutes ahead otherwise. */
  lemma PrepareDecidesExactly(r: Request, secretConfigured: bool, now: nat)
    ensures var d := Decide(PrepareCall(secretConfigured), r, now);
            && (r.status !in {Draft, Prepared} ==> d == Stop(409))
            && (r.status in {Draft, Prepared} && !secretConfigured ==> d == Stop(503))
            && (r.status in {Draft, Prepared} && secretConfigured ==>
                  && d.Proceed? && d.job.PrepareJob? && now < d.job.expiresAt
                  && if Some(d.job.expiresAt) == r.approvalExpiresAt then true
                     else d.job.expiresAt == now + 600_000 && (r.approvalExpiresAt.Some? ==> r.approvalExpiresAt.value <= now))
  {
  }

  /** An approve of a prepared request in time goes on exactly with the token awaited; past the expiry it expires the request. */
  lemma ApproveDecidesExactly(r: Request, token: Text, now: nat)
    ensures var d := Decide(ApproveCall(token), r, now);
            && (r.status != Prepared ==> d == Stop(409))
            && var due := r.approvalExpiresAt.Some? && r.approvalExpiresAt.value <= now;
            && (r.status == Prepared && due ==> d == Proceed(ExpireJob))
            && (r.status == Prepared && !due ==>
                  d == if r.approvalTokenHash == Some(Digest(token)) then Proceed(ApproveJob(token)) else Stop(403))
  {
  }

  /** A complete goes on exactly in settlement, before the lease ends, with the claim held and the settlement verified. */
  lemma CompleteDecidesExactly(r: Request, claimId: string, c: Completion, chain: Chain, now: nat)
    ensures var d := Decide(CompleteCall(claimId, c, chain), r, now);
            var over := r.claimExpiresAt.Some? && r.claimExpiresAt.value <= now;
            var held := r.claimIdHash == Some(Digest(Plain(claimId)));
            && (d.Proceed? <==> r.status == Settling && !over && held && VerifySettlement(r.terms, c, chain).Ok?)
            && (d.Proceed? ==> d.job == CompleteJob(claimId, VerifySettlement(r.terms, c, chain).value))
            && (r.status != Settling ==> d == Stop(409))
            && (r.status == Settling && over ==> d == Stop(410))
            && (r.status == Settling && !over && !held ==> d == Stop(403))
            && (r.status == Settling && !over && held && d.Stop? ==> d.status in {400, 409, 503})
  {
  }

  /** A claim goes on at once, and takes an approved request or one whose lease is over. */
  lemma ClaimIsTakenExactly(r: Request, claimId: string, asked: nat, now: nat)
    ensures Begin(ClaimCall(claimId), asked) == Some(ClaimJob(claimId, asked + 120_000))
    ensures var over := r.claimExpiresAt.Some? && r.claimExpiresAt.value <= now;
            var m := Mutate(ClaimJob(claimId, asked + 120_000), r, now);
            && (m.Ok? <==> r.status == Approved || (r.status == Settling && over))
            && (m.Err? ==> m == Err(409))
  {
  }

  /** A job whose request has moved on is refused when it is applied: 409 for another status, 403 for another claim. */
  lemma StaleJobsAreRefused(r: Request, expiresAt: nat, token: Text, claimId: string, receipt: Receipt, now: nat)
    ensures r.status !in {Draft, Prepared} <==> Mutate(PrepareJob(expiresAt), r, now).Err?
    ensures r.status !in {Draft, Prepared} ==> Mutate(PrepareJob(expiresAt), r, now) == Err(409)
    ensures r.status != Prepared <==> Mutate(ApproveJob(token), r, now).Err?
    ensures r.status != Prepared ==> Mutate(ApproveJob(token), r, now) == Err(409)
    ensures var m := Mutate(CompleteJob(claimId, receipt), r, now);
            && (m.Ok? <==> r.status == Settling && r.claimIdHash == Some(Digest(Plain(claimId))))
            && (r.status != Settling ==> m == Err(409))
            && (r.status == Settling && m.Err? ==> m == Err(403))
  {
  }

  // ---------- times ----------

  /** The expiry a record carries was set, ten minutes ahead, by the decision of a committed prepare of the same request
      that had the secret. */
  lemma {:induction false} ExpiryStemsFromPrepare(log: Log, i: nat) returns (q: nat)
    requires ValidLog(PILOT, log) && i < |log| && After(log, i).approvalExpiresAt.Some?
    ensures SameRequest(log, q, i) && log[q].Committed? && log[q].job.PrepareJob? && log[q].call == PrepareCall(true)
    ensures log[q].reason.AfterReading? && After(log, i).approvalExpiresAt == Some(log[q].reason.at + 600_000)
    decreases i
  {
    hide VerifySettlement;
    assert ValidEntry(PILOT, log, i);
    var k := Prev(log, i, log[i].key);
    if log[i].job.PrepareJob? {
      var seen := log[i].reason.index;
      assert log[..i][seen] == log[seen];
      if After(log, seen).approvalExpiresAt == Some(log[i].job.expiresAt) {
        q := ExpiryStemsFromPrepare(log, seen);
      } else {
        q := i;
      }
    } else {
      q := ExpiryStemsFromPrepare(log, k);
    }
  }

  /** A committed approve was decided before the expiry of the prepare whose token it presents, and that expiry lies ten
      minutes after the decision of a prepare. */
  lemma ApprovalWasInTime(log: Log, a: nat) returns (q: nat, first: nat)
    requires ValidLog(PILOT, log) && a < |log| && log[a].Committed? && log[a].job.ApproveJob?
    ensures q < a && SameRequest(log, q, a) && log[q].Committed? && log[q].job.PrepareJob?
    ensures log[a].job.approvedToken == ApprovalToken(After(log, q).requestId, log[q].job.expiresAt)
    ensures log[a].reason.AfterReading? && log[a].reason.at < log[q].job.expiresAt
    ensures SameRequest(log, first, q) && log[first].Committed? && log[first].call == PrepareCall(true) && log[first].reason.AfterReading?
    ensures log[q].job.expiresAt == log[first].reason.at + 600_000
  {
    hide VerifySettlement, Mutate;
    q := ApprovalWasIssued(log, a);
    first := PrepareSetsItsExpiry(log, q);
    assert ValidEntry(PILOT, log, a);
    var seen := log[a].reason.index;
    assert log[..a][seen] == log[seen];
    RecordsAreSane(log, seen);
    HistoryAdvances(log, q, a);
    HistoryAdvances(log, seen, a);
  }

  lemma PrepareSetsItsExpiry(log: Log, q: nat) returns (first: nat)
    requires ValidLog(PILOT, log) && q < |log| && log[q].Committed? && log[q].job.PrepareJob?
    ensures SameRequest(log, first, q) && log[first].Committed? && log[first].call == PrepareCall(true) && log[first].reason.AfterReading?
    ensures log[q].job.expiresAt == log[first].reason.at + 600_000
  {
    assert ValidEntry(PILOT, log, q);
    first := ExpiryStemsFromPrepare(log, q);
  }

  /** A request expires only by an approve that saw it prepared and past its expiry. */
  lemma ExpiryWasDue(log: Log, i: nat)
    requires ValidLog(PILOT, log) && i < |log| && log[i].Committed? && log[i].job.ExpireJob?
    ensures log[i].call.ApproveCall? && log[i].reason.AfterReading? && log[i].reason.index < i
    ensures var seen := After(log, log[i].reason.index);
            seen.status == Prepared && seen.approvalExpiresAt.Some? && seen.approvalExpiresAt.value <= log[i].reason.at
    ensures After(log, i).status == Expired
  {
    hide VerifySettlement;
    assert ValidEntry(PILOT, log, i);
    var seen := log[i].reason.index;
    assert log[..i][seen] == log[seen];
  }

  /** A lease ends two minutes after its claim began, which is no later than its commit; the record keeps its end. */
  lemma LeasesLastTwoMinutes(log: Log, i: nat)
    requires ValidLog(PILOT, log) && Claims(log, i)
    ensures log[i].call == ClaimCall(log[i].job.newClaimId) && log[i].reason.Immediately? && log[i].reason.at <= log[i].at
    ensures log[i].job.claimExpiresAt == log[i].reason.at + 120_000
    ensures After(log, i).claimExpiresAt == Some(log[i].job.claimExpiresAt) && After(log, i).status == Settling
  {
    assert ValidEntry(PILOT, log, i);
  }

  /** Behind every settlement stand, in this order, the draft, a prepare, an approve with that prepare's token,
      and a claim: the latest one, whose claim id the completion presents. The receipt repeats the drafted
      network, asset, contract, amount and recipient, and the chain holds a transfer of that amount. */
  lemma SettlementProvenance(log: Log, j: nat) returns (d: nat, q: nat, a: nat, c: nat, o: nat, k: nat)
    requires ValidLog(PILOT, log) && Completes(log, j)
    ensures d < q < a < c < j && SameRequest(log, d, j) && log[q].key == log[a].key == log[c].key == log[j].key
    ensures log[d].Created? && log[q].Committed? && log[q].job.PrepareJob?
    ensures log[a].Committed? && log[a].job == ApproveJob(ApprovalToken(After(log, d).requestId, log[q].job.expiresAt))
    ensures Claims(log, c) && log[c].job.newClaimId == log[j].job.heldClaimId
    ensures forall m :: c < m < j && log[m].key == log[j].key ==> !Claims(log, m)
    ensures Pinned(log[j].job.receipt, After(log, d).terms) && After(log, j).receipt == Some(log[j].job.receipt)
    ensures log[j].call.CompleteCall?
    ensures HasVerifiedTransfer(log[j].call.chain.operations, log[j].job.receipt.transactionHash, After(log, d).terms)
    ensures var operations, terms := log[j].call.chain.operations, After(log, d).terms;
            && o < |operations| && k < |operations[o].changes|
            && operations[o].successful && operations[o].transactionHash == log[j].job.receipt.transactionHash
            && operations[o].contractId == Some(terms.assetContractId)
            && operations[o].changes[k].kind == "transfer" && operations[o].changes[k].assetCode == "USDC"
            && operations[o].changes[k].to == terms.recipient
            && DecimalToBaseUnits(operations[o].changes[k].amount) == DecimalToBaseUnits(terms.amount)
  {
    hide VerifySettlement, Decide, Begin, Pinned, HasVerifiedTransfer, DecimalToBaseUnits;
    assert ValidEntry(PILOT, log, j);
    c := Prev(log, j, log[j].key);
    assert ValidEntry(PILOT, log, c);
    a := FindApproval(log, Prev(log, c, log[c].key));
    q := ApprovalWasIssued(log, a);
    d := FindDraft(log, q);
    assert ValidEntry(PILOT, log, q);
    HistoryAdvances(log, d, q);
    CompletionWasVerified(log, j, d);
    o, k := CompletionWasPaidAsDrafted(log, j, d);
  }

  ghost predicate SafeLog(log: Log) {
    && (forall i: nat, j: nat :: SameRequest(log, i, j) ==> Advances(After(log, i), After(log, j)))
    && (forall i: nat, j: nat :: (Completes(log, i) && Completes(log, j) && log[i].key == log[j].key) ==> i == j)
    && (forall i: nat, j: nat, t ::
          (HoldsLease(log, i, t) && HoldsLease(log, j, t) && log[i].key == log[j].key) ==> i == j)
  }

  /** Any number of prepare, approve, claim and complete calls, interleaved in any way, at any speed: along each
      request nothing is ever undone, at most one completion commits, and no instant has two lease holders. */
  lemma EveryInterleavingIsSafe(actions: seq<Action<Request, PilotCall>>)
    ensures SafeLog(Run(PILOT, actions).log)
  {
    hide Run, Decide, Begin, Mutate;
    EveryRunIsSequential(PILOT, actions);
    var log := Run(PILOT, actions).log;
    forall i: nat, j: nat | SameRequest(log, i, j) ensures Advances(After(log, i), After(log, j)) {
      HistoryAdvances(log, i, j);
    }
    forall i: nat, j: nat | Completes(log, i) && Completes(log, j) && log[i].key == log[j].key ensures i == j {
      AtMostOneCompletion(log, i, j);
    }
    forall i: nat, j: nat, t | HoldsLease(log, i, t) && HoldsLease(log, j, t) && log[i].key == log[j].key ensures i == j {
      if i < j { LeasesAreDisjoint(log, i, j); } else if j < i { LeasesAreDisjoint(log, j, i); }
    }
  }

  // ---------- when a settled request stays settled ----------

  type PilotState = State<Request, PilotJob, PilotCall>

  /** A call on `key` that began while the request awaited approval and can still write `expired`. */
  ghost predicate ExpiryPending(s: PilotState, key: string, cid: nat) {
    && cid in s.calls && s.calls[cid].key == key && key in s.store
    && match s.calls[cid].pc
       case Deciding(call, _, snapshot) => call.ApproveCall? && snapshot.body.status == Prepared
       case Looping(loop) => loop.job.ExpireJob?
       case Computing(loop, _, _) => loop.job.ExpireJob? && CanSwap(s, cid)
       case Swapping(loop, _, _, _, _) => loop.job.ExpireJob? && CanSwap(s, cid)
       case _ => false
  }

  ghost predicate IsSettled(s: PilotState, key: string) {
    key in s.store && s.store[key].body.status == Settled
  }

  /** A step moves a settled request exactly when it is the swap of a pending expiry that read the current version. */
  lemma OnlyExpiryMovesASettledRequest(s: PilotState, key: string, a: Action<Request, PilotCall>)
    requires Inv(PILOT, s) && IsSettled(s, key)
    ensures key in Next(PILOT, s, a).store
    ensures Next(PILOT, s, a).store[key] != s.store[key] <==>
              && a.Advance? && a.id in s.calls && s.calls[a.id].key == key && s.calls[a.id].pc.Swapping?
              && s.calls[a.id].pc.current == s.store[key] && s.calls[a.id].pc.loop.job.ExpireJob?
  {
    hide VerifySettlement, Decide, Begin, Next, Justified, PcOk, ValidEntry, Prev;
    OnlyCommitsMoveRecords(PILOT, s, key, a);
    if a.Advance? && a.id in s.calls && s.calls[a.id].key == key && Commits(s, s.calls[a.id]) {
      CommitAppliesToTheStoredRecord(PILOT, s, a.id);
    }
  }

  /** A suspended call's own step makes no pending expiry out of none while the request is settled. */
  lemma StepMakesNoExpiry(s: PilotState, key: string, cid: nat)
    requires Inv(PILOT, s) && IsSettled(s, key) && cid in s.calls && s.calls[cid].key == key
    requires !ExpiryPending(s, key, cid) && !Commits(s, s.calls[cid])
    ensures var pc := Step(PILOT, s, key, s.calls[cid].pc);
            && (pc.Deciding? ==> pc.snapshot == s.store[key])
            && (pc.Looping? || pc.Computing? || pc.Swapping? ==> pc.loop.job.ExpireJob? ==>
                  pc.Swapping? && pc.loop.attempt + 1 == MAX_ATTEMPTS && pc.current != s.store[key]
                  && s.calls[cid].pc.Computing?)
  {
    hide VerifySettlement, Begin, Mutate, Justified, ValidEntry, Prev;
    assert PcOk(PILOT, s.log, s.clock, cid, key, s.calls[cid].pc);
  }

  /** Without a pending expiry none arises, whatever happens next. */
  lemma NoExpiryArises(s: PilotState, key: string, a: Action<Request, PilotCall>, cid: nat)
    requires Inv(PILOT, s) && IsSettled(s, key) && !ExpiryPending(s, key, cid)
    requires key in Next(PILOT, s, a).store && Next(PILOT, s, a).store[key] == s.store[key]
    ensures !ExpiryPending(Next(PILOT, s, a), key, cid)
  {
    hide VerifySettlement, Decide, Next, Step;
    StepOfOneCall(PILOT, s, a, cid);
    if a.Advance? && a.id == cid && cid in s.calls && s.calls[cid].key == key && !Commits(s, s.calls[cid]) {
      StepMakesNoExpiry(s, key, cid);
    }
  }

  lemma MovesOnlyWhileExpiryPending(s: PilotState, key: string, a: Action<Request, PilotCall>)
    requires Inv(PILOT, s) && IsSettled(s, key)
    ensures key in Next(PILOT, s, a).store
    ensures Next(PILOT, s, a).store[key] != s.store[key] ==> a.Advance? && ExpiryPending(s, key, a.id)
  {
    hide VerifySettlement, Decide, Begin, Mutate, Inv, Next;
    OnlyExpiryMovesASettledRequest(s, key, a);
  }

  lemma {:induction false} SettledIsStable(s: PilotState, key: string, more: seq<Action<Request, PilotCall>>)
    requires Inv(PILOT, s) && IsSettled(s, key) && forall cid :: !ExpiryPending(s, key, cid)
    ensures key in RunFrom(PILOT, s, more).store && RunFrom(PILOT, s, more).store[key] == s.store[key]
    decreases |more|
  {
    hide VerifySettlement, Decide, Begin, Mutate, Inv, Next, ExpiryPending;
    if more != [] {
      var s' := Next(PILOT, s, more[0]);
      NextKeepsInv(PILOT, s, more[0]);
      MovesOnlyWhileExpiryPending(s, key, more[0]);
      forall cid ensures !ExpiryPending(s', key, cid) { NoExpiryArises(s, key, more[0], cid); }
      SettledIsStable(s', key, more[1..]);
    }
  }

  ghost predicate Moves(s: PilotState, key: string, more: seq<Action<Request, PilotCall>>) {
    key in s.store && key in RunFrom(PILOT, s, more).store && RunFrom(PILOT, s, more).store[key] != s.store[key]
  }

  lemma ExpiryStrikes(s: PilotState, key: string, cid: nat) returns (more: seq<Action<Request, PilotCall>>)
    requires Inv(PILOT, s) && ExpiryPending(s, key, cid) && !s.calls[cid].pc.Deciding?
    ensures Moves(s, key, more)
  {
    hide Inv, Decide, Begin, VerifySettlement;
    assert Accepts(PILOT, ExpireJob, s.store[key].body);
    if s.calls[cid].pc.Computing? { assert Accepts(PILOT, ExpireJob, s.calls[cid].pc.current.body); }
    var t;
    more, t := LoopCanCommit(PILOT, s, cid, key, ExpireJob);
  }

  /** An approve that saw the request prepared decides to expire it once enough time has passed. */
  lemma DecidingExpires(s: PilotState, key: string, cid: nat) returns (s': PilotState, steps: seq<Action<Request, PilotCall>>)
    requires Inv(PILOT, s) && ExpiryPending(s, key, cid) && s.calls[cid].pc.Deciding?
    ensures s' == RunFrom(PILOT, s, steps) && s'.store == s.store
    ensures cid in s'.calls && s'.calls[cid].key == key && s'.calls[cid].pc.Looping? && s'.calls[cid].pc.loop.job == ExpireJob
  {
    hide VerifySettlement, Mutate, Justified, ValidEntry, Prev, RunFrom;
    var pc := s.calls[cid].pc;
    assert PcOk(PILOT, s.log, s.clock, cid, key, pc);
    RecordsAreSane(s.log, pc.index);
    var wait: Action<Request, PilotCall> := Tick(pc.snapshot.body.approvalExpiresAt.value);
    var step: Action<Request, PilotCall> := Advance(cid);
    var s1 := Next(PILOT, s, wait);
    s' := Next(PILOT, s1, step);
    steps := [wait] + [step];
    StepThenRun(PILOT, s, wait, [step]);
    RunOfOne(PILOT, s1, step);
  }

  lemma DecidingExpiryStrikes(s: PilotState, key: string, cid: nat) returns (more: seq<Action<Request, PilotCall>>)
    requires Inv(PILOT, s) && ExpiryPending(s, key, cid) && s.calls[cid].pc.Deciding?
    ensures Moves(s, key, more)
  {
    hide Inv, Decide, Begin, VerifySettlement, RunFrom, Next;
    var s', steps := DecidingExpires(s, key, cid);
    assert Accepts(PILOT, ExpireJob, s'.store[key].body);
    var rest := LoopingCanCommit(PILOT, s', cid, key, ExpireJob);
    more := steps + rest;
    RunFromConcat(PILOT, s, steps, rest);
  }

  /** Settled is terminal exactly when no approve that began before settlement can still write its expiry. */
  lemma SettledIsFinalExactlyWithoutPendingExpiry(s: PilotState, key: string)
    requires Inv(PILOT, s) && IsSettled(s, key)
    ensures (exists more :: Moves(s, key, more)) <==> (exists cid :: ExpiryPending(s, key, cid))
  {
    if cid :| ExpiryPending(s, key, cid) {
      var more;
      if s.calls[cid].pc.Deciding? {
        more := DecidingExpiryStrikes(s, key, cid);
      } else {
        more := ExpiryStrikes(s, key, cid);
      }
      assert Moves(s, key, more);
    } else {
      forall more ensures !Moves(s, key, more) { SettledIsStable(s, key, more); }
    }
  }

  // ---------- when a completion outlives its lease ----------

  ghost predicate LeaseOver(s: PilotState, key: string) {
    key in s.store && s.store[key].body.status == Settling && Reached(s.store[key].body.claimExpiresAt, s.clock)
  }

  /** A committed completion was decided before the end of the lease that the deciding call saw, on that lease's claim. */
  lemma CompletionWasDecidedWithinItsLease(log: Log, j: nat)
    requires ValidLog(PILOT, log) && Completes(log, j)
    ensures log[j].reason.AfterReading? && log[j].reason.index < j && log[log[j].reason.index].key == log[j].key
    ensures var seen := After(log, log[j].reason.index);
            && seen.status == Settling && seen.claimExpiresAt.Some? && log[j].reason.at < seen.claimExpiresAt.value
            && seen.claimIdHash == Some(Digest(Plain(log[j].job.heldClaimId)))
  {
    hide VerifySettlement, Mutate;
    assert ValidEntry(PILOT, log, j);
    var seen := log[j].reason.index;
    assert log[..j][seen] == log[seen];
    RecordsAreSane(log, seen);
  }

  /** While a request stays in settlement each lease it had before the current one is over. */
  lemma {:induction false} EarlierLeasesAreOver(log: Log, i: nat, j: nat)
    requires ValidLog(PILOT, log) && SameRequest(log, i, j)
    requires After(log, i).status == Settling && After(log, j).status == Settling
    ensures After(log, i).claimExpiresAt == After(log, j).claimExpiresAt || Reached(After(log, i).claimExpiresAt, log[j].at)
    decreases j
  {
    hide VerifySettlement, Decide, Begin;
    if i < j {
      assert ValidEntry(PILOT, log, j);
      var k := Prev(log, j, log[j].key);
      HistoryAdvances(log, i, k);
      EarlierLeasesAreOver(log, i, k);
    }
  }

  /** The job settles this record: the record is in settlement under the claim that the job holds. */
  ghost predicate Completable(job: PilotJob, r: Request) {
    job.CompleteJob? && r.status == Settling && r.claimIdHash == Some(Digest(Plain(job.heldClaimId)))
  }

  /** A complete call past its lease check that holds the current claim and can still swap. */
  ghost predicate CompletionPending(s: PilotState, key: string, cid: nat) {
    && cid in s.calls && s.calls[cid].key == key && key in s.store
    && match s.calls[cid].pc
       case Looping(loop) => Completable(loop.job, s.store[key].body)
       case Computing(loop, _, current) =>
         Completable(loop.job, s.store[key].body) && Completable(loop.job, current.body) && CanSwap(s, cid)
       case Swapping(loop, _, _, _, _) => Completable(loop.job, s.store[key].body) && CanSwap(s, cid)
       case _ => false
  }

  /** The very next version of the request is a settled one: it is settled under its current claim. */
  ghost predicate SettlesAs(s: PilotState, key: string, more: seq<Action<Request, PilotCall>>) {
    && IsSettled(RunFrom(PILOT, s, more), key) && key in s.store
    && RunFrom(PILOT, s, more).store[key].version == s.store[key].version + 1
  }

  lemma PendingCompletionSettles(s: PilotState, key: string, cid: nat) returns (more: seq<Action<Request, PilotCall>>)
    requires Inv(PILOT, s) && CompletionPending(s, key, cid)
    ensures SettlesAs(s, key, more)
  {
    hide Inv, Decide, Begin, VerifySettlement, RunFrom, Next;
    var job := s.calls[cid].pc.loop.job;
    assert Accepts(PILOT, job, s.store[key].body);
    if s.calls[cid].pc.Computing? { assert Accepts(PILOT, job, s.calls[cid].pc.current.body); }
    var t;
    more, t := LoopCanCommit(PILOT, s, cid, key, job);
  }

  /** Once the current lease is over, a call still looking at its snapshot is turned away. */
  lemma LateDecisionIsRefused(s: PilotState, key: string, cid: nat)
    requires Inv(PILOT, s) && LeaseOver(s, key) && cid in s.calls && s.calls[cid].key == key
    requires s.calls[cid].pc.Deciding? && s.calls[cid].pc.call.CompleteCall?
    ensures Decide(s.calls[cid].pc.call, s.calls[cid].pc.snapshot.body, s.clock).Stop?
  {
    hide VerifySettlement, Mutate, Justified, ValidEntry;
    var pc := s.calls[cid].pc;
    assert PcOk(PILOT, s.log, s.clock, cid, key, pc);
    var last := Prev(s.log, |s.log|, key);
    if pc.snapshot.body.status == Settling { EarlierLeasesAreOver(s.log, pc.index, last); }
  }

  lemma StepMakesNoCompletion(s: PilotState, key: string, cid: nat)
    requires Inv(PILOT, s) && LeaseOver(s, key) && cid in s.calls && s.calls[cid].key == key
    requires !CompletionPending(s, key, cid) && !Commits(s, s.calls[cid])
    ensures !CompletionPending(s.(calls := s.calls[cid := Running(key, Step(PILOT, s, key, s.calls[cid].pc))]), key, cid)
  {
    hide VerifySettlement, Inv;
    if s.calls[cid].pc.Deciding? && s.calls[cid].pc.call.CompleteCall? {
      LateDecisionIsRefused(s, key, cid);
    }
    AttemptsAreBounded(PILOT, s, cid);
  }

  /** While the record stays as it is, no complete call gets past its lease check any more. */
  lemma NoCompletionArises(s: PilotState, key: string, a: Action<Request, PilotCall>, cid: nat)
    requires Inv(PILOT, s) && LeaseOver(s, key) && !CompletionPending(s, key, cid)
    requires key in Next(PILOT, s, a).store && Next(PILOT, s, a).store[key] == s.store[key]
    ensures !CompletionPending(Next(PILOT, s, a), key, cid)
  {
    hide VerifySettlement, Decide, Next, Step, Inv;
    StepOfOneCall(PILOT, s, a, cid);
    if a.Advance? && a.id == cid && cid in s.calls && s.calls[cid].key == key && !Commits(s, s.calls[cid]) {
      StepMakesNoCompletion(s, key, cid);
    }
  }

  /** What the next commit on a request in settlement can leave. */
  lemma NextVersion(s: PilotState, key: string, a: Action<Request, PilotCall>)
    requires Inv(PILOT, s) && LeaseOver(s, key)
    ensures key in Next(PILOT, s, a).store
    ensures Next(PILOT, s, a).store[key] == s.store[key] || Next(PILOT, s, a).store[key].version == s.store[key].version + 1
    ensures Next(PILOT, s, a).store[key].body.status == Settled ==> a.Advance? && CompletionPending(s, key, a.id)
  {
    hide VerifySettlement, Decide, Begin, Next, Justified, PcOk, ValidEntry, Prev;
    StepMovesForward(PILOT, s, key, a);
    OnlyCommitsMoveRecords(PILOT, s, key, a);
    if a.Advance? && a.id in s.calls && s.calls[a.id].key == key && Commits(s, s.calls[a.id]) {
      CommitAppliesToTheStoredRecord(PILOT, s, a.id);
      CommitStoresTheSwap(PILOT, s, a.id);
    }
  }

  lemma {:induction false} NoneSettles(s: PilotState, key: string, more: seq<Action<Request, PilotCall>>)
    requires Inv(PILOT, s) && LeaseOver(s, key) && forall cid :: !CompletionPending(s, key, cid)
    ensures !SettlesAs(s, key, more)
    decreases |more|
  {
    hide VerifySettlement, Decide, Begin, Mutate, Inv, CompletionPending, Next;
    if more == [] {
      assert RunFrom(PILOT, s, more) == s;
    } else {
      var s' := Next(PILOT, s, more[0]);
      NextKeepsInv(PILOT, s, more[0]);
      NextVersion(s, key, more[0]);
      ClockMovesForward(PILOT, s, more[0]);
      if s'.store[key] == s.store[key] {
        forall cid ensures !CompletionPending(s', key, cid) { NoCompletionArises(s, key, more[0], cid); }
        NoneSettles(s', key, more[1..]);
      } else {
        RecordsMoveForward(PILOT, s', key, more[1..]);
        assert more[0].Advance? ==> !CompletionPending(s, key, more[0].id);
        assert s'.store[key].body.status != Settled;
      }
    }
  }

  /** A request whose lease is over can still be settled under its current claim exactly when some complete call has
      passed its lease check, holds that claim and can still swap. */
  lemma LateCompletionExactlyWhenPending(s: PilotState, key: string)
    requires Inv(PILOT, s) && LeaseOver(s, key)
    ensures (exists more :: SettlesAs(s, key, more)) <==> (exists cid :: CompletionPending(s, key, cid))
  {
    hide Inv, LeaseOver, CompletionPending, SettlesAs;
    if cid :| CompletionPending(s, key, cid) {
      var more := PendingCompletionSettles(s, key, cid);
      assert SettlesAs(s, key, more);
    } else {
      forall more ensures !SettlesAs(s, key, more) { NoneSettles(s, key, more); }
    }
  }

  // ---------- a run in which a settled request expires ----------

  lemma PaidInFull(terms: Terms) returns (completion: Completion, chain: Chain, receipt: Receipt)
    ensures VerifySettlement(terms, completion, chain) == Ok(receipt)
  {
    var hash := seq(64, _ => 'a');
    completion := Completion(hash, "success", terms.network, terms.asset, terms.assetContractId, terms.amount,
                             terms.recipient, "");
    receipt := ReceiptOf(terms, completion);
    assert receipt.transactionHash == hash;
    var change := BalanceChange("transfer", "USDC", terms.recipient, terms.amount);
    var op := Operation(true, hash, "invoke_host_function", Some(terms.assetContractId), [change]);
    assert IsTransferOf(op.changes[0], terms.recipient, terms.amount);
    chain := Chain(true, true, true, true, [op], true);
    assert IsVerifiedTransfer(chain.operations[0], hash, terms);
  }

  function PreparedAt(key: string, terms: Terms): Request {
    Request(key, terms, Prepared, Some(Digest(ApprovalToken(key, APPROVAL_TTL_MS))), Some(APPROVAL_TTL_MS), None,
            None, None, None, None, None)
  }

  ghost predicate SlowApproveWaits(s: PilotState, key: string, terms: Terms) {
    && key in s.store && s.store[key].body == PreparedAt(key, terms) && s.clock == 0 && s.calls.Keys == {1, 2}
    && s.calls[2].key == key && s.calls[2].pc.Deciding? && s.calls[2].pc.call.ApproveCall?
    && s.calls[2].pc.snapshot.body.status == Prepared
  }

  lemma MakeApproveWait(key: string, terms: Terms) returns (actions: seq<Action<Request, PilotCall>>)
    ensures SlowApproveWaits(Run(PILOT, actions), key, terms)
  {
    var s0: PilotState := Initial();
    var create: Action<Request, PilotCall> :=
      Create(key, Request(key, terms, Draft, None, None, None, None, None, None, None, None));
    var s1 := Next(PILOT, s0, create);
    var a1 := NewCallCommits(PILOT, s1, key, 1, PrepareCall(true), PrepareJob(APPROVAL_TTL_MS), PreparedAt(key, terms));
    var a2 := NewCallWaits(PILOT, RunFrom(PILOT, s1, a1), key, 2, ApproveCall(ApprovalToken(key, APPROVAL_TTL_MS)));
    actions := [create] + a1 + a2;
    RunFromConcat(PILOT, s0, [create] + a1, a2);
    assert ([create] + a1)[1..] == a1;
  }

  lemma ApproveAndClaim(s: PilotState, key: string, terms: Terms) returns (steps: seq<Action<Request, PilotCall>>)
    requires SlowApproveWaits(s, key, terms)
    ensures var s' := RunFrom(PILOT, s, steps);
            && key in s'.store && s'.clock == 0 && s'.calls.Keys == {1, 2, 3, 4} && s'.calls[2] == s.calls[2]
            && s'.store[key].body == PreparedAt(key, terms).(status := Settling, approvedAt := Some(0),
                 approvalTokenHash := None, claimIdHash := Some(Digest(Plain("c"))), claimExpiresAt := Some(CLAIM_TTL_MS))
  {
    var token := ApprovalToken(key, APPROVAL_TTL_MS);
    var approved := s.store[key].body.(status := Approved, approvedAt := Some(0), approvalTokenHash := None);
    var a := NewCallCommits(PILOT, s, key, 3, ApproveCall(token), ApproveJob(token), approved);
    var claimed := approved.(status := Settling, claimIdHash := Some(Digest(Plain("c"))), claimExpiresAt := Some(CLAIM_TTL_MS));
    var b := NewCallCommits(PILOT, RunFrom(PILOT, s, a), key, 4, ClaimCall("c"), ClaimJob("c", CLAIM_TTL_MS), claimed);
    steps := a + b;
    RunFromConcat(PILOT, s, a, b);
  }

  /** Two approves of one token, one of them slow: the fast one leads to settlement, the slow one then finds
      the approval expired and overwrites the settled request. */
  lemma SettledRequestCanExpire(key: string, terms: Terms) returns (actions: seq<Action<Request, PilotCall>>)
    ensures IsSettled(Run(PILOT, actions), key)
    ensures exists more :: Moves(Run(PILOT, actions), key, more)
  {
    hide VerifySettlement;
    var a := MakeApproveWait(key, terms);
    var b := ApproveAndClaim(Run(PILOT, a), key, terms);
    var s := RunFrom(PILOT, Run(PILOT, a), b);
    var completion, chain, receipt := PaidInFull(terms);
    var settled := s.store[key].body.(status := Settled, transactionHash := Some(receipt.transactionHash),
                                      receipt := Some(receipt), settledAt := Some(receipt.settledAt), claimIdHash := None);
    var c := NewCallCommits(PILOT, s, key, 5, CompleteCall("c", completion, chain), CompleteJob("c", receipt), settled);
    actions := a + b + c;
    RunFromConcat(PILOT, Initial(), a, b);
    RunFromConcat(PILOT, Initial(), a + b, c);
    RunKeepsInv(PILOT, actions);
    assert ExpiryPending(Run(PILOT, actions), key, 2);
    SettledIsFinalExactlyWithoutPendingExpiry(Run(PILOT, actions), key);
  }

  /** The lease is checked before the settlement is verified and not after: a completion can commit on a lease that is over. */
  lemma CompletionCanOutliveItsLease(key: string, terms: Terms)
      returns (actions: seq<Action<Request, PilotCall>>, more: seq<Action<Request, PilotCall>>)
    ensures LeaseOver(Run(PILOT, actions), key)
    ensures IsSettled(Run(PILOT, actions + more), key)
  {
    hide VerifySettlement, RunFrom;
    var a := MakeApproveWait(key, terms);
    var b := ApproveAndClaim(Run(PILOT, a), key, terms);
    var s := RunFrom(PILOT, Run(PILOT, a), b);
    var completion, chain, receipt := PaidInFull(terms);
    var c := NewCallWaits(PILOT, s, key, 5, CompleteCall("c", completion, chain));
    var s1 := RunFrom(PILOT, s, c);
    var verify: Action<Request, PilotCall> := Advance(5);
    var wait: Action<Request, PilotCall> := Tick(CLAIM_TTL_MS);
    var s2 := Next(PILOT, s1, verify);
    var s3 := Next(PILOT, s2, wait);
    actions := a + b + c + ([verify] + [wait]);
    RunFromConcat(PILOT, Initial(), a, b);
    RunFromConcat(PILOT, Initial(), a + b, c);
    RunFromConcat(PILOT, Initial(), a + b + c, [verify] + [wait]);
    StepThenRun(PILOT, s1, verify, [wait]);
    RunOfOne(PILOT, s2, wait);
    more := UndisturbedLoopCommits(PILOT, s3, 5, s3.store[key].body.(status := Settled,
      transactionHash := Some(receipt.transactionHash), receipt := Some(receipt), settledAt := Some(receipt.settledAt), claimIdHash := None));
    RunFromConcat(PILOT, Initial(), actions, more);
  }
}
