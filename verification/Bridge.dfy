/** The supervised CCTP bridge: prepare, record the burn, poll Circle for the attestation and the
    destination transaction, over the same optimistic store as the pilot. */
module Bridge {
  import opened Common
  import opened Optimistic

  datatype Status = Requested | Prepared | BurnSubmitted | Attesting | Forwarding | Settled | Failed | ManualReview

  /** What a bridge intent fixes at creation. */
  datatype Intent = Intent(sourceAddress: string, destinationAddress: string, amountBaseUnits: nat, burnToken: string,
                           tokenMessenger: string, forwarderBytes: string, destinationDomain: nat,
                           finalityThreshold: nat, hookData: string)

  datatype BridgeRecord = BridgeRecord(
    intent: Intent, status: Status, quoteExpiresAt: Option<nat>,
    burnHash: Option<string>, burnBlock: Option<string>, attestation: Option<string>,
    destinationHash: Option<string>, destinationVerified: Option<bool>, settledAt: Option<nat>)

  /** A Base transaction with its decoded calldata; None when decoding fails. */
  datatype BurnArgs = BurnArgs(functionName: string, amount: nat, domain: nat, mintRecipient: string, burnToken: string,
                               destinationCaller: string, maxFee: nat, finality: nat, hookData: string)
  datatype BurnTx = BurnTx(to: string, from: string, args: Option<BurnArgs>)

  /** What Circle's message service reports; the destination hash is already stripped and lower-cased,
      None when it is missing or malformed. */
  datatype CircleMessage = CircleMessage(status: string, destinationHash: Option<string>)

  datatype BridgeCall =
    | PrepareCall(destinationValid: bool, expiresAt: nat)
    | BurnCall(gateOpen: bool, hash: Option<string>, receiptBlock: Option<string>, tx: Option<BurnTx>)
    | StatusCall(message: Option<CircleMessage>, confirmed: set<string>)

  datatype BridgeJob =
    | PrepareJob(quotedUntil: nat)
    | BurnJob(burnHash: string, burnBlock: string)
    | CircleJob(report: CircleMessage, verified: bool)

  predicate IsTerminal(s: Status) { s == Settled || s == Failed || s == ManualReview }
  predicate BeforeBurn(s: Status) { s == Requested || s == Prepared }

  /** The burn must come from the prepared source, go to the messenger and carry the prepared arguments. */
  predicate MatchesIntent(tx: Option<BurnTx>, intent: Intent) {
    && tx.Some? && tx.value.to == intent.tokenMessenger && tx.value.from == intent.sourceAddress
    && tx.value.args == Some(BurnArgs("depositForBurnWithHook", intent.amountBaseUnits, intent.destinationDomain,
                                      intent.forwarderBytes, intent.burnToken, intent.forwarderBytes, 0,
                                      intent.finalityThreshold, intent.hookData))
  }

  predicate IsIntent(key: string, r: BridgeRecord) {
    r == BridgeRecord(r.intent, Requested, None, None, None, None, None, None, None)
  }

  function Begin(call: BridgeCall, now: nat): Option<BridgeJob> { None }

  function Decide(call: BridgeCall, r: BridgeRecord, now: nat): Decision<BridgeJob> {
    match call
    case PrepareCall(destinationValid, expiresAt) =>
      if !BeforeBurn(r.status) then Stop(409)
      else if !destinationValid then Stop(503)
      else Proceed(PrepareJob(expiresAt))
    case BurnCall(gateOpen, hash, receiptBlock, tx) =>
      if !gateOpen then Stop(409)
      else if r.status != Prepared then Stop(409)
      else if hash.None? then Stop(400)
      else if receiptBlock.None? || tx.None? then Stop(404)
      else if !MatchesIntent(tx, r.intent) then Stop(409)
      else Proceed(BurnJob(hash.value, receiptBlock.value))
    case StatusCall(message, confirmed) =>
      if r.burnHash.None? || IsTerminal(r.status) || message.None? then Stop(200)
      else
        var hash := message.value.destinationHash;
        Proceed(CircleJob(message.value, hash.Some? && hash.value in confirmed))
  }

  function ApplyCircleStatus(r: BridgeRecord, m: CircleMessage, verified: bool, now: nat): BridgeRecord {
    var s := r.(attestation := Some(if m.status == "" then "pending" else m.status));
    if m.status == "complete" then
      if m.destinationHash.None? then s.(status := Forwarding)
      else s.(destinationHash := m.destinationHash, status := if verified then Settled else Forwarding,
              destinationVerified := Some(verified), settledAt := if verified then Some(now) else None)
    else if m.status == "failed" || m.status == "expired" then s.(status := ManualReview)
    else s.(status := if m.status == "pending_confirmations" then Attesting else Forwarding)
  }

  function Mutate(job: BridgeJob, r: BridgeRecord, now: nat): Result<BridgeRecord, nat> {
    match job
    case PrepareJob(expiresAt) =>
      if !BeforeBurn(r.status) then Err(409) else Ok(r.(status := Prepared, quoteExpiresAt := Some(expiresAt)))
    case BurnJob(hash, block) =>
      if r.status != Prepared then Err(409) else
      Ok(r.(status := BurnSubmitted, burnHash := Some(hash), burnBlock := Some(block), attestation := Some("pending")))
    case CircleJob(message, verified) => Ok(ApplyCircleStatus(r, message, verified, now))
  }

  const BRIDGE: Protocol<BridgeRecord, BridgeJob, BridgeCall> := Protocol(IsIntent, Begin, Decide, Mutate)

  type Log = seq<Entry<BridgeRecord, BridgeJob, BridgeCall>>

  function After(log: Log, i: nat): BridgeRecord
    requires i < |log|
  {
    log[i].after.body
  }

  ghost predicate SameBridge(log: Log, i: nat, j: nat) { i <= j < |log| && log[i].key == log[j].key }
  ghost predicate Burns(log: Log, i: nat) { i < |log| && log[i].Committed? && log[i].job.BurnJob? }

  /** There is a burn hash exactly from the recorded burn on, and from then on it and the intent stay. */
  ghost predicate Follows(a: BridgeRecord, b: BridgeRecord) {
    && a.intent == b.intent && (a.burnHash.None? <==> BeforeBurn(a.status)) && (b.burnHash.None? <==> BeforeBurn(b.status))
    && (a.burnHash.Some? ==> b.burnHash == a.burnHash && b.burnBlock == a.burnBlock)
  }

  lemma {:induction false} HistoryFollows(log: Log, i: nat, j: nat)
    requires ValidLog(BRIDGE, log) && SameBridge(log, i, j)
    ensures Follows(After(log, i), After(log, j))
    decreases j, i
  {
    hide MatchesIntent;
    assert ValidEntry(BRIDGE, log, j);
    if log[j].Committed? {
      var k := Prev(log, j, log[j].key);
      HistoryFollows(log, k, k);
      if log[j].job.CircleJob? {
        var seen := log[j].reason.index;
        assert log[..j][seen] == log[seen];
        HistoryFollows(log, seen, k);
      }
      if i < j { HistoryFollows(log, i, k); }
    }
  }

  /** One burn per bridge: whatever the interleaving, a second burn never commits. */
  lemma AtMostOneBurn(log: Log, i: nat, j: nat)
    requires ValidLog(BRIDGE, log) && Burns(log, i) && Burns(log, j) && log[i].key == log[j].key
    ensures i == j
  {
    if i < j { BurnIsFinal(log, i, j); } else if j < i { BurnIsFinal(log, j, i); }
  }

  lemma BurnIsFinal(log: Log, i: nat, j: nat)
    requires ValidLog(BRIDGE, log) && Burns(log, i) && i < j && SameBridge(log, i, j)
    ensures log[j].Committed? && log[j].job.CircleJob?
  {
    assert ValidEntry(BRIDGE, log, j) && ValidEntry(BRIDGE, log, i);
    HistoryFollows(log, i, Prev(log, j, log[j].key));
  }

  lemma {:induction false} FindBurn(log: Log, i: nat) returns (b: nat)
    requires ValidLog(BRIDGE, log) && i < |log| && After(log, i).burnHash.Some?
    ensures SameBridge(log, b, i) && Burns(log, b) && Some(log[b].job.burnHash) == After(log, i).burnHash
    decreases i
  {
    assert ValidEntry(BRIDGE, log, i);
    if log[i].job.BurnJob? {
      b := i;
    } else {
      b := FindBurn(log, Prev(log, i, log[i].key));
    }
  }

  /** A settled bridge has a burn whose transaction matched the intent, and a destination hash that Horizon
      confirmed to the very status call that settled it. */
  lemma SettlementIsBackedByBurnAndDestination(log: Log, i: nat) returns (b: nat)
    requires ValidLog(BRIDGE, log) && i < |log| && After(log, i).status == Settled
    ensures b < i && SameBridge(log, b, i) && Burns(log, b) && After(log, i).burnHash == Some(log[b].job.burnHash)
    ensures log[b].call.BurnCall? && log[b].call.hash == After(log, i).burnHash
    ensures MatchesIntent(log[b].call.tx, After(log, i).intent)
    ensures log[b].call.gateOpen && log[b].call.receiptBlock == After(log, i).burnBlock
    ensures var intent := After(log, i).intent;
            && log[b].call.tx.Some? && log[b].call.tx.value.args.Some?
            && var tx := log[b].call.tx.value; var args := tx.args.value;
            && tx.to == intent.tokenMessenger && tx.from == intent.sourceAddress && args.functionName == "depositForBurnWithHook"
            && args.amount == intent.amountBaseUnits && args.domain == intent.destinationDomain && args.burnToken == intent.burnToken
            && args.mintRecipient == intent.forwarderBytes && args.destinationCaller == intent.forwarderBytes
            && args.maxFee == 0 && args.finality == intent.finalityThreshold && args.hookData == intent.hookData
    ensures log[i].Committed? && log[i].call.StatusCall? && After(log, i).destinationHash.Some?
    ensures After(log, i).destinationHash.value in log[i].call.confirmed && After(log, i).destinationVerified == Some(true)
  {
    hide MatchesIntent;
    assert ValidEntry(BRIDGE, log, i);
    HistoryFollows(log, i, i);
    b := FindBurn(log, i);
    BurnWasChecked(log, b);
    HistoryFollows(log, b, i);
    BurnCheckIsExact(log[b].call.tx, After(log, i).intent);
  }

  /** A committed burn passed the check at an open gate, against the intent it keeps. */
  lemma BurnWasChecked(log: Log, b: nat)
    requires ValidLog(BRIDGE, log) && Burns(log, b)
    ensures log[b].call.BurnCall? && log[b].call.gateOpen && MatchesIntent(log[b].call.tx, After(log, b).intent)
    ensures log[b].before.body.status == Prepared
    ensures After(log, b) == log[b].before.body.(status := BurnSubmitted, burnHash := log[b].call.hash,
                                                 burnBlock := log[b].call.receiptBlock, attestation := Some("pending"))
    ensures log[b].call.hash == Some(log[b].job.burnHash)
  {
    hide MatchesIntent;
    assert ValidEntry(BRIDGE, log, b);
    var seen := log[b].reason.index;
    assert log[..b][seen] == log[seen];
    HistoryFollows(log, seen, b);
  }

  /** The burn check accepts exactly a decoded burn with every field as prepared. */
  lemma BurnCheckIsExact(tx: Option<BurnTx>, intent: Intent)
    ensures MatchesIntent(tx, intent) <==>
              && tx.Some? && tx.value.args.Some? && tx.value.to == intent.tokenMessenger && tx.value.from == intent.sourceAddress
              && var args := tx.value.args.value;
              && args.functionName == "depositForBurnWithHook" && args.amount == intent.amountBaseUnits
              && args.domain == intent.destinationDomain && args.mintRecipient == intent.forwarderBytes
              && args.burnToken == intent.burnToken && args.destinationCaller == intent.forwarderBytes && args.maxFee == 0
              && args.finality == intent.finalityThreshold && args.hookData == intent.hookData
  {
  }

  /** When a call goes on to write, and the status with which it stops otherwise: the state of the bridge is asked first. */
  lemma DecisionIsExact(call: BridgeCall, r: BridgeRecord, now: nat)
    ensures call.PrepareCall? ==>
              Decide(call, r, now) == if r.status !in {Requested, Prepared} then Stop(409)
                                      else if call.destinationValid then Proceed(PrepareJob(call.expiresAt)) else Stop(503)
    ensures call.BurnCall? ==>
              && (Decide(call, r, now).Proceed? <==>
                    call.gateOpen && r.status == Prepared && call.hash.Some? && call.receiptBlock.Some? && MatchesIntent(call.tx, r.intent))
              && (!call.gateOpen || r.status != Prepared ==> Decide(call, r, now) == Stop(409))
              && (Decide(call, r, now).Stop? ==> Decide(call, r, now).status in {400, 404, 409})
              && (Decide(call, r, now) == Stop(400) ==> call.hash.None?)
              && (Decide(call, r, now) == Stop(404) ==> call.receiptBlock.None? || call.tx.None?)
    ensures call.StatusCall? ==>
              && (Decide(call, r, now).Proceed? <==>
                    r.burnHash.Some? && r.status !in {Settled, Failed, ManualReview} && call.message.Some?)
              && (Decide(call, r, now).Stop? ==> Decide(call, r, now) == Stop(200))
  {
  }

  /** A job whose bridge has moved on is refused with 409 when it is applied; a status report never is. */
  lemma StaleJobsAreRefused(r: BridgeRecord, expiresAt: nat, hash: string, block: string, m: CircleMessage, verified: bool, now: nat)
    ensures Mutate(PrepareJob(expiresAt), r, now).Ok? <==> r.status in {Requested, Prepared}
    ensures Mutate(PrepareJob(expiresAt), r, now).Err? ==> Mutate(PrepareJob(expiresAt), r, now) == Err(409)
    ensures Mutate(BurnJob(hash, block), r, now).Ok? <==> r.status == Prepared
    ensures Mutate(BurnJob(hash, block), r, now).Err? ==> Mutate(BurnJob(hash, block), r, now) == Err(409)
    ensures Mutate(CircleJob(m, verified), r, now).Ok?
  {
  }

  /** What a committed status report leaves: its status, the destination it names, and its attestation; intent and burn stay. */
  lemma ReportLeavesExactly(log: Log, i: nat)
    requires ValidLog(BRIDGE, log) && i < |log| && log[i].Committed? && log[i].job.CircleJob?
    ensures log[i].call.StatusCall? && log[i].call.message == Some(log[i].job.report)
    ensures var before, after, report := log[i].before.body, After(log, i), log[i].job.report;
            var named := report.status == "complete" && report.destinationHash.Some?;
            var confirmed := named && report.destinationHash.value in log[i].call.confirmed;
            && (after.status == Settled <==> confirmed)
            && (after.status == ManualReview <==> report.status in {"failed", "expired"})
            && (after.status == Attesting <==> report.status == "pending_confirmations")
            && (after.status in {Settled, ManualReview, Attesting, Forwarding})
            && after.attestation == Some(if report.status == "" then "pending" else report.status)
            && after.destinationHash == (if named then report.destinationHash else before.destinationHash)
            && after.destinationVerified == (if named then Some(confirmed) else before.destinationVerified)
            && after.settledAt == (if !named then before.settledAt else if confirmed then Some(log[i].computedAt) else None)
            && after.intent == before.intent && after.burnHash == before.burnHash && after.burnBlock == before.burnBlock
  {
    assert ValidEntry(BRIDGE, log, i);
  }

  /** A committed prepare was asked for a valid destination, and leaves the quote's expiry and nothing else. */
  lemma PreparationLeavesExactly(log: Log, i: nat)
    requires ValidLog(BRIDGE, log) && i < |log| && log[i].Committed? && log[i].job.PrepareJob?
    ensures log[i].call == PrepareCall(true, log[i].job.quotedUntil) && BeforeBurn(log[i].before.body.status)
    ensures After(log, i) == log[i].before.body.(status := Prepared, quoteExpiresAt := Some(log[i].job.quotedUntil))
  {
    hide MatchesIntent;
    assert ValidEntry(BRIDGE, log, i);
  }

  type BridgeState = State<BridgeRecord, BridgeJob, BridgeCall>

  /** A report that does not settle: anything but a completion whose destination hash was verified. */
  predicate Unsettling(job: BridgeJob) {
    job.CircleJob? && !(job.report.status == "complete" && job.report.destinationHash.Some? && job.verified)
  }

  ghost predicate IsSettled(s: BridgeState, key: string) { key in s.store && s.store[key].body.status == Settled }

  /** A settled bridge is not terminal: a step changes its status exactly when a status call swaps in a report that is
      not again a verified completion. */
  lemma SettledBridgeMovesOnlyByAStaleReport(s: BridgeState, key: string, a: Action<BridgeRecord, BridgeCall>)
    requires Inv(BRIDGE, s) && IsSettled(s, key)
    ensures key in Next(BRIDGE, s, a).store
    ensures Next(BRIDGE, s, a).store[key].body.status != Settled <==>
              && a.Advance? && a.id in s.calls && s.calls[a.id].key == key && Commits(s, s.calls[a.id])
              && Unsettling(s.calls[a.id].pc.loop.job)
    ensures Next(BRIDGE, s, a).store[key].body.status != Settled ==> SawItOpen(s, key, a.id)
  {
    hide Decide, Next, Justified, PcOk, ValidEntry, Prev;
    OnlyCommitsMoveRecords(BRIDGE, s, key, a);
    if a.Advance? && a.id in s.calls && s.calls[a.id].key == key && Commits(s, s.calls[a.id]) {
      CommitAppliesToTheStoredRecord(BRIDGE, s, a.id);
      CommitStoresTheSwap(BRIDGE, s, a.id);
      if s.calls[a.id].pc.loop.job.CircleJob? { ReportsStemFromOpenBridges(s, key, a.id); }
    }
  }

  /** The call decided to report on a record of this bridge that had a burn and was not terminal. */
  ghost predicate SawItOpen(s: BridgeState, key: string, cid: nat) {
    && cid in s.calls && s.calls[cid].key == key
    && (s.calls[cid].pc.Looping? || s.calls[cid].pc.Computing? || s.calls[cid].pc.Swapping?)
    && var reason := s.calls[cid].pc.loop.reason;
    && reason.AfterReading? && reason.index < |s.log| && s.log[reason.index].key == key
    && After(s.log, reason.index).burnHash.Some? && !IsTerminal(After(s.log, reason.index).status)
  }

  lemma ReportsStemFromOpenBridges(s: BridgeState, key: string, cid: nat)
    requires Inv(BRIDGE, s) && cid in s.calls && s.calls[cid].key == key
    requires s.calls[cid].pc.Looping? || s.calls[cid].pc.Computing? || s.calls[cid].pc.Swapping?
    requires s.calls[cid].pc.loop.job.CircleJob?
    ensures SawItOpen(s, key, cid)
  {
    hide Mutate, ValidEntry, MatchesIntent;
    assert PcOk(BRIDGE, s.log, s.clock, cid, key, s.calls[cid].pc);
  }

  // ---------- when a settled bridge stays settled ----------

  /** A status call whose report does not settle the bridge and can still be swapped in: one that already looks at an
      open snapshot, or one whose loop has a swap left. */
  ghost predicate ReportPending(s: BridgeState, key: string, cid: nat) {
    && cid in s.calls && s.calls[cid].key == key && key in s.store
    && match s.calls[cid].pc
       case Deciding(call, _, snapshot) =>
         Decide(call, snapshot.body, s.clock).Proceed? && Unsettling(Decide(call, snapshot.body, s.clock).job)
       case Looping(loop) => Unsettling(loop.job)
       case Computing(loop, _, _) => Unsettling(loop.job) && CanSwap(s, cid)
       case Swapping(loop, _, _, _, _) => Unsettling(loop.job) && CanSwap(s, cid)
       case _ => false
  }

  ghost predicate Unsettles(s: BridgeState, key: string, more: seq<Action<BridgeRecord, BridgeCall>>) {
    key in RunFrom(BRIDGE, s, more).store && RunFrom(BRIDGE, s, more).store[key].body.status != Settled
  }

  lemma ReportsApply(job: BridgeJob, r: BridgeRecord)
    requires Unsettling(job)
    ensures Accepts(BRIDGE, job, r)
    ensures forall t :: Mutate(job, r, t).Ok? && Mutate(job, r, t).value.status != Settled
  {
  }

  lemma PendingReportUnsettles(s: BridgeState, key: string, cid: nat) returns (more: seq<Action<BridgeRecord, BridgeCall>>)
    requires Inv(BRIDGE, s) && ReportPending(s, key, cid)
    ensures Unsettles(s, key, more)
  {
    hide Inv, Decide, RunFrom, Next, Mutate, Accepts;
    if s.calls[cid].pc.Deciding? {
      more := DecidingReportUnsettles(s, key, cid);
    } else {
      var job := s.calls[cid].pc.loop.job;
      ReportsApply(job, s.store[key].body);
      if s.calls[cid].pc.Computing? { ReportsApply(job, s.calls[cid].pc.current.body); }
      var t;
      more, t := LoopCanCommit(BRIDGE, s, cid, key, job);
    }
  }

  lemma DecidingReportUnsettles(s: BridgeState, key: string, cid: nat) returns (more: seq<Action<BridgeRecord, BridgeCall>>)
    requires Inv(BRIDGE, s) && ReportPending(s, key, cid) && s.calls[cid].pc.Deciding?
    ensures Unsettles(s, key, more)
  {
    hide Inv, Decide, RunFrom, Mutate, Accepts;
    var step: Action<BridgeRecord, BridgeCall> := Advance(cid);
    var s' := Next(BRIDGE, s, step);
    var job := s'.calls[cid].pc.loop.job;
    ReportsApply(job, s.store[key].body);
    var rest := LoopingCanCommit(BRIDGE, s', cid, key, job);
    more := [step] + rest;
    StepThenRun(BRIDGE, s, step, rest);
  }

  lemma StepMakesNoReport(s: BridgeState, key: string, cid: nat)
    requires Inv(BRIDGE, s) && IsSettled(s, key) && cid in s.calls && s.calls[cid].key == key
    requires !ReportPending(s, key, cid) && !Commits(s, s.calls[cid])
    ensures !ReportPending(s.(calls := s.calls[cid := Running(key, Step(BRIDGE, s, key, s.calls[cid].pc))]), key, cid)
  {
    hide Inv, Mutate, MatchesIntent;
    AttemptsAreBounded(BRIDGE, s, cid);
  }

  lemma DecisionIgnoresTime(call: BridgeCall, r: BridgeRecord, t: nat, t': nat)
    ensures Decide(call, r, t) == Decide(call, r, t')
  {
    hide MatchesIntent;
  }

  lemma NoReportArises(s: BridgeState, key: string, a: Action<BridgeRecord, BridgeCall>, cid: nat)
    requires Inv(BRIDGE, s) && IsSettled(s, key) && !ReportPending(s, key, cid)
    ensures !ReportPending(Next(BRIDGE, s, a), key, cid)
  {
    hide Decide, Mutate, Next, Step, Inv;
    StepOfOneCall(BRIDGE, s, a, cid);
    if cid in s.calls && s.calls[cid].key == key {
      if a.Advance? && a.id == cid {
        if !Commits(s, s.calls[cid]) {
          StepMakesNoReport(s, key, cid);
          AdvanceWithoutCommit(BRIDGE, s, cid);
        }
      } else {
        NoSwapArises(BRIDGE, s, a, cid);
        var pc := s.calls[cid].pc;
        if pc.Deciding? { DecisionIgnoresTime(pc.call, pc.snapshot.body, s.clock, Next(BRIDGE, s, a).clock); }
      }
    }
  }

  lemma UnsettlesOnlyWhileReportPending(s: BridgeState, key: string, a: Action<BridgeRecord, BridgeCall>)
    requires Inv(BRIDGE, s) && IsSettled(s, key)
    ensures key in Next(BRIDGE, s, a).store
    ensures Next(BRIDGE, s, a).store[key].body.status != Settled ==> a.Advance? && ReportPending(s, key, a.id)
  {
    hide Decide, Mutate, Next, Step, Inv;
    SettledBridgeMovesOnlyByAStaleReport(s, key, a);
    if Next(BRIDGE, s, a).store[key].body.status != Settled { CommitAppliesToTheStoredRecord(BRIDGE, s, a.id); }
  }

  lemma {:induction false} SettledStays(s: BridgeState, key: string, more: seq<Action<BridgeRecord, BridgeCall>>)
    requires Inv(BRIDGE, s) && IsSettled(s, key) && forall cid :: !ReportPending(s, key, cid)
    ensures !Unsettles(s, key, more)
    decreases |more|
  {
    hide Inv, Next, ReportPending;
    if more == [] {
      assert RunFrom(BRIDGE, s, more) == s;
    } else {
      var s' := Next(BRIDGE, s, more[0]);
      NextKeepsInv(BRIDGE, s, more[0]);
      UnsettlesOnlyWhileReportPending(s, key, more[0]);
      forall cid ensures !ReportPending(s', key, cid) { NoReportArises(s, key, more[0], cid); }
      SettledStays(s', key, more[1..]);
    }
  }

  /** Settled is terminal exactly when no status call that saw the bridge open can still swap in a report that is not
      a verified completion. */
  lemma SettledIsFinalExactlyWithoutPendingReport(s: BridgeState, key: string)
    requires Inv(BRIDGE, s) && IsSettled(s, key)
    ensures (exists more :: Unsettles(s, key, more)) <==> (exists cid :: ReportPending(s, key, cid))
  {
    hide Inv, ReportPending, Unsettles;
    if cid :| ReportPending(s, key, cid) {
      var more := PendingReportUnsettles(s, key, cid);
      assert Unsettles(s, key, more);
    } else {
      forall more ensures !Unsettles(s, key, more) { SettledStays(s, key, more); }
    }
  }

  // ---------- a run in which a settled bridge moves ----------

  function Burnt(intent: Intent, hash: string): BridgeRecord {
    BridgeRecord(intent, BurnSubmitted, Some(0), Some(hash), Some("0"), Some("pending"), None, None, None)
  }

  lemma RecordBurn(key: string, intent: Intent, hash: string) returns (actions: seq<Action<BridgeRecord, BridgeCall>>)
    ensures var s := Run(BRIDGE, actions);
            key in s.store && s.store[key].body == Burnt(intent, hash) && s.clock == 0 && s.calls.Keys == {1, 2}
  {
    hide RunFrom;
    var draft := BridgeRecord(intent, Requested, None, None, None, None, None, None, None);
    var create: Action<BridgeRecord, BridgeCall> := Create(key, draft);
    var s1 := Next(BRIDGE, Initial(), create);
    var prepared := draft.(status := Prepared, quoteExpiresAt := Some(0));
    var a := NewCallCommits(BRIDGE, s1, key, 1, PrepareCall(true, 0), PrepareJob(0), prepared);
    var tx := Some(BurnTx(intent.tokenMessenger, intent.sourceAddress, Some(BurnArgs("depositForBurnWithHook",
      intent.amountBaseUnits, intent.destinationDomain, intent.forwarderBytes, intent.burnToken, intent.forwarderBytes, 0,
      intent.finalityThreshold, intent.hookData))));
    var burn := BurnCall(true, Some(hash), Some("0"), tx);
    var b := NewCallCommits(BRIDGE, RunFrom(BRIDGE, s1, a), key, 2, burn, BurnJob(hash, "0"), Burnt(intent, hash));
    actions := [create] + (a + b);
    StepThenRun(BRIDGE, Initial(), create, a + b);
    RunFromConcat(BRIDGE, s1, a, b);
  }

  /** Two status calls, one of them slow: the fast one settles the bridge, the slow one's older report then takes it
      to manual review. */
  lemma SettledBridgeCanMove(key: string, intent: Intent, hash: string)
      returns (actions: seq<Action<BridgeRecord, BridgeCall>>, more: seq<Action<BridgeRecord, BridgeCall>>)
    ensures key in Run(BRIDGE, actions).store && Run(BRIDGE, actions).store[key].body.status == Settled
    ensures key in Run(BRIDGE, actions + more).store && Run(BRIDGE, actions + more).store[key].body.status == ManualReview
  {
    hide RunFrom;
    var a := RecordBurn(key, intent, hash);
    var s := Run(BRIDGE, a);
    var failed := CircleMessage("failed", None);
    var b := NewCallWaits(BRIDGE, s, key, 3, StatusCall(Some(failed), {}));
    var s1 := RunFrom(BRIDGE, s, b);
    var complete := CircleMessage("complete", Some(hash));
    var settled := ApplyCircleStatus(Burnt(intent, hash), complete, true, 0);
    var c := NewCallCommits(BRIDGE, s1, key, 4, StatusCall(Some(complete), {hash}), CircleJob(complete, true), settled);
    var s2 := RunFrom(BRIDGE, s1, c);
    actions := a + b + c;
    RunFromConcat(BRIDGE, Initial(), a, b);
    RunFromConcat(BRIDGE, Initial(), a + b, c);
    var step: Action<BridgeRecord, BridgeCall> := Advance(3);
    var s3 := Next(BRIDGE, s2, step);
    var rest := UndisturbedLoopCommits(BRIDGE, s3, 3, ApplyCircleStatus(settled, failed, false, 0));
    more := [step] + rest;
    StepThenRun(BRIDGE, s2, step, rest);
    RunFromConcat(BRIDGE, Initial(), actions, more);
  }
}
