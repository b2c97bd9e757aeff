/** Effects that must happen at most once per record: the relayer's submission of a prepared request, the deployment for
    a passkey ceremony, and the administrator's transfer under an idempotency key. All three mark the record taken in
    one atomic step, perform the effect between awaits, and write the outcome later; the relayer's and the ceremony's
    outcome is a read followed by a write. The machine below is one record with any number of calls on it; the
    repository at the end is many records, each going its own way. */
module OneShot {
  import opened Common

  datatype Kind = Relayer | Ceremony | AdminTransfer

  datatype Status = Ready(expiresAt: int) | Taken | Preview | Settled(result: string) | Failed

  datatype Refusal = NotFound | Consumed | Expired | Replay(status: Status) | Unrecorded

  /** How a call asks for the record: the clock, and for the administrator the mode, the submit gate, and whether the
      scan lets its first report and its report of a failure pass. */
  datatype Request = Request(now: int, dryRun: bool, gateOpen: bool, reportPasses: bool, failurePasses: bool)

  /** The atomic check and mark: consumeRequest, claim, or getSorobanExecution with the record that follows it. */
  function Take(k: Kind, current: Option<Status>, q: Request): Result<Status, Refusal> {
    match k
    case Relayer =>
      if current.None? then Err(NotFound) else if !current.value.Ready? then Err(Consumed) else Ok(Taken)
    case Ceremony =>
      if current.None? then Err(NotFound)
      else if !current.value.Ready? then Err(Consumed)
      else if current.value.expiresAt <= q.now then Err(Expired)
      else Ok(Taken)
    case AdminTransfer =>
      if current.Some? then Err(Replay(current.value))
      else if q.dryRun then (if q.reportPasses then Ok(Preview) else Err(Unrecorded))
      else if q.gateOpen && q.reportPasses then Ok(Taken)
      else if q.failurePasses then Ok(Failed) else Err(Unrecorded)
  }

  // ---------- one record, many calls ----------

  /** What the code learns of an effect it has started. An error may hide that the effect happened (a confirmation that
      times out, say). The other answers come from an effect that happened: its output is blocked by the scan, no
      hash or contract id can be read from it, the report of it is blocked, or its result is read. */
  datatype Answer = Threw(happened: bool) | OutputBlocked | Unreadable | ReportBlocked | Read(result: string)

  predicate Happened(a: Answer) { a.Threw? ==> a.happened }

  datatype Pc =
    | Refused(why: Refusal)
    | Took                       // marked; before the effect
    | Running                    // awaiting the effect
    | Succeeded(result: string)  // result read, before it is kept
    | Failing                    // before the failure is read and written
    | Patching(outcome: Status)  // between that read and its write
    | Ended

  /** The last five fields record what happened: who marked the record and when; which calls started the effect; what
      they learnt; whether something failed after a result was read; and whether the last write of an outcome was
      not made. */
  datatype State = State(
    status: Option<Status>, pcs: map<nat, Pc>, expiresAt: int,
    taker: Option<(nat, int)>, effects: seq<nat>, answers: seq<Answer>, spoilt: bool, unwritten: bool)

  /** Outcomes of everything outside this code come with the move. `noted` is whether the scan passes the
      administrator's report of a failure. */
  datatype Move =
    | Create(deadline: int)
    | Ask(c: nat, q: Request)
    | Abort(c: nat, noted: bool)                  // an error before the effect
    | Begin(c: nat)
    | Return(c: nat, answer: Answer, noted: bool)
    | Store(c: nat, ok: bool, noted: bool)        // the next read or write of the store, or the relayer's receipt and reply

  function Moved(s: State, c: nat, pc: Pc): State { s.(pcs := s.pcs[c := pc]) }

  function AskStep(k: Kind, s: State, c: nat, q: Request): State {
    if c in s.pcs then s else
    match Take(k, s.status, q)
    case Err(why) => Moved(s, c, Refused(why))
    case Ok(status) => Moved(s, c, if status.Taken? then Took else Ended).(status := Some(status), taker := Some((c, q.now)))
  }

  /** The catch block: the administrator records the failure at once if its report passes, the others read first. */
  function Fail(k: Kind, s: State, c: nat, noted: bool): State {
    if !k.AdminTransfer? then Moved(s, c, Failing)
    else if noted then Moved(s, c, Ended).(status := Some(Failed))
    else Moved(s, c, Ended).(unwritten := true)
  }

  /** The administrator records a readable result in the same step. */
  function ReturnStep(k: Kind, s: State, c: nat, answer: Answer, noted: bool): State {
    var s := s.(answers := s.answers + [answer]);
    if !answer.Read? then Fail(k, s, c, noted)
    else if k.AdminTransfer? then Moved(s, c, Succeeded(answer.result)).(status := Some(Settled(answer.result)))
    else Moved(s, c, Succeeded(answer.result))
  }

  /** After a result the relayer saves a receipt and scans its reply, the ceremony reads the record to complete it, and
      the administrator awaits the save of the settled record. */
  function KeepStep(k: Kind, s: State, c: nat, r: string, ok: bool, noted: bool): State {
    match k
    case Ceremony => if ok && s.status.Some? then Moved(s, c, Patching(Settled(r))) else Moved(s, c, Ended).(unwritten := true)
    case _ => if ok then Moved(s, c, Ended) else Fail(k, s.(spoilt := true), c, noted)
  }

  function StoreStep(k: Kind, s: State, c: nat, pc: Pc, ok: bool, noted: bool): State {
    match pc
    case Succeeded(r) => KeepStep(k, s, c, r, ok, noted)
    case Failing => if ok && s.status.Some? then Moved(s, c, Patching(Failed)) else Moved(s, c, Ended).(unwritten := true)
    case Patching(outcome) => if ok then Moved(s, c, Ended).(status := Some(outcome)) else Moved(s, c, Ended).(unwritten := true)
    case _ => s
  }

  /** One step; a move whose call is elsewhere changes nothing. A claimed ceremony goes straight to its deployment. */
  function Step(k: Kind, s: State, m: Move): State {
    match m
    case Create(deadline) =>
      if k.AdminTransfer? || s.status.Some? then s else s.(status := Some(Ready(deadline)), expiresAt := deadline)
    case Ask(c, q) => AskStep(k, s, c, q)
    case Abort(c, noted) => if !k.Ceremony? && c in s.pcs && s.pcs[c].Took? then Fail(k, s, c, noted) else s
    case Begin(c) => if c in s.pcs && s.pcs[c].Took? then Moved(s, c, Running).(effects := s.effects + [c]) else s
    case Return(c, answer, noted) => if c in s.pcs && s.pcs[c].Running? then ReturnStep(k, s, c, answer, noted) else s
    case Store(c, ok, noted) => if c in s.pcs then StoreStep(k, s, c, s.pcs[c], ok, noted) else s
  }

  const START: State := State(None, map[], 0, None, [], [], false, false)

  function After(k: Kind, run: seq<Move>): State {
    if run == [] then START else Step(k, After(k, run[..|run| - 1]), run[|run| - 1])
  }

  // ---------- every run ----------

  predicate Untouched(s: State) { s.effects == [] && s.answers == [] && !s.spoilt && !s.unwritten }

  /** The effect was started once, by t, which learnt this. */
  predicate Learnt(s: State, t: nat, answer: Answer) { s.effects == [t] && s.answers == [answer] && (s.spoilt ==> answer.Read?) }

  /** Nothing was read back, or something failed afterwards. */
  predicate Unkept(s: State, t: nat) {
    || (s.effects == [] && s.answers == [] && !s.spoilt)
    || (|s.answers| == 1 && Learnt(s, t, s.answers[0]) && (s.spoilt || !s.answers[0].Read?))
  }

  predicate Kept(s: State, t: nat, r: string) { Learnt(s, t, Read(r)) && !s.spoilt }

  predicate SettledFits(k: Kind, s: State, t: nat, r: string) {
    match k
    case Relayer => false
    case Ceremony => Kept(s, t, r) && !s.unwritten
    case AdminTransfer => Learnt(s, t, Read(r)) && (s.spoilt <==> s.unwritten)
  }

  predicate KeptSomething(s: State, t: nat) { |s.answers| == 1 && s.answers[0].Read? && Kept(s, t, s.answers[0].result) }

  predicate TakenFits(k: Kind, s: State, t: nat) {
    match k
    case Relayer => if s.unwritten then Unkept(s, t) else KeptSomething(s, t)
    case Ceremony => s.unwritten && (Unkept(s, t) || KeptSomething(s, t))
    case AdminTransfer => s.unwritten && Unkept(s, t) && !s.spoilt
  }

  /** What the record of a finished call says, and when. */
  predicate FinishedFits(k: Kind, s: State, t: nat, status: Status) {
    match status
    case Ready(_) => false
    case Preview => k.AdminTransfer? && Untouched(s)
    case Settled(r) => SettledFits(k, s, t, r)
    case Failed => Unkept(s, t) && !s.unwritten
    case Taken => TakenFits(k, s, t)
  }

  predicate TakerFits(k: Kind, s: State, t: nat, pc: Pc, status: Status) {
    && (k.Ceremony? ==> !s.spoilt)
    && match pc
       case Refused(_) => false
       case Took => status.Taken? && Untouched(s)
       case Running => status.Taken? && s.effects == [t] && s.answers == [] && !s.spoilt && !s.unwritten
       case Succeeded(r) => Kept(s, t, r) && !s.unwritten && status == if k.AdminTransfer? then Settled(r) else Taken
       case Failing => !k.AdminTransfer? && status.Taken? && Unkept(s, t) && !s.unwritten
       case Patching(outcome) =>
         && !k.AdminTransfer? && status.Taken? && !s.unwritten
         && (match outcome case Settled(r) => k.Ceremony? && Kept(s, t, r) case Failed => Unkept(s, t) case _ => false)
       case Ended => FinishedFits(k, s, t, status)
  }

  /** Exactly the call that marked the record goes past the mark. */
  ghost predicate Sound(k: Kind, s: State) {
    match s.taker
    case None =>
      && Untouched(s)
      && (s.status.Some? ==> s.status.value.Ready? && s.status.value.expiresAt == s.expiresAt && !k.AdminTransfer?)
      && (forall c :: c in s.pcs ==> s.pcs[c].Refused?)
    case Some((t, at)) =>
      && s.status.Some? && t in s.pcs && TakerFits(k, s, t, s.pcs[t], s.status.value)
      && (k.Ceremony? ==> at < s.expiresAt)
      && (forall c :: c in s.pcs && c != t ==> s.pcs[c].Refused?)
  }

  lemma AskKeepsSound(k: Kind, s: State, c: nat, q: Request)
    requires Sound(k, s)
    ensures Sound(k, AskStep(k, s, c, q))
  {
  }

  lemma ReturnKeepsSound(k: Kind, s: State, c: nat, answer: Answer, noted: bool)
    requires Sound(k, s) && c in s.pcs && s.pcs[c].Running?
    ensures Sound(k, ReturnStep(k, s, c, answer, noted))
  {
  }

  lemma KeepKeepsSound(k: Kind, s: State, c: nat, ok: bool, noted: bool)
    requires Sound(k, s) && c in s.pcs && s.pcs[c].Succeeded?
    ensures Sound(k, KeepStep(k, s, c, s.pcs[c].result, ok, noted))
  {
  }

  lemma StoreKeepsSound(k: Kind, s: State, c: nat, ok: bool, noted: bool)
    requires Sound(k, s) && c in s.pcs
    ensures Sound(k, StoreStep(k, s, c, s.pcs[c], ok, noted))
  {
    hide KeepStep;
    if s.pcs[c].Succeeded? { KeepKeepsSound(k, s, c, ok, noted); }
  }

  lemma StepKeepsSound(k: Kind, s: State, m: Move)
    requires Sound(k, s)
    ensures Sound(k, Step(k, s, m))
  {
    hide AskStep, ReturnStep, StoreStep;
    match m
    case Ask(c, q) => AskKeepsSound(k, s, c, q);
    case Return(c, answer, noted) => if c in s.pcs && s.pcs[c].Running? { ReturnKeepsSound(k, s, c, answer, noted); }
    case Store(c, ok, noted) => if c in s.pcs { StoreKeepsSound(k, s, c, ok, noted); }
    case _ =>
  }

  lemma {:induction false} EveryRunIsSound(k: Kind, run: seq<Move>)
    ensures Sound(k, After(k, run))
  {
    hide Step;
    if run != [] {
      EveryRunIsSound(k, run[..|run| - 1]);
      StepKeepsSound(k, After(k, run[..|run| - 1]), run[|run| - 1]);
    }
  }

  /** In every interleaving the effect is started at most once, and only by the call that marked the record (a ceremony's
      before it expired); every other call is refused or shown the stored report. */
  lemma EffectHappensAtMostOnce(k: Kind, run: seq<Move>)
    ensures var s := After(k, run);
            && |s.effects| <= 1
            && (s.effects != [] ==> s.taker.Some? && s.effects == [s.taker.value.0] && (k.Ceremony? ==> s.taker.value.1 < s.expiresAt))
            && (forall c :: c in s.pcs && s.taker != None && c != s.taker.value.0 ==> s.pcs[c].Refused?)
  {
    EveryRunIsSound(k, run);
  }

  lemma CallsStayInStep(k: Kind, s: State, m: Move, c: nat)
    requires c in s.pcs || (m.Ask? && m.c == c)
    ensures c in Step(k, s, m).pcs
  {
    hide Take, KeepStep, Fail, StoreStep;
    match m
    case Abort(x, noted) => FailMovesOne(k, s, x, noted);
    case Return(x, answer, noted) => FailMovesOne(k, s.(answers := s.answers + [answer]), x, noted);
    case Store(x, ok, noted) => if x in s.pcs { StoreMovesOne(k, s, x, ok, noted); }
    case _ =>
  }

  lemma FailMovesOne(k: Kind, s: State, c: nat, noted: bool)
    ensures Fail(k, s, c, noted).pcs.Keys == s.pcs.Keys + {c}
  {
  }

  lemma StoreMovesOne(k: Kind, s: State, c: nat, ok: bool, noted: bool)
    requires c in s.pcs
    ensures StoreStep(k, s, c, s.pcs[c], ok, noted).pcs.Keys == s.pcs.Keys
  {
    hide Fail;
    FailMovesOne(k, s.(spoilt := true), c, noted);
  }

  lemma OnlyAsksTake(k: Kind, s: State, m: Move)
    requires !m.Ask?
    ensures Step(k, s, m).taker == s.taker
  {
    hide Take;
  }

  lemma TakerAskedInStep(k: Kind, s: State, m: Move)
    requires s.taker.None? && Step(k, s, m).taker.Some?
    ensures m.Ask? && m.c !in s.pcs && Step(k, s, m).taker == Some((m.c, m.q.now)) && Take(k, s.status, m.q).Ok?
    ensures Step(k, s, m).pcs == s.pcs[m.c := if Take(k, s.status, m.q).value.Taken? then Took else Ended]
  {
    hide Take, ReturnStep, StoreStep, Fail;
    if !m.Ask? { OnlyAsksTake(k, s, m); }
  }

  /** Finds the request by which the record was taken; if that did not leave it marked for an effect, none starts. */
  lemma {:induction false} FindTaker(k: Kind, run: seq<Move>) returns (i: nat)
    requires After(k, run).taker.Some?
    ensures i < |run| && run[i].Ask? && After(k, run).taker == Some((run[i].c, run[i].q.now))
    ensures run[i].c !in After(k, run[..i]).pcs && run[i].c in After(k, run).pcs
    ensures Take(k, After(k, run[..i]).status, run[i].q).Ok?
    ensures Take(k, After(k, run[..i]).status, run[i].q).value.Taken? || After(k, run).effects == []
    ensures Take(k, After(k, run[..i]).status, run[i].q).value.Taken? || After(k, run).pcs[run[i].c].Ended?
  {
    hide After, Take, Sound, Step;
    var n := |run| - 1;
    if run == [] { assert After(k, []).taker.None? by { NothingTaken(k); } }
    assert run == run[..n] + [run[n]];
    Grows(k, run[..n], run[n]);
    EveryRunIsSound(k, run[..n]);
    var s := After(k, run[..n]);
    if s.taker.None? {
      i := n;
      TakerAskedInStep(k, s, run[n]);
      CallsStayInStep(k, s, run[n], run[n].c);
      UntakenIsUntouched(k, s, run[n]);
    } else {
      TakerStaysInStep(k, s, run[n]);
      i := FindTaker(k, run[..n]);
      assert run[..n][..i] == run[..i];
      assert run[i] == run[..n][i];
      CallsStayInStep(k, s, run[n], run[i].c);
      if !Take(k, After(k, run[..i]).status, run[i].q).value.Taken? { EndedTakerRests(k, s, run[n]); }
    }
  }

  lemma NothingTaken(k: Kind)
    ensures After(k, []).taker.None?
  {
  }

  lemma UntakenIsUntouched(k: Kind, s: State, m: Move)
    requires Sound(k, s) && s.taker.None? && m.Ask?
    ensures Step(k, s, m).effects == []
  {
  }

  lemma EndedTakerRests(k: Kind, s: State, m: Move)
    requires Sound(k, s) && s.taker.Some? && s.pcs[s.taker.value.0].Ended?
    ensures Step(k, s, m).effects == s.effects && s.taker.value.0 in Step(k, s, m).pcs && Step(k, s, m).pcs[s.taker.value.0].Ended?
  {
  }

  lemma {:induction false} CallsStay(k: Kind, run: seq<Move>, i: nat, n: nat)
    requires i < n <= |run| && run[i].Ask?
    ensures run[i].c in After(k, run[..n]).pcs
  {
    hide After, Step;
    assert run[..n] == run[..n - 1] + [run[n - 1]];
    Grows(k, run[..n - 1], run[n - 1]);
    if i < n - 1 { CallsStay(k, run, i, n - 1); }
    CallsStayInStep(k, After(k, run[..n - 1]), run[n - 1], run[i].c);
  }

  /** Behind an effect stands the request of the very call that started it: for a record that was ready (and, for a
      ceremony, not expired), or by the administrator for a key without a report, not as a dry run, with the gate open
      and the first report passed. */
  lemma EffectWasAskedFor(k: Kind, run: seq<Move>) returns (i: nat)
    requires After(k, run).effects != []
    ensures i < |run| && run[i].Ask? && After(k, run).effects == [run[i].c] && run[i].c !in After(k, run[..i]).pcs
    ensures var before, q := After(k, run[..i]).status, run[i].q;
            match k
            case Relayer => before.Some? && before.value.Ready?
            case Ceremony => before.Some? && before.value.Ready? && q.now < before.value.expiresAt
            case AdminTransfer => before.None? && !q.dryRun && q.gateOpen && q.reportPasses
  {
    hide After;
    EveryRunIsSound(k, run);
    i := FindTaker(k, run);
    EveryRunIsSound(k, run[..i]);
  }

  /** What a new request is answered, and what it leaves. */
  lemma RequestIsAnsweredExactly(k: Kind, run: seq<Move>, c: nat, q: Request)
    requires c !in After(k, run).pcs
    ensures var before, s := After(k, run).status, After(k, run + [Ask(c, q)]);
            && c in s.pcs && s.effects == After(k, run).effects
            && match k
               case Relayer =>
                 if before.None? then s.pcs[c] == Refused(NotFound) && s.status == before
                 else if before.value.Ready? then s.pcs[c] == Took && s.status == Some(Taken)
                 else s.pcs[c] == Refused(Consumed) && s.status == before
               case Ceremony =>
                 if before.None? then s.pcs[c] == Refused(NotFound) && s.status == before
                 else if before.value.Ready? && q.now < before.value.expiresAt then s.pcs[c] == Took && s.status == Some(Taken)
                 else s.pcs[c] == Refused(if before.value.Ready? then Expired else Consumed) && s.status == before
               case AdminTransfer =>
                 if before.Some? then s.pcs[c] == Refused(Replay(before.value)) && s.status == before
                 else if !q.dryRun && q.gateOpen && q.reportPasses then s.pcs[c] == Took && s.status == Some(Taken)
                 else if q.dryRun && q.reportPasses then s.pcs[c] == Ended && s.status == Some(Preview)
                 else if !q.dryRun && q.failurePasses then s.pcs[c] == Ended && s.status == Some(Failed)
                 else s.pcs[c] == Refused(Unrecorded) && s.status == None
  {
    Grows(k, run, Ask(c, q));
    hide After;
  }

  /** A dry run, or a request at a closed gate, never starts a transfer, whatever follows. */
  lemma DryRunsAndClosedGatesSendNothing(run: seq<Move>, i: nat)
    requires i < |run| && run[i].Ask? && run[i].c !in After(AdminTransfer, run[..i]).pcs
    requires run[i].q.dryRun || !run[i].q.gateOpen
    ensures run[i].c !in After(AdminTransfer, run).effects
  {
    hide After;
    if run[i].c in After(AdminTransfer, run).effects {
      var j := EffectWasAskedFor(AdminTransfer, run);
      if j < i { CallsStay(AdminTransfer, run, j, i); } else if i < j { CallsStay(AdminTransfer, run, i, j); }
    }
  }

  /** The call that marked the record has ended after starting its effect. */
  ghost predicate Finished(k: Kind, run: seq<Move>) {
    var s := After(k, run);
    s.taker.Some? && s.taker.value.0 in s.pcs && s.pcs[s.taker.value.0].Ended? && s.effects != []
  }

  /** The record of a finished call, exactly. It is failed if and only if no result was read or something failed after
      it was, and that outcome was written; it is settled if and only if the result was read and either
      kept (never by the relayer, which leaves the record taken) or spoilt without the failure being written. */
  lemma FinishedRecordIsExact(k: Kind, run: seq<Move>)
    requires Finished(k, run)
    ensures var s := After(k, run);
            && |s.answers| == 1 && s.status.Some?
            && var a := s.answers[0];
            && (s.status.value.Failed? <==> (!a.Read? || s.spoilt) && !s.unwritten)
            && (s.status.value.Settled? <==> a.Read? && !k.Relayer? && (if k.Ceremony? then !s.unwritten else s.spoilt == s.unwritten))
            && (s.status.value.Settled? ==> s.status.value.result == a.result)
            && (s.status.value.Failed? || s.status.value.Settled? || s.status.value.Taken?)
  {
    EveryRunIsSound(k, run);
  }

  /** A finished transfer that did happen is stored as failed if and only if its output was blocked, its hash could not be
      read, its report was blocked, the runner threw all the same, or the save of the settled record failed; and the
      report of the failure was not itself blocked. */
  lemma AdminFailureIsExact(run: seq<Move>)
    requires Finished(AdminTransfer, run)
    ensures var s := After(AdminTransfer, run);
            && |s.answers| == 1
            && var a := s.answers[0];
            Happened(a) ==>
              (s.status == Some(Failed) <==>
                 (a == OutputBlocked || a == Unreadable || a == ReportBlocked || a == Threw(true) || s.spoilt) && !s.unwritten)
  {
    FinishedRecordIsExact(AdminTransfer, run);
  }

  /** A failing call, step by step. The administrator's is recorded at once if its report passes; the others stay marked
      while the record is read, and again until the failure is written; a failing read or write leaves the mark. */
  lemma FailureIsWrittenExactly(k: Kind, s: State, m: Move, noted: bool)
    requires Sound(k, s)
    requires (m.Abort? && m.c in s.pcs && s.pcs[m.c].Took? && !k.Ceremony?)
             || (m.Return? && m.c in s.pcs && s.pcs[m.c].Running? && !m.answer.Read?)
             || (m.Store? && !m.ok && m.c in s.pcs && s.pcs[m.c].Succeeded? && !k.Ceremony?)
    ensures var s1 := Step(k, s, m);
            var read, unread := Step(k, s1, Store(m.c, true, noted)), Step(k, s1, Store(m.c, false, noted));
            var written, lost := Step(k, read, Store(m.c, true, noted)), Step(k, read, Store(m.c, false, noted));
            if k.AdminTransfer? then
              s1.pcs[m.c] == Ended && s1.status == if m.noted then Some(Failed) else s.status
            else
              && s1.pcs[m.c] == Failing && s1.status == Some(Taken)
              && read.pcs[m.c] == Patching(Failed) && read.status == Some(Taken) && unread.pcs[m.c] == Ended && unread.status == Some(Taken)
              && written.pcs[m.c] == Ended && written.status == Some(Failed) && lost.pcs[m.c] == Ended && lost.status == Some(Taken)
  {
  }

  /** A succeeding call, step by step. The administrator's record settles with the result in hand; the ceremony's after a
      read and a write; the relayer's stays marked. */
  lemma SuccessIsWrittenExactly(k: Kind, s: State, c: nat, r: string, noted: bool)
    requires Sound(k, s) && c in s.pcs && s.pcs[c].Running?
    ensures var s1 := Step(k, s, Return(c, Read(r), noted));
            var s2 := Step(k, s1, Store(c, true, noted));
            var s3 := Step(k, s2, Store(c, true, noted));
            && s1.pcs[c] == Succeeded(r) && s1.status == (if k.AdminTransfer? then Some(Settled(r)) else Some(Taken))
            && (if k.Ceremony? then s2.pcs[c] == Patching(Settled(r)) && s2.status == Some(Taken) else s2.pcs[c] == Ended && s2.status == s1.status)
            && s3.pcs[c] == Ended && s3.status == (if k.Relayer? then Some(Taken) else Some(Settled(r)))
  {
  }

  /** An effect starts for the call that has marked the record, and an error before it is a failure, except in a ceremony. */
  lemma MarkedCallProceedsExactly(k: Kind, s: State, c: nat, noted: bool)
    requires Sound(k, s) && c in s.pcs && s.pcs[c].Took?
    ensures Step(k, s, Begin(c)).pcs[c] == Running && Step(k, s, Begin(c)).effects == [c] && Step(k, s, Begin(c)).status == Some(Taken)
    ensures Step(k, s, Abort(c, noted)).effects == []
    ensures Step(k, s, Abort(c, noted)).pcs[c] == if k.Ceremony? then Took else if k.Relayer? then Failing else Ended
  {
  }

  /** A stored outcome at any time: `Settled` carries what was read from the one effect, which happened; a preview started
      none; `Failed` says nothing about whether the effect happened. */
  lemma StoredOutcomeIsReal(k: Kind, run: seq<Move>)
    ensures var s := After(k, run);
            && (s.status.Some? && s.status.value.Settled? ==> |s.effects| == 1 && s.answers == [Read(s.status.value.result)] && Happened(s.answers[0]))
            && (s.status == Some(Preview) ==> s.effects == [])
            && (s.status == Some(Failed) ==> s.effects == [] || (|s.answers| == 1 && (!s.answers[0].Read? || s.spoilt)))
  {
    EveryRunIsSound(k, run);
  }

  function Rank(status: Option<Status>): nat {
    match status
    case None => 0
    case Some(Ready(_)) => 1
    case Some(Taken) => 2
    case Some(Preview) => 3
    case Some(Settled(_)) => 3
    case Some(Failed) => 4
  }

  /** A status never goes back, in particular never to ready; a settled record moves in one step exactly when it is the
      administrator's, saving it fails and the report of that passes. */
  lemma StatusAdvances(k: Kind, run: seq<Move>, m: Move)
    ensures var before, after := After(k, run).status, After(k, run + [m]).status;
            && (before == after || Rank(before) < Rank(after))
            && (before.Some? && before.value.Settled? ==>
                  (after != before <==> k.AdminTransfer? && m.Store? && !m.ok && m.noted
                                        && m.c in After(k, run).pcs && After(k, run).pcs[m.c].Succeeded?))
  {
    EveryRunIsSound(k, run);
    Grows(k, run, m);
  }

  lemma Grows(k: Kind, run: seq<Move>, m: Move)
    ensures After(k, run + [m]) == Step(k, After(k, run), m)
  {
    assert (run + [m])[..|run|] == run;
  }

  /** Once a record is taken no later call can take it, whatever happens. */
  ghost predicate SpentForGood(k: Kind, run: seq<Move>) {
    forall more: seq<Move>, q: Request :: Take(k, After(k, run + more).status, q).Err?
  }

  lemma TakerStaysInStep(k: Kind, s: State, m: Move)
    requires Sound(k, s) && s.taker.Some?
    ensures Step(k, s, m).taker == s.taker
  {
    hide TakerFits;
    if m.Ask? { assert Take(k, s.status, m.q).Err? by { TakenIsRefused(k, s, m.q); } }
  }

  lemma TakenIsRefused(k: Kind, s: State, q: Request)
    requires Sound(k, s) && s.taker.Some?
    ensures Take(k, s.status, q).Err?
  {
  }

  lemma {:induction false} TakerStays(k: Kind, run: seq<Move>, more: seq<Move>)
    requires After(k, run).taker.Some?
    ensures After(k, run + more).taker == After(k, run).taker
  {
    hide After, Sound, Step;
    if more == [] {
      assert run + more == run;
    } else {
      var n := |more| - 1;
      assert run + more == (run + more[..n]) + [more[n]];
      TakerStays(k, run, more[..n]);
      EveryRunIsSound(k, run + more[..n]);
      Grows(k, run + more[..n], more[n]);
      TakerStaysInStep(k, After(k, run + more[..n]), more[n]);
    }
  }

  lemma TakenOnceForAll(k: Kind, run: seq<Move>)
    requires After(k, run).taker.Some?
    ensures SpentForGood(k, run)
  {
    hide After, Sound, Take;
    forall more: seq<Move>, q: Request ensures Take(k, After(k, run + more).status, q).Err? {
      TakerStays(k, run, more);
      EveryRunIsSound(k, run + more);
      TakenIsRefused(k, After(k, run + more), q);
    }
  }

  // ---------- transfers that happened and are stored as failed ----------

  /** The calls and the answer of one transfer. */
  function Transfer(answer: Answer): seq<Move> {
    [Ask(0, Request(0, false, true, true, true)), Begin(0), Return(0, answer, true)]
  }

  lemma RunOfTransfer(answer: Answer)
    ensures After(AdminTransfer, Transfer(answer)).answers == [answer]
    ensures After(AdminTransfer, Transfer(answer)).status == Some(if answer.Read? then Settled(answer.result) else Failed)
    ensures After(AdminTransfer, Transfer(answer)).pcs == map[0 := if answer.Read? then Succeeded(answer.result) else Ended]
    ensures !After(AdminTransfer, Transfer(answer)).spoilt
  {
    var ask, begin, back := Ask(0, Request(0, false, true, true, true)), Begin(0), Return(0, answer, true);
    Grows(AdminTransfer, [], ask);
    Grows(AdminTransfer, [ask], begin);
    Grows(AdminTransfer, [ask, begin], back);
    assert [] + [ask] == [ask] && [ask] + [begin] == [ask, begin] && [ask, begin] + [back] == Transfer(answer);
  }

  /** No save fails, and the hash cannot be read: the transfer is stored as failed. The same goes for a blocked output, a
      blocked report and a runner that throws after the transfer. */
  lemma UnreadTransferStoredAsFailed(answer: Answer)
    requires Happened(answer) && !answer.Read?
    ensures var s := After(AdminTransfer, Transfer(answer)); s.status == Some(Failed) && s.answers == [answer] && !s.spoilt
  {
    RunOfTransfer(answer);
  }

  /** The hash is read and the save of the settled record fails. */
  lemma SuccessfulTransferStoredAsFailed(hash: string)
    ensures var s := After(AdminTransfer, Transfer(Read(hash)) + [Store(0, false, true)]);
            s.status == Some(Failed) && s.answers == [Read(hash)]
  {
    RunOfTransfer(Read(hash));
    Grows(AdminTransfer, Transfer(Read(hash)), Store(0, false, true));
  }

  // ---------- many records ----------

  function Lookup(records: map<string, Status>, id: string): Option<Status> {
    if id in records then Some(records[id]) else None
  }

  function RunAt(runs: map<string, seq<Move>>, id: string): seq<Move> { if id in runs then runs[id] else [] }

  /** Each record is where its own run of the machine has taken it. */
  ghost predicate Tracks(k: Kind, records: map<string, Status>, runs: map<string, seq<Move>>) {
    forall id :: Lookup(records, id) == After(k, RunAt(runs, id)).status
  }

  /** One move on one record leaves every other record and its run alone. */
  lemma OneRecordMoves(k: Kind, records: map<string, Status>, records': map<string, Status>, runs: map<string, seq<Move>>,
                       id: string, m: Move)
    requires Tracks(k, records, runs) && forall other :: other != id ==> Lookup(records', other) == Lookup(records, other)
    requires Lookup(records', id) == Step(k, After(k, RunAt(runs, id)), m).status
    ensures Tracks(k, records', runs[id := RunAt(runs, id) + [m]])
    ensures After(k, RunAt(runs, id) + [m]) == Step(k, After(k, RunAt(runs, id)), m)
  {
    hide Step;
    Grows(k, RunAt(runs, id), m);
    hide After;
  }

  lemma TracksAt(k: Kind, records: map<string, Status>, runs: map<string, seq<Move>>, id: string)
    requires Tracks(k, records, runs)
    ensures Lookup(records, id) == After(k, RunAt(runs, id)).status
  {
  }

  lemma CreateReadies(k: Kind, run: seq<Move>, deadline: int)
    requires !k.AdminTransfer? && After(k, run).status.None?
    ensures var s := Step(k, After(k, run), Create(deadline)); s.taker.None? && s.status == Some(Ready(deadline))
  {
    hide After;
    EveryRunIsSound(k, run);
  }

  /** The stored records. `runs` says what has happened to each, one run of the machine per id. */
  class Repository {
    const kind: Kind
    var records: map<string, Status>
    ghost var runs: map<string, seq<Move>>

    constructor (kind: Kind)
      ensures this.kind == kind && records == map[] && runs == map[] && Valid()
    {
      this.kind, records, runs := kind, map[], map[];
    }

    ghost predicate Valid()
      reads this
    {
      Tracks(kind, records, runs)
    }

    ghost function Machine(id: string): State
      reads this
    {
      After(kind, RunAt(runs, id))
    }

    /** A prepared request or a registered ceremony under a new id. */
    method Save(id: string, deadline: int)
      requires Valid() && !kind.AdminTransfer? && id !in records
      modifies this
      ensures Valid() && runs == old(runs)[id := RunAt(old(runs), id) + [Create(deadline)]]
      ensures Machine(id).taker.None? && Machine(id).status == Some(Ready(deadline))
    {
      hide After, Tracks, Sound;
      TracksAt(kind, records, runs, id);
      CreateReadies(kind, RunAt(runs, id), deadline);
      OneRecordMoves(kind, records, records[id := Ready(deadline)], runs, id, Create(deadline));
      records := records[id := Ready(deadline)];
      runs := runs[id := RunAt(runs, id) + [Create(deadline)]];
    }

    /** An accepted call has taken the record: every later call on that id is refused for good. */
    method Consume(id: string, c: nat, q: Request) returns (refusal: Option<Refusal>)
      requires Valid() && c !in Machine(id).pcs
      modifies this
      ensures Valid() && runs == old(runs)[id := RunAt(old(runs), id) + [Ask(c, q)]]
      ensures refusal.None? ==> old(Machine(id)).taker.None? && Machine(id).taker == Some((c, q.now)) && SpentForGood(kind, RunAt(runs, id))
      ensures refusal.Some? ==> c in Machine(id).pcs && Machine(id).pcs[c] == Refused(refusal.value) && records == old(records)
      ensures var before := old(Lookup(records, id));
              refusal.None? <==>
                match kind
                case Relayer => before.Some? && before.value.Ready?
                case Ceremony => before.Some? && before.value.Ready? && q.now < before.value.expiresAt
                case AdminTransfer => before.None? && (if !q.dryRun && (!q.gateOpen || !q.reportPasses) then q.failurePasses else q.reportPasses)
      ensures refusal.None? ==>
                Lookup(records, id) == Some(if !kind.AdminTransfer? then Taken else if q.dryRun then Preview
                                            else if q.gateOpen && q.reportPasses then Taken else Failed)
    {
      hide After, SpentForGood, Take;
      RequestIsAnsweredExactly(kind, RunAt(runs, id), c, q);
      EveryRunIsSound(kind, RunAt(runs, id));
      assert Lookup(records, id) == Machine(id).status;
      var taken := Take(kind, Lookup(records, id), q);
      ghost var was := runs;
      runs := runs[id := RunAt(runs, id) + [Ask(c, q)]];
      if taken.Err? {
        OneRecordMoves(kind, records, records, was, id, Ask(c, q));
        return Some(taken.error);
      }
      OneRecordMoves(kind, records, records[id := taken.value], was, id, Ask(c, q));
      UntakenBefore(kind, RunAt(was, id), q);
      records := records[id := taken.value];
      TakenOnceForAll(kind, RunAt(runs, id));
      return None;
    }

    /** The read of `markFailed`, and of `complete` after a result: it finds the record still marked by this call. */
    method ReadForOutcome(id: string, c: nat) returns (current: Option<Status>)
      requires Valid() && !kind.AdminTransfer? && c in Machine(id).pcs
      requires Machine(id).pcs[c].Failing? || (kind.Ceremony? && Machine(id).pcs[c].Succeeded?)
      modifies this`runs
      ensures Valid() && runs == old(runs)[id := RunAt(old(runs), id) + [Store(c, true, true)]]
      ensures current == Some(Taken) && c in Machine(id).pcs
      ensures Machine(id).pcs[c] == Patching(if old(Machine(id).pcs[c]).Failing? then Failed else Settled(old(Machine(id).pcs[c]).result))
    {
      hide After;
      EveryRunIsSound(kind, RunAt(runs, id));
      current := Lookup(records, id);
      assert current == Machine(id).status;
      OneRecordMoves(kind, records, records, runs, id, Store(c, true, true));
      runs := runs[id := RunAt(runs, id) + [Store(c, true, true)]];
    }

    /** The unconditional write that follows. The record still holds the mark of this call: nobody else wrote in between. */
    method WriteOutcome(id: string, c: nat, outcome: Status)
      requires Valid() && c in Machine(id).pcs && Machine(id).pcs[c] == Patching(outcome)
      modifies this
      ensures Valid() && runs == old(runs)[id := RunAt(old(runs), id) + [Store(c, true, true)]]
      ensures old(Lookup(records, id)) == Some(Taken) && records == old(records)[id := outcome]
      ensures c in Machine(id).pcs && Machine(id).pcs[c].Ended?
    {
      hide After;
      EveryRunIsSound(kind, RunAt(runs, id));
      assert Lookup(records, id) == Machine(id).status;
      OneRecordMoves(kind, records, records[id := outcome], runs, id, Store(c, true, true));
      records := records[id := outcome];
      runs := runs[id := RunAt(runs, id) + [Store(c, true, true)]];
    }
  }

  lemma UntakenBefore(k: Kind, run: seq<Move>, q: Request)
    requires Take(k, After(k, run).status, q).Ok?
    ensures After(k, run).taker.None?
  {
    hide After;
    EveryRunIsSound(k, run);
    if After(k, run).taker.Some? { TakenIsRefused(k, After(k, run), q); }
  }
}
