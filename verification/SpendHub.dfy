/** Approving payment intents against daily and monthly budgets: first with each call as one atomic step, then with the
    awaits between a call's checks and its append open to every other call. Amounts are exact integers. */
module SpendHub {
  import opened Common

  /** The first seven characters of an ISO timestamp and the three that follow. */
  datatype Date = Date(month: string, day: string)

  datatype Status = Settled | Pending | Blocked
  datatype Intent = Intent(id: string, provider: string, amount: int)
  datatype Receipt = Receipt(intentId: string, amount: int, status: Status, on: Date)
  datatype Policy = Policy(providers: seq<string>, perPaymentLimit: int, dailyLimit: int, monthlyLimit: int)

  type Receipts = seq<Receipt>

  datatype Period = Day(date: Date) | Month(month: string)

  predicate Within(p: Period, on: Date) {
    match p case Day(date) => on == date case Month(month) => on.month == month
  }

  function Limit(policy: Policy, p: Period): int { if p.Day? then policy.dailyLimit else policy.monthlyLimit }

  /** What settled receipts spent in a period. */
  function Spent(rs: Receipts, p: Period): int {
    if rs == [] then 0
    else Spent(rs[1..], p) + if rs[0].status.Settled? && Within(p, rs[0].on) then rs[0].amount else 0
  }

  /** The evaluation; `others` is the verdict of every check not about budgets. */
  predicate Allowed(policy: Policy, rs: Receipts, i: Intent, now: Date, others: bool) {
    && i.provider in policy.providers && i.amount <= policy.perPaymentLimit
    && Spent(rs, Day(now)) + i.amount <= policy.dailyLimit && Spent(rs, Month(now.month)) + i.amount <= policy.monthlyLimit
    && others
  }

  predicate HasOpenReceipt(rs: Receipts, id: string) { exists r :: r in rs && r.intentId == id && !r.status.Blocked? }

  /** Both approval routes. `outcome` is the receipt's status as the rail and the final scan leave it, or None when
      either throws. The second route goes straight to the Link wallet. */
  datatype Call =
    | Approve(intent: Intent, now: Date, others: bool, outcome: Option<Status>)
    | ApproveLink(intent: Intent, now: Date, others: bool, outcome: Option<Status>)

  predicate Appends(policy: Policy, rs: Receipts, c: Call) {
    && (c.Approve? ==> !HasOpenReceipt(rs, c.intent.id))
    && Allowed(policy, rs, c.intent, c.now, c.others) && c.outcome.Some?
  }

  function Append(rs: Receipts, c: Call): Receipts
    requires c.outcome.Some?
  {
    [Receipt(c.intent.id, c.intent.amount, c.outcome.value, c.now)] + rs
  }

  function Step(policy: Policy, rs: Receipts, c: Call): Receipts {
    if Appends(policy, rs, c) then Append(rs, c) else rs
  }

  class SpendHubService {
    const policy: Policy
    var receipts: Receipts

    constructor (policy: Policy)
      ensures this.policy == policy && receipts == []
    {
      this.policy, this.receipts := policy, [];
    }

    /** None is a refusal or a failed rail; an earlier receipt of the intent is returned again. */
    method ApproveIntent(intent: Intent, now: Date, others: bool, outcome: Option<Status>) returns (r: Option<Receipt>)
      modifies this`receipts
      ensures receipts == Step(policy, old(receipts), Approve(intent, now, others, outcome))
      ensures r.Some? <==> HasOpenReceipt(old(receipts), intent.id) || receipts != old(receipts)
      ensures r.Some? ==> r.value in receipts && r.value.intentId == intent.id
      ensures HasOpenReceipt(old(receipts), intent.id) ==> r.Some? && r.value in old(receipts) && !r.value.status.Blocked? && receipts == old(receipts)
      ensures r.Some? && !HasOpenReceipt(old(receipts), intent.id) ==>
                outcome.Some? && r.value == Receipt(intent.id, intent.amount, outcome.value, now) && receipts == [r.value] + old(receipts)
    {
      var i := 0;
      while i < |receipts|
        invariant 0 <= i <= |receipts|
        invariant forall k :: 0 <= k < i ==> receipts[k].intentId != intent.id || receipts[k].status.Blocked?
      {
        if receipts[i].intentId == intent.id && !receipts[i].status.Blocked? { return Some(receipts[i]); }
        i := i + 1;
      }
      r := Settle(intent, now, others, outcome);
    }

    method Settle(intent: Intent, now: Date, others: bool, outcome: Option<Status>) returns (r: Option<Receipt>)
      modifies this`receipts
      ensures receipts == Step(policy, old(receipts), ApproveLink(intent, now, others, outcome))
      ensures r.Some? <==> receipts != old(receipts)
      ensures r.Some? ==>
                outcome.Some? && r.value == Receipt(intent.id, intent.amount, outcome.value, now) && receipts == [r.value] + old(receipts)
    {
      if !Allowed(policy, receipts, intent, now, others) || outcome.None? { return None; }
      r := Some(Receipt(intent.id, intent.amount, outcome.value, now));
      receipts := [r.value] + receipts;
    }
  }

  // ---------- every run ----------

  function After(policy: Policy, start: Receipts, run: seq<Call>): Receipts {
    if run == [] then start else Step(policy, After(policy, start, run[..|run| - 1]), run[|run| - 1])
  }

  /** By either route, no day's or month's settled total ever passes its limit if it did not at the start. */
  lemma {:induction false} EveryRunStaysWithinLimits(policy: Policy, start: Receipts, run: seq<Call>, p: Period)
    requires Spent(start, p) <= Limit(policy, p)
    ensures Spent(After(policy, start, run), p) <= Limit(policy, p)
  {
    if run != [] {
      EveryRunStaysWithinLimits(policy, start, run[..|run| - 1], p);
      StepStaysWithinLimits(policy, After(policy, start, run[..|run| - 1]), run[|run| - 1], p);
    }
  }

  lemma StepStaysWithinLimits(policy: Policy, rs: Receipts, c: Call, p: Period)
    requires Spent(rs, p) <= Limit(policy, p)
    ensures Spent(Step(policy, rs, c), p) <= Limit(policy, p)
  {
    if Appends(policy, rs, c) {
      assert Append(rs, c)[1..] == rs;
      assert Within(p, c.now) ==> p == Day(c.now) || p == Month(c.now.month);
    }
  }

  /** A call appends a receipt exactly when its provider is allowed, its amount fits the payment limit and, on top of what
      is settled, the day's and the month's, every other check passes and the rail answers; an approval also needs
      that no earlier receipt of the intent is open. */
  lemma CallAppendsExactly(policy: Policy, rs: Receipts, c: Call)
    ensures Step(policy, rs, c) != rs <==>
              && c.intent.provider in policy.providers && c.intent.amount <= policy.perPaymentLimit
              && Spent(rs, Day(c.now)) + c.intent.amount <= policy.dailyLimit
              && Spent(rs, Month(c.now.month)) + c.intent.amount <= policy.monthlyLimit
              && c.others && c.outcome.Some?
              && (c.Approve? ==> forall r :: r in rs && r.intentId == c.intent.id ==> r.status.Blocked?)
    ensures Step(policy, rs, c) != rs ==>
              Step(policy, rs, c) == [Receipt(c.intent.id, c.intent.amount, c.outcome.value, c.now)] + rs
  {
    if Appends(policy, rs, c) { assert |Append(rs, c)| == |rs| + 1; }
  }

  /** What is settled in a period is the settled amounts of its days, whatever order they came in. */
  lemma SpentCounts(r: Receipt, rs: Receipts, on: Date)
    ensures Spent([r] + rs, Day(on)) == Spent(rs, Day(on)) + if r.status == Settled && r.on == on then r.amount else 0
    ensures Spent([r] + rs, Month(on.month)) == Spent(rs, Month(on.month)) + if r.status == Settled && r.on.month == on.month then r.amount else 0
  {
    assert ([r] + rs)[1..] == rs;
  }

  /** How many receipts of the intent are not blocked. */
  function OpenReceipts(rs: Receipts, id: string): (n: nat)
    ensures n > 0 <==> HasOpenReceipt(rs, id)
  {
    if rs == [] then 0 else
    assert rs == [rs[0]] + rs[1..];
    OpenReceipts(rs[1..], id) + if rs[0].intentId == id && !rs[0].status.Blocked? then 1 else 0
  }

  /** A second open receipt for an intent appears exactly when the Link route is taken directly for an intent that
      already has one, and passes the evaluation and the rail. */
  lemma SecondReceiptNeedsTheLinkRoute(policy: Policy, rs: Receipts, c: Call)
    ensures OpenReceipts(Step(policy, rs, c), c.intent.id) > OpenReceipts(rs, c.intent.id) >= 1 <==>
              && c.ApproveLink? && HasOpenReceipt(rs, c.intent.id) && Allowed(policy, rs, c.intent, c.now, c.others)
              && c.outcome.Some? && !c.outcome.value.Blocked?
    ensures forall id :: id != c.intent.id ==> OpenReceipts(Step(policy, rs, c), id) == OpenReceipts(rs, id)
  {
    if Appends(policy, rs, c) {
      assert Append(rs, c)[1..] == rs;
    }
  }

  /** Approvals alone give each intent at most one open receipt. */
  lemma {:induction false} ApprovalsGiveOneReceipt(policy: Policy, run: seq<Call>, id: string)
    requires forall i :: 0 <= i < |run| ==> run[i].Approve?
    ensures OpenReceipts(After(policy, [], run), id) <= 1
  {
    if run != [] {
      var n := |run| - 1;
      var before := After(policy, [], run[..n]);
      ApprovalsGiveOneReceipt(policy, run[..n], id);
      SecondReceiptNeedsTheLinkRoute(policy, before, run[n]);
      if Appends(policy, before, run[n]) {
        assert Append(before, run[n])[1..] == before;
      }
    }
  }

  /** Approved, then approved again by the Link route: two open receipts for one intent. */
  lemma LinkRouteGivesASecondReceipt(policy: Policy, i: Intent, now: Date)
    requires i.provider in policy.providers && i.amount <= policy.perPaymentLimit && 0 <= i.amount
    requires 2 * i.amount <= policy.dailyLimit && 2 * i.amount <= policy.monthlyLimit
    ensures OpenReceipts(After(policy, [], [Approve(i, now, true, Some(Settled)), ApproveLink(i, now, true, Some(Settled))]), i.id) == 2
  {
    var a, b := Approve(i, now, true, Some(Settled)), ApproveLink(i, now, true, Some(Settled));
    var receipt := Receipt(i.id, i.amount, Settled, now);
    assert [a, b][..1] == [a] && [a][..0] == [];
    assert After(policy, [], [a]) == [receipt] && [receipt][1..] == [];
    assert After(policy, [], [a, b]) == [receipt, receipt] && [receipt, receipt][1..] == [receipt];
    assert OpenReceipts([], i.id) == 0;
  }

  // ---------- interleaved ----------

  /** A call between its steps: `begun` are the receipts in which an approval looked for an earlier one, `seen` those its
      budgets were checked against. */
  datatype Pc =
    | Begun(intent: Intent, link: bool, begun: Receipts)
    | Checked(intent: Intent, link: bool, begun: Receipts, now: Date, seen: Receipts)
    | Ended

  datatype Hub = Hub(receipts: Receipts, calls: map<nat, Pc>)

  /** The three steps of a call. `on` is the receipt's own date. */
  datatype Move =
    | Begin(c: nat, intent: Intent, link: bool)
    | Check(c: nat, now: Date, others: bool)
    | Settle(c: nat, on: Date, outcome: Option<Status>)

  predicate Settles(h: Hub, m: Move) { m.Settle? && m.outcome.Some? && m.c in h.calls && h.calls[m.c].Checked? }

  function Appended(h: Hub, m: Move): Receipts
    requires Settles(h, m)
  {
    var i := h.calls[m.c].intent;
    [Receipt(i.id, i.amount, m.outcome.value, m.on)] + h.receipts
  }

  function Next(policy: Policy, h: Hub, m: Move): Hub {
    match m
    case Begin(c, i, link) =>
      if c in h.calls then h
      else h.(calls := h.calls[c := if !link && HasOpenReceipt(h.receipts, i.id) then Ended else Begun(i, link, h.receipts)])
    case Check(c, now, others) =>
      if c !in h.calls || !h.calls[c].Begun? then h else
      var pc := h.calls[c];
      h.(calls := h.calls[c := if Allowed(policy, h.receipts, pc.intent, now, others)
                               then Checked(pc.intent, pc.link, pc.begun, now, h.receipts) else Ended])
    case Settle(c, on, outcome) =>
      if c !in h.calls || !h.calls[c].Checked? then h
      else Hub(if outcome.Some? then Appended(h, m) else h.receipts, h.calls[c := Ended])
  }

  function Interleaved(policy: Policy, start: Receipts, run: seq<Move>): Hub {
    if run == [] then Hub(start, map[]) else Next(policy, Interleaved(policy, start, run[..|run| - 1]), run[|run| - 1])
  }

  /** What was appended since the receipts were these. */
  function Since(rs: Receipts, earlier: Receipts): Receipts {
    if |earlier| <= |rs| then rs[..|rs| - |earlier|] else []
  }

  predicate Later(rs: Receipts, earlier: Receipts) {
    |earlier| <= |rs| && rs == Since(rs, earlier) + earlier
  }

  /** The budget left in a period once this amount is spent on top of what a check saw. */
  function Slack(policy: Policy, seen: Receipts, amount: int, p: Period): int {
    Limit(policy, p) - Spent(seen, p) - amount
  }

  /** A call's snapshots are earlier states of the receipts, and its checks held on them. */
  ghost predicate CallFits(policy: Policy, rs: Receipts, pc: Pc) {
    match pc
    case Begun(i, link, begun) => Later(rs, begun) && (!link ==> !HasOpenReceipt(begun, i.id))
    case Checked(i, link, begun, now, seen) =>
      && Later(rs, seen) && Later(rs, begun) && (!link ==> !HasOpenReceipt(begun, i.id))
      && Slack(policy, seen, i.amount, Day(now)) >= 0 && Slack(policy, seen, i.amount, Month(now.month)) >= 0
    case Ended => true
  }

  ghost predicate Sound(policy: Policy, h: Hub) { forall c :: c in h.calls ==> CallFits(policy, h.receipts, h.calls[c]) }

  lemma LaterStays(rs: Receipts, earlier: Receipts, r: Receipt)
    requires Later(rs, earlier)
    ensures Later([r] + rs, earlier)
  {
    assert ([r] + rs)[..|rs| + 1 - |earlier|] == [r] + Since(rs, earlier);
  }

  lemma CallFitsLater(policy: Policy, rs: Receipts, r: Receipt, pc: Pc)
    requires CallFits(policy, rs, pc)
    ensures CallFits(policy, [r] + rs, pc)
  {
    hide Later, HasOpenReceipt, Slack;
    if !pc.Ended? { LaterStays(rs, pc.begun, r); }
    if pc.Checked? { LaterStays(rs, pc.seen, r); }
  }

  /** A passed check leaves slack; a call's own snapshot is where it stands. */
  lemma CheckFits(policy: Policy, rs: Receipts, pc: Pc, now: Date, others: bool)
    requires pc.Begun? && CallFits(policy, rs, pc) && Allowed(policy, rs, pc.intent, now, others)
    ensures CallFits(policy, rs, Checked(pc.intent, pc.link, pc.begun, now, rs))
  {
    hide HasOpenReceipt, Spent;
    assert rs[..0] + rs == rs;
  }

  lemma BeginFits(policy: Policy, rs: Receipts, i: Intent, link: bool)
    requires link || !HasOpenReceipt(rs, i.id)
    ensures CallFits(policy, rs, Begun(i, link, rs))
  {
    assert rs[..0] + rs == rs;
  }

  lemma NextKeepsSound(policy: Policy, h: Hub, m: Move)
    requires Sound(policy, h)
    ensures Sound(policy, Next(policy, h, m))
  {
    hide Allowed, HasOpenReceipt, CallFits;
    var h' := Next(policy, h, m);
    forall c | c in h'.calls ensures CallFits(policy, h'.receipts, h'.calls[c]) {
      if c != m.c {
        if Settles(h, m) { CallFitsLater(policy, h.receipts, Appended(h, m)[0], h.calls[c]); }
      } else {
        MoverFits(policy, h, m);
      }
    }
  }

  lemma MoverFits(policy: Policy, h: Hub, m: Move)
    requires Sound(policy, h) && m.c in Next(policy, h, m).calls
    ensures CallFits(policy, Next(policy, h, m).receipts, Next(policy, h, m).calls[m.c])
  {
    hide Allowed, HasOpenReceipt, Later, Slack;
    match m
    case Begin(c, i, link) =>
      if c !in h.calls && (link || !HasOpenReceipt(h.receipts, i.id)) { BeginFits(policy, h.receipts, i, link); }
    case Check(c, now, others) =>
      if h.calls[c].Begun? && Allowed(policy, h.receipts, h.calls[c].intent, now, others) {
        CheckFits(policy, h.receipts, h.calls[c], now, others);
      }
    case Settle(_, _, _) =>
  }

  lemma {:induction false} EveryRunIsSound(policy: Policy, start: Receipts, run: seq<Move>)
    ensures Sound(policy, Interleaved(policy, start, run))
  {
    hide Next;
    if run != [] {
      EveryRunIsSound(policy, start, run[..|run| - 1]);
      NextKeepsSound(policy, Interleaved(policy, start, run[..|run| - 1]), run[|run| - 1]);
    }
  }

  lemma {:induction false} SpentOfConcat(a: Receipts, b: Receipts, p: Period)
    ensures Spent(a + b, p) == Spent(a, p) + Spent(b, p)
  {
    if a == [] {
      assert a + b == b;
    } else {
      assert (a + b)[1..] == a[1..] + b;
      SpentOfConcat(a[1..], b, p);
    }
  }

  lemma {:induction false} OpenOfConcat(a: Receipts, b: Receipts, id: string)
    ensures OpenReceipts(a + b, id) == OpenReceipts(a, id) + OpenReceipts(b, id)
  {
    if a == [] {
      assert a + b == b;
    } else {
      assert (a + b)[1..] == a[1..] + b;
      OpenOfConcat(a[1..], b, id);
    }
  }

  /** In every interleaving, an append passes a period's limit exactly when what others settled in that period between
      the call's check and its append exceeds the slack the check left; and the check left none below zero in its own
      day and month. */
  lemma OverspendIsExactlyForeignSpending(policy: Policy, start: Receipts, run: seq<Move>, m: Move, p: Period)
    requires var h := Interleaved(policy, start, run);
             Settles(h, m) && m.outcome.value.Settled? && Within(p, m.on)
    ensures var h := Interleaved(policy, start, run);
            var pc := h.calls[m.c];
            && ((Spent(Next(policy, h, m).receipts, p) > Limit(policy, p)) <==>
                (Spent(Since(h.receipts, pc.seen), p) > Slack(policy, pc.seen, pc.intent.amount, p)))
            && (Within(p, pc.now) ==> Slack(policy, pc.seen, pc.intent.amount, p) >= 0)
  {
    hide Interleaved;
    EveryRunIsSound(policy, start, run);
    var h := Interleaved(policy, start, run);
    var pc := h.calls[m.c];
    assert CallFits(policy, h.receipts, pc);
    assert Appended(h, m)[1..] == h.receipts;
    SpentOfConcat(Since(h.receipts, pc.seen), pc.seen, p);
    assert Within(p, pc.now) ==> p == Day(pc.now) || p == Month(pc.now.month);
  }

  /** Every settlement finds nothing appended since its check, and is dated the day of its check. */
  ghost predicate Undisturbed(policy: Policy, start: Receipts, run: seq<Move>) {
    forall n :: 0 <= n < |run| ==> UndisturbedAt(policy, start, run, n)
  }

  ghost predicate UndisturbedAt(policy: Policy, start: Receipts, run: seq<Move>, n: nat)
    requires n < |run|
  {
    var h := Interleaved(policy, start, run[..n]);
    Settles(h, run[n]) ==> Since(h.receipts, h.calls[run[n].c].seen) == [] && run[n].on == h.calls[run[n].c].now
  }

  /** Without foreign appends in their windows interleaved approvals keep every day and month within its limit. */
  lemma {:induction false} UndisturbedRunsStayWithinLimits(policy: Policy, start: Receipts, run: seq<Move>, p: Period)
    requires Undisturbed(policy, start, run) && Spent(start, p) <= Limit(policy, p)
    ensures Spent(Interleaved(policy, start, run).receipts, p) <= Limit(policy, p)
  {
    hide Next;
    if run != [] {
      var n := |run| - 1;
      forall k | 0 <= k < n ensures UndisturbedAt(policy, start, run[..n], k) {
        assert run[..n][..k] == run[..k] && UndisturbedAt(policy, start, run, k);
      }
      UndisturbedRunsStayWithinLimits(policy, start, run[..n], p);
      assert UndisturbedAt(policy, start, run, n);
      var h := Interleaved(policy, start, run[..n]);
      if Settles(h, run[n]) && run[n].outcome.value.Settled? && Within(p, run[n].on) {
        OverspendIsExactlyForeignSpending(policy, start, run[..n], run[n], p);
      } else {
        OtherMovesSpendNothing(policy, h, run[n], p);
      }
    }
  }

  lemma OtherMovesSpendNothing(policy: Policy, h: Hub, m: Move, p: Period)
    requires !(Settles(h, m) && m.outcome.value.Settled? && Within(p, m.on))
    ensures Spent(Next(policy, h, m).receipts, p) == Spent(h.receipts, p)
  {
    if Settles(h, m) { assert Appended(h, m)[1..] == h.receipts; }
  }

  /** In every interleaving, an approval that leaves an open receipt gives its intent a second one exactly when others
      appended an open one for that intent since it began. */
  lemma SecondReceiptIsExactlyForeign(policy: Policy, start: Receipts, run: seq<Move>, m: Move)
    requires var h := Interleaved(policy, start, run);
             Settles(h, m) && !m.outcome.value.Blocked? && !h.calls[m.c].link
    ensures var h := Interleaved(policy, start, run);
            var id := h.calls[m.c].intent.id;
            OpenReceipts(Next(policy, h, m).receipts, id) > 1 <==> HasOpenReceipt(Since(h.receipts, h.calls[m.c].begun), id)
  {
    hide Interleaved;
    EveryRunIsSound(policy, start, run);
    var h := Interleaved(policy, start, run);
    var pc := h.calls[m.c];
    assert CallFits(policy, h.receipts, pc);
    assert Appended(h, m)[1..] == h.receipts;
    OpenOfConcat(Since(h.receipts, pc.begun), pc.begun, pc.intent.id);
  }

  /** An atomic call is its three steps with nothing in between. */
  lemma AtomicCallIsThreeSteps(policy: Policy, h: Hub, c: nat, call: Call)
    requires c !in h.calls
    ensures var h1 := Next(policy, h, Begin(c, call.intent, call.ApproveLink?));
            var h2 := Next(policy, h1, Check(c, call.now, call.others));
            var h3 := Next(policy, h2, Settle(c, call.now, call.outcome));
            h3.receipts == Step(policy, h.receipts, call)
  {
  }

  /** Two approvals of one intent that both check before either appends. */
  function TwoAtOnce(i: Intent, now: Date): seq<Move> {
    [Begin(0, i, false), Begin(1, i, false), Check(0, now, true), Check(1, now, true),
     Settle(0, now, Some(Settled)), Settle(1, now, Some(Settled))]
  }

  lemma Grows(policy: Policy, start: Receipts, run: seq<Move>, m: Move)
    ensures Interleaved(policy, start, run + [m]) == Next(policy, Interleaved(policy, start, run), m)
  {
    assert (run + [m])[..|run|] == run;
  }

  /** A run of the machine that passes every limit it was checked against: two settled receipts for one intent, and twice
      its amount spent in the day. */
  lemma InterleavedApprovalsOverspend(policy: Policy, i: Intent, now: Date)
    requires i.provider in policy.providers && i.amount <= policy.perPaymentLimit
    requires i.amount <= policy.dailyLimit < 2 * i.amount && i.amount <= policy.monthlyLimit
    ensures var rs := Interleaved(policy, [], TwoAtOnce(i, now)).receipts;
            OpenReceipts(rs, i.id) == 2 && Spent(rs, Day(now)) == 2 * i.amount > policy.dailyLimit
  {
    var run := TwoAtOnce(i, now);
    var r := Receipt(i.id, i.amount, Settled, now);
    assert Allowed(policy, [], i, now, true) && !HasOpenReceipt([], i.id);
    BothChecked(policy, i, now);
    hide Allowed, HasOpenReceipt;
    assert run == run[..4] + [run[4]] + [run[5]];
    Grows(policy, [], run[..4], run[4]);
    Grows(policy, [], run[..4] + [run[4]], run[5]);
    assert Interleaved(policy, [], run).receipts == [r, r];
    assert [r, r][1..] == [r] && [r][1..] == [] && OpenReceipts([], i.id) == 0;
  }

  lemma NothingYet(policy: Policy)
    ensures Interleaved(policy, [], []) == Hub([], map[])
  {
  }

  lemma BothChecked(policy: Policy, i: Intent, now: Date)
    requires Allowed(policy, [], i, now, true) && !HasOpenReceipt([], i.id)
    ensures Interleaved(policy, [], TwoAtOnce(i, now)[..4])
         == Hub([], map[0 := Checked(i, false, [], now, []), 1 := Checked(i, false, [], now, [])])
  {
    hide Allowed, HasOpenReceipt, Interleaved;
    var begun, checked := Begun(i, false, []), Checked(i, false, [], now, []);
    var b0, b1, c0, c1 := Begin(0, i, false), Begin(1, i, false), Check(0, now, true), Check(1, now, true);
    assert [] + [b0] == [b0] && [b0] + [b1] == [b0, b1] && [b0, b1] + [c0] == [b0, b1, c0];
    assert [b0, b1, c0] + [c1] == TwoAtOnce(i, now)[..4];
    NothingYet(policy);
    Grows(policy, [], [], b0);
    assert Interleaved(policy, [], [b0]) == Hub([], map[0 := begun]);
    Grows(policy, [], [b0], b1);
    assert Interleaved(policy, [], [b0, b1]) == Hub([], map[0 := begun, 1 := begun]);
    Grows(policy, [], [b0, b1], c0);
    assert Interleaved(policy, [], [b0, b1, c0]) == Hub([], map[0 := checked, 1 := begun]);
    Grows(policy, [], [b0, b1, c0], c1);
  }
}
