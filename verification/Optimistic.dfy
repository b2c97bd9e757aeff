/** Interleaved calls over one keyed store with versioned compare-and-swap.
    A call reads a snapshot, decides on a job, and then loops: read the record, apply the
    job's mutator, swap if the version is still the one that was read, retry otherwise.
    Every await of the original is a separate step, so any number of calls interleave freely.
    `log`, the `index`/`from` fields and `base` are history: no step depends on them.      */
module Optimistic {
  import opened Common

  const MAX_ATTEMPTS: nat := 8

  datatype Versioned<+B> = Versioned(version: nat, body: B)

  /** What a call does after looking at its snapshot; `Stop` carries the HTTP status. */
  datatype Decision<+J> = Proceed(job: J) | Stop(status: nat)

  /** A service over the store: B records, J update closures, C incoming calls. Times are milliseconds. */
  datatype Protocol<!B, !J, !C> = Protocol(
    draft: (string, B) -> bool,
    begin: (C, nat) -> Option<J>,
    decide: (C, B, nat) -> Decision<J>,
    mutate: (J, B, nat) -> Result<B, nat>)

  /** How a call came to its job: without a snapshot, or from the record written by log entry `index`. */
  datatype Reason = Immediately(at: nat) | AfterReading(index: nat, at: nat)

  datatype Entry<B, J, C> =
    | Created(key: string, after: Versioned<B>, at: nat)
    | Committed(key: string, after: Versioned<B>, at: nat, cid: nat, call: C, reason: Reason, job: J,
                computedAt: nat, before: Versioned<B>)

  datatype Loop<J, C> = Loop(call: C, reason: Reason, job: J, attempt: nat, base: nat)

  datatype Pc<B, J, C> =
    | Reading(call: C)
    | Deciding(call: C, index: nat, snapshot: Versioned<B>)
    | Looping(loop: Loop<J, C>)
    | Computing(loop: Loop<J, C>, from: nat, current: Versioned<B>)
    | Swapping(loop: Loop<J, C>, from: nat, current: Versioned<B>, computedAt: nat, next: Versioned<B>)
    | Returned(index: nat, result: Versioned<B>)
    | Refused(status: nat)
    | Contended(base: nat)

  datatype Running<B, J, C> = Running(key: string, pc: Pc<B, J, C>)

  datatype State<B, J, C> = State(
    store: map<string, Versioned<B>>,
    calls: map<nat, Running<B, J, C>>,
    clock: nat,
    log: seq<Entry<B, J, C>>)

  datatype Action<B, C> =
    | Create(key: string, body: B)
    | Call(cid: nat, newKey: string, call: C)
    | Advance(id: nat)
    | Tick(elapsed: nat)

  /** The last entry about `key` among the first n entries, or -1. */
  function Prev<B, J, C>(log: seq<Entry<B, J, C>>, n: nat, key: string): (r: int)
    requires n <= |log|
    ensures -1 <= r < n
    ensures r >= 0 ==> log[r].key == key
    ensures forall m :: r < m < n ==> log[m].key != key
  {
    if n == 0 then -1 else if log[n - 1].key == key then n - 1 else Prev(log, n - 1, key)
  }

  function LastIndex<B, J, C>(log: seq<Entry<B, J, C>>, key: string): nat {
    var k := Prev(log, |log|, key);
    if k < 0 then 0 else k
  }

  function Start<B, J, C>(p: Protocol<B, J, C>, s: State<B, J, C>, call: C): Pc<B, J, C> {
    match p.begin(call, s.clock)
    case None => Reading(call)
    case Some(job) => Looping(Loop(call, Immediately(s.clock), job, 0, 0))
  }

  /** One step of a call that does not write the store. */
  function Step<B, J, C>(p: Protocol<B, J, C>, s: State<B, J, C>, key: string, pc: Pc<B, J, C>): Pc<B, J, C> {
    match pc
    case Reading(call) =>
      if key !in s.store then Refused(404) else Deciding(call, LastIndex(s.log, key), s.store[key])
    case Deciding(call, index, snapshot) =>
      (match p.decide(call, snapshot.body, s.clock)
       case Stop(status) => Refused(status)
       case Proceed(job) => Looping(Loop(call, AfterReading(index, s.clock), job, 0, 0)))
    case Looping(loop) =>
      if key !in s.store then Refused(404) else
      var first := if loop.attempt == 0 then loop.(base := s.store[key].version) else loop;
      Computing(first, LastIndex(s.log, key), s.store[key])
    case Computing(loop, from, current) =>
      (match p.mutate(loop.job, current.body, s.clock)
       case Err(status) => Refused(status)
       case Ok(body) => Swapping(loop, from, current, s.clock, Versioned(current.version + 1, body)))
    case Swapping(loop, _, _, _, _) =>
      if key !in s.store then Refused(404)
      else if loop.attempt + 1 == MAX_ATTEMPTS then Contended(loop.base)
      else Looping(loop.(attempt := loop.attempt + 1))
    case _ => pc
  }

  predicate Commits<B, J, C>(s: State<B, J, C>, r: Running<B, J, C>) {
    r.pc.Swapping? && r.key in s.store && s.store[r.key].version == r.pc.current.version
  }

  function EntryOf<B, J, C>(s: State<B, J, C>, cid: nat, r: Running<B, J, C>): Entry<B, J, C>
    requires r.pc.Swapping?
  {
    var loop := r.pc.loop;
    Committed(r.key, r.pc.next, s.clock, cid, loop.call, loop.reason, loop.job, r.pc.computedAt, r.pc.current)
  }

  function Next<B, J, C>(p: Protocol<B, J, C>, s: State<B, J, C>, a: Action<B, C>): State<B, J, C> {
    match a
    case Create(key, body) =>
      if key in s.store || !p.draft(key, body) then s
      else s.(store := s.store[key := Versioned(1, body)], log := s.log + [Created(key, Versioned(1, body), s.clock)])
    case Call(cid, key, call) =>
      if cid in s.calls then s else s.(calls := s.calls[cid := Running(key, Start(p, s, call))])
    case Advance(cid) =>
      if cid !in s.calls then s else
      var r := s.calls[cid];
      if Commits(s, r) then
        s.(store := s.store[r.key := r.pc.next],
           calls := s.calls[cid := Running(r.key, Returned(|s.log|, r.pc.next))],
           log := s.log + [EntryOf(s, cid, r)])
      else s.(calls := s.calls[cid := Running(r.key, Step(p, s, r.key, r.pc))])
    case Tick(elapsed) => s.(clock := s.clock + elapsed)
  }

  function Initial<B, J, C>(): State<B, J, C> {
    State(map[], map[], 0, [])
  }

  function RunFrom<B, J, C>(p: Protocol<B, J, C>, s: State<B, J, C>, actions: seq<Action<B, C>>): State<B, J, C>
    decreases |actions|
  {
    if actions == [] then s else RunFrom(p, Next(p, s, actions[0]), actions[1..])
  }

  /** Any interleaving of any calls, from an empty store. */
  function Run<B, J, C>(p: Protocol<B, J, C>, actions: seq<Action<B, C>>): State<B, J, C> {
    RunFrom(p, Initial(), actions)
  }

  // ---------- what a sequential history is ----------

  /** The job really came from this call, looking at a record of this key written earlier. */
  ghost predicate Justified<B, J, C>(p: Protocol<B, J, C>, log: seq<Entry<B, J, C>>, key: string, call: C,
                                     reason: Reason, job: J, deadline: nat)
  {
    match reason
    case Immediately(at) => at <= deadline && p.begin(call, at) == Some(job)
    case AfterReading(index, at) =>
      && index < |log| && log[index].key == key && log[index].at <= at <= deadline
      && p.decide(call, log[index].after.body, at) == Proceed(job)
  }

  /** Entry i applies its mutator to exactly the record its predecessor of the same key left. */
  ghost predicate ValidEntry<B, J, C>(p: Protocol<B, J, C>, log: seq<Entry<B, J, C>>, i: nat)
    requires i < |log|
  {
    var e := log[i];
    var k := Prev(log, i, e.key);
    match e
    case Created(key, after, at) => k < 0 && after.version == 1 && p.draft(key, after.body)
    case Committed(key, after, at, cid, call, reason, job, computedAt, before) =>
      && k >= 0 && before == log[k].after && after.version == before.version + 1
      && log[k].at <= computedAt <= at
      && p.mutate(job, before.body, computedAt) == Ok(after.body)
      && Justified(p, log[..i], key, call, reason, job, computedAt)
  }

  ghost predicate ValidLog<B, J, C>(p: Protocol<B, J, C>, log: seq<Entry<B, J, C>>) {
    && (forall i :: 0 <= i < |log| ==> ValidEntry(p, log, i))
    && (forall i, j :: 0 <= i <= j < |log| ==> log[i].at <= log[j].at)
  }

  ghost predicate StoreIsLast<B, J, C>(s: State<B, J, C>) {
    forall key :: && (key in s.store <==> Prev(s.log, |s.log|, key) >= 0)
                  && (key in s.store ==> s.store[key] == s.log[Prev(s.log, |s.log|, key)].after)
  }

  ghost predicate Silent<B, J, C>(log: seq<Entry<B, J, C>>, cid: nat) {
    forall i :: 0 <= i < |log| && log[i].Committed? ==> log[i].cid != cid
  }

  ghost function LastVersion<B, J, C>(log: seq<Entry<B, J, C>>, key: string): nat {
    var k := Prev(log, |log|, key);
    if k < 0 then 0 else log[k].after.version
  }

  // ---------- the invariant of every interleaving ----------

  ghost predicate LoopOk<B, J, C>(p: Protocol<B, J, C>, log: seq<Entry<B, J, C>>, clock: nat, key: string,
                                  loop: Loop<J, C>, version: nat)
  {
    && loop.attempt < MAX_ATTEMPTS && loop.base + loop.attempt <= version
    && Justified(p, log, key, loop.call, loop.reason, loop.job, clock)
  }

  ghost predicate ReadOk<B, J, C>(log: seq<Entry<B, J, C>>, key: string, from: nat, current: Versioned<B>) {
    from < |log| && log[from].key == key && log[from].after == current
  }

  ghost predicate PcOk<B, J, C>(p: Protocol<B, J, C>, log: seq<Entry<B, J, C>>, clock: nat, cid: nat,
                                key: string, pc: Pc<B, J, C>)
  {
    && (!pc.Returned? ==> Silent(log, cid))
    && match pc
       case Reading(_) => true
       case Deciding(call, index, snapshot) => ReadOk(log, key, index, snapshot)
       case Looping(loop) => (loop.attempt > 0 ==> 0 < loop.base) && LoopOk(p, log, clock, key, loop, LastVersion(log, key))
       case Computing(loop, from, current) =>
         ReadOk(log, key, from, current) && 0 < loop.base && LoopOk(p, log, clock, key, loop, current.version)
       case Swapping(loop, from, current, computedAt, next) =>
         && ReadOk(log, key, from, current) && 0 < loop.base && LoopOk(p, log, computedAt, key, loop, current.version)
         && log[from].at <= computedAt <= clock && next.version == current.version + 1
         && p.mutate(loop.job, current.body, computedAt) == Ok(next.body)
       case Returned(index, result) =>
         && index < |log| && log[index].Committed? && log[index].cid == cid
         && log[index].key == key && log[index].after == result
         && (forall i :: 0 <= i < |log| && log[i].Committed? && log[i].cid == cid ==> i == index)
       case Refused(_) => true
       case Contended(base) => 0 < base && base + MAX_ATTEMPTS <= LastVersion(log, key)
  }

  ghost predicate Inv<B, J, C>(p: Protocol<B, J, C>, s: State<B, J, C>) {
    && ValidLog(p, s.log) && StoreIsLast(s)
    && (forall i :: 0 <= i < |s.log| ==> s.log[i].at <= s.clock)
    && (forall i :: 0 <= i < |s.log| && s.log[i].Committed? ==> s.log[i].cid in s.calls)
    && CallsOk(p, s)
  }

  ghost predicate CallsOk<B, J, C>(p: Protocol<B, J, C>, s: State<B, J, C>) {
    forall cid :: cid in s.calls ==> PcOk(p, s.log, s.clock, cid, s.calls[cid].key, s.calls[cid].pc)
  }

  lemma {:induction false} PrevOfExtension<B, J, C>(log: seq<Entry<B, J, C>>, e: Entry<B, J, C>, n: nat, key: string)
    requires n <= |log|
    ensures Prev(log + [e], n, key) == Prev(log, n, key)
  {
    if n > 0 { PrevOfExtension(log, e, n - 1, key); }
  }

  /** Versions of one key grow strictly along a valid log, so a version names one entry. */
  lemma {:induction false} VersionsIncrease<B, J, C>(p: Protocol<B, J, C>, log: seq<Entry<B, J, C>>, i: nat, j: nat)
    requires ValidLog(p, log) && i < j < |log| && log[i].key == log[j].key
    ensures log[i].after.version < log[j].after.version
    decreases j
  {
    assert ValidEntry(p, log, j);
    var k := Prev(log, j, log[j].key);
    if i < k { VersionsIncrease(p, log, i, k); }
  }

  lemma LastVersionGrows<B, J, C>(p: Protocol<B, J, C>, log: seq<Entry<B, J, C>>, i: nat)
    requires ValidLog(p, log) && i < |log|
    ensures log[i].after.version <= LastVersion(log, log[i].key)
    ensures log[i].after.version == LastVersion(log, log[i].key) ==> Prev(log, |log|, log[i].key) == i
  {
    var k := Prev(log, |log|, log[i].key);
    if i < k { VersionsIncrease(p, log, i, k); }
  }

  lemma JustifiedLater<B, J, C>(p: Protocol<B, J, C>, log: seq<Entry<B, J, C>>, more: seq<Entry<B, J, C>>,
                                key: string, call: C, reason: Reason, job: J, d: nat, d': nat)
    requires Justified(p, log, key, call, reason, job, d) && log <= more && d <= d'
    ensures Justified(p, more, key, call, reason, job, d')
  {
  }

  lemma ExtendLog<B, J, C>(p: Protocol<B, J, C>, log: seq<Entry<B, J, C>>, e: Entry<B, J, C>)
    requires ValidLog(p, log) && ValidEntry(p, log + [e], |log|)
    requires forall i :: 0 <= i < |log| ==> log[i].at <= e.at
    ensures ValidLog(p, log + [e])
  {
    var more := log + [e];
    forall i | 0 <= i < |log| ensures ValidEntry(p, more, i) {
      assert ValidEntry(p, log, i);
      PrevOfExtension(log, e, i, log[i].key);
      assert more[..i] == log[..i];
    }
  }

  lemma LastOfExtension<B, J, C>(log: seq<Entry<B, J, C>>, e: Entry<B, J, C>, key: string)
    ensures Prev(log + [e], |log| + 1, key) == if key == e.key then |log| else Prev(log, |log|, key)
  {
    PrevOfExtension(log, e, |log|, key);
  }

  /** What a suspended call relies on survives any other call's commit and any passage of time. */
  lemma PcOkSurvives<B, J, C>(p: Protocol<B, J, C>, log: seq<Entry<B, J, C>>, e: Entry<B, J, C>, clock: nat, cid: nat,
                              key: string, pc: Pc<B, J, C>)
    requires PcOk(p, log, clock, cid, key, pc)
    requires e.Committed? ==> e.cid != cid
    requires e.key == key ==> LastVersion(log, key) <= e.after.version
    ensures PcOk(p, log + [e], clock, cid, key, pc)
  {
    LastOfExtension(log, e, key);
    assert log <= log + [e];
    if pc.Looping? || pc.Computing? || pc.Swapping? {
      var d := if pc.Swapping? then pc.computedAt else clock;
      JustifiedLater(p, log, log + [e], key, pc.loop.call, pc.loop.reason, pc.loop.job, d, d);
    }
  }

  lemma PcOkLater<B, J, C>(p: Protocol<B, J, C>, log: seq<Entry<B, J, C>>, clock: nat, later: nat, cid: nat,
                           key: string, pc: Pc<B, J, C>)
    requires PcOk(p, log, clock, cid, key, pc) && clock <= later
    ensures PcOk(p, log, later, cid, key, pc)
  {
    if pc.Looping? || pc.Computing? {
      JustifiedLater(p, log, log, key, pc.loop.call, pc.loop.reason, pc.loop.job, clock, later);
    }
  }

  lemma StoreFollowsLog<B, J, C>(s: State<B, J, C>, s': State<B, J, C>, e: Entry<B, J, C>)
    requires StoreIsLast(s) && s'.log == s.log + [e] && s'.store == s.store[e.key := e.after]
    ensures StoreIsLast(s')
  {
    forall key { LastOfExtension(s.log, e, key); }
  }

  /** The store, the log and the bookkeeping of one appended entry; only the entry's own call moves. */
  ghost predicate Appends<B, J, C>(s: State<B, J, C>, s': State<B, J, C>, e: Entry<B, J, C>) {
    && e.at == s.clock == s'.clock && s'.log == s.log + [e] && s'.store == s.store[e.key := e.after]
    && s'.calls.Keys == s.calls.Keys
    && (forall c :: c in s.calls && !(e.Committed? && e.cid == c) ==> s'.calls[c] == s.calls[c])
    && (e.Committed? ==> e.cid in s.calls && s'.calls[e.cid] == Running(e.key, Returned(|s.log|, e.after)))
  }

  lemma AppendKeepsCalls<B, J, C>(p: Protocol<B, J, C>, s: State<B, J, C>, s': State<B, J, C>, e: Entry<B, J, C>)
    requires CallsOk(p, s) && Appends(s, s', e) && LastVersion(s.log, e.key) <= e.after.version
    requires e.Committed? ==> Silent(s.log, e.cid)
    ensures CallsOk(p, s')
  {
    forall c | c in s'.calls ensures PcOk(p, s'.log, s'.clock, c, s'.calls[c].key, s'.calls[c].pc) {
      if !(e.Committed? && e.cid == c) {
        PcOkSurvives(p, s.log, e, s.clock, c, s.calls[c].key, s.calls[c].pc);
      }
    }
  }

  lemma AppendKeepsInv<B, J, C>(p: Protocol<B, J, C>, s: State<B, J, C>, s': State<B, J, C>, e: Entry<B, J, C>)
    requires Inv(p, s) && Appends(s, s', e) && ValidEntry(p, s'.log, |s.log|)
    requires e.Committed? ==> Silent(s.log, e.cid)
    ensures Inv(p, s')
  {
    hide ValidEntry, ValidLog, StoreIsLast, CallsOk, LastVersion, Silent;
    ExtendLog(p, s.log, e);
    StoreFollowsLog(s, s', e);
    NewVersionIsNotOlder(p, s.log, e);
    AppendKeepsCalls(p, s, s', e);
  }

  lemma NewVersionIsNotOlder<B, J, C>(p: Protocol<B, J, C>, log: seq<Entry<B, J, C>>, e: Entry<B, J, C>)
    requires ValidEntry(p, log + [e], |log|)
    ensures LastVersion(log, e.key) <= e.after.version
  {
    PrevOfExtension(log, e, |log|, e.key);
  }

  lemma CommitIsValid<B, J, C>(p: Protocol<B, J, C>, s: State<B, J, C>, cid: nat)
    requires Inv(p, s) && cid in s.calls && Commits(s, s.calls[cid])
    ensures ValidEntry(p, s.log + [EntryOf(s, cid, s.calls[cid])], |s.log|)
  {
    var r := s.calls[cid];
    var e := EntryOf(s, cid, r);
    assert PcOk(p, s.log, s.clock, cid, r.key, r.pc);
    LastVersionGrows(p, s.log, r.pc.from);
    PrevOfExtension(s.log, e, |s.log|, r.key);
    assert (s.log + [e])[..|s.log|] == s.log;
  }

  /** A stored record changes in a step exactly when a call on it swaps successfully. */
  lemma OnlyCommitsMoveRecords<B, J, C>(p: Protocol<B, J, C>, s: State<B, J, C>, key: string, a: Action<B, C>)
    requires Inv(p, s) && key in s.store
    ensures key in Next(p, s, a).store
    ensures Next(p, s, a).store[key] != s.store[key] <==>
              a.Advance? && a.id in s.calls && s.calls[a.id].key == key && Commits(s, s.calls[a.id])
  {
    if a.Advance? && a.id in s.calls && Commits(s, s.calls[a.id]) {
      CommitAppliesToTheStoredRecord(p, s, a.id);
    }
  }

  /** A call on a record that is not there is refused with 404, wherever it looks. */
  lemma AbsentRecordsAreRefused<B, J, C>(p: Protocol<B, J, C>, s: State<B, J, C>, key: string, pc: Pc<B, J, C>)
    requires key !in s.store && (pc.Reading? || pc.Looping? || pc.Swapping?)
    ensures Step(p, s, key, pc) == Refused(404)
  {
  }

  /** What one step can do to one call: start it, advance it, or nothing. */
  lemma StepOfOneCall<B, J, C>(p: Protocol<B, J, C>, s: State<B, J, C>, a: Action<B, C>, cid: nat)
    ensures var s' := Next(p, s, a);
            && (cid in s.calls ==> cid in s'.calls && s'.calls[cid].key == s.calls[cid].key)
            && (cid in s.calls && !(a.Advance? && a.id == cid) ==> s'.calls[cid] == s.calls[cid])
            && (cid in s.calls && a.Advance? && a.id == cid ==>
                  s'.calls[cid].pc == if Commits(s, s.calls[cid]) then Returned(|s.log|, s.calls[cid].pc.next)
                                      else Step(p, s, s.calls[cid].key, s.calls[cid].pc))
            && (cid !in s.calls && cid in s'.calls ==> a.Call? && s'.calls[cid].pc == Start(p, s, a.call))
  {
  }

  lemma SwapFailureKeepsPcOk<B, J, C>(p: Protocol<B, J, C>, s: State<B, J, C>, cid: nat, key: string, pc: Pc<B, J, C>)
    requires ValidLog(p, s.log) && StoreIsLast(s) && PcOk(p, s.log, s.clock, cid, key, pc)
    requires pc.Swapping? && !Commits(s, Running(key, pc))
    ensures PcOk(p, s.log, s.clock, cid, key, Step(p, s, key, pc))
  {
    LastVersionGrows(p, s.log, pc.from);
    JustifiedLater(p, s.log, s.log, key, pc.loop.call, pc.loop.reason, pc.loop.job, pc.computedAt, s.clock);
  }

  lemma ReadKeepsPcOk<B, J, C>(p: Protocol<B, J, C>, s: State<B, J, C>, cid: nat, key: string, pc: Pc<B, J, C>)
    requires ValidLog(p, s.log) && StoreIsLast(s) && PcOk(p, s.log, s.clock, cid, key, pc)
    requires pc.Reading? || pc.Looping?
    ensures PcOk(p, s.log, s.clock, cid, key, Step(p, s, key, pc))
  {
    if key in s.store { assert ValidEntry(p, s.log, Prev(s.log, |s.log|, key)); }
  }

  /** Every commit applies its mutator to the record that is in the store at that moment. */
  lemma CommitAppliesToTheStoredRecord<B, J, C>(p: Protocol<B, J, C>, s: State<B, J, C>, cid: nat)
    requires Inv(p, s) && cid in s.calls && Commits(s, s.calls[cid])
    ensures var pc := s.calls[cid].pc;
            && pc.current == s.store[s.calls[cid].key] && pc.next.version == pc.current.version + 1
            && p.mutate(pc.loop.job, pc.current.body, pc.computedAt) == Ok(pc.next.body)
  {
    assert PcOk(p, s.log, s.clock, cid, s.calls[cid].key, s.calls[cid].pc);
    LastVersionGrows(p, s.log, s.calls[cid].pc.from);
  }

  lemma StepKeepsPcOk<B, J, C>(p: Protocol<B, J, C>, s: State<B, J, C>, cid: nat)
    requires Inv(p, s) && cid in s.calls && !Commits(s, s.calls[cid])
    ensures var r := s.calls[cid]; PcOk(p, s.log, s.clock, cid, r.key, Step(p, s, r.key, r.pc))
  {
    var r := s.calls[cid];
    assert PcOk(p, s.log, s.clock, cid, r.key, r.pc);
    if r.pc.Swapping? {
      SwapFailureKeepsPcOk(p, s, cid, r.key, r.pc);
    } else if r.pc.Reading? || r.pc.Looping? {
      ReadKeepsPcOk(p, s, cid, r.key, r.pc);
    }
  }

  lemma CreateKeepsInv<B, J, C>(p: Protocol<B, J, C>, s: State<B, J, C>, key: string, body: B)
    requires Inv(p, s)
    ensures Inv(p, Next(p, s, Create(key, body)))
  {
    if key !in s.store && p.draft(key, body) {
      var e: Entry<B, J, C> := Created(key, Versioned(1, body), s.clock);
      PrevOfExtension(s.log, e, |s.log|, key);
      AppendKeepsInv(p, s, Next(p, s, Create(key, body)), e);
    }
  }

  lemma CallKeepsInv<B, J, C>(p: Protocol<B, J, C>, s: State<B, J, C>, cid: nat, key: string, call: C)
    requires Inv(p, s)
    ensures Inv(p, Next(p, s, Call(cid, key, call)))
  {
    if cid !in s.calls {
      var pc := Start(p, s, call);
      assert PcOk(p, s.log, s.clock, cid, key, pc);
      var s' := Next(p, s, Call(cid, key, call));
      assert s'.calls[cid] == Running(key, pc);
    }
  }

  lemma StoreStaysLast<B, J, C>(s: State<B, J, C>, s': State<B, J, C>)
    requires StoreIsLast(s) && s'.log == s.log && s'.store == s.store
    ensures StoreIsLast(s')
  {
  }

  lemma AdvanceKeepsInv<B, J, C>(p: Protocol<B, J, C>, s: State<B, J, C>, cid: nat)
    requires Inv(p, s)
    ensures Inv(p, Next(p, s, Advance(cid)))
  {
    hide ValidEntry, ValidLog, StoreIsLast, Justified, Step;
    if cid in s.calls {
      var s' := Next(p, s, Advance(cid));
      if Commits(s, s.calls[cid]) {
        CommitIsValid(p, s, cid);
        assert PcOk(p, s.log, s.clock, cid, s.calls[cid].key, s.calls[cid].pc);
        AppendKeepsInv(p, s, s', EntryOf(s, cid, s.calls[cid]));
      } else {
        StepKeepsPcOk(p, s, cid);
        StoreStaysLast(s, s');
      }
    }
  }

  lemma TickKeepsInv<B, J, C>(p: Protocol<B, J, C>, s: State<B, J, C>, elapsed: nat)
    requires Inv(p, s)
    ensures Inv(p, Next(p, s, Tick(elapsed)))
  {
    forall c | c in s.calls ensures PcOk(p, s.log, s.clock + elapsed, c, s.calls[c].key, s.calls[c].pc) {
      PcOkLater(p, s.log, s.clock, s.clock + elapsed, c, s.calls[c].key, s.calls[c].pc);
    }
  }

  lemma NextKeepsInv<B, J, C>(p: Protocol<B, J, C>, s: State<B, J, C>, a: Action<B, C>)
    requires Inv(p, s)
    ensures Inv(p, Next(p, s, a))
  {
    match a
    case Create(key, body) => CreateKeepsInv(p, s, key, body);
    case Call(cid, key, call) => CallKeepsInv(p, s, cid, key, call);
    case Advance(cid) => AdvanceKeepsInv(p, s, cid);
    case Tick(elapsed) => TickKeepsInv(p, s, elapsed);
  }

  lemma {:induction false} RunFromKeepsInv<B, J, C>(p: Protocol<B, J, C>, s: State<B, J, C>, actions: seq<Action<B, C>>)
    requires Inv(p, s)
    ensures Inv(p, RunFrom(p, s, actions))
    decreases |actions|
  {
    if actions != [] {
      NextKeepsInv(p, s, actions[0]);
      RunFromKeepsInv(p, Next(p, s, actions[0]), actions[1..]);
    }
  }

  lemma RunKeepsInv<B, J, C>(p: Protocol<B, J, C>, actions: seq<Action<B, C>>)
    ensures Inv(p, Run(p, actions))
  {
    assert Inv(p, Initial());
    RunFromKeepsInv(p, Initial(), actions);
  }

  lemma {:induction false} RunFromConcat<B, J, C>(p: Protocol<B, J, C>, s: State<B, J, C>, a: seq<Action<B, C>>, b: seq<Action<B, C>>)
    ensures RunFrom(p, s, a + b) == RunFrom(p, RunFrom(p, s, a), b)
    decreases |a|
  {
    if a == [] {
      assert a + b == b;
    } else {
      assert (a + b)[1..] == a[1..] + b;
      RunFromConcat(p, Next(p, s, a[0]), a[1..], b);
    }
  }

  // ---------- main results ----------

  /** Every interleaving is a sequential history: the log is valid and the store holds its last entries. */
  lemma EveryRunIsSequential<B, J, C>(p: Protocol<B, J, C>, actions: seq<Action<B, C>>)
    ensures ValidLog(p, Run(p, actions).log) && StoreIsLast(Run(p, actions))
  {
    RunKeepsInv(p, actions);
  }

  /** A call that returns a record committed exactly that record, exactly once;
      a call that is refused, still running or out of attempts has committed nothing. */
  lemma CallsCommitWhatTheyReturn<B, J, C>(p: Protocol<B, J, C>, actions: seq<Action<B, C>>, cid: nat)
    requires cid in Run(p, actions).calls
    ensures var s := Run(p, actions); var pc := s.calls[cid].pc;
            forall i :: 0 <= i < |s.log| && s.log[i].Committed? && s.log[i].cid == cid ==>
              pc.Returned? && i == pc.index && s.log[i].after == pc.result
    ensures var s := Run(p, actions); var pc := s.calls[cid].pc;
            pc.Returned? ==> pc.index < |s.log| && s.log[pc.index].Committed? && s.log[pc.index].cid == cid
  {
    RunKeepsInv(p, actions);
    var s := Run(p, actions);
    assert PcOk(p, s.log, s.clock, cid, s.calls[cid].key, s.calls[cid].pc);
  }

  lemma {:induction false} EveryVersionWasCommitted<B, J, C>(p: Protocol<B, J, C>, log: seq<Entry<B, J, C>>, k: nat, v: nat)
      returns (i: nat)
    requires ValidLog(p, log) && k < |log| && 1 < v <= log[k].after.version
    ensures i <= k && log[i].Committed? && log[i].key == log[k].key && log[i].after.version == v
    decreases k
  {
    assert ValidEntry(p, log, k);
    if log[k].after.version == v {
      i := k;
    } else {
      i := EveryVersionWasCommitted(p, log, Prev(log, k, log[k].key), v);
    }
  }

  /** The 409 of the retry loop: since the loop began at version `base`, at least eight commits by other
      calls reached the record, one for each of the versions base+1 .. base+8. */
  lemma ContentionMeansEightForeignCommits<B, J, C>(p: Protocol<B, J, C>, actions: seq<Action<B, C>>, cid: nat, n: nat)
      returns (i: nat)
    requires var s := Run(p, actions);
             cid in s.calls && s.calls[cid].pc.Contended? && 1 <= n <= MAX_ATTEMPTS
    ensures var s := Run(p, actions);
            && i < |s.log| && s.log[i].Committed? && s.log[i].cid != cid && s.log[i].key == s.calls[cid].key
            && s.log[i].after.version == s.calls[cid].pc.base + n
  {
    RunKeepsInv(p, actions);
    var s := Run(p, actions);
    var key := s.calls[cid].key;
    assert PcOk(p, s.log, s.clock, cid, key, s.calls[cid].pc);
    i := EveryVersionWasCommitted(p, s.log, Prev(s.log, |s.log|, key), s.calls[cid].pc.base + n);
  }

  // ---------- every call ends ----------

  predicate Over<B, J, C>(pc: Pc<B, J, C>) { pc.Returned? || pc.Refused? || pc.Contended? }

  /** How many of its own steps a call can still take. */
  ghost function StepsLeft<B, J, C>(pc: Pc<B, J, C>): int {
    match pc
    case Reading(_) => 3 * MAX_ATTEMPTS + 2
    case Deciding(_, _, _) => 3 * MAX_ATTEMPTS + 1
    case Looping(loop) => 3 * (MAX_ATTEMPTS - loop.attempt)
    case Computing(loop, _, _) => 3 * (MAX_ATTEMPTS - loop.attempt) - 1
    case Swapping(loop, _, _, _, _) => 3 * (MAX_ATTEMPTS - loop.attempt) - 2
    case _ => 0
  }

  function OwnSteps<B, C>(actions: seq<Action<B, C>>, cid: nat): nat {
    if actions == [] then 0 else (if actions[0].Advance? && actions[0].id == cid then 1 else 0) + OwnSteps(actions[1..], cid)
  }

  lemma StepComesCloser<B, J, C>(p: Protocol<B, J, C>, s: State<B, J, C>, key: string, pc: Pc<B, J, C>)
    requires !Over(pc) && (pc.Looping? || pc.Computing? || pc.Swapping? ==> pc.loop.attempt < MAX_ATTEMPTS)
    ensures StepsLeft(Step(p, s, key, pc)) < StepsLeft(pc)
  {
  }

  lemma OwnStepComesCloser<B, J, C>(p: Protocol<B, J, C>, s: State<B, J, C>, cid: nat)
    requires Inv(p, s) && cid in s.calls && !Over(s.calls[cid].pc)
    ensures cid in Next(p, s, Advance(cid)).calls && StepsLeft(Next(p, s, Advance(cid)).calls[cid].pc) < StepsLeft(s.calls[cid].pc)
  {
    hide Inv, Next, Step;
    AttemptsAreBounded(p, s, cid);
    StepOfOneCall(p, s, Advance(cid), cid);
    StepComesCloser(p, s, s.calls[cid].key, s.calls[cid].pc);
  }

  lemma {:induction false} StepsRunOut<B, J, C>(p: Protocol<B, J, C>, s: State<B, J, C>, actions: seq<Action<B, C>>, cid: nat)
    requires Inv(p, s) && cid in s.calls && OwnSteps(actions, cid) >= StepsLeft(s.calls[cid].pc)
    ensures cid in RunFrom(p, s, actions).calls && Over(RunFrom(p, s, actions).calls[cid].pc)
    decreases |actions|
  {
    AttemptsAreBounded(p, s, cid);
    hide Inv, Next, StepsLeft;
    if actions == [] {
      assert RunFrom(p, s, actions) == s;
      NothingLeftMeansOver(p, s, cid);
    } else {
      NextKeepsInv(p, s, actions[0]);
      OneStepLess(p, s, actions[0], cid);
      OverMeansNothingLeft(s.calls[cid].pc);
      StepsRunOut(p, Next(p, s, actions[0]), actions[1..], cid);
    }
  }

  lemma OverMeansNothingLeft<B, J, C>(pc: Pc<B, J, C>)
    ensures Over(pc) ==> StepsLeft(pc) == 0
  {
  }

  lemma NothingLeftMeansOver<B, J, C>(p: Protocol<B, J, C>, s: State<B, J, C>, cid: nat)
    requires Inv(p, s) && cid in s.calls && StepsLeft(s.calls[cid].pc) <= 0
    ensures Over(s.calls[cid].pc)
  {
    AttemptsAreBounded(p, s, cid);
    hide Inv;
  }

  lemma OneStepLess<B, J, C>(p: Protocol<B, J, C>, s: State<B, J, C>, a: Action<B, C>, cid: nat)
    requires Inv(p, s) && cid in s.calls
    ensures var own := a.Advance? && a.id == cid;
            && cid in Next(p, s, a).calls
            && StepsLeft(Next(p, s, a).calls[cid].pc)
                 <= (if own && !Over(s.calls[cid].pc) then StepsLeft(s.calls[cid].pc) - 1 else StepsLeft(s.calls[cid].pc))
  {
    StepOfOneCall(p, s, a, cid);
    if a.Advance? && a.id == cid && !Over(s.calls[cid].pc) { OwnStepComesCloser(p, s, cid); }
  }

  /** Whatever the others do, a call ends within 26 of its own steps: two to look and decide, three for each of eight attempts. */
  lemma EveryCallEnds<B, J, C>(p: Protocol<B, J, C>, actions: seq<Action<B, C>>, more: seq<Action<B, C>>, cid: nat)
    requires cid in Run(p, actions).calls && OwnSteps(more, cid) >= 26
    ensures cid in Run(p, actions + more).calls && Over(Run(p, actions + more).calls[cid].pc)
  {
    var s := Run(p, actions);
    RunKeepsInv(p, actions);
    AttemptsAreBounded(p, s, cid);
    RunFromConcat(p, Initial(), actions, more);
    hide Inv, Run, RunFrom;
    StepsRunOut(p, s, more, cid);
  }

  // ---------- calls left alone ----------

  /** s with request `key` taken to `body` by call `cid`, nothing else having moved. */
  ghost predicate CommittedAlone<B, J, C>(s: State<B, J, C>, s': State<B, J, C>, cid: nat, key: string, body: B) {
    && key in s.store && s'.store == s.store[key := Versioned(s.store[key].version + 1, body)]
    && cid in s'.calls && s'.calls == s.calls[cid := s'.calls[cid]] && s'.calls[cid].pc.Returned? && s'.clock == s.clock
  }

  /** A call that has just been made commits if it decides to and nobody interferes. */
  lemma UndisturbedCallCommits<B, J, C>(p: Protocol<B, J, C>, s: State<B, J, C>, cid: nat, job: J, body: B)
      returns (steps: seq<Action<B, C>>)
    requires cid in s.calls && s.calls[cid].pc.Reading? && s.calls[cid].key in s.store
    requires p.decide(s.calls[cid].pc.call, s.store[s.calls[cid].key].body, s.clock) == Proceed(job)
    requires p.mutate(job, s.store[s.calls[cid].key].body, s.clock) == Ok(body)
    ensures CommittedAlone(s, RunFrom(p, s, steps), cid, s.calls[cid].key, body)
  {
    var step: Action<B, C> := Advance(cid);
    var s2 := Next(p, Next(p, s, step), step);
    var rest := UndisturbedLoopCommits(p, s2, cid, body);
    steps := [step] + ([step] + rest);
    StepThenRun(p, s, step, [step] + rest);
    StepThenRun(p, Next(p, s, step), step, rest);
  }

  /** A call at the head of its retry loop commits on its first attempt if nobody interferes. */
  lemma UndisturbedLoopCommits<B, J, C>(p: Protocol<B, J, C>, s: State<B, J, C>, cid: nat, body: B)
      returns (steps: seq<Action<B, C>>)
    requires cid in s.calls && s.calls[cid].pc.Looping? && s.calls[cid].key in s.store
    requires p.mutate(s.calls[cid].pc.loop.job, s.store[s.calls[cid].key].body, s.clock) == Ok(body)
    ensures CommittedAlone(s, RunFrom(p, s, steps), cid, s.calls[cid].key, body)
  {
    var step: Action<B, C> := Advance(cid);
    var s1 := Next(p, s, step);
    var s2 := Next(p, s1, step);
    var s3 := Next(p, s2, step);
    steps := [step, step, step];
    RunOfThree(p, s, step);
  }

  /** A call whose loop still has a swap that can succeed. */
  ghost predicate CanSwap<B, J, C>(s: State<B, J, C>, cid: nat) {
    && cid in s.calls && s.calls[cid].key in s.store
    && match s.calls[cid].pc
       case Looping(_) => true
       case Computing(loop, _, current) => current == s.store[s.calls[cid].key] || loop.attempt + 1 < MAX_ATTEMPTS
       case Swapping(loop, _, current, _, _) => current == s.store[s.calls[cid].key] || loop.attempt + 1 < MAX_ATTEMPTS
       case _ => false
  }

  ghost predicate Accepts<B, J, C>(p: Protocol<B, J, C>, job: J, body: B) {
    forall t :: p.mutate(job, body, t).Ok?
  }

  /** The record of `key` replaced by what the job makes of it at time t, and no other. */
  ghost predicate AppliedAlone<B, J, C>(p: Protocol<B, J, C>, s: State<B, J, C>, s': State<B, J, C>, key: string, job: J, t: nat) {
    && key in s.store && p.mutate(job, s.store[key].body, t).Ok?
    && s'.store == s.store[key := Versioned(s.store[key].version + 1, p.mutate(job, s.store[key].body, t).value)]
  }

  lemma LoopingCanCommit<B, J, C>(p: Protocol<B, J, C>, s: State<B, J, C>, cid: nat, key: string, job: J)
      returns (steps: seq<Action<B, C>>)
    requires cid in s.calls && s.calls[cid].key == key && key in s.store
    requires s.calls[cid].pc.Looping? && s.calls[cid].pc.loop.job == job && Accepts(p, job, s.store[key].body)
    ensures AppliedAlone(p, s, RunFrom(p, s, steps), key, job, s.clock)
  {
    assert p.mutate(job, s.store[key].body, s.clock).Ok?;
    steps := UndisturbedLoopCommits(p, s, cid, p.mutate(job, s.store[key].body, s.clock).value);
  }

  lemma SwappingCanCommit<B, J, C>(p: Protocol<B, J, C>, s: State<B, J, C>, cid: nat, key: string, job: J)
      returns (steps: seq<Action<B, C>>, t: nat)
    requires Inv(p, s) && CanSwap(s, cid) && s.calls[cid].key == key
    requires s.calls[cid].pc.Swapping? && s.calls[cid].pc.loop.job == job && Accepts(p, job, s.store[key].body)
    ensures AppliedAlone(p, s, RunFrom(p, s, steps), key, job, t)
  {
    hide Inv, Step;
    var step: Action<B, C> := Advance(cid);
    if Commits(s, s.calls[cid]) {
      CommitAppliesToTheStoredRecord(p, s, cid);
      steps, t := [step], s.calls[cid].pc.computedAt;
      RunOfOne(p, s, step);
    } else {
      StaleSwapLoops(p, s, cid);
      var rest := LoopingCanCommit(p, Next(p, s, step), cid, key, job);
      steps, t := [step] + rest, s.clock;
      StepThenRun(p, s, step, rest);
    }
  }

  lemma StaleSwapLoops<B, J, C>(p: Protocol<B, J, C>, s: State<B, J, C>, cid: nat)
    requires CanSwap(s, cid) && s.calls[cid].pc.Swapping? && !Commits(s, s.calls[cid])
    ensures var s' := Next(p, s, Advance(cid));
            && s'.store == s.store && s'.clock == s.clock && cid in s'.calls && s'.calls[cid].key == s.calls[cid].key
            && s'.calls[cid].pc.Looping? && s'.calls[cid].pc.loop.job == s.calls[cid].pc.loop.job
  {
  }

  lemma ComputingSwaps<B, J, C>(p: Protocol<B, J, C>, s: State<B, J, C>, cid: nat)
    requires CanSwap(s, cid) && s.calls[cid].pc.Computing? && Accepts(p, s.calls[cid].pc.loop.job, s.calls[cid].pc.current.body)
    ensures var s' := Next(p, s, Advance(cid));
            && s'.store == s.store && CanSwap(s', cid) && s'.calls[cid].key == s.calls[cid].key
            && s'.calls[cid].pc.Swapping? && s'.calls[cid].pc.loop.job == s.calls[cid].pc.loop.job
  {
    assert p.mutate(s.calls[cid].pc.loop.job, s.calls[cid].pc.current.body, s.clock).Ok?;
  }

  /** A job that accepts the stored record commits on it if its call can still swap and nobody interferes. */
  lemma LoopCanCommit<B, J, C>(p: Protocol<B, J, C>, s: State<B, J, C>, cid: nat, key: string, job: J)
      returns (steps: seq<Action<B, C>>, t: nat)
    requires Inv(p, s) && CanSwap(s, cid) && s.calls[cid].key == key && s.calls[cid].pc.loop.job == job
    requires Accepts(p, job, s.store[key].body)
    requires s.calls[cid].pc.Computing? ==> Accepts(p, job, s.calls[cid].pc.current.body)
    ensures AppliedAlone(p, s, RunFrom(p, s, steps), key, job, t)
  {
    hide Inv, Next, Accepts;
    var step: Action<B, C> := Advance(cid);
    if s.calls[cid].pc.Looping? {
      steps := LoopingCanCommit(p, s, cid, key, job);
      t := s.clock;
    } else if s.calls[cid].pc.Swapping? {
      steps, t := SwappingCanCommit(p, s, cid, key, job);
    } else {
      ComputingSwaps(p, s, cid);
      NextKeepsInv(p, s, step);
      var rest;
      rest, t := SwappingCanCommit(p, Next(p, s, step), cid, key, job);
      steps := [step] + rest;
      StepThenRun(p, s, step, rest);
    }
  }

  lemma AttemptsAreBounded<B, J, C>(p: Protocol<B, J, C>, s: State<B, J, C>, cid: nat)
    requires Inv(p, s) && cid in s.calls
    ensures var pc := s.calls[cid].pc; pc.Looping? || pc.Computing? || pc.Swapping? ==> pc.loop.attempt < MAX_ATTEMPTS
  {
    assert PcOk(p, s.log, s.clock, cid, s.calls[cid].key, s.calls[cid].pc);
  }

  lemma AdvanceWithoutCommit<B, J, C>(p: Protocol<B, J, C>, s: State<B, J, C>, cid: nat)
    requires cid in s.calls && !Commits(s, s.calls[cid])
    ensures Next(p, s, Advance(cid)) == s.(calls := s.calls[cid := Running(s.calls[cid].key, Step(p, s, s.calls[cid].key, s.calls[cid].pc))])
  {
  }

  /** A call that cannot swap any more cannot swap after another call's step either. */
  lemma NoSwapArises<B, J, C>(p: Protocol<B, J, C>, s: State<B, J, C>, a: Action<B, C>, cid: nat)
    requires Inv(p, s) && cid in s.calls && s.calls[cid].key in s.store && !(a.Advance? && a.id == cid)
    ensures CanSwap(Next(p, s, a), cid) ==> CanSwap(s, cid)
  {
    var key, pc := s.calls[cid].key, s.calls[cid].pc;
    StepOfOneCall(p, s, a, cid);
    StepMovesForward(p, s, key, a);
    if pc.Computing? || pc.Swapping? {
      assert PcOk(p, s.log, s.clock, cid, key, pc);
      LastVersionGrows(p, s.log, pc.from);
    }
    hide Inv, Next;
  }

  lemma ClockMovesForward<B, J, C>(p: Protocol<B, J, C>, s: State<B, J, C>, a: Action<B, C>)
    ensures s.clock <= Next(p, s, a).clock
  {
  }

  lemma CommitStoresTheSwap<B, J, C>(p: Protocol<B, J, C>, s: State<B, J, C>, cid: nat)
    requires cid in s.calls && Commits(s, s.calls[cid])
    ensures Next(p, s, Advance(cid)).store == s.store[s.calls[cid].key := s.calls[cid].pc.next]
  {
  }

  lemma StepThenRun<B, J, C>(p: Protocol<B, J, C>, s: State<B, J, C>, x: Action<B, C>, rest: seq<Action<B, C>>)
    ensures RunFrom(p, s, [x] + rest) == RunFrom(p, Next(p, s, x), rest)
  {
    assert ([x] + rest)[1..] == rest;
  }

  lemma RunOfOne<B, J, C>(p: Protocol<B, J, C>, s: State<B, J, C>, x: Action<B, C>)
    ensures RunFrom(p, s, [x]) == Next(p, s, x)
  {
    assert [x][1..] == [];
    assert RunFrom(p, Next(p, s, x), []) == Next(p, s, x);
  }

  /** A record that is not the same any more has a higher version. */
  lemma {:induction false} RecordsMoveForward<B, J, C>(p: Protocol<B, J, C>, s: State<B, J, C>, key: string, more: seq<Action<B, C>>)
    requires Inv(p, s) && key in s.store
    ensures key in RunFrom(p, s, more).store
    ensures RunFrom(p, s, more).store[key] == s.store[key] || RunFrom(p, s, more).store[key].version > s.store[key].version
    decreases |more|
  {
    if more != [] {
      StepMovesForward(p, s, key, more[0]);
      NextKeepsInv(p, s, more[0]);
      hide Inv, Next;
      RecordsMoveForward(p, Next(p, s, more[0]), key, more[1..]);
    }
  }

  lemma StepMovesForward<B, J, C>(p: Protocol<B, J, C>, s: State<B, J, C>, key: string, a: Action<B, C>)
    requires Inv(p, s) && key in s.store
    ensures var s' := Next(p, s, a); key in s'.store && (s'.store[key] == s.store[key] || s'.store[key].version == s.store[key].version + 1)
  {
    OnlyCommitsMoveRecords(p, s, key, a);
    hide Inv, Step;
    if Next(p, s, a).store[key] != s.store[key] { CommitAppliesToTheStoredRecord(p, s, a.id); }
  }

  /** A new call that is left alone commits. */
  lemma NewCallCommits<B, J, C>(p: Protocol<B, J, C>, s: State<B, J, C>, key: string, cid: nat, call: C, job: J, body: B)
      returns (steps: seq<Action<B, C>>)
    requires key in s.store && cid !in s.calls
    requires if p.begin(call, s.clock).Some? then p.begin(call, s.clock) == Some(job)
             else p.decide(call, s.store[key].body, s.clock) == Proceed(job)
    requires p.mutate(job, s.store[key].body, s.clock) == Ok(body)
    ensures var s' := RunFrom(p, s, steps);
            && s'.store == s.store[key := Versioned(s.store[key].version + 1, body)] && s'.clock == s.clock
            && s'.calls.Keys == s.calls.Keys + {cid} && forall c :: c in s.calls ==> s'.calls[c] == s.calls[c]
  {
    var made: Action<B, C> := Call(cid, key, call);
    var s1 := Next(p, s, made);
    var rest;
    if p.begin(call, s.clock).Some? {
      rest := UndisturbedLoopCommits(p, s1, cid, body);
    } else {
      rest := UndisturbedCallCommits(p, s1, cid, job, body);
    }
    steps := [made] + rest;
    assert steps[1..] == rest;
  }

  /** A new call that takes its first step and is then held up. */
  lemma NewCallWaits<B, J, C>(p: Protocol<B, J, C>, s: State<B, J, C>, key: string, cid: nat, call: C)
      returns (steps: seq<Action<B, C>>)
    requires key in s.store && cid !in s.calls && p.begin(call, s.clock).None?
    ensures var s' := RunFrom(p, s, steps);
            && s'.store == s.store && s'.clock == s.clock && s'.calls.Keys == s.calls.Keys + {cid}
            && (forall c :: c in s.calls ==> s'.calls[c] == s.calls[c])
            && s'.calls[cid] == Running(key, Deciding(call, LastIndex(s.log, key), s.store[key]))
  {
    var made: Action<B, C> := Call(cid, key, call);
    var look: Action<B, C> := Advance(cid);
    steps := [made, look];
    assert steps[1..] == [look] && [look][1..] == [];
    assert RunFrom(p, Next(p, s, made), [look]) == RunFrom(p, Next(p, Next(p, s, made), look), []);
  }

  lemma RunOfThree<B, J, C>(p: Protocol<B, J, C>, s: State<B, J, C>, x: Action<B, C>)
    ensures RunFrom(p, s, [x, x, x]) == Next(p, Next(p, Next(p, s, x), x), x)
  {
    var s1 := Next(p, s, x);
    assert [x, x, x][1..] == [x, x] && [x, x][1..] == [x] && [x][1..] == [];
    assert RunFrom(p, s1, [x, x]) == RunFrom(p, Next(p, s1, x), [x]);
    assert RunFrom(p, Next(p, s1, x), [x]) == RunFrom(p, Next(p, Next(p, s1, x), x), []);
  }
}
