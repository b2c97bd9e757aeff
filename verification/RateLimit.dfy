/** The pilot's fixed-window limiter kept in memory. Times are milliseconds; both counters are consumed by every call,
    admitted or not. */
module RateLimit {
  import opened Common

  datatype Entry = Entry(count: nat, resetAt: int)
  datatype Call = Call(now: int, tenant: string, ip: string)
  datatype Remaining = Remaining(minute: nat, daily: nat)
  datatype Window = Minute | Daily

  type Memory = map<string, Entry>

  function Limit(w: Window): nat { if w.Minute? then 20 else 100 }
  function Span(w: Window): nat { if w.Minute? then 60_000 else 86_400_000 }

  function Key(w: Window, c: Call): string {
    if w.Minute? then "minute:" + c.tenant + ":" + c.ip else "daily:" + c.tenant
  }

  lemma KeysDiffer(c: Call, c': Call)
    ensures Key(Minute, c) != Key(Daily, c')
  {
    assert Key(Minute, c)[0] == 'm' && Key(Daily, c')[0] == 'd';
  }

  /** The entry a call leaves under a key: a new one once the old window has run out. */
  function Charged(m: Memory, key: string, span: nat, now: int): Entry {
    if key in m && now < m[key].resetAt then Entry(m[key].count + 1, m[key].resetAt) else Entry(1, now + span)
  }

  function Step(m: Memory, c: Call): Memory {
    var m1 := m[Key(Minute, c) := Charged(m, Key(Minute, c), Span(Minute), c.now)];
    m1[Key(Daily, c) := Charged(m1, Key(Daily, c), Span(Daily), c.now)]
  }

  /** Both counters, after being charged, are within their limits. */
  predicate Admits(m: Memory, c: Call) {
    && Step(m, c)[Key(Minute, c)].count <= Limit(Minute)
    && Step(m, c)[Key(Daily, c)].count <= Limit(Daily)
  }

  class PilotRateLimiter {
    var memory: Memory

    constructor ()
      ensures memory == map[]
    {
      memory := map[];
    }

    method Consume(key: string, limit: nat, span: nat, now: int) returns (allowed: bool, remaining: nat, resetAt: int)
      modifies this`memory
      ensures memory == old(memory)[key := Charged(old(memory), key, span, now)]
      ensures resetAt == memory[key].resetAt > now || span == 0
      ensures allowed <==> memory[key].count <= limit
      ensures allowed ==> remaining + memory[key].count == limit
      ensures !allowed ==> remaining == 0
    {
      var entry := if key in memory then memory[key] else Entry(0, now);
      if entry.resetAt <= now { entry := Entry(0, now + span); }
      entry := entry.(count := entry.count + 1);
      memory := memory[key := entry];
      return entry.count <= limit, if limit < entry.count then 0 else limit - entry.count, entry.resetAt;
    }

    /** A refusal carries the time to retry after. */
    method EnforceMemory(c: Call) returns (r: Result<Remaining, int>)
      modifies this`memory
      ensures memory == Step(old(memory), c)
      ensures r.Ok? <==> Admits(old(memory), c)
      ensures r.Ok? ==> r.value.minute == Limit(Minute) - memory[Key(Minute, c)].count && r.value.daily == Limit(Daily) - memory[Key(Daily, c)].count
      ensures r.Err? ==>
                var minute, daily := memory[Key(Minute, c)].resetAt, memory[Key(Daily, c)].resetAt;
                r.error == (if minute < daily then daily else minute) > c.now
    {
      KeysDiffer(c, c);
      var minuteAllowed, minuteRemaining, minuteReset := Consume(Key(Minute, c), 20, 60_000, c.now);
      var dailyAllowed, dailyRemaining, dailyReset := Consume(Key(Daily, c), 100, 86_400_000, c.now);
      if !minuteAllowed || !dailyAllowed { return Err(if minuteReset < dailyReset then dailyReset else minuteReset); }
      return Ok(Remaining(minuteRemaining, dailyRemaining));
    }
  }

  // ---------- whose counters a call charges ----------

  /** A call changes the entries of its own tenant and of its own tenant and address, and no other. */
  lemma CallChargesItsOwnEntries(m: Memory, c: Call, key: string)
    ensures key != "daily:" + c.tenant && key != "minute:" + c.tenant + ":" + c.ip ==>
              (key in Step(m, c) <==> key in m) && (key in m ==> Step(m, c)[key] == m[key])
    ensures Charged(m, "daily:" + c.tenant, 86_400_000, c.now) == Step(m, c)["daily:" + c.tenant]
    ensures Charged(m, "minute:" + c.tenant + ":" + c.ip, 60_000, c.now) == Step(m, c)["minute:" + c.tenant + ":" + c.ip]
  {
    KeysDiffer(c, c);
  }

  /** An entry is continued while its window runs and replaced once that is over. */
  lemma ChargeIsExact(m: Memory, key: string, span: nat, now: int)
    ensures var e := Charged(m, key, span, now);
            if key in m && m[key].resetAt > now then e.count == m[key].count + 1 && e.resetAt == m[key].resetAt
            else e.count == 1 && e.resetAt - now == span
  {
  }

  /** Different tenants never share a daily counter. They share a minute counter exactly when one tenant's name goes on
      with a colon and the beginning of the other's address. */
  lemma CountersAreSharedExactly(t: string, ip: string, t': string, ip': string)
    ensures "daily:" + t == "daily:" + t' <==> t == t'
    ensures "minute:" + t + ":" + ip == "minute:" + t' + ":" + ip' <==>
              || (t == t' && ip == ip')
              || (exists x :: t' == t + ":" + x && ip == x + ":" + ip')
              || (exists x :: t == t' + ":" + x && ip' == x + ":" + ip)
  {
    StripPrefix("daily:", t, t');
    assert "minute:" + t + ":" + ip == "minute:" + (t + ":" + ip) && "minute:" + t' + ":" + ip' == "minute:" + (t' + ":" + ip');
    StripPrefix("minute:", t + ":" + ip, t' + ":" + ip');
    if t + ":" + ip == t' + ":" + ip' { SameJoin(t, ip, t', ip'); }
    if x :| t' == t + ":" + x && ip == x + ":" + ip' { assert t + ":" + (x + ":" + ip') == (t + ":" + x) + ":" + ip'; }
    if x :| t == t' + ":" + x && ip' == x + ":" + ip { assert t' + ":" + (x + ":" + ip) == (t' + ":" + x) + ":" + ip; }
  }

  lemma StripPrefix(p: string, a: string, b: string)
    ensures p + a == p + b <==> a == b
  {
    assert (p + a)[|p|..] == a && (p + b)[|p|..] == b;
  }

  lemma SameJoin(t: string, ip: string, t': string, ip': string)
    requires t + ":" + ip == t' + ":" + ip'
    ensures || (t == t' && ip == ip')
            || (exists x :: t' == t + ":" + x && ip == x + ":" + ip')
            || (exists x :: t == t' + ":" + x && ip' == x + ":" + ip)
  {
    if |t| <= |t'| { LongerTenant(t, ip, t', ip'); } else { LongerTenant(t', ip', t, ip); }
  }

  lemma LongerTenant(t: string, ip: string, t': string, ip': string)
    requires t + ":" + ip == t' + ":" + ip' && |t| <= |t'|
    ensures (t == t' && ip == ip') || exists x :: t' == t + ":" + x && ip == x + ":" + ip'
  {
    var s, s' := t + ":" + ip, t' + ":" + ip';
    assert s[..|t|] == t && s[|t| + 1..] == ip && s[|t|] == ':';
    assert s'[..|t'|] == t' && s'[|t'| + 1..] == ip' && s'[|t'|] == ':';
    if |t| < |t'| {
      var x := t'[|t| + 1..];
      assert t'[..|t|] == s[..|t|] && t'[|t|] == s[|t|];
      assert t' == t'[..|t|] + [t'[|t|]] + x;
      assert s[|t| + 1..] == x + ":" + ip';
    }
  }

  // ---------- every run ----------

  type Calls = seq<Call>

  ghost predicate TimeOrdered(run: Calls) {
    forall i, j :: 0 <= i < j < |run| ==> run[i].now <= run[j].now
  }

  function After(run: Calls): Memory {
    if run == [] then map[] else Step(After(run[..|run| - 1]), run[|run| - 1])
  }

  predicate Admitted(run: Calls, i: nat)
    requires i < |run|
  {
    Admits(After(run[..i]), run[i])
  }

  /** Call `i` finds no running window under the key and opens one. */
  predicate Opens(run: Calls, w: Window, key: string, i: nat)
    requires i < |run|
  {
    var m := After(run[..i]);
    Key(w, run[i]) == key && !(key in m && run[i].now < m[key].resetAt)
  }

  /** The calls from index `from` on that charge the key. */
  function Charges(run: Calls, w: Window, key: string, from: nat): nat {
    if |run| <= from then 0 else
    var n := |run| - 1;
    Charges(run[..n], w, key, from) + if Key(w, run[n]) == key then 1 else 0
  }

  /** The admitted calls from index `from` on under the key. */
  function AdmittedFrom(run: Calls, w: Window, key: string, from: nat): nat {
    if |run| <= from then 0 else
    var n := |run| - 1;
    AdmittedFrom(run[..n], w, key, from) + if Key(w, run[n]) == key && Admitted(run, n) then 1 else 0
  }

  /** The admitted calls under the key at times in the half-open interval starting at `s`, one span long. */
  function AdmittedDuring(run: Calls, w: Window, key: string, s: int): nat {
    if run == [] then 0 else
    var n := |run| - 1;
    AdmittedDuring(run[..n], w, key, s)
    + if Key(w, run[n]) == key && s <= run[n].now < s + Span(w) && Admitted(run, n) then 1 else 0
  }

  /** What one call does to the entry under the key of another. */
  lemma StepAt(m: Memory, c: Call, w: Window, c0: Call)
    ensures var key := Key(w, c0);
            if Key(w, c) == key then
              && key in Step(m, c) && Step(m, c)[key] == Charged(m, key, Span(w), c.now)
              && (Admits(m, c) ==> Step(m, c)[key].count <= Limit(w))
            else (key in Step(m, c) <==> key in m) && (key in m ==> Step(m, c)[key] == m[key])
  {
    KeysDiffer(c, c0);
    KeysDiffer(c0, c);
    KeysDiffer(c, c);
  }

  /** Within one window the counter is the number of calls, refused ones included, and admitted calls fit the limit. */
  ghost predicate WindowIsExact(run: Calls, w: Window, key: string, from: nat) {
    var m := After(run);
    && key in m && m[key].count == Charges(run, w, key, from)
    && AdmittedFrom(run, w, key, from) <= m[key].count
    && AdmittedFrom(run, w, key, from) <= Limit(w)
  }

  /** From the call that opens a window until the next call that opens one, the counter counts every call and at most
      the limit is admitted. */
  lemma {:induction false} EachWindowAdmitsItsLimit(run: Calls, w: Window, from: nat, c: Call)
    requires from < |run| && Opens(run, w, Key(w, c), from)
    requires forall i :: from < i < |run| ==> !Opens(run, w, Key(w, c), i)
    ensures WindowIsExact(run, w, Key(w, c), from)
    ensures AdmittedFrom(run, w, Key(w, c), from) <= if w.Minute? then 20 else 100
  {
    hide Key, Admits, Step;
    var n, key := |run| - 1, Key(w, c);
    StepAt(After(run[..n]), run[n], w, c);
    if from < n {
      forall i | from <= i < n ensures Opens(run[..n], w, key, i) == Opens(run, w, key, i) {
        assert run[..n][..i] == run[..i];
      }
      EachWindowAdmitsItsLimit(run[..n], w, from, c);
      assert WindowIsExact(run[..n], w, key, from);
      assert Key(w, run[n]) == key ==> !Opens(run, w, key, n);
      assert After(run)[key].count == Charges(run, w, key, from);
      assert AdmittedFrom(run, w, key, from) <= After(run)[key].count;
      assert AdmittedFrom(run, w, key, from) <= Limit(w);
    } else {
      assert Charges(run[..n], w, key, from) == 0;
      assert After(run)[key].count == Charges(run, w, key, from);
      assert AdmittedFrom(run, w, key, from) <= After(run)[key].count;
      assert AdmittedFrom(run, w, key, from) <= Limit(w);
    }
  }

  /** How many calls of an interval can have been admitted, given the window running under the key. */
  ghost predicate IntervalFits(m: Memory, w: Window, key: string, s: int, admitted: nat) {
    var limit := Limit(w) as int;
    if key !in m then admitted == 0 else
    var start, count := m[key].resetAt - Span(w), m[key].count as int;
    var counted := if count < limit then count else limit;
    && count >= 1
    && (if start < s then admitted <= counted - 1
        else if start < s + Span(w) then admitted <= limit - 1 + counted
        else admitted <= 2 * limit - 1)
  }

  /** The window under a key opened no later than the last call, and calls before the interval are not in it. */
  ghost predicate InOrder(run: Calls, w: Window, key: string, s: int) {
    && (key in After(run) ==> run != [] && After(run)[key].resetAt - Span(w) <= run[|run| - 1].now)
    && (run != [] && run[|run| - 1].now < s ==> AdmittedDuring(run, w, key, s) == 0)
    && (run == [] ==> AdmittedDuring(run, w, key, s) == 0)
  }

  lemma IntervalStep(m: Memory, c: Call, w: Window, s: int, admitted: nat)
    requires IntervalFits(m, w, Key(w, c), s, admitted)
    requires Key(w, c) in m ==> m[Key(w, c)].resetAt - Span(w) <= c.now
    requires c.now < s ==> admitted == 0
    ensures IntervalFits(Step(m, c), w, Key(w, c), s, admitted + if s <= c.now < s + Span(w) && Admits(m, c) then 1 else 0)
  {
    hide Key, Admits, Step;
    StepAt(m, c, w, c);
  }

  lemma {:induction false} IntervalInvariant(run: Calls, w: Window, c: Call, s: int)
    requires TimeOrdered(run)
    ensures IntervalFits(After(run), w, Key(w, c), s, AdmittedDuring(run, w, Key(w, c), s))
    ensures InOrder(run, w, Key(w, c), s)
  {
    hide Key, Admits, Step;
    var key := Key(w, c);
    if run == [] {
      assert IntervalFits(map[], w, key, s, 0);
    } else {
      var n := |run| - 1;
      IntervalInvariant(run[..n], w, c, s);
      StepAt(After(run[..n]), run[n], w, c);
      if Key(w, run[n]) == key {
        IntervalStep(After(run[..n]), run[n], w, s, AdmittedDuring(run[..n], w, key, s));
      } else {
        FitsByEntry(After(run[..n]), After(run), w, key, s, AdmittedDuring(run[..n], w, key, s));
      }
    }
  }

  lemma FitsByEntry(m: Memory, m': Memory, w: Window, key: string, s: int, admitted: nat)
    requires IntervalFits(m, w, key, s, admitted) && (key in m <==> key in m') && (key in m ==> m[key] == m'[key])
    ensures IntervalFits(m', w, key, s, admitted)
  {
  }

  /** In time-ordered calls, every half-open interval one window long admits less than twice the limit: at most 39 calls
      in 60 seconds for one tenant and address, at most 199 in 24 hours for one tenant. */
  lemma IntervalAdmitsLessThanTwiceTheLimit(run: Calls, w: Window, c: Call, s: int)
    requires TimeOrdered(run)
    ensures AdmittedDuring(run, w, Key(w, c), s) <= 2 * Limit(w) - 1
    ensures AdmittedDuring(run, Minute, Key(Minute, c), s) <= 39 && AdmittedDuring(run, Daily, Key(Daily, c), s) <= 199
  {
    hide Key;
    IntervalInvariant(run, w, c, s);
    IntervalInvariant(run, Minute, c, s);
    IntervalInvariant(run, Daily, c, s);
  }

  function Repeat(c: Call, k: nat): (r: Calls)
    ensures |r| == k && forall i :: 0 <= i < k ==> r[i] == c
  {
    if k == 0 then [] else Repeat(c, k - 1) + [c]
  }

  /** The entries a call's two keys hold. */
  ghost predicate Holds(m: Memory, c: Call, minute: Entry, daily: Entry) {
    && Key(Minute, c) in m && m[Key(Minute, c)] == minute
    && Key(Daily, c) in m && m[Key(Daily, c)] == daily
  }

  lemma OneMore(run: Calls, c: Call, minute: Entry, daily: Entry, s: int)
    requires Holds(Step(After(run), c), c, minute, daily) && minute.count <= 20 && daily.count <= 100
    ensures Holds(After(run + [c]), c, minute, daily)
    ensures AdmittedDuring(run + [c], Minute, Key(Minute, c), s)
              == AdmittedDuring(run, Minute, Key(Minute, c), s) + if s <= c.now < s + 60_000 then 1 else 0
  {
    assert (run + [c])[..|run|] == run;
  }

  lemma ChargeAgain(m: Memory, c: Call, minute: nat, minuteReset: int, daily: nat, dailyReset: int)
    requires Holds(m, c, Entry(minute, minuteReset), Entry(daily, dailyReset)) && c.now < minuteReset && c.now < dailyReset
    ensures Holds(Step(m, c), c, Entry(minute + 1, minuteReset), Entry(daily + 1, dailyReset))
  {
    KeysDiffer(c, c);
  }

  lemma {:induction false} Burst(run: Calls, c: Call, k: nat, minute: Entry, daily: Entry, s: int)
    requires Holds(After(run), c, minute, daily) && c.now < minute.resetAt && c.now < daily.resetAt
    requires minute.count + k <= 20 && daily.count + k <= 100 && s <= c.now < s + 60_000
    ensures Holds(After(run + Repeat(c, k)), c, Entry(minute.count + k, minute.resetAt), Entry(daily.count + k, daily.resetAt))
    ensures AdmittedDuring(run + Repeat(c, k), Minute, Key(Minute, c), s) == AdmittedDuring(run, Minute, Key(Minute, c), s) + k
  {
    hide Step, After, AdmittedDuring, Admits, Key;
    if k == 0 {
      assert run + [] == run;
    } else {
      Burst(run, c, k - 1, minute, daily, s);
      assert run + Repeat(c, k) == run + Repeat(c, k - 1) + [c];
      ChargeAgain(After(run + Repeat(c, k - 1)), c, minute.count + k - 1, minute.resetAt, daily.count + k - 1, daily.resetAt);
      OneMore(run + Repeat(c, k - 1), c, Entry(minute.count + k, minute.resetAt), Entry(daily.count + k, daily.resetAt), s);
    }
  }

  /** The bound is reached: a call opens a window at 0, nineteen more come at its last millisecond and twenty at the next. */
  function TwoWindows(tenant: string, ip: string): Calls {
    [Call(0, tenant, ip)] + Repeat(Call(59_999, tenant, ip), 19) + [Call(60_000, tenant, ip)] + Repeat(Call(60_000, tenant, ip), 19)
  }

  lemma ThirtyNineWithinAMinute(tenant: string, ip: string)
    ensures TimeOrdered(TwoWindows(tenant, ip))
    ensures AdmittedDuring(TwoWindows(tenant, ip), Minute, Key(Minute, Call(0, tenant, ip)), 1) == 39
  {
    hide Step, AdmittedDuring, After;
    var first, last, next := Call(0, tenant, ip), Call(59_999, tenant, ip), Call(60_000, tenant, ip);
    OpenFirst(first);
    Burst([first], last, 19, Entry(1, 60_000), Entry(1, 86_400_000), 1);
    var run := [first] + Repeat(last, 19);
    OpenNext(run, next, 60_000, 1);
    Burst(run + [next], next, 19, Entry(1, 120_000), Entry(21, 86_400_000), 1);
  }

  lemma OpenFirst(c: Call)
    requires c.now == 0
    ensures Holds(After([c]), c, Entry(1, 60_000), Entry(1, 86_400_000))
    ensures AdmittedDuring([c], Minute, Key(Minute, c), 1) == 0
  {
    KeysDiffer(c, c);
    assert [c][..0] == [];
  }

  lemma OpenNext(run: Calls, c: Call, t: nat, s: int)
    requires c.now == t && s <= t < s + 60_000 && t < 86_400_000
    requires Holds(After(run), c, Entry(20, t), Entry(20, 86_400_000))
    ensures Holds(After(run + [c]), c, Entry(1, t + 60_000), Entry(21, 86_400_000))
    ensures AdmittedDuring(run + [c], Minute, Key(Minute, c), s) == AdmittedDuring(run, Minute, Key(Minute, c), s) + 1
  {
    KeysDiffer(c, c);
    OneMore(run, c, Entry(1, t + 60_000), Entry(21, 86_400_000), s);
  }
}
