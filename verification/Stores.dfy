/** The retry loops themselves, as they run. What other callers commit meanwhile is a parameter:
    `gap[n]` lands before the read of attempt n, `window[n]` between that read and its swap. */
module Stores {
  import opened Common
  import opened Optimistic

  datatype UpdateResult<B> = Updated(record: Versioned<B>) | Rejected(status: nat) | NotFound | ChangedConcurrently

  /** The record after others have committed these bodies on it, one version each. */
  function Foreign<B>(v: Versioned<B>, bodies: seq<B>): Versioned<B> {
    if bodies == [] then v else Versioned(v.version + |bodies|, bodies[|bodies| - 1])
  }

  lemma ForeignConcat<B>(v: Versioned<B>, a: seq<B>, b: seq<B>)
    ensures Foreign(Foreign(v, a), b) == Foreign(v, a + b)
  {
    assert b == [] ==> a + b == a;
  }

  /** Everything the others commit before the read of attempt n, in order. */
  function Landed<B>(gap: seq<seq<B>>, window: seq<seq<B>>, n: nat): seq<B>
    requires n < |gap| && |window| == |gap|
  {
    if n == 0 then gap[0] else Landed(gap, window, n - 1) + window[n - 1] + gap[n]
  }

  lemma {:induction false} LandedAtLeast<B>(gap: seq<seq<B>>, window: seq<seq<B>>, n: nat)
    requires n < |gap| && |window| == |gap| && forall i :: 0 <= i < n ==> window[i] != []
    ensures |Landed(gap, window, n)| >= n
  {
    if n > 0 { LandedAtLeast(gap, window, n - 1); }
  }

  /** The record that attempt n reads. */
  function ReadAt<B>(v: Versioned<B>, gap: seq<seq<B>>, window: seq<seq<B>>, n: nat): Versioned<B>
    requires n < |gap| && |window| == |gap|
  {
    Foreign(v, Landed(gap, window, n))
  }

  /** Attempts 0 .. n-1 computed a next record and lost the swap to a foreign commit in their window. */
  ghost predicate LostBefore<B>(v: Versioned<B>, mutate: (B, nat) -> Result<B, nat>, gap: seq<seq<B>>,
                                window: seq<seq<B>>, n: nat)
    requires n <= |gap| && |window| == |gap|
  {
    forall i :: 0 <= i < n ==> window[i] != [] && mutate(ReadAt(v, gap, window, i).body, i).Ok?
  }

  /** The pilot's repository; the multichain one runs the same update loop and has no idempotency index. */
  class PilotRepository<B(==)> {
    var memory: map<string, Versioned<B>>
    var idempotency: map<string, string>
    var order: seq<string>

    constructor ()
      ensures Valid() && memory == map[] && idempotency == map[] && order == []
    {
      memory, idempotency, order := map[], map[], [];
    }

    /** The index is injective into the records, and the order lists each record once, newest first. */
    ghost predicate Valid() reads this {
      && (forall k :: k in idempotency ==> idempotency[k] in memory)
      && (forall k, l :: k in idempotency && l in idempotency && idempotency[k] == idempotency[l] ==> k == l)
      && (forall i :: 0 <= i < |order| ==> order[i] in memory)
      && (forall i, j :: 0 <= i < j < |order| ==> order[i] != order[j])
      && (forall id :: id in memory ==> id in order)
    }

    /** A second create under the same idempotency digest returns the first record and stores nothing. */
    method Create(requestId: string, index: string, body: B) returns (saved: Versioned<B>)
      requires Valid() && requestId !in memory
      modifies this
      ensures Valid()
      ensures index in old(idempotency) ==>
                saved == old(memory[idempotency[index]]) && memory == old(memory) && idempotency == old(idempotency) && order == old(order)
      ensures index !in old(idempotency) ==>
                && saved == Versioned(1, body) && memory == old(memory)[requestId := saved]
                && idempotency == old(idempotency)[index := requestId] && order == [requestId] + old(order)
    {
      if index in idempotency {
        saved := memory[idempotency[index]];
      } else {
        saved := Versioned(1, body);
        memory := memory[requestId := saved];
        idempotency := idempotency[index := requestId];
        order := [requestId] + order;
      }
    }

    method OthersCommit(key: string, bodies: seq<B>)
      requires key in memory
      modifies this`memory
      ensures memory == old(memory)[key := Foreign(old(memory)[key], bodies)]
    {
      var i := 0;
      while i < |bodies|
        invariant 0 <= i <= |bodies|
        invariant memory == old(memory)[key := Foreign(old(memory)[key], bodies[..i])]
      {
        memory := memory[key := Versioned(memory[key].version + 1, bodies[i])];
        i := i + 1;
      }
      assert bodies[..i] == bodies;
    }

    /** One pass of the loop: read, compute, swap. None means that the swap was lost. */
    method Attempt(key: string, mutate: (B, nat) -> Result<B, nat>, n: nat, gap: seq<B>, window: seq<B>)
        returns (r: Option<UpdateResult<B>>)
      requires key in memory
      modifies this`memory
      ensures var read := Foreign(old(memory)[key], gap);
        match mutate(read.body, n)
        case Err(status) => r == Some(Rejected(status)) && memory == old(memory)[key := read]
        case Ok(body) =>
          var next := Versioned(read.version + 1, body);
          if window == [] then r == Some(Updated(next)) && memory == old(memory)[key := next]
          else r == None && memory == old(memory)[key := Foreign(read, window)]
    {
      OthersCommit(key, gap);
      var current := memory[key];
      match mutate(current.body, n) {
        case Err(status) => r := Some(Rejected(status));
        case Ok(body) =>
          var next := Versioned(current.version + 1, body);
          OthersCommit(key, window);
          if memory[key].version == current.version {
            memory := memory[key := next];
            r := Some(Updated(next));
          } else {
            r := None;
          }
      }
    }

    /** `n` is the attempt that ended the loop. The committed record is the mutator applied to its immediate
        predecessor, and running out of attempts takes a foreign commit in every one of the eight windows. */
    method Update(key: string, mutate: (B, nat) -> Result<B, nat>, gap: seq<seq<B>>, window: seq<seq<B>>)
        returns (result: UpdateResult<B>, ghost n: nat)
      requires |gap| == |window| == MAX_ATTEMPTS
      modifies this`memory
      ensures key !in old(memory) ==> result.NotFound? && memory == old(memory)
      ensures key in old(memory) ==> Ended(old(memory)[key], mutate, gap, window, result, n)
      ensures key in old(memory) ==> memory == old(memory)[key := Final(old(memory)[key], gap, window, result, n)]
    {
      hide Landed, Foreign, ReadAt;
      n := 0;
      if key !in memory { return NotFound, n; }
      ghost var v := memory[key];
      var attempt := 0;
      while attempt < MAX_ATTEMPTS
        invariant 0 <= attempt <= MAX_ATTEMPTS && key in memory
        invariant LostBefore(v, mutate, gap, window, attempt)
        invariant memory == old(memory)[key := AfterAttempts(v, gap, window, attempt)]
      {
        n := attempt;
        ReadFollows(v, gap, window, attempt);
        var r := Attempt(key, mutate, attempt, gap[attempt], window[attempt]);
        if r.Some? { return r.value, n; }
        attempt := attempt + 1;
      }
      n := MAX_ATTEMPTS;
      result := ChangedConcurrently;
    }
  }

  /** The record after n lost attempts. */
  function AfterAttempts<B>(v: Versioned<B>, gap: seq<seq<B>>, window: seq<seq<B>>, n: nat): Versioned<B>
    requires n <= |gap| && |window| == |gap|
  {
    if n == 0 then v else Foreign(ReadAt(v, gap, window, n - 1), window[n - 1])
  }

  /** How the loop may end: a commit on top of what attempt n read, with nobody in between; the mutator's
      refusal of what it read; or a foreign commit in every window. */
  ghost predicate Ended<B>(v: Versioned<B>, mutate: (B, nat) -> Result<B, nat>, gap: seq<seq<B>>, window: seq<seq<B>>,
                           result: UpdateResult<B>, n: nat)
    requires |gap| == |window|
  {
    && n <= |gap| && LostBefore(v, mutate, gap, window, n)
    && match result
       case Updated(record) =>
         && n < |gap| && window[n] == [] && mutate(ReadAt(v, gap, window, n).body, n) == Ok(record.body)
         && record.version == ReadAt(v, gap, window, n).version + 1
       case Rejected(status) => n < |gap| && mutate(ReadAt(v, gap, window, n).body, n) == Err(status)
       case NotFound => false
       case ChangedConcurrently => n == |gap|
  }

  function Final<B>(v: Versioned<B>, gap: seq<seq<B>>, window: seq<seq<B>>, result: UpdateResult<B>, n: nat): Versioned<B>
    requires |gap| == |window| && n <= |gap| && (result.Rejected? ==> n < |gap|)
  {
    match result
    case Updated(record) => record
    case Rejected(_) => ReadAt(v, gap, window, n)
    case _ => AfterAttempts(v, gap, window, n)
  }

  /** A 409 after the whole budget means at least as many foreign commits as there were attempts. */
  lemma ContentionCountsForeignCommits<B>(v: Versioned<B>, mutate: (B, nat) -> Result<B, nat>, gap: seq<seq<B>>,
                                          window: seq<seq<B>>, n: nat)
    requires |gap| == |window| == MAX_ATTEMPTS && Ended(v, mutate, gap, window, ChangedConcurrently, n)
    ensures Final(v, gap, window, ChangedConcurrently, n).version >= v.version + MAX_ATTEMPTS
    ensures |Landed(gap, window, MAX_ATTEMPTS - 1)| + |window[MAX_ATTEMPTS - 1]| >= MAX_ATTEMPTS
  {
    LandedAtLeast(gap, window, MAX_ATTEMPTS - 1);
  }

  lemma ReadFollows<B>(v: Versioned<B>, gap: seq<seq<B>>, window: seq<seq<B>>, n: nat)
    requires n < |gap| && |window| == |gap|
    ensures ReadAt(v, gap, window, n) == Foreign(AfterAttempts(v, gap, window, n), gap[n])
  {
    if n > 0 {
      ForeignConcat(v, Landed(gap, window, n - 1), window[n - 1]);
      ForeignConcat(v, Landed(gap, window, n - 1) + window[n - 1], gap[n]);
    }
  }

  // ---------- compare-and-swap by value ----------

  const NULL_SENTINEL: string := "__SPENDHUB_NULL__"
  const MAX_CAS_ATTEMPTS: nat := 12

  /** What the caller's function asks for, with the already encoded text to store. */
  datatype Change<R> = Noop(result: R) | SetTo(text: string, result: R) | Delete(result: R)

  datatype AtomicResult<R> = Done(result: R) | ContentionExceeded

  function Lookup(store: map<string, string>, key: string): Option<string> {
    if key in store then Some(store[key]) else None
  }

  function Store(store: map<string, string>, key: string, value: Option<string>): map<string, string> {
    match value case Some(text) => store[key := text] case None => store - {key}
  }

  /** The expected-value argument of the script: absence travels as a sentinel. */
  function Expected(read: Option<string>): string {
    if read.None? then NULL_SENTINEL else read.value
  }

  /** The Lua script's comparison. */
  predicate ScriptAccepts(current: Option<string>, expected: string) {
    if expected == NULL_SENTINEL then current.None? else current == Some(expected)
  }

  /** The swap goes through on exactly the value that was read if and only if that value is not the sentinel text
      itself, which no JSON encoding produces. */
  lemma SwapComparesExactlyWithoutTheSentinel(read: Option<string>)
    ensures (forall current :: ScriptAccepts(current, Expected(read)) <==> current == read) <==> read != Some(NULL_SENTINEL)
  {
    if read == Some(NULL_SENTINEL) { assert ScriptAccepts(None, Expected(read)); }
  }

  /** The value after the others' writes of one interval; None is a deletion. */
  function LastOf(value: Option<string>, writes: seq<Option<string>>): Option<string> {
    if writes == [] then value else writes[|writes| - 1]
  }

  /** The value that attempt n reads. */
  function ValueAt(value: Option<string>, gap: seq<seq<Option<string>>>, window: seq<seq<Option<string>>>, n: nat): Option<string>
    requires n < |gap| && |window| == |gap|
    decreases n, 1
  {
    LastOf(ValueBefore(value, gap, window, n), gap[n])
  }

  /** The value after n lost attempts. */
  function ValueBefore(value: Option<string>, gap: seq<seq<Option<string>>>, window: seq<seq<Option<string>>>, n: nat): Option<string>
    requires n <= |gap| && |window| == |gap|
    decreases n, 0
  {
    if n == 0 then value else LastOf(ValueAt(value, gap, window, n - 1), window[n - 1])
  }

  function Written<R>(change: Change<R>): Option<string> {
    if change.SetTo? then Some(change.text) else None
  }

  /** Attempt n ended the loop: nothing was to be written, or the write replaced exactly the value it was
      computed from. */
  ghost predicate TookEffect<R>(value: Option<string>, fn: (Option<string>, nat) -> Change<R>,
                                gap: seq<seq<Option<string>>>, window: seq<seq<Option<string>>>, n: nat,
                                result: R, final: Option<string>)
    requires n < |gap| && |window| == |gap|
  {
    var read := ValueAt(value, gap, window, n);
    var change := fn(read, n);
    && result == change.result
    && (change.Noop? ==> final == read)
    && (change.SetTo? ==> final == Some(change.text))
    && (change.Delete? ==> final == None)
    && (!change.Noop? && read != Some(NULL_SENTINEL) ==> LastOf(read, window[n]) == read)
  }

  ghost predicate Blocked(value: Option<string>, gap: seq<seq<Option<string>>>, window: seq<seq<Option<string>>>, n: nat)
    requires n <= |gap| && |window| == |gap|
  {
    forall i :: 0 <= i < n ==>
      ValueAt(value, gap, window, i) == Some(NULL_SENTINEL)
      || LastOf(ValueAt(value, gap, window, i), window[i]) != ValueAt(value, gap, window, i)
  }

  /** How many writes by others fell between the read and the swap of the first n attempts. */
  function WritesIn(window: seq<seq<Option<string>>>, n: nat): nat
    requires n <= |window|
  {
    if n == 0 then 0 else WritesIn(window, n - 1) + |window[n - 1]|
  }

  /** n lost swaps mean at least n foreign writes, unless the sentinel text itself was stored. */
  lemma {:induction false} LostSwapsAreForeignWrites(value: Option<string>, gap: seq<seq<Option<string>>>,
                                                     window: seq<seq<Option<string>>>, n: nat)
    requires n <= |gap| && |window| == |gap| && Blocked(value, gap, window, n)
    requires forall i :: 0 <= i < n ==> ValueAt(value, gap, window, i) != Some(NULL_SENTINEL)
    ensures WritesIn(window, n) >= n
  {
    if n > 0 { LostSwapsAreForeignWrites(value, gap, window, n - 1); }
  }

  class AtomicRedisAdapter {
    var redis: map<string, string>

    method OthersWrite(key: string, writes: seq<Option<string>>)
      modifies this
      ensures redis == if writes == [] then old(redis) else Store(old(redis), key, writes[|writes| - 1])
    {
      var i := 0;
      while i < |writes|
        invariant 0 <= i <= |writes|
        invariant redis == if i == 0 then old(redis) else Store(old(redis), key, writes[i - 1])
      {
        redis := Store(redis, key, writes[i]);
        i := i + 1;
      }
    }

    /** One pass of the loop; None means that the script refused the swap. */
    method Attempt<R>(key: string, fn: (Option<string>, nat) -> Change<R>, n: nat,
                      gap: seq<Option<string>>, window: seq<Option<string>>)
        returns (r: Option<R>)
      modifies this
      ensures forall k :: k != key ==> Lookup(redis, k) == Lookup(old(redis), k)
      ensures var read := LastOf(Lookup(old(redis), key), gap);
        var change := fn(read, n);
        if change.Noop? then r == Some(change.result) && Lookup(redis, key) == read
        else if ScriptAccepts(LastOf(read, window), Expected(read)) then
          r == Some(change.result) && Lookup(redis, key) == if change.SetTo? then Some(change.text) else None
        else r == None && Lookup(redis, key) == LastOf(read, window)
    {
      OthersWrite(key, gap);
      var read := Lookup(redis, key);
      var change := fn(read, n);
      if change.Noop? { return Some(change.result); }
      OthersWrite(key, window);
      if ScriptAccepts(Lookup(redis, key), Expected(read)) {
        redis := Store(redis, key, Written(change));
        return Some(change.result);
      }
      r := None;
    }

    /** The result always belongs to the attempt that took effect: its function saw exactly the value that its
        write replaced. Twelve lost attempts mean twelve windows in which others changed the value, and leave what
        those others wrote. */
    method Update<R>(key: string, fn: (Option<string>, nat) -> Change<R>,
                     gap: seq<seq<Option<string>>>, window: seq<seq<Option<string>>>)
        returns (outcome: AtomicResult<R>, ghost n: nat)
      requires |gap| == |window| == MAX_CAS_ATTEMPTS
      modifies this
      ensures forall k :: k != key ==> Lookup(redis, k) == Lookup(old(redis), k)
      ensures n <= MAX_CAS_ATTEMPTS && Blocked(Lookup(old(redis), key), gap, window, n)
      ensures outcome.ContentionExceeded? ==> n == MAX_CAS_ATTEMPTS && Lookup(redis, key) == ValueBefore(Lookup(old(redis), key), gap, window, n)
      ensures outcome.Done? ==> n < MAX_CAS_ATTEMPTS && TookEffect(Lookup(old(redis), key), fn, gap, window, n, outcome.result, Lookup(redis, key))
    {
      hide Lookup, ScriptAccepts;
      n := 0;
      ghost var value := Lookup(redis, key);
      var attempt := 0;
      while attempt < MAX_CAS_ATTEMPTS
        invariant 0 <= attempt <= MAX_CAS_ATTEMPTS
        invariant Blocked(value, gap, window, attempt)
        invariant forall k :: k != key ==> Lookup(redis, k) == Lookup(old(redis), k)
        invariant Lookup(redis, key) == ValueBefore(value, gap, window, attempt)
      {
        n := attempt;
        SwapComparesExactlyWithoutTheSentinel(ValueAt(value, gap, window, attempt));
        var r := Attempt(key, fn, attempt, gap[attempt], window[attempt]);
        if r.Some? { return Done(r.value), n; }
        attempt := attempt + 1;
      }
      n := MAX_CAS_ATTEMPTS;
      outcome := ContentionExceeded;
    }
  }
}
