/** The in-memory list of most recent receipts, and how it differs from the Redis one. */
module Receipts {
  datatype Receipt = Receipt(id: string, body: string)

  const CAPACITY: nat := 100

  function Take<T>(s: seq<T>, n: nat): seq<T> { if |s| <= n then s else s[..n] }

  function Without(s: seq<Receipt>, id: string): seq<Receipt> {
    if s == [] then [] else (if s[0].id == id then [] else [s[0]]) + Without(s[1..], id)
  }

  /** 20 when none is asked for, otherwise the nearest of 1 to 20. */
  function ListLimit(limit: int): (n: nat)
    ensures 1 <= n <= 20 && (1 <= limit <= 20 ==> n == limit)
    ensures (limit == 0 || limit > 20 ==> n == 20) && (limit < 0 ==> n == 1)
  {
    var asked := if limit == 0 then 20 else limit;
    if asked < 1 then 1 else if asked < 20 then asked else 20
  }

  class ReceiptList {
    var receipts: seq<Receipt>

    constructor ()
      ensures receipts == []
    {
      receipts := [];
    }

    method SaveReceipt(r: Receipt)
      modifies this`receipts
      ensures receipts == Take([r] + Without(old(receipts), r.id), CAPACITY)
      ensures forall history :: old(receipts) == Saved(history) ==> receipts == Saved(history + [r])
    {
      receipts := Take([r] + Without(receipts, r.id), CAPACITY);
      assert forall history: seq<Receipt> :: (history + [r])[..|history|] == history;
    }

    method ListReceipts(limit: int) returns (s: seq<Receipt>)
      ensures |s| <= 20
      ensures forall history :: receipts == Saved(history) ==> s == Take(Reverse(Latest(history)), ListLimit(limit))
    {
      s := Take(receipts, ListLimit(limit));
      forall history | receipts == Saved(history) ensures s == Take(Reverse(Latest(history)), ListLimit(limit)) {
        SavedListIsTheLatestHundred(history);
      }
    }
  }

  // ---------- every history ----------

  function Saved(history: seq<Receipt>): seq<Receipt> {
    if history == [] then [] else
    var n := |history| - 1;
    Take([history[n]] + Without(Saved(history[..n]), history[n].id), CAPACITY)
  }

  function Reverse<T>(s: seq<T>): seq<T> {
    if s == [] then [] else Reverse(s[1..]) + [s[0]]
  }

  ghost predicate SavedAgain(history: seq<Receipt>, id: string) {
    exists i :: 0 <= i < |history| && history[i].id == id
  }

  /** The receipts never saved again under the same id, oldest first. */
  ghost function Latest(history: seq<Receipt>): seq<Receipt> {
    if history == [] then [] else
    (if SavedAgain(history[1..], history[0].id) then [] else [history[0]]) + Latest(history[1..])
  }

  ghost predicate DistinctIds(s: seq<Receipt>) {
    forall i, j :: 0 <= i < j < |s| ==> s[i].id != s[j].id
  }

  lemma {:induction false} WithoutAbsent(s: seq<Receipt>, id: string)
    requires forall i :: 0 <= i < |s| ==> s[i].id != id
    ensures Without(s, id) == s
  {
    if s != [] { WithoutAbsent(s[1..], id); }
  }

  lemma {:induction false} WithoutKeepsOthers(s: seq<Receipt>, id: string)
    ensures forall r :: r in Without(s, id) <==> r in s && r.id != id
    ensures DistinctIds(s) ==> DistinctIds(Without(s, id))
  {
    if s != [] {
      WithoutKeepsOthers(s[1..], id);
      var rest := Without(s[1..], id);
      assert s == [s[0]] + s[1..];
      if DistinctIds(s) && s[0].id != id {
        forall j | 0 <= j < |rest| ensures rest[j].id != s[0].id {
          assert rest[j] in s[1..];
        }
      }
    }
  }

  /** Cutting the list before removing an id loses at most the last place, when ids are distinct. */
  lemma {:induction false} CutBeforeRemoving(s: seq<Receipt>, id: string, n: nat)
    requires DistinctIds(s)
    ensures Take(Without(Take(s, n + 1), id), n) == Take(Without(s, id), n)
  {
    if n > 0 && |s| > n + 1 {
      var cut := Take(s, n + 1);
      assert cut[1..] == Take(s[1..], n) && cut[0] == s[0];
      if s[0].id == id {
        WithoutAbsent(s[1..], id);
        WithoutAbsent(cut[1..], id);
        assert Without(s, id) == s[1..] && Without(cut, id) == cut[1..];
      } else {
        hide Take;
        CutBeforeRemoving(s[1..], id, n - 1);
        TakeMore(s[0], Without(cut[1..], id), n - 1);
        TakeMore(s[0], Without(s[1..], id), n - 1);
      }
    }
  }

  lemma TakeMore<T>(x: T, s: seq<T>, n: nat)
    ensures Take([x] + s, n + 1) == [x] + Take(s, n)
  {
  }

  /** The list as it would be without a capacity. */
  function Unbounded(history: seq<Receipt>): seq<Receipt> {
    if history == [] then [] else
    var n := |history| - 1;
    [history[n]] + Without(Unbounded(history[..n]), history[n].id)
  }

  lemma {:induction false} UnboundedIsDistinct(history: seq<Receipt>)
    ensures DistinctIds(Unbounded(history))
  {
    if history != [] {
      var n := |history| - 1;
      var rest := Unbounded(history[..n]);
      UnboundedIsDistinct(history[..n]);
      WithoutKeepsOthers(rest, history[n].id);
      forall j | 0 <= j < |Without(rest, history[n].id)| ensures Without(rest, history[n].id)[j].id != history[n].id {
        assert Without(rest, history[n].id)[j] in Without(rest, history[n].id);
      }
    }
  }

  lemma {:induction false} SavedIsFirstOfUnbounded(history: seq<Receipt>)
    ensures Saved(history) == Take(Unbounded(history), CAPACITY)
  {
    if history != [] {
      var n := |history| - 1;
      var r, full := history[n], Unbounded(history[..n]);
      SavedIsFirstOfUnbounded(history[..n]);
      UnboundedIsDistinct(history[..n]);
      CutBeforeRemoving(full, r.id, CAPACITY - 1);
      TakeMore(r, Without(Take(full, CAPACITY), r.id), CAPACITY - 1);
      TakeMore(r, Without(full, r.id), CAPACITY - 1);
    }
  }

  lemma {:induction false} LatestGrows(history: seq<Receipt>, r: Receipt)
    ensures Reverse(Latest(history + [r])) == [r] + Without(Reverse(Latest(history)), r.id)
  {
    if history == [] {
      assert ([] + [r])[1..] == [] && [] + [r] == [r];
    } else {
      var first, rest := history[0], history[1..];
      assert (history + [r])[1..] == rest + [r];
      LatestGrows(rest, r);
      assert SavedAgain(rest + [r], first.id) <==> SavedAgain(rest, first.id) || r.id == first.id by {
        if i :| 0 <= i < |rest| && rest[i].id == first.id { assert (rest + [r])[i].id == first.id; }
        assert (rest + [r])[|rest|] == r;
      }
      ReverseGrows(first, Latest(rest));
      ReverseGrows(first, Latest(rest + [r]));
      WithoutConcat(Reverse(Latest(rest)), [first], r.id);
    }
  }

  lemma ReverseGrows<T>(x: T, s: seq<T>)
    ensures Reverse([x] + s) == Reverse(s) + [x]
    ensures Reverse([] + s) == Reverse(s)
  {
    assert [] + s == s;
  }

  lemma {:induction false} WithoutConcat(s: seq<Receipt>, t: seq<Receipt>, id: string)
    ensures Without(s + t, id) == Without(s, id) + Without(t, id)
  {
    if s == [] {
      assert s + t == t;
    } else {
      assert (s + t)[1..] == s[1..] + t;
      WithoutConcat(s[1..], t, id);
    }
  }

  lemma {:induction false} UnboundedIsLatestReversed(history: seq<Receipt>)
    ensures Unbounded(history) == Reverse(Latest(history))
  {
    if history != [] {
      var n := |history| - 1;
      UnboundedIsLatestReversed(history[..n]);
      assert history == history[..n] + [history[n]];
      LatestGrows(history[..n], history[n]);
    }
  }

  /** After any history of saves the list holds the 100 latest distinct receipts, newest first, each as last saved:
      cutting it at every save loses nothing against cutting once at the end. */
  lemma SavedListIsTheLatestHundred(history: seq<Receipt>)
    ensures Saved(history) == Take(Reverse(Latest(history)), CAPACITY)
    ensures DistinctIds(Saved(history))
  {
    SavedIsFirstOfUnbounded(history);
    UnboundedIsLatestReversed(history);
    UnboundedIsDistinct(history);
  }

  // ---------- the Redis list ----------

  /** LPUSH then LTRIM at each save: ids are not deduplicated. */
  function Pushed(history: seq<Receipt>): seq<string> {
    if history == [] then [] else
    var n := |history| - 1;
    Take([history[n].id] + Pushed(history[..n]), CAPACITY)
  }

  function Ids(s: seq<Receipt>): (ids: seq<string>)
    ensures |ids| == |s| && forall i :: 0 <= i < |s| ==> ids[i] == s[i].id
  {
    if s == [] then [] else [s[0].id] + Ids(s[1..])
  }

  ghost predicate Distinct(s: seq<string>) {
    forall i, j :: 0 <= i < j < |s| ==> s[i] != s[j]
  }

  /** Every id ever saved, newest first. */
  function AllIds(history: seq<Receipt>): seq<string> {
    if history == [] then [] else [history[|history| - 1].id] + AllIds(history[..|history| - 1])
  }

  lemma {:induction false} PushedIsFirstOfAll(history: seq<Receipt>)
    ensures Pushed(history) == Take(AllIds(history), CAPACITY)
  {
    if history != [] {
      var n := |history| - 1;
      PushedIsFirstOfAll(history[..n]);
      TakeMore(history[n].id, AllIds(history[..n]), CAPACITY - 1);
      TakeMore(history[n].id, Take(AllIds(history[..n]), CAPACITY), CAPACITY - 1);
    }
  }

  lemma {:induction false} RemovingLater(s: seq<Receipt>, id: string, n: nat)
    requires id !in Take(Ids(s), n)
    ensures Take(Ids(Without(s, id)), n) == Take(Ids(s), n)
  {
    if n > 0 && s != [] {
      TakeMore(s[0].id, Ids(s[1..]), n - 1);
      assert s[0].id == Take(Ids(s), n)[0];
      RemovingLater(s[1..], id, n - 1);
      TakeMore(s[0].id, Ids(Without(s[1..], id)), n - 1);
    }
  }

  lemma {:induction false} DistinctPushesAgree(history: seq<Receipt>, n: nat)
    requires Distinct(Take(AllIds(history), n))
    ensures Take(AllIds(history), n) == Take(Ids(Unbounded(history)), n)
  {
    if n > 0 && history != [] {
      hide Take, Distinct, Ids;
      var m := |history| - 1;
      var r, pushed, full := history[m], AllIds(history[..m]), Unbounded(history[..m]);
      TakeMore(r.id, pushed, n - 1);
      DistinctTail(r.id, Take(pushed, n - 1));
      DistinctPushesAgree(history[..m], n - 1);
      RemovingLater(full, r.id, n - 1);
      TakeMore(r.id, Ids(Without(full, r.id)), n - 1);
      IdsMore(r, Without(full, r.id));
    } else {
      assert Ids([]) == [];
    }
  }

  lemma DistinctTail(x: string, s: seq<string>)
    requires Distinct([x] + s)
    ensures x !in s && Distinct(s)
  {
    forall i, j | 0 <= i < j < |s| ensures s[i] != s[j] {
      assert ([x] + s)[i + 1] == s[i] && ([x] + s)[j + 1] == s[j];
    }
    forall i | 0 <= i < |s| ensures s[i] != x {
      assert ([x] + s)[i + 1] == s[i] && ([x] + s)[0] == x;
    }
  }

  lemma IdsMore(r: Receipt, s: seq<Receipt>)
    ensures Ids([r] + s) == [r.id] + Ids(s)
  {
  }

  lemma {:induction false} AllIdsAt(history: seq<Receipt>)
    ensures |AllIds(history)| == |history|
    ensures forall k :: 0 <= k < |history| ==> AllIds(history)[k] == history[|history| - 1 - k].id
  {
    if history != [] {
      var n := |history| - 1;
      AllIdsAt(history[..n]);
    }
  }

  /** Two of the last n saves have the same id. */
  ghost predicate RepeatsAmongLast(history: seq<Receipt>, n: nat) {
    exists i, j :: 0 <= i < j < |history| && |history| - n <= i && history[i].id == history[j].id
  }

  lemma PushedIsDistinctWithoutRepeats(history: seq<Receipt>)
    ensures Distinct(Pushed(history)) <==> !RepeatsAmongLast(history, CAPACITY)
  {
    PushedIsFirstOfAll(history);
    AllIdsAt(history);
    var pushed, last := Pushed(history), |history| - 1;
    if i, j :| 0 <= i < j < |history| && |history| - CAPACITY <= i && history[i].id == history[j].id {
      assert pushed[last - j] == pushed[last - i];
    }
    if i, j :| 0 <= i < j < |pushed| && pushed[i] == pushed[j] {
      assert history[last - j].id == history[last - i].id;
    }
  }

  /** Both stores list the same ids exactly when no id occurs twice among the last hundred saves. */
  lemma {:induction false} StoresAgreeExactlyWithoutRepeats(history: seq<Receipt>)
    ensures Pushed(history) == Ids(Saved(history)) <==> !RepeatsAmongLast(history, CAPACITY)
  {
    SavedListIsTheLatestHundred(history);
    PushedIsDistinctWithoutRepeats(history);
    if Pushed(history) == Ids(Saved(history)) {
      forall i, j | 0 <= i < j < |Pushed(history)| ensures Pushed(history)[i] != Pushed(history)[j] {
        assert Saved(history)[i].id != Saved(history)[j].id;
      }
    } else if Distinct(Pushed(history)) {
      PushedIsFirstOfAll(history);
      DistinctPushesAgree(history, CAPACITY);
      SavedIsFirstOfUnbounded(history);
    }
  }
}
