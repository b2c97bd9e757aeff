/** Policy Escrow V2 against the first wallet: the escrow's accepted operations, read as wallet operations, form a legal
    wallet run with the same token movements exactly when no signer pays on both sides of a re-grant. */
module Refinement {
  import opened Common
  import opened Token
  import E = Escrow
  import W = Wallet

  /** Both contracts at `self`, owned by the same owner, beside the same token ledger. */
  datatype Deployment = Deployment(self: Address, owner: Address, ledger: Ledger)

  function EscrowStart(d: Deployment): E.State { E.State(Some(d.owner), map[], d.ledger) }
  function WalletStart(d: Deployment): W.State { W.State(Some(d.owner), map[], {}, d.ledger) }

  function SessionOf(s: E.Session): W.Session {
    W.Session(s.destinations, [], s.assets, s.perPaymentLimit, s.expiresAt, s.revoked)
  }

  /** An escrow operation as a wallet operation; withdrawals have no counterpart. */
  function OpOf(op: E.Op): W.Op
    requires !op.WithdrawOp?
  {
    match op
    case GrantOp(ownerAuth, authorised, signer, g) => W.GrantOp(ownerAuth, authorised, signer, SessionOf(E.SessionOf(g)))
    case RevokeOp(ownerAuth, authorised, signer) => W.RevokeOp(ownerAuth, authorised, signer)
    case TransferOp(authorised, signer, p) => W.TransferOp(authorised, signer, p.destination, p.amount, "", p.nonce, p.asset)
    case TokenOp(asset, from, to, amount) => W.TokenOp(asset, from, to, amount)
  }

  function EventOf(e: E.Event): W.Event
    requires !e.op.WithdrawOp?
  {
    W.Event(e.now, OpOf(e.op))
  }

  ghost predicate NoWithdrawals(run: E.History) {
    forall i :: 0 <= i < |run| ==> !run[i].op.WithdrawOp?
  }

  function EscrowAfter(d: Deployment, run: E.History): E.State { E.After(d.self, EscrowStart(d), run) }
  function WalletAfter(d: Deployment, image: W.History): W.State { W.After(d.self, WalletStart(d), image) }

  /** The wallet run: the accepted escrow operations in order. */
  function Image(d: Deployment, run: E.History): W.History
    requires NoWithdrawals(run)
  {
    if run == [] then [] else
    var n := |run| - 1;
    Image(d, run[..n]) + if E.Accepted(d.self, EscrowStart(d), run, n) then [EventOf(run[n])] else []
  }

  predicate Pays(d: Deployment, run: E.History, signer: Address, i: nat) { E.Pays(d.self, EscrowStart(d), run, signer, i) }
  predicate Grants(d: Deployment, run: E.History, signer: Address, i: nat) { E.Grants(d.self, EscrowStart(d), run, signer, i) }

  /** The pair an accepted payment uses. */
  function PairsOf(s: E.State, self: Address, e: E.Event): set<(Address, u64)> {
    if e.op.TransferOp? && E.Outcome(self, s, e).Ok? then {(e.op.signer, e.op.payment.nonce)} else {}
  }

  /** The (signer, nonce) pairs a run has paid with. */
  function Used(d: Deployment, run: E.History): set<(Address, u64)> {
    if run == [] then {} else
    var n := |run| - 1;
    Used(d, run[..n]) + PairsOf(EscrowAfter(d, run[..n]), d.self, run[n])
  }

  /** No payment repeats an earlier pair. */
  predicate Fresh(d: Deployment, run: E.History) {
    run == [] ||
    var n := |run| - 1;
    Fresh(d, run[..n]) && PairsOf(EscrowAfter(d, run[..n]), d.self, run[n]) !! Used(d, run[..n])
  }

  ghost predicate Related(e: E.State, w: W.State, used: set<(Address, u64)>) {
    && w.owner == e.owner && w.ledger == e.ledger && w.nonces == used
    && w.sessions.Keys == e.sessions.Keys && forall a :: a in e.sessions ==> w.sessions[a] == SessionOf(e.sessions[a])
  }

  /** One accepted escrow step from related states: the wallet takes it exactly when the nonce is unused. */
  lemma StepRefines(self: Address, e: E.State, w: W.State, used: set<(Address, u64)>, event: E.Event)
    requires Related(e, w, used) && !event.op.WithdrawOp? && E.Outcome(self, e, event).Ok?
    ensures W.Outcome(self, w, EventOf(event)).Ok? <==> PairsOf(e, self, event) !! used
    ensures W.Outcome(self, w, EventOf(event)).Ok? ==>
              Related(E.Apply(self, e, event), W.Apply(self, w, EventOf(event)), used + PairsOf(e, self, event))
  {
  }

  lemma ImageGrows(self: Address, start: W.State, image: W.History, e: W.Event)
    ensures W.After(self, start, image + [e]) == W.Apply(self, W.After(self, start, image), e)
    ensures W.AllAccepted(self, start, image + [e]) <==>
              W.AllAccepted(self, start, image) && W.Outcome(self, W.After(self, start, image), e).Ok?
  {
    hide W.Outcome;
    var all := image + [e];
    assert all[..|image|] == image;
    forall i | 0 <= i < |image| ensures W.Accepted(self, start, all, i) <==> W.Accepted(self, start, image, i) {
      assert all[..i] == image[..i];
    }
    if W.AllAccepted(self, start, all) {
      assert W.Accepted(self, start, all, |image|);
    }
  }

  /** The wallet accepts every operation of the image exactly when the run repeats no pair, and then both contracts
      end with the same tokens and the same sessions, and the wallet's used nonces are the pairs paid with. */
  lemma {:induction false} RefinesWhenFresh(d: Deployment, run: E.History)
    requires NoWithdrawals(run)
    ensures W.AllAccepted(d.self, WalletStart(d), Image(d, run)) <==> Fresh(d, run)
    ensures Fresh(d, run) ==> Related(EscrowAfter(d, run), WalletAfter(d, Image(d, run)), Used(d, run))
  {
    hide E.Outcome, W.Outcome;
    if run != [] {
      var n := |run| - 1;
      RefinesWhenFresh(d, run[..n]);
      var image, e := Image(d, run[..n]), EscrowAfter(d, run[..n]);
      if E.Accepted(d.self, EscrowStart(d), run, n) {
        ImageGrows(d.self, WalletStart(d), image, EventOf(run[n]));
        if Fresh(d, run[..n]) {
          StepRefines(d.self, e, WalletAfter(d, image), Used(d, run[..n]), run[n]);
        }
      } else {
        assert Image(d, run) == image;
      }
    }
  }

  /** A signer pays, is granted anew, and pays again. */
  ghost predicate PaysAcross(d: Deployment, run: E.History, signer: Address, i: nat, g: nat, j: nat) {
    i < g < j && Pays(d, run, signer, i) && Grants(d, run, signer, g) && Pays(d, run, signer, j)
  }

  function NonceIn(s: E.State, signer: Address): nat {
    if signer in s.sessions then s.sessions[signer].nextNonce else 0
  }

  function NextNonce(d: Deployment, run: E.History, signer: Address): nat { NonceIn(EscrowAfter(d, run), signer) }

  lemma StepNonce(self: Address, s: E.State, e: E.Event, signer: Address)
    ensures var mine := !e.op.WithdrawOp? && !e.op.TokenOp? && e.op.signer == signer && E.Outcome(self, s, e).Ok?;
            var before, after := NonceIn(s, signer), NonceIn(E.Apply(self, s, e), signer);
            if mine && e.op.GrantOp? then after == 1
            else if mine && e.op.TransferOp? then
              signer in s.sessions && e.op.payment.nonce == before && after == before + 1 && PairsOf(s, self, e) == {(signer, before)}
            else after == before
  {
  }

  /** What one event does to a signer's next nonce and to the pairs paid with. */
  lemma NonceMoves(d: Deployment, run: E.History, n: nat, signer: Address)
    requires n < |run|
    ensures Used(d, run[..n]) <= Used(d, run[..n + 1])
    ensures Fresh(d, run[..n + 1]) ==> Fresh(d, run[..n])
    ensures var before, after := NextNonce(d, run[..n], signer), NextNonce(d, run[..n + 1], signer);
            if Grants(d, run, signer, n) then after == 1
            else if Pays(d, run, signer, n) then
              && before > 0 && run[n].op.payment.nonce == before && after == before + 1 && (signer, before as u64) in Used(d, run[..n + 1])
              && (Fresh(d, run[..n + 1]) ==> (signer, before as u64) !in Used(d, run[..n]))
            else after == before
  {
    hide E.Outcome;
    assert run[..n + 1][..n] == run[..n];
    StepNonce(d.self, EscrowAfter(d, run[..n]), run[n], signer);
    E.EveryRunKeepsSessionsExact(d.self, d.owner, d.ledger, run[..n], signer);
  }

  /** A session that has moved past nonce 1 has paid with nonce 1. */
  lemma {:induction false} PastOneUsedOne(d: Deployment, run: E.History, n: nat, signer: Address)
    requires n <= |run|
    ensures NextNonce(d, run[..n], signer) > 1 ==> (signer, 1) in Used(d, run[..n])
  {
    hide E.Outcome, Used, Fresh;
    if n > 0 {
      PastOneUsedOne(d, run, n - 1, signer);
      NonceMoves(d, run, n - 1, signer);
    } else {
      assert run[..0] == [];
    }
  }

  lemma {:induction false} UsedStays(d: Deployment, run: E.History, m: nat, n: nat)
    requires m <= n <= |run|
    ensures Used(d, run[..m]) <= Used(d, run[..n])
    ensures Fresh(d, run[..n]) ==> Fresh(d, run[..m])
  {
    hide Used, Fresh;
    if m < n {
      UsedStays(d, run, m, n - 1);
      NonceMoves(d, run, n - 1, d.owner);
    }
  }

  /** Once a signer that has used nonce 1 is granted anew, a run without repeats never lets it pay again. */
  lemma {:induction false} RegrantBlocks(d: Deployment, run: E.History, signer: Address, g: nat, n: nat)
    requires g < n <= |run| && Grants(d, run, signer, g) && (signer, 1) in Used(d, run[..g]) && Fresh(d, run[..n])
    ensures NextNonce(d, run[..n], signer) == 1
    ensures n < |run| && Pays(d, run, signer, n) ==> !Fresh(d, run[..n + 1])
  {
    hide E.Outcome, Used, Fresh;
    NonceMoves(d, run, n - 1, signer);
    if g < n - 1 { RegrantBlocks(d, run, signer, g, n - 1); }
    UsedStays(d, run, g, n);
    if n < |run| { NonceMoves(d, run, n, signer); }
  }

  lemma PayingAcrossRepeats(d: Deployment, run: E.History, signer: Address, i: nat, g: nat, j: nat)
    requires PaysAcross(d, run, signer, i, g, j)
    ensures !Fresh(d, run)
  {
    hide E.Outcome, Used, Fresh;
    NonceMoves(d, run, i, signer);
    PastOneUsedOne(d, run, i + 1, signer);
    UsedStays(d, run, i + 1, g);
    if Fresh(d, run[..j]) { RegrantBlocks(d, run, signer, g, j); }
    UsedStays(d, run, j, j + 1);
    UsedStays(d, run, j + 1, |run|);
    assert run[..|run|] == run;
  }

  /** Between grants a signer's next nonce only rises. */
  lemma {:induction false} NoncesRise(d: Deployment, run: E.History, signer: Address, m: nat, n: nat)
    requires m <= n <= |run| && forall g :: m <= g < n ==> !Grants(d, run, signer, g)
    ensures NextNonce(d, run[..m], signer) <= NextNonce(d, run[..n], signer)
  {
    hide E.Outcome, Used, Fresh;
    if m < n {
      NoncesRise(d, run, signer, m, n - 1);
      NonceMoves(d, run, n - 1, signer);
    }
  }

  /** Every pair used stems from a payment. */
  lemma {:induction false} FindPayment(d: Deployment, run: E.History, n: nat, signer: Address, nonce: u64) returns (i: nat)
    requires n <= |run| && (signer, nonce) in Used(d, run[..n])
    ensures i < n && Pays(d, run, signer, i) && run[i].op.payment.nonce == nonce
  {
    hide E.Outcome;
    assert run[..n][..n - 1] == run[..n - 1];
    if (signer, nonce) in PairsOf(EscrowAfter(d, run[..n - 1]), d.self, run[n - 1]) {
      i := n - 1;
    } else {
      i := FindPayment(d, run, n - 1, signer, nonce);
    }
  }

  lemma FindGrant(d: Deployment, run: E.History, signer: Address, i: nat, j: nat) returns (g: nat)
    requires i < j && Pays(d, run, signer, i) && Pays(d, run, signer, j)
    requires run[i].op.payment.nonce == run[j].op.payment.nonce
    ensures PaysAcross(d, run, signer, i, g, j)
  {
    hide E.Outcome, Used, Fresh;
    NonceMoves(d, run, i, signer);
    NonceMoves(d, run, j, signer);
    if forall k :: i + 1 <= k < j ==> !Grants(d, run, signer, k) {
      NoncesRise(d, run, signer, i + 1, j);
    }
    g :| i + 1 <= g < j && Grants(d, run, signer, g);
  }

  lemma {:induction false} RepeatsOnlyAcross(d: Deployment, run: E.History, n: nat) returns (signer: Address, i: nat, g: nat, j: nat)
    requires n <= |run| && !Fresh(d, run[..n])
    ensures PaysAcross(d, run, signer, i, g, j)
  {
    hide E.Outcome;
    assert run[..n][..n - 1] == run[..n - 1];
    if !Fresh(d, run[..n - 1]) {
      signer, i, g, j := RepeatsOnlyAcross(d, run, n - 1);
    } else {
      j := n - 1;
      signer := run[j].op.signer;
      i := FindPayment(d, run, j, signer, run[j].op.payment.nonce);
      g := FindGrant(d, run, signer, i, j);
    }
  }

  /** The escrow refines the wallet, for runs without withdrawals: the wallet takes every accepted escrow operation
      exactly when no signer pays on both sides of a re-grant (the escrow restarts nonces at 1 then, the wallet
      does not), and then both hold the same tokens and sessions and the wallet has used exactly the paid pairs. */
  lemma EscrowRefinesWalletExactlyWithoutPayingAcrossGrants(d: Deployment, run: E.History)
    requires NoWithdrawals(run)
    ensures W.AllAccepted(d.self, WalletStart(d), Image(d, run)) <==>
              !exists signer, i, g, j :: PaysAcross(d, run, signer, i, g, j)
    ensures (!exists signer, i, g, j :: PaysAcross(d, run, signer, i, g, j)) ==>
              Related(EscrowAfter(d, run), WalletAfter(d, Image(d, run)), Used(d, run))
  {
    hide E.Outcome, W.Outcome, Fresh, Used;
    RefinesWhenFresh(d, run);
    assert run[..|run|] == run;
    if !Fresh(d, run) {
      var signer, i, g, j := RepeatsOnlyAcross(d, run, |run|);
      assert PaysAcross(d, run, signer, i, g, j);
    }
    if signer, i, g, j :| PaysAcross(d, run, signer, i, g, j) {
      PayingAcrossRepeats(d, run, signer, i, g, j);
    }
  }

  ghost predicate OneGrantPerSigner(d: Deployment, run: E.History) {
    forall signer, i, j :: Grants(d, run, signer, i) && Grants(d, run, signer, j) ==> i == j
  }

  /** With one grant per signer the refinement always holds. */
  lemma OneGrantRefines(d: Deployment, run: E.History)
    requires NoWithdrawals(run) && OneGrantPerSigner(d, run)
    ensures W.AllAccepted(d.self, WalletStart(d), Image(d, run))
    ensures WalletAfter(d, Image(d, run)).ledger == EscrowAfter(d, run).ledger
  {
    hide E.Outcome, W.Outcome, Fresh, Used;
    EscrowRefinesWalletExactlyWithoutPayingAcrossGrants(d, run);
    if signer, i, g, j :| PaysAcross(d, run, signer, i, g, j) {
      var first := GrantBeforePayment(d, run, signer, i);
      assert false;
    }
  }

  lemma {:induction false} GrantBeforePayment(d: Deployment, run: E.History, signer: Address, i: nat) returns (g: nat)
    requires Pays(d, run, signer, i)
    ensures g < i && Grants(d, run, signer, g)
  {
    hide E.Outcome, Used, Fresh;
    NonceMoves(d, run, i, signer);
    if forall k :: 0 <= k < i ==> !Grants(d, run, signer, k) {
      NoGrantNoSession(d, run, signer, i);
    }
    g :| 0 <= g < i && Grants(d, run, signer, g);
  }

  lemma {:induction false} NoGrantNoSession(d: Deployment, run: E.History, signer: Address, n: nat)
    requires n <= |run| && forall k :: 0 <= k < n ==> !Grants(d, run, signer, k)
    ensures NextNonce(d, run[..n], signer) == 0
  {
    hide E.Outcome, Used, Fresh;
    if n > 0 {
      NoGrantNoSession(d, run, signer, n - 1);
      NonceMoves(d, run, n - 1, signer);
    } else {
      assert run[..0] == [];
    }
  }

  lemma EscrowBegins(d: Deployment)
    ensures EscrowAfter(d, []) == EscrowStart(d)
  {
  }

  lemma AssetStart(d: Deployment, asset: Address, shop: Address)
    requires d.ledger == map[(asset, d.self) := 2] && d.self != shop
    ensures Balance(d.ledger, asset, d.self) == 2 && Balance(d.ledger, asset, shop) == 0
  {
  }

  lemma EscrowGrows(d: Deployment, run: E.History, e: E.Event)
    ensures EscrowAfter(d, run + [e]) == E.Apply(d.self, EscrowAfter(d, run), e)
  {
    assert (run + [e])[..|run|] == run;
  }

  /** Granting and paying the one unit of a budget, from any state that can afford it. */
  lemma GrantThenPay(self: Address, s: E.State, owner: Address, signer: Address, g: E.Grant, p: E.Payment)
    requires s.owner == Some(owner) && g == E.Grant([p.destination], [p.asset], 1, 1, 1) && p.amount == 1 && p.nonce == 1
    requires self != p.destination && 1 <= Balance(s.ledger, p.asset, self) && Balance(s.ledger, p.asset, p.destination) < 10
    ensures var granted := E.Outcome(self, s, E.Event(0, E.GrantOp(owner, true, signer, g)));
            && granted.Ok? && granted.value.owner == s.owner && granted.value.ledger == s.ledger
            && var paid := E.Outcome(self, granted.value, E.Event(0, E.TransferOp(true, signer, p)));
            && paid.Ok? && paid.value.owner == s.owner
            && Balance(paid.value.ledger, p.asset, self) == Balance(s.ledger, p.asset, self) - 1
            && Balance(paid.value.ledger, p.asset, p.destination) == Balance(s.ledger, p.asset, p.destination) + 1
  {
  }

  /** The wallet refuses the second payment: grant, pay, grant again, pay. */
  lemma RegrantedSignerReplays(self: Address, owner: Address, signer: Address, shop: Address, asset: Address)
    requires self != shop
    ensures var d := Deployment(self, owner, map[(asset, self) := 2]);
            var grant := E.Event(0, E.GrantOp(owner, true, signer, E.Grant([shop], [asset], 1, 1, 1)));
            var pay := E.Event(0, E.TransferOp(true, signer, E.Payment(shop, asset, 1, "", 1)));
            PaysAcross(d, [grant, pay, grant, pay], signer, 1, 2, 3)
  {
    var d := Deployment(self, owner, map[(asset, self) := 2]);
    var g, p := E.Grant([shop], [asset], 1, 1, 1), E.Payment(shop, asset, 1, "", 1);
    var grant, pay := E.Event(0, E.GrantOp(owner, true, signer, g)), E.Event(0, E.TransferOp(true, signer, p));
    var run := [grant, pay, grant, pay];
    hide E.Outcome, E.After, Balance;
    EscrowBegins(d);
    AssetStart(d, asset, shop);
    assert run[..0] == [] && run[..1] == [grant] && run[..2] == [grant, pay] && run[..3] == [grant, pay, grant];
    assert [] + [grant] == run[..1] && [grant] + [pay] == run[..2] && [grant, pay] + [grant] == run[..3];
    EscrowGrows(d, [], grant);
    EscrowGrows(d, [grant], pay);
    EscrowGrows(d, [grant, pay], grant);
    GrantThenPay(self, EscrowStart(d), owner, signer, g, p);
    GrantThenPay(self, EscrowAfter(d, run[..2]), owner, signer, g, p);
  }
}
