/** The token contract: balances per asset and holder. A transfer either moves the amount or fails as a whole. */
module Token {
  import opened Common

  type Address = string
  type Ledger = map<(Address, Address), i128>

  function Balance(l: Ledger, asset: Address, holder: Address): i128 {
    if (asset, holder) in l then l[(asset, holder)] else 0
  }

  function Transfer(l: Ledger, asset: Address, from: Address, to: Address, amount: i128): Option<Ledger> {
    if amount < 0 || Balance(l, asset, from) < amount then None else
    var debited := l[(asset, from) := Balance(l, asset, from) - amount];
    if Balance(debited, asset, to) + amount > I128_MAX then None
    else Some(debited[(asset, to) := Balance(debited, asset, to) + amount])
  }

  function SumOver(l: Ledger, asset: Address, holders: seq<Address>): int {
    if holders == [] then 0 else Balance(l, asset, holders[0]) + SumOver(l, asset, holders[1..])
  }

  ghost predicate Distinct(s: seq<Address>) {
    forall i, j :: 0 <= i < j < |s| ==> s[i] != s[j]
  }

  /** Changing one holder's balance changes the sum by as much, or not at all for an outsider. */
  lemma {:induction false} SumAfterUpdate(l: Ledger, asset: Address, holders: seq<Address>, a: Address, h: Address, v: i128)
    requires Distinct(holders)
    ensures SumOver(l[(a, h) := v], asset, holders)
         == SumOver(l, asset, holders) + if a == asset && h in holders then v - Balance(l, asset, h) else 0
  {
    if holders != [] {
      SumAfterUpdate(l, asset, holders[1..], a, h, v);
      if h == holders[0] {
        assert h !in holders[1..];
      } else {
        assert h in holders <==> h in holders[1..];
      }
    }
  }

  /** A transfer between listed holders conserves every asset's total, self-transfers included. */
  lemma TransferConserves(l: Ledger, asset: Address, from: Address, to: Address, amount: i128, other: Address, holders: seq<Address>)
    requires Distinct(holders) && from in holders && to in holders && Transfer(l, asset, from, to, amount).Some?
    ensures SumOver(Transfer(l, asset, from, to, amount).value, other, holders) == SumOver(l, other, holders)
  {
    var debit: i128 := Balance(l, asset, from) - amount;
    var debited := l[(asset, from) := debit];
    SumAfterUpdate(l, other, holders, asset, from, debit);
    SumAfterUpdate(debited, other, holders, asset, to, Balance(debited, asset, to) + amount);
  }

  /** A transfer goes through exactly when the sender has the amount and the receiver has room for it, and then moves the
      amount and nothing else. */
  lemma TransferIsExact(l: Ledger, asset: Address, from: Address, to: Address, amount: i128)
    ensures Transfer(l, asset, from, to, amount).Some? <==>
              0 <= amount <= Balance(l, asset, from) && (from != to ==> Balance(l, asset, to) + amount <= I128_MAX)
    ensures Transfer(l, asset, from, to, amount).Some? ==>
              forall a, h :: Balance(Transfer(l, asset, from, to, amount).value, a, h)
                == Balance(l, a, h) + (if a == asset && h == to then amount else 0) - (if a == asset && h == from then amount else 0)
  {
  }

  /** Tokens changing hands, and what a sequence of such moves brings a holder and takes from it. */
  datatype Move = Move(asset: Address, from: Address, to: Address, amount: i128)

  function Inflow(moves: seq<Move>, asset: Address, holder: Address): int {
    if moves == [] then 0 else
    var m := moves[|moves| - 1];
    Inflow(moves[..|moves| - 1], asset, holder) + if m.asset == asset && m.to == holder then m.amount else 0
  }

  function Outflow(moves: seq<Move>, asset: Address, holder: Address): int {
    if moves == [] then 0 else
    var m := moves[|moves| - 1];
    Outflow(moves[..|moves| - 1], asset, holder) + if m.asset == asset && m.from == holder then m.amount else 0
  }

  /** Every balance is the opening one plus what the moves brought, minus what they took. */
  ghost predicate Accounts(before: Ledger, after: Ledger, moves: seq<Move>) {
    forall a, h :: Balance(after, a, h) == Balance(before, a, h) + Inflow(moves, a, h) - Outflow(moves, a, h)
  }

  lemma AccountsForOneMore(start: Ledger, l: Ledger, moves: seq<Move>, m: Move)
    requires Accounts(start, l, moves) && Transfer(l, m.asset, m.from, m.to, m.amount).Some?
    ensures Accounts(start, Transfer(l, m.asset, m.from, m.to, m.amount).value, moves + [m])
  {
    hide Balance, Transfer;
    TransferIsExact(l, m.asset, m.from, m.to, m.amount);
    assert (moves + [m])[..|moves|] == moves;
  }

  lemma OutflowOfOneMore(moves: seq<Move>, m: Move, asset: Address, holder: Address)
    ensures Outflow(moves + [m], asset, holder) == Outflow(moves, asset, holder) + if m.asset == asset && m.from == holder then m.amount else 0
  {
    assert (moves + [m])[..|moves|] == moves;
  }
}
