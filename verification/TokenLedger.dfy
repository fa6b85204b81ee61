/** Token contracts as one ledger of balances. A transfer aborts when it is negative or
    exceeds the payer's balance; otherwise it moves the amount and nothing else. */
module TokenLedger {
  import opened Prelude
  import opened MapSum

  datatype Holding = Holding(token: Address, holder: Address)

  type Ledger = map<Holding, nat>

  function Balance(l: Ledger, token: Address, holder: Address): nat {
    At(l, Holding(token, holder))
  }

  function Transfer(l: Ledger, token: Address, from: Address, to: Address, amount: int): (r: Option<Ledger>)
    ensures r.Some? <==> 0 <= amount <= Balance(l, token, from)
    ensures r.Some? ==> forall t, h ::
              Balance(r.value, t, h) == Balance(l, t, h)
                                        - (if t == token && h == from then amount else 0)
                                        + (if t == token && h == to then amount else 0)
  {
    var _ :- Need(0 <= amount <= Balance(l, token, from));
    var l1 := l[Holding(token, from) := Balance(l, token, from) - amount];
    Some(l1[Holding(token, to) := Balance(l1, token, to) + amount])
  }

  ghost function Holdings(l: Ledger, token: Address): map<Holding, int> {
    map h | h in l && h.token == token :: l[h]
  }

  /** How much of a token there is, over all accounts. */
  ghost function Supply(l: Ledger, token: Address): int {
    Sum(Holdings(l, token))
  }

  lemma SupplyUpdate(l: Ledger, h: Holding, v: nat, token: Address)
    ensures Supply(l[h := v], token) == Supply(l, token) + if h.token == token then v - At(l, h) else 0
  {
    if h.token == token {
      SumUpdate(Holdings(l, token), h, v);
      assert Holdings(l[h := v], token) == Holdings(l, token)[h := v];
    } else {
      assert Holdings(l[h := v], token) == Holdings(l, token);
    }
  }

  /** Transfers neither create nor destroy tokens. */
  lemma TransferConserves(l: Ledger, token: Address, from: Address, to: Address, amount: int, t: Address)
    requires Transfer(l, token, from, to, amount).Some?
    ensures Supply(Transfer(l, token, from, to, amount).value, t) == Supply(l, t)
  {
    hide Supply;
    var l1 := l[Holding(token, from) := Balance(l, token, from) - amount];
    SupplyUpdate(l, Holding(token, from), Balance(l, token, from) - amount, t);
    SupplyUpdate(l1, Holding(token, to), Balance(l1, token, to) + amount, t);
  }

  // ----- what a call moved, account by account -----

  datatype Movement = Move(token: Address, from: Address, to: Address, amount: int)

  /** What one movement adds to an account. */
  function Shift(m: Movement, token: Address, holder: Address): int {
    if m.token != token then 0
    else (if m.to == holder then m.amount else 0) - (if m.from == holder then m.amount else 0)
  }

  function Net(moves: seq<Movement>, token: Address, holder: Address): int {
    if moves == [] then 0
    else Net(moves[..|moves| - 1], token, holder) + Shift(moves[|moves| - 1], token, holder)
  }

  ghost predicate SettledFor(l: Ledger, l': Ledger, moves: seq<Movement>, token: Address, holder: Address) {
    Balance(l', token, holder) == Balance(l, token, holder) + Net(moves, token, holder)
  }

  /** Every account of every token changed by exactly these movements, and no other did. */
  ghost predicate Settles(l: Ledger, l': Ledger, moves: seq<Movement>) {
    forall t, h :: SettledFor(l, l', moves, t, h)
  }

  lemma NothingMoved(l: Ledger)
    ensures Settles(l, l, [])
  {
  }

  lemma NetAppend(moves: seq<Movement>, m: Movement, token: Address, holder: Address)
    ensures Net(moves + [m], token, holder) == Net(moves, token, holder) + Shift(m, token, holder)
  {
    assert (moves + [m])[..|moves|] == moves;
  }

  lemma TransferSettles(l: Ledger, l1: Ledger, moves: seq<Movement>, token: Address, from: Address, to: Address, amount: int)
    requires Settles(l, l1, moves) && Transfer(l1, token, from, to, amount).Some?
    ensures Settles(l, Transfer(l1, token, from, to, amount).value, moves + [Move(token, from, to, amount)])
  {
    hide Net, Transfer;
    var l2, all := Transfer(l1, token, from, to, amount).value, moves + [Move(token, from, to, amount)];
    forall t, h ensures SettledFor(l, l2, all, t, h) {
      assert SettledFor(l, l1, moves, t, h);
      NetAppend(moves, Move(token, from, to, amount), t, h);
    }
  }

  /** A list of up to three movements, spelled out. */
  lemma NetOfFew(moves: seq<Movement>, token: Address, holder: Address)
    requires |moves| <= 3
    ensures Net(moves, token, holder) ==
              (if |moves| > 0 then Shift(moves[0], token, holder) else 0)
              + (if |moves| > 1 then Shift(moves[1], token, holder) else 0)
              + (if |moves| > 2 then Shift(moves[2], token, holder) else 0)
  {
    if |moves| > 0 {
      var a := moves[..|moves| - 1];
      if |a| > 0 {
        var b := a[..|a| - 1];
        if |b| > 0 {
          assert b[..|b| - 1] == [];
        }
      }
    }
  }
}
