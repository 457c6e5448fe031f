/** The token ledger of the mint-token pallet: a map from account to balance,
    read with default-on-miss semantics, changed by `mint` (an absolute set)
    and `transfer` (saturating arithmetic, with the two writes the pallet
    performs), each of which deposits one event. Accounts are an opaque type
    with equality; the already-authenticated signer is a plain parameter. */
module MintToken {

  /** Largest value of the runtime's `Balance` type; every balance fits below it. */
  const MAX_BALANCE: nat := 0xFFFF_FFFF_FFFF_FFFF_FFFF_FFFF_FFFF_FFFF

  type Balance = b: nat | b <= MAX_BALANCE

  /** The pallet's events, in the order it declares them. */
  datatype Event<A> =
    | MintedNewSupply(who: A)
    | Transferred(from: A, to: A, value: Balance)

  /** Reading `BalanceToAccount`: an account that was never written holds 0. */
  function BalanceOf<A>(m: map<A, Balance>, who: A): (b: Balance)
    ensures who !in m ==> b == 0
    ensures who in m ==> b == m[who]
  {
    if who in m then m[who] else 0
  }

  /** `saturating_sub`: the least balance that, with `b` added back, reaches `a`. */
  function SaturatingSub(a: Balance, b: Balance): (r: Balance)
    ensures r <= a
    ensures r + b >= a
    ensures r == 0 || r + b == a
  {
    if a >= b then a - b else 0
  }

  /** `saturating_add`: the exact sum when it fits, MAX_BALANCE otherwise. */
  function SaturatingAdd(a: Balance, b: Balance): (r: Balance)
    ensures a <= r <= a + b
    ensures r == a + b || r == MAX_BALANCE
  {
    if a + b <= MAX_BALANCE then a + b else MAX_BALANCE
  }

  /** The map after `mint(who, amount)`: `who` holds exactly `amount`, whatever
      it held before, and no other account changes. */
  function Minted<A(!new)>(m: map<A, Balance>, who: A, amount: Balance): (r: map<A, Balance>)
    ensures BalanceOf(r, who) == amount
    ensures forall k :: k != who ==> BalanceOf(r, k) == BalanceOf(m, k)
  {
    m[who := amount]
  }

  /** The map after `transfer(sender, to, amount)` as the pallet writes it: the
      sender's reduced balance is stored under the sender's key, and then the
      recipient's increased balance is stored under the sender's key as well.
      The sender ends with the recipient's old balance plus `amount`
      (saturated), and every other account, the recipient included, keeps
      what it had. */
  function TransferredAsWritten<A(!new)>(m: map<A, Balance>, sender: A, to: A, amount: Balance): (r: map<A, Balance>)
    ensures BalanceOf(r, sender) == SaturatingAdd(BalanceOf(m, to), amount)
    ensures forall k :: k != sender ==> BalanceOf(r, k) == BalanceOf(m, k)
  {
    var updateSender := SaturatingSub(BalanceOf(m, sender), amount);
    var updateTo := SaturatingAdd(BalanceOf(m, to), amount);
    m[sender := updateSender][sender := updateTo]
  }

  /** The map after the two-sided transfer the pallet's comment describes
      ("update both accounts"): the sender's reduced balance under the sender's
      key, then the recipient's increased balance under the recipient's key.
      On a transfer to oneself the second write wins. */
  function TransferredIntended<A(!new)>(m: map<A, Balance>, sender: A, to: A, amount: Balance): (r: map<A, Balance>)
    ensures sender != to ==> BalanceOf(r, sender) == SaturatingSub(BalanceOf(m, sender), amount)
    ensures BalanceOf(r, to) == SaturatingAdd(BalanceOf(m, to), amount)
    ensures forall k :: k != sender && k != to ==> BalanceOf(r, k) == BalanceOf(m, k)
  {
    var updateSender := SaturatingSub(BalanceOf(m, sender), amount);
    var updateTo := SaturatingAdd(BalanceOf(m, to), amount);
    m[sender := updateSender][to := updateTo]
  }

  /** Minting twice into one account leaves only the second amount. */
  lemma MintOverwrites<A(!new)>(m: map<A, Balance>, who: A, first: Balance, second: Balance)
    ensures Minted(Minted(m, who, first), who, second) == Minted(m, who, second)
    ensures BalanceOf(Minted(Minted(m, who, first), who, second), who) == second
  {
  }

  /** With the pallet's writes, an account holding nothing that sends 30 to an
      account holding 100 ends with 130, and the recipient still holds 100. */
  lemma TransferAsWrittenCreatesFunds()
    ensures var r := TransferredAsWritten(map[0 := 0, 1 := 100], 0, 1, 30);
            BalanceOf(r, 0) == 130 && BalanceOf(r, 1) == 100
  {
  }

  /** A transfer of 30 that the sender can cover, from an account holding 100
      to one holding nothing: the pallet's writes leave the sender with 30 and
      the recipient with nothing, so 70 tokens vanish; the intended writes
      leave 70 and 30. */
  lemma TransferCoveredCase()
    ensures var r := TransferredAsWritten(map[0 := 100, 1 := 0], 0, 1, 30);
            BalanceOf(r, 0) == 30 && BalanceOf(r, 1) == 0
    ensures var r := TransferredIntended(map[0 := 100, 1 := 0], 0, 1, 30);
            BalanceOf(r, 0) == 70 && BalanceOf(r, 1) == 30
  {
  }

  /** Even the intended writes credit the full amount when the sender cannot
      cover it, since `saturating_sub` stops at 0: an empty account sending 30
      to one holding 100 leaves 0 and 130. */
  lemma TransferIntendedUncoveredCreatesFunds()
    ensures var r := TransferredIntended(map[0 := 0, 1 := 100], 0, 1, 30);
            BalanceOf(r, 0) == 0 && BalanceOf(r, 1) == 130
  {
  }

  /** With the intended writes, a transfer between two distinct accounts that
      the sender can cover and that does not saturate the recipient conserves
      the two balances' sum. */
  lemma TransferIntendedConserves<A(!new)>(m: map<A, Balance>, sender: A, to: A, amount: Balance)
    requires sender != to
    requires amount <= BalanceOf(m, sender)
    requires BalanceOf(m, to) + amount <= MAX_BALANCE
    ensures var r := TransferredIntended(m, sender, to, amount);
            BalanceOf(r, sender) + BalanceOf(r, to) == BalanceOf(m, sender) + BalanceOf(m, to)
            && BalanceOf(r, sender) == BalanceOf(m, sender) - amount
            && BalanceOf(r, to) == BalanceOf(m, to) + amount
  {
  }

  /** With the intended writes between two distinct accounts, on any input:
      the sender is debited the amount or, when it cannot cover it, its whole
      balance; the recipient is credited the amount up to MAX_BALANCE; and the
      two balances' sum changes by exactly the difference. */
  lemma TransferIntendedAccounting<A(!new)>(m: map<A, Balance>, sender: A, to: A, amount: Balance)
    requires sender != to
    ensures var r := TransferredIntended(m, sender, to, amount);
            var debit := if amount <= BalanceOf(m, sender) then amount else BalanceOf(m, sender);
            var credit := SaturatingAdd(BalanceOf(m, to), amount) - BalanceOf(m, to);
            && BalanceOf(r, sender) == BalanceOf(m, sender) - debit
            && BalanceOf(r, to) == BalanceOf(m, to) + credit
            && BalanceOf(r, sender) + BalanceOf(r, to) + debit == BalanceOf(m, sender) + BalanceOf(m, to) + credit
  {
  }

  /** A dispatchable call of the pallet, and one signed by an account. */
  datatype Call<A> = MintCall(amount: Balance) | TransferCall(to: A, amount: Balance)

  datatype Extrinsic<A> = Extrinsic(signer: A, call: Call<A>)

  /** The balances after one signed call. */
  function Apply<A(!new)>(m: map<A, Balance>, x: Extrinsic<A>): map<A, Balance>
  {
    match x.call
    case MintCall(amount) => Minted(m, x.signer, amount)
    case TransferCall(to, amount) => TransferredAsWritten(m, x.signer, to, amount)
  }

  /** The balances after a block's calls, applied in order. */
  function Run<A(!new)>(m: map<A, Balance>, xts: seq<Extrinsic<A>>): map<A, Balance>
    decreases |xts|
  {
    if xts == [] then m else Run(Apply(m, xts[0]), xts[1..])
  }

  /** Since each call writes only its signer's entry, an account that signs
      none of the calls keeps its balance through all of them, however much is
      transferred to it. */
  lemma {:induction false} BystanderUnchanged<A(!new)>(m: map<A, Balance>, xts: seq<Extrinsic<A>>, a: A)
    requires forall i :: 0 <= i < |xts| ==> xts[i].signer != a
    ensures BalanceOf(Run(m, xts), a) == BalanceOf(m, a)
    decreases |xts|
  {
    if xts != [] {
      BystanderUnchanged(Apply(m, xts[0]), xts[1..], a);
    }
  }

  /** The pallet's storage and the events it has deposited. */
  class Ledger<A(==,!new)> {
    var balances: map<A, Balance>
    var events: seq<Event<A>>

    /** Genesis: no account written, no event deposited. */
    constructor ()
      ensures balances == map[] && events == []
      ensures forall a :: BalanceOf(balances, a) == 0
    {
      balances := map[];
      events := [];
    }

    /** `mint`: overwrite the signer's balance and deposit `MintedNewSupply`. Never fails. */
    method Mint(sender: A, amount: Balance)
      modifies this
      ensures balances == Minted(old(balances), sender, amount)
      ensures events == old(events) + [MintedNewSupply(sender)]
    {
      balances := balances[sender := amount];
      events := events + [MintedNewSupply(sender)];
    }

    /** `transfer` as written: two inserts, both under the sender's key, then
        `Transferred` is deposited. Never fails. */
    method Transfer(sender: A, to: A, amount: Balance)
      modifies this
      ensures balances == TransferredAsWritten(old(balances), sender, to, amount)
      ensures events == old(events) + [Transferred(sender, to, amount)]
    {
      var senderBalance := BalanceOf(balances, sender);
      var receiverBalance := BalanceOf(balances, to);
      var updateSender := SaturatingSub(senderBalance, amount);
      var updateTo := SaturatingAdd(receiverBalance, amount);
      balances := balances[sender := updateSender];
      balances := balances[sender := updateTo];
      events := events + [Transferred(sender, to, amount)];
    }

    /** The two-sided transfer the pallet evidently intends, kept apart from
        `Transfer`: the second insert goes under the recipient's key. */
    method TransferIntended(sender: A, to: A, amount: Balance)
      modifies this
      ensures balances == TransferredIntended(old(balances), sender, to, amount)
      ensures events == old(events) + [Transferred(sender, to, amount)]
    {
      var senderBalance := BalanceOf(balances, sender);
      var receiverBalance := BalanceOf(balances, to);
      var updateSender := SaturatingSub(senderBalance, amount);
      var updateTo := SaturatingAdd(receiverBalance, amount);
      balances := balances[sender := updateSender];
      balances := balances[to := updateTo];
      events := events + [Transferred(sender, to, amount)];
    }
  }
}
