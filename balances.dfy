/** The sign convention that turns directional money events into the pair of totals
    `willGive` (what the workspace owes the party) and `willGet` (what the party owes the workspace). */
module Balances {
  import opened Models

  datatype Bucket = WillGive | WillGet

  datatype Totals = Totals(willGive: real, willGet: real)

  const Zero: Totals := Totals(0.0, 0.0)

  /** The two-by-two table keyed by party type and direction: a customer's `gave` and a supplier's
      `got` are owed to the workspace; the other two are owed by it. */
  function BucketFor(ty: PartyType, d: Direction): (b: Bucket)
    ensures b == WillGet <==> (ty == Customer <==> d == Gave)
  {
    match ty
    case Customer => if d == Gave then WillGet else WillGive
    case Supplier => if d == Gave then WillGive else WillGet
  }

  /** Adds `amount` to one bucket of `tot` (the handlers' `totals.willGet += t.amount` and its mirror). */
  function Credit(tot: Totals, b: Bucket, amount: real): (r: Totals)
    ensures r.willGive + r.willGet == tot.willGive + tot.willGet + amount
  {
    match b
    case WillGive => tot.(willGive := tot.willGive + amount)
    case WillGet => tot.(willGet := tot.willGet + amount)
  }

  function Add(a: Totals, b: Totals): Totals {
    Totals(a.willGive + b.willGive, a.willGet + b.willGet)
  }

  /** Crediting one side of a sum credits the sum. */
  lemma AddCredit(a: Totals, c: Totals, b: Bucket, amount: real)
    ensures Add(Credit(a, b, amount), c) == Credit(Add(a, c), b, amount)
    ensures Add(c, Credit(a, b, amount)) == Credit(Add(c, a), b, amount)
  {
  }

  /** Sum of all amounts. */
  function AmountSum(txs: seq<Transaction>): real {
    if txs == [] then 0.0 else txs[0].amount + AmountSum(txs[1..])
  }

  /** The totals of a party of type `ty` over `txs`, each transaction credited to the bucket the table
      picks. Nothing is netted: the two totals together account for every amount exactly once. */
  function PartyBalance(ty: PartyType, txs: seq<Transaction>): (r: Totals)
    ensures r.willGive + r.willGet == AmountSum(txs)
  {
    if txs == [] then Zero
    else Credit(PartyBalance(ty, txs[1..]), BucketFor(ty, txs[0].direction), txs[0].amount)
  }

  /** Sum of the amounts of the transactions in direction `d`. */
  function DirectionSum(txs: seq<Transaction>, d: Direction): real {
    if txs == [] then 0.0
    else (if txs[0].direction == d then txs[0].amount else 0.0) + DirectionSum(txs[1..], d)
  }

  // ---------------------------------------------------------------- the accumulation, one event at a time

  /** Processing one more transaction credits exactly its amount to exactly one bucket. */
  lemma {:induction false} PartyBalanceAppend(ty: PartyType, txs: seq<Transaction>, t: Transaction)
    ensures PartyBalance(ty, txs + [t]) == Credit(PartyBalance(ty, txs), BucketFor(ty, t.direction), t.amount)
  {
    if txs != [] {
      assert (txs + [t])[1..] == txs[1..] + [t];
      PartyBalanceAppend(ty, txs[1..], t);
    }
  }

  /** Customer: a `gave` of amount A raises willGet by A and leaves willGive; a `got` raises willGive by A and leaves willGet. */
  lemma {:induction false} CustomerSignRule(txs: seq<Transaction>, t: Transaction)
    ensures var before, after := PartyBalance(Customer, txs), PartyBalance(Customer, txs + [t]);
      if t.direction == Gave then after == Totals(before.willGive, before.willGet + t.amount)
      else after == Totals(before.willGive + t.amount, before.willGet)
  {
    PartyBalanceAppend(Customer, txs, t);
  }

  /** Supplier (and any party that is not a customer): `gave` raises willGive, `got` raises willGet. */
  lemma {:induction false} SupplierSignRule(txs: seq<Transaction>, t: Transaction)
    ensures var before, after := PartyBalance(Supplier, txs), PartyBalance(Supplier, txs + [t]);
      if t.direction == Gave then after == Totals(before.willGive + t.amount, before.willGet)
      else after == Totals(before.willGive, before.willGet + t.amount)
  {
    PartyBalanceAppend(Supplier, txs, t);
  }

  // ---------------------------------------------------------------- closed forms

  /** Reference definition: each total is the sum over the transactions of one direction. */
  lemma {:induction false} PartyBalanceByDirection(ty: PartyType, txs: seq<Transaction>)
    ensures ty == Customer ==> PartyBalance(ty, txs) == Totals(DirectionSum(txs, Got), DirectionSum(txs, Gave))
    ensures ty == Supplier ==> PartyBalance(ty, txs) == Totals(DirectionSum(txs, Gave), DirectionSum(txs, Got))
  {
    if txs != [] {
      PartyBalanceByDirection(ty, txs[1..]);
    }
  }

  /** With positive amounts both totals are non-negative, and a non-empty history has a positive sum. */
  lemma {:induction false} PartyBalanceNonNegative(ty: PartyType, txs: seq<Transaction>)
    requires PositiveAmounts(txs)
    ensures PartyBalance(ty, txs).willGive >= 0.0 && PartyBalance(ty, txs).willGet >= 0.0
    ensures txs != [] ==> PartyBalance(ty, txs).willGive + PartyBalance(ty, txs).willGet > 0.0
  {
    if txs != [] {
      PartyBalanceNonNegative(ty, txs[1..]);
    }
  }

  // ---------------------------------------------------------------- order independence

  /** Taking the transaction at `k` out of the list takes exactly its credit out of the totals. */
  lemma {:induction false} PartyBalanceRemoveAt(ty: PartyType, txs: seq<Transaction>, k: nat)
    requires k < |txs|
    ensures PartyBalance(ty, txs)
         == Credit(PartyBalance(ty, txs[..k] + txs[k + 1..]), BucketFor(ty, txs[k].direction), txs[k].amount)
  {
    if k == 0 {
      assert txs[..k] + txs[k + 1..] == txs[1..];
    } else {
      var tail := txs[1..];
      PartyBalanceRemoveAt(ty, tail, k - 1);
      var shorter := tail[..k - 1] + tail[k..];
      assert txs[..k] + txs[k + 1..] == [txs[0]] + shorter;
      assert ([txs[0]] + shorter)[1..] == shorter;
    }
  }

  /** The totals depend only on the multiset of transactions, not on the order the store returns them in. */
  lemma {:induction false} PartyBalancePermutation(ty: PartyType, a: seq<Transaction>, b: seq<Transaction>)
    requires multiset(a) == multiset(b)
    ensures PartyBalance(ty, a) == PartyBalance(ty, b)
    decreases |a|
  {
    if a == [] {
      assert |b| == |multiset(b)| == 0;
    } else {
      var k := IndexOf(b, a[0]);
      var rest := b[..k] + b[k + 1..];
      SameRemainders(a, b, k);
      PartyBalancePermutation(ty, a[1..], rest);
      PartyBalanceRemoveAt(ty, b, k);
      assert PartyBalance(ty, a) == Credit(PartyBalance(ty, a[1..]), BucketFor(ty, a[0].direction), a[0].amount);
    }
  }

  /** A position of `x` in `s`, for an `x` that occurs in `s`. */
  function IndexOf(s: seq<Transaction>, x: Transaction): (k: nat)
    requires x in multiset(s)
    ensures k < |s| && s[k] == x
  {
    if s[0] == x then 0
    else
      assert s == [s[0]] + s[1..];
      1 + IndexOf(s[1..], x)
  }

  /** Removing the same element from two permutations of each other leaves permutations of each other. */
  lemma SameRemainders(a: seq<Transaction>, b: seq<Transaction>, k: nat)
    requires multiset(a) == multiset(b) && 0 < |a| && k < |b| && b[k] == a[0]
    ensures multiset(a[1..]) == multiset(b[..k] + b[k + 1..])
  {
    var rest := b[..k] + b[k + 1..];
    assert a == [a[0]] + a[1..];
    assert multiset(a) == multiset{a[0]} + multiset(a[1..]);
    assert b == b[..k] + [b[k]] + b[k + 1..];
    assert multiset(rest) == multiset(b[..k]) + multiset(b[k + 1..]);
    assert multiset(b) == multiset{a[0]} + multiset(rest);
    forall t ensures multiset(a[1..])[t] == multiset(rest)[t] {
      assert multiset(a)[t] == multiset{a[0]}[t] + multiset(a[1..])[t];
      assert multiset(b)[t] == multiset{a[0]}[t] + multiset(rest)[t];
    }
  }
}
