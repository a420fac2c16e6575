/** Price-time priority, against a definition that has no loop: what each resting order
    gets depends only on the quantity queued ahead of it. */
module PriceTime {
  import opened Types
  import opened Orders
  import opened Messages
  import opened Matching

  function Minus(a: nat, b: nat): nat {
    if a <= b then 0 else a - b
  }

  /** The share of the i-th order: what the orders ahead of it leave, up to its quantity. */
  function Share(a: Aggressor, xs: seq<Order<Owner>>, leaves: nat, i: nat): nat
    requires i < |xs|
  {
    if Crosses(a.side, a.price, xs[i].price) then Min(xs[i].qty, Minus(leaves, SumQty(xs[..i]))) else 0
  }

  function Shares(a: Aggressor, xs: seq<Order<Owner>>, leaves: nat): (r: seq<nat>) {
    seq(|xs|, i requires 0 <= i < |xs| => Share(a, xs, leaves, i))
  }

  function Sum(s: seq<nat>): nat {
    if s == [] then 0 else s[0] + Sum(s[1..])
  }

  ghost predicate Covers(xs: seq<Order<Owner>>, shares: seq<nat>) {
    |shares| == |xs| && forall i :: 0 <= i < |xs| ==> shares[i] <= xs[i].qty
  }

  /** The orders that remain once each has given its share. */
  ghost function Left(xs: seq<Order<Owner>>, shares: seq<nat>): seq<Order<Owner>>
    requires Covers(xs, shares)
  {
    if xs == [] then []
    else (if shares[0] == xs[0].qty then [] else [xs[0].(qty := xs[0].qty - shares[0])]) + Left(xs[1..], shares[1..])
  }

  ghost function TradesFor(a: Aggressor, xs: seq<Order<Owner>>, shares: seq<nat>): seq<MarketUpdate>
    requires Covers(xs, shares)
  {
    if xs == [] then []
    else
      (if shares[0] == 0 then [] else [Trade(a.ticker, a.side, xs[0].price, shares[0])])
      + TradesFor(a, xs[1..], shares[1..])
  }

  ghost function TradesIn(us: seq<MarketUpdate>): seq<MarketUpdate> {
    if us == [] then [] else (if us[0].Trade? then [us[0]] else []) + TradesIn(us[1..])
  }

  lemma {:induction false} NoShares(a: Aggressor, xs: seq<Order<Owner>>, leaves: nat)
    requires Sorted(Opposite(a.side), xs)
    requires leaves == 0 || xs == [] || !Crosses(a.side, a.price, xs[0].price)
    ensures Shares(a, xs, leaves) == seq(|xs|, _ => 0)
  {
  }

  lemma {:induction false} NothingGiven(a: Aggressor, xs: seq<Order<Owner>>)
    requires forall x :: x in xs ==> 0 < x.qty
    ensures var none := seq(|xs|, _ => 0);
      Covers(xs, none) && Left(xs, none) == xs && TradesFor(a, xs, none) == [] && Sum(none) == 0
  {
    if xs != [] {
      NothingGiven(a, xs[1..]);
      assert seq(|xs|, _ => 0)[1..] == seq(|xs| - 1, _ => 0);
      assert xs[0] in xs;
    }
  }

  lemma {:induction false} SharesOfTail(a: Aggressor, xs: seq<Order<Owner>>, leaves: nat)
    requires xs != [] && Crosses(a.side, a.price, xs[0].price)
    ensures Shares(a, xs, leaves)[0] == Min(xs[0].qty, leaves)
    ensures Shares(a, xs, leaves)[1..] == Shares(a, xs[1..], leaves - Min(xs[0].qty, leaves))
  {
    forall i | 0 <= i < |xs| - 1
      ensures SumQty(xs[..i + 1]) == xs[0].qty + SumQty(xs[1..][..i])
    {
      assert xs[..i + 1][1..] == xs[1..][..i];
    }
  }

  lemma {:induction false} ShareCovers(a: Aggressor, xs: seq<Order<Owner>>, leaves: nat)
    ensures Covers(xs, Shares(a, xs, leaves))
  {
  }

  lemma {:induction false} TradesSplit(us: seq<MarketUpdate>, vs: seq<MarketUpdate>)
    ensures TradesIn(us + vs) == TradesIn(us) + TradesIn(vs)
  {
    if us == [] {
      assert us + vs == vs;
    } else {
      var first := if us[0].Trade? then [us[0]] else [];
      calc {
        TradesIn(us + vs);
        { assert (us + vs)[0] == us[0] && (us + vs)[1..] == us[1..] + vs; }
        first + TradesIn(us[1..] + vs);
        { TradesSplit(us[1..], vs); }
        first + (TradesIn(us[1..]) + TradesIn(vs));
        (first + TradesIn(us[1..])) + TradesIn(vs);
        TradesIn(us) + TradesIn(vs);
      }
    }
  }

  lemma {:induction false} TradeOfFill(a: Aggressor, o: Order<Owner>, fill: nat)
    requires fill <= o.qty
    ensures TradesIn(FillUpdates(a, o, fill)) == [Trade(a.ticker, a.side, o.price, fill)]
  {
    var us := FillUpdates(a, o, fill);
    assert TradesIn(us[1..]) == TradesIn(us[1..][1..]) == [];
  }

  ghost predicate GivesShares(a: Aggressor, xs: seq<Order<Owner>>, leaves: nat) {
    var m, shares := Match(a, xs, leaves), Shares(a, xs, leaves);
    && Covers(xs, shares)
    && m.rest == Left(xs, shares)
    && m.leaves + Sum(shares) == leaves
    && TradesIn(m.updates) == TradesFor(a, xs, shares)
  }

  /** The matching loop gives every resting order exactly its share. */
  lemma {:induction false} MatchGivesShares(a: Aggressor, xs: seq<Order<Owner>>, leaves: nat)
    requires Sorted(Opposite(a.side), xs)
    ensures GivesShares(a, xs, leaves)
  {
    if leaves == 0 || xs == [] || !Crosses(a.side, a.price, xs[0].price) {
      NoShares(a, xs, leaves);
      NothingGiven(a, xs);
    } else {
      var fill := Min(leaves, xs[0].qty);
      MatchGivesShares(a, xs[1..], leaves - fill);
      OneMoreShare(a, xs, leaves);
    }
  }

  lemma {:induction false} FirstShare(a: Aggressor, xs: seq<Order<Owner>>, fill: nat, rest: seq<nat>)
    requires xs != [] && Covers(xs, [fill] + rest)
    ensures Covers(xs[1..], rest) && Sum([fill] + rest) == fill + Sum(rest)
    ensures Left(xs, [fill] + rest)
      == (if fill == xs[0].qty then [] else [xs[0].(qty := xs[0].qty - fill)]) + Left(xs[1..], rest)
    ensures TradesFor(a, xs, [fill] + rest) ==
      (if fill == 0 then [] else [Trade(a.ticker, a.side, xs[0].price, fill)]) + TradesFor(a, xs[1..], rest)
  {
  }

  lemma {:induction false} OneMoreShare(a: Aggressor, xs: seq<Order<Owner>>, leaves: nat)
    requires 0 < leaves && xs != [] && 0 < xs[0].qty && Crosses(a.side, a.price, xs[0].price)
    requires GivesShares(a, xs[1..], leaves - Min(leaves, xs[0].qty))
    ensures GivesShares(a, xs, leaves)
  {
    hide Shares, FillUpdates, FillResponses, Left, TradesFor, Sum, Covers;
    var fill := Min(leaves, xs[0].qty);
    SharesOfTail(a, xs, leaves);
    ShareCovers(a, xs, leaves);
    var shares, rest := Shares(a, xs, leaves), Shares(a, xs[1..], leaves - fill);
    SharesLength(a, xs, leaves);
    assert shares == [fill] + rest;
    FirstShare(a, xs, fill, rest);
    TradeOfFill(a, xs[0], fill);
    var t := Match(a, xs[1..], leaves - fill);
    TradesSplit(FillUpdates(a, xs[0], fill), t.updates);
    assert fill < xs[0].qty ==> TradesIn(t.updates) == [];
  }

  lemma {:induction false} SharesLength(a: Aggressor, xs: seq<Order<Owner>>, leaves: nat)
    ensures |Shares(a, xs, leaves)| == |xs|
  {
  }

  /** A prefix of the side in price-time order trades, within the limit, and every order
      that trades is consumed completely except possibly the last one. */
  lemma {:induction false} PriceTimePriority(a: Aggressor, xs: seq<Order<Owner>>, leaves: nat, i: nat, j: nat)
    requires Sorted(Opposite(a.side), xs) && i < j < |xs|
    ensures var shares := Shares(a, xs, leaves);
      && (0 < shares[j] ==> shares[i] == xs[i].qty)
      && (0 < shares[i] ==> Crosses(a.side, a.price, xs[i].price))
      && (0 < Match(a, xs, leaves).leaves && Crosses(a.side, a.price, xs[i].price) ==> shares[i] == xs[i].qty)
  {
    assert Before(Opposite(a.side), xs[i], xs[j]);
    SumSplits(xs[..i], xs[i..j]);
    assert xs[..j] == xs[..i] + xs[i..j] && SumQty(xs[i..j]) >= xs[i].qty;
    if 0 < Match(a, xs, leaves).leaves && Crosses(a.side, a.price, xs[i].price) {
      LeftoverMeansEnough(a, xs, leaves, i);
    }
  }

  /** Nobody trades beyond the limit; and when quantity is left over, everyone within it has given
      everything. */
  lemma {:induction false} WithinLimit(a: Aggressor, xs: seq<Order<Owner>>, leaves: nat, i: nat)
    requires Sorted(Opposite(a.side), xs) && i < |xs|
    ensures var shares := Shares(a, xs, leaves);
      var within := if a.side.Buy? then xs[i].price <= a.price else a.price <= xs[i].price;
      (0 < shares[i] ==> within) && (within && 0 < Match(a, xs, leaves).leaves ==> shares[i] == xs[i].qty)
  {
    if 0 < Match(a, xs, leaves).leaves && Crosses(a.side, a.price, xs[i].price) {
      LeftoverMeansEnough(a, xs, leaves, i);
    }
  }

  lemma {:induction false} LeftoverMeansEnough(a: Aggressor, xs: seq<Order<Owner>>, leaves: nat, i: nat)
    requires Sorted(Opposite(a.side), xs) && i < |xs| && 0 < Match(a, xs, leaves).leaves
    requires Crosses(a.side, a.price, xs[i].price)
    ensures SumQty(xs[..i]) + xs[i].qty <= leaves
  {
    assert i > 0 ==> Before(Opposite(a.side), xs[0], xs[i]);
    if i > 0 {
      LeftoverMeansEnough(a, xs[1..], leaves - xs[0].qty, i - 1);
      assert xs[..i][1..] == xs[1..][..i - 1];
    }
  }
}
