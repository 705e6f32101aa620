/** What a sequence of fills does to a position's money
    (crates/ssm-engine/src/core.rs:107-215). */
module CashFlow {
  import opened Domain
  import opened CoreEngine

  /** The position after a sequence of fills, with the given rounding errors of the
      average entry (one per fill, used only by the fills that add). */
  function RunRounded(symbol: Symbol, fills: seq<Fill>, rounding: seq<real>): Position
    requires |rounding| == |fills| && (forall k :: 0 <= k < |fills| ==> fills[k].quantity > 0.0)
  {
    if fills == [] then Empty(symbol)
    else ApplyFill(RunRounded(symbol, Front(fills), Front(rounding)), Last(fills), Last(rounding)).0
  }

  function Exact(n: nat): seq<real> {
    seq(n, _ => 0.0)
  }

  function Run(symbol: Symbol, fills: seq<Fill>): Position
    requires forall k :: 0 <= k < |fills| ==> fills[k].quantity > 0.0
  {
    RunRounded(symbol, fills, Exact(|fills|))
  }

  /** What one fill is worth when the market stands at `m`. */
  function CashOf(f: Fill, m: real): real {
    f.Signed() * (m - f.price)
  }

  /** What buying and selling at the fill prices is worth when the market stands at `m`. */
  function CashValue(fills: seq<Fill>, m: real): real {
    if fills == [] then 0.0
    else CashValue(Front(fills), m) + CashOf(Last(fills), m)
  }

  function NetQuantity(fills: seq<Fill>): real {
    if fills == [] then 0.0 else NetQuantity(Front(fills)) + Last(fills).Signed()
  }

  /** Realised profit plus the open quantity valued at `m`. */
  function BookValue(p: Position, m: real): real {
    p.realizedPnl + p.Signed() * (m - p.entryPrice)
  }

  /** How much a fill's rounding moves the book: it matters only when the fill adds. */
  function PostAddQuantity(p: Position, f: Fill): real {
    if p.IsOpen() && p.side == f.side then p.quantity + f.quantity else 0.0
  }

  predicate Normal(p: Position) {
    p.quantity >= 0.0
  }

  lemma AverageTimesQuantity(a: real, q: real)
    requires q != 0.0
    ensures (a / q) * q == a
  {
  }

  lemma AddToBook(p: Position, f: Fill, rounding: real, m: real)
    requires f.quantity > 0.0 && p.IsOpen() && p.side == f.side
    ensures var p' := ApplyFill(p, f, rounding).0;
      BookValue(p', m) == BookValue(p, m) + CashOf(f, m)
                          - Sign(p.side) * (PostAddQuantity(p, f) * rounding)
  {
    var q := p.quantity + f.quantity;
    var cost := p.entryPrice * p.quantity + f.price * f.quantity;
    AverageTimesQuantity(cost, q);
    var p' := ApplyFill(p, f, rounding).0;
    assert p'.entryPrice * q == cost + rounding * q;
    assert q * (m - p'.entryPrice) == q * m - p'.entryPrice * q;
  }

  lemma ReduceBook(p: Position, f: Fill, m: real)
    requires f.quantity > 0.0 && p.IsOpen() && p.side != f.side
    ensures var p' := ApplyFill(p, f).0;
      BookValue(p', m) == BookValue(p, m) + CashOf(f, m) && Normal(p')
  {
    var closeQty := Min(f.quantity, p.quantity);
    var left, remainder := p.quantity - closeQty, f.quantity - closeQty;
    var u := PnlPerUnit(p.side, p.entryPrice, f.price);
    assert closeQty * (m - p.entryPrice) + left * (m - p.entryPrice) == p.quantity * (m - p.entryPrice);
    assert closeQty * (m - f.price) + remainder * (m - f.price) == f.quantity * (m - f.price);
    assert u * closeQty == Sign(p.side) * (closeQty * (m - p.entryPrice) - closeQty * (m - f.price));
  }

  lemma FillMovesBook(p: Position, f: Fill, rounding: real, m: real)
    requires f.quantity > 0.0 && Normal(p)
    ensures var p' := ApplyFill(p, f, rounding).0;
      && Normal(p')
      && p'.Signed() == p.Signed() + f.Signed()
      && BookValue(p', m) == BookValue(p, m) + CashOf(f, m)
                             - Sign(p.side) * (PostAddQuantity(p, f) * rounding)
  {
    if p.IsOpen() && p.side == f.side {
      AddToBook(p, f, rounding, m);
    } else if p.IsOpen() {
      ReduceBook(p, f, m);
    }
  }

  lemma ExactFillMovesBook(p: Position, f: Fill, m: real)
    requires f.quantity > 0.0 && Normal(p)
    ensures var p' := ApplyFill(p, f).0;
      && Normal(p')
      && p'.Signed() == p.Signed() + f.Signed()
      && BookValue(p', m) == BookValue(p, m) + CashOf(f, m)
  {
    FillMovesBook(p, f, 0.0, m);
  }

  lemma RunSnoc(symbol: Symbol, fills: seq<Fill>)
    requires fills != [] && (forall k :: 0 <= k < |fills| ==> fills[k].quantity > 0.0)
    ensures Run(symbol, fills) == ApplyFill(Run(symbol, Front(fills)), Last(fills)).0
  {
    assert Front(Exact(|fills|)) == Exact(|fills| - 1);
  }

  /** Conservation of cash: for every mark price, realised profit plus the marked open
      quantity is what all fills together earned, and quantities add up. */
  lemma {:induction false} CashIsConserved(symbol: Symbol, fills: seq<Fill>, m: real)
    requires forall k :: 0 <= k < |fills| ==> fills[k].quantity > 0.0
    ensures var p := Run(symbol, fills);
      && Normal(p)
      && p.Signed() == NetQuantity(fills)
      && BookValue(p, m) == CashValue(fills, m)
  {
    if fills != [] {
      CashIsConserved(symbol, Front(fills), m);
      RunSnoc(symbol, fills);
      ExactFillMovesBook(Run(symbol, Front(fills)), Last(fills), m);
    }
  }

  function Scaled(factor: real, amount: real): real {
    factor * amount
  }

  /** Sum of the quantities held right after each adding fill. */
  function PostAddTotal(symbol: Symbol, fills: seq<Fill>, rounding: seq<real>): real
    requires |rounding| == |fills| && (forall k :: 0 <= k < |fills| ==> fills[k].quantity > 0.0)
  {
    if fills == [] then 0.0
    else
      var p := RunRounded(symbol, Front(fills), Front(rounding));
      PostAddTotal(symbol, Front(fills), Front(rounding)) + PostAddQuantity(p, Last(fills))
  }

  lemma ScaledError(q: real, e: real, bound: real)
    requires 0.0 <= q && Abs(e) <= bound
    ensures Abs(q * e) <= bound * q
  {
    if e >= 0.0 {
      assert q * e <= q * bound;
    } else {
      assert q * -e <= q * bound;
    }
  }

  /** With each average entry off by at most `epsilon`, the identity drifts by at most
      `epsilon` times the sum of the post-add quantities. */
  lemma {:induction false} RoundingDriftIsBounded(
      symbol: Symbol, fills: seq<Fill>, rounding: seq<real>, epsilon: real, m: real)
    requires |rounding| == |fills| && (forall k :: 0 <= k < |fills| ==> fills[k].quantity > 0.0)
    requires forall k :: 0 <= k < |fills| ==> Abs(rounding[k]) <= epsilon
    ensures var p := RunRounded(symbol, fills, rounding);
      && Normal(p)
      && p.Signed() == NetQuantity(fills)
      && Abs(BookValue(p, m) - CashValue(fills, m)) <= Scaled(epsilon, PostAddTotal(symbol, fills, rounding))
  {
    if fills == [] {
    } else {
      RoundingDriftIsBounded(symbol, Front(fills), Front(rounding), epsilon, m);
      var p := RunRounded(symbol, Front(fills), Front(rounding));
      var cash, total := CashValue(Front(fills), m), PostAddTotal(symbol, Front(fills), Front(rounding));
      DriftStep(p, Last(fills), Last(rounding), epsilon, m, cash, total);
      assert PostAddTotal(symbol, fills, rounding) == total + PostAddQuantity(p, Last(fills));
    }
  }

  lemma DriftStep(p: Position, f: Fill, rounding: real, epsilon: real, m: real, cash: real, total: real)
    requires f.quantity > 0.0 && Normal(p) && Abs(rounding) <= epsilon
    requires Abs(BookValue(p, m) - cash) <= Scaled(epsilon, total)
    ensures var p' := ApplyFill(p, f, rounding).0;
      && Normal(p')
      && p'.Signed() == p.Signed() + f.Signed()
      && Abs(BookValue(p', m) - (cash + CashOf(f, m)))
           <= Scaled(epsilon, total + PostAddQuantity(p, f))
  {
    FillMovesBook(p, f, rounding, m);
    var added := PostAddQuantity(p, f);
    ScaledError(added, rounding, epsilon);
    DriftArithmetic(BookValue(p, m) - cash, Sign(p.side), added * rounding, epsilon, total, added);
  }

  lemma DriftArithmetic(gap: real, sign: real, error: real, epsilon: real, total: real, added: real)
    requires Abs(gap) <= epsilon * total && Abs(error) <= epsilon * added
    requires sign == 1.0 || sign == -1.0
    ensures Abs(gap - sign * error) <= epsilon * (total + added)
  {
    assert epsilon * (total + added) == epsilon * total + epsilon * added;
  }

  // ---------------------------------------------------------------------
  // The entry price
  // ---------------------------------------------------------------------

  /** The fills since the position was last opened or flipped, that fill included. */
  function SinceOpen(symbol: Symbol, fills: seq<Fill>): seq<Fill>
    requires forall k :: 0 <= k < |fills| ==> fills[k].quantity > 0.0
  {
    if fills == [] then []
    else
      var p := Run(symbol, Front(fills));
      var p' := ApplyFill(p, Last(fills)).0;
      if !p.IsOpen() || (p'.IsOpen() && p'.side != p.side) then [Last(fills)]
      else SinceOpen(symbol, Front(fills)) + [Last(fills)]
  }

  /** Some fill of `fills` was at or below `x` and some at or above. */
  ghost predicate WithinPrices(x: real, fills: seq<Fill>) {
    && (exists k :: 0 <= k < |fills| && fills[k].price <= x)
    && (exists k :: 0 <= k < |fills| && x <= fills[k].price)
  }

  lemma AverageIsBetween(p: Position, f: Fill)
    requires p.quantity > 0.0 && f.quantity > 0.0
    ensures Min(p.entryPrice, f.price) <= WeightedEntry(p, f) <= Max(p.entryPrice, f.price)
  {
    var q, r, x := p.quantity, f.quantity, WeightedEntry(p, f);
    AverageTimesQuantity(p.entryPrice * q + f.price * r, q + r);
    assert x * (q + r) == p.entryPrice * q + f.price * r;
    BetweenMeans(Min(p.entryPrice, f.price), p.entryPrice, f.price, q, r, x);
    BetweenMeans(-Max(p.entryPrice, f.price), -p.entryPrice, -f.price, q, r, -x);
  }

  lemma BetweenMeans(lo: real, a: real, b: real, q: real, r: real, x: real)
    requires q > 0.0 && r > 0.0 && lo <= a && lo <= b
    requires x * (q + r) == a * q + b * r
    ensures lo <= x
  {
    SignOfFactor(lo - x, q + r);
    SignOfFactor(lo - a, q);
    SignOfFactor(lo - b, r);
    assert (lo - x) * (q + r) == (lo - a) * q + (lo - b) * r;
  }

  lemma WithinPricesGrows(x: real, fills: seq<Fill>, f: Fill)
    requires WithinPrices(x, fills)
    ensures WithinPrices(x, fills + [f])
  {
    var k :| 0 <= k < |fills| && fills[k].price <= x;
    var m :| 0 <= m < |fills| && x <= fills[m].price;
    assert (fills + [f])[k].price <= x && x <= (fills + [f])[m].price;
  }

  /** While a position is open its entry price lies between the lowest and the highest
      price filled since it was opened or flipped. */
  lemma {:induction false} EntryWithinFillPrices(symbol: Symbol, fills: seq<Fill>)
    requires forall k :: 0 <= k < |fills| ==> fills[k].quantity > 0.0
    ensures Run(symbol, fills).IsOpen() ==>
      WithinPrices(Run(symbol, fills).entryPrice, SinceOpen(symbol, fills))
  {
    if fills != [] {
      EntryWithinFillPrices(symbol, Front(fills));
      RunSnoc(symbol, fills);
      var p, f := Run(symbol, Front(fills)), Last(fills);
      var p' := ApplyFill(p, f).0;
      var old_ := SinceOpen(symbol, Front(fills));
      if !p.IsOpen() || (p'.IsOpen() && p'.side != p.side) {
        assert [f][0].price == p'.entryPrice || !p'.IsOpen();
      } else if p.side == f.side {
        AddStaysWithin(p, f, old_);
      } else if p'.IsOpen() {
        WithinPricesGrows(p.entryPrice, old_, f);
      }
    }
  }

  lemma AddStaysWithin(p: Position, f: Fill, fills: seq<Fill>)
    requires f.quantity > 0.0 && p.IsOpen() && p.side == f.side && WithinPrices(p.entryPrice, fills)
    ensures WithinPrices(ApplyFill(p, f).0.entryPrice, fills + [f])
  {
    AverageIsBetween(p, f);
    BetweenStaysWithin(p.entryPrice, WeightedEntry(p, f), f, fills);
  }

  lemma BetweenStaysWithin(a: real, x: real, f: Fill, fills: seq<Fill>)
    requires WithinPrices(a, fills) && Min(a, f.price) <= x <= Max(a, f.price)
    ensures WithinPrices(x, fills + [f])
  {
    WithinPricesGrows(a, fills, f);
    var all := fills + [f];
    var k :| 0 <= k < |all| && all[k].price <= a;
    var m :| 0 <= m < |all| && a <= all[m].price;
    assert all[|fills|] == f;
    assert all[k].price <= x || all[|fills|].price <= x;
    assert x <= all[m].price || x <= all[|fills|].price;
  }

  /** Marked at `m`, a position's realized and unrealized profit together are what all its
      fills earned at that price. */
  lemma {:induction false} MarkedProfitIsCash(symbol: Symbol, fills: seq<Fill>, m: real)
    requires forall k :: 0 <= k < |fills| ==> fills[k].quantity > 0.0
    ensures var p := MarkToMarket(Run(symbol, fills), m);
      p.IsOpen() ==> p.realizedPnl + p.unrealizedPnl == CashValue(fills, m)
  {
    hide MarkToMarket, Run, CashValue, NetQuantity, Position.Signed;
    CashIsConserved(symbol, fills, m);
    MarkedIsBookValue(Run(symbol, fills), m);
  }

  lemma MarkedIsBookValue(p: Position, m: real)
    ensures var p' := MarkToMarket(p, m);
      && p' == p.(unrealizedPnl := p'.unrealizedPnl)
      && (p.IsOpen() ==> p'.unrealizedPnl == p.Signed() * (m - p.entryPrice))
      && (!p.IsOpen() ==> p' == p)
  {
  }
}
