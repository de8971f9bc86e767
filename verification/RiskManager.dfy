/** Fly-computed positions, profit and loss, and drawdown of one client. */
module RiskManager {
  import opened Rounding

  datatype Side = FLAT | BUY | SELL

  datatype Fill = Fill(side: Side, qty: int, price: real)

  predicate Genuine(f: Fill) { f.side != FLAT && f.qty > 0 }

  /** Bought units count up, sold units down. */
  function Signed(side: Side, qty: int): int { match side case FLAT => 0 case BUY => qty case SELL => -qty }

  function Value(units: int, price: real): real { units as real * price }

  // ---------------------------------------------------------------- the ledger, the reference

  function Cash(f: Fill): real { -Value(Signed(f.side, f.qty), f.price) }

  /** Money received minus money paid. */
  function CashFlow(fills: seq<Fill>): real {
    if fills == [] then 0.0 else CashFlow(fills[..|fills| - 1]) + Cash(fills[|fills| - 1])
  }

  /** Units bought minus units sold. */
  function Net(fills: seq<Fill>): int {
    if fills == [] then 0 else Net(fills[..|fills| - 1]) + Signed(fills[|fills| - 1].side, fills[|fills| - 1].qty)
  }

  /** What the fills are worth when the open units are valued at `mark`. */
  function Worth(fills: seq<Fill>, mark: real): real { CashFlow(fills) + Value(Net(fills), mark) }

  lemma {:induction false} LedgerConcat(a: seq<Fill>, b: seq<Fill>)
    ensures CashFlow(a + b) == CashFlow(a) + CashFlow(b) && Net(a + b) == Net(a) + Net(b)
  {
    hide Cash;
    if b == [] {
      assert a + b == a;
    } else {
      LedgerConcat(a, b[..|b| - 1]);
      assert (a + b)[..|a + b| - 1] == a + b[..|b| - 1];
    }
  }

  lemma LedgerSingle(f: Fill)
    ensures CashFlow([f]) == Cash(f) && Net([f]) == Signed(f.side, f.qty)
  {
    hide Cash;
    assert [f][..0] == [];
  }

  lemma LedgerWithout(b: seq<Fill>, i: nat)
    requires i < |b|
    ensures var b' := b[..i] + b[i + 1..];
            CashFlow(b) == CashFlow(b') + Cash(b[i]) && Net(b) == Net(b') + Signed(b[i].side, b[i].qty)
  {
    hide CashFlow, Net, Cash, Signed;
    assert b == b[..i] + ([b[i]] + b[i + 1..]);
    LedgerConcat(b[..i], [b[i]] + b[i + 1..]);
    LedgerConcat([b[i]], b[i + 1..]);
    LedgerConcat(b[..i], b[i + 1..]);
    LedgerSingle(b[i]);
  }

  lemma Drop(b: seq<Fill>, i: nat)
    requires i < |b|
    ensures multiset(b[..i] + b[i + 1..]) == multiset(b) - multiset{b[i]}
  {
    assert b == b[..i] + [b[i]] + b[i + 1..];
  }

  lemma Without(a: seq<Fill>, b: seq<Fill>) returns (i: nat)
    requires a != [] && multiset(a) == multiset(b)
    ensures i < |b| && b[i] == a[|a| - 1]
    ensures multiset(a[..|a| - 1]) == multiset(b[..i] + b[i + 1..])
  {
    var f := a[|a| - 1];
    assert f in multiset(b);
    i :| 0 <= i < |b| && b[i] == f;
    Drop(a, |a| - 1);
    Drop(b, i);
    assert a[..|a| - 1] + a[|a|..] == a[..|a| - 1];
  }

  /** Valued at the same mark, the order of the fills does not matter. */
  lemma {:induction false} OrderIrrelevant(a: seq<Fill>, b: seq<Fill>, mark: real)
    requires multiset(a) == multiset(b)
    ensures Worth(a, mark) == Worth(b, mark)
    ensures CashFlow(a) == CashFlow(b) && Net(a) == Net(b)
  {
    hide Cash, Value, Signed;
    if a == [] {
      assert |multiset(b)| == 0;
    } else {
      var i := Without(a, b);
      OrderIrrelevant(a[..|a| - 1], b[..i] + b[i + 1..], mark);
      LedgerWithout(b, i);
    }
  }

  // ---------------------------------------------------------------- the record

  class PositionRecord {
    var qty: int
    var avgEntry: real
    var side: Side
    var lastPrice: real
    var unrealised: real
    var realised: real
    ghost var fills: seq<Fill>

    constructor ()
      ensures Valid() && fills == [] && qty == 0 && lastPrice == 0.0 && realised == 0.0
    {
      qty, avgEntry, side, lastPrice, unrealised, realised, fills := 0, 0.0, FLAT, 0.0, 0.0, 0.0, [];
    }

    /** The record against the ledger: the open units are the net of the fills, and what is realised, less what the
        open units cost, is the cash that changed hands. */
    ghost predicate Valid()
      reads this
    {
      qty >= 0 && (qty == 0 <==> side == FLAT)
      && Signed(side, qty) == Net(fills)
      && realised - Value(Signed(side, qty), avgEntry) == CashFlow(fills)
      && unrealised == Value(Signed(side, qty), lastPrice) - Value(Signed(side, qty), avgEntry)
    }

    /** With Valid, the clauses on what stays the same leave no freedom: an opening or growing fill realises nothing,
        a reducing fill keeps the average, a reversal opens at the fill's price. */
    method ApplyFill(f: Fill)
      requires Valid() && Genuine(f)
      modifies this
      ensures Valid() && fills == old(fills) + [f] && lastPrice == f.price
      ensures realised + unrealised == Worth(fills, f.price)
      ensures old(side) in {FLAT, f.side} ==> realised == old(realised) && side == f.side && qty == old(qty) + f.qty
      ensures old(side) !in {FLAT, f.side} && f.qty < old(qty) ==>
          avgEntry == old(avgEntry) && side == old(side) && qty == old(qty) - f.qty
      ensures old(side) !in {FLAT, f.side} && f.qty == old(qty) ==> avgEntry == 0.0 && side == FLAT
      ensures old(side) !in {FLAT, f.side} && f.qty > old(qty) ==>
          avgEntry == f.price && side == f.side && qty == f.qty - old(qty)
    {
      hide CashFlow, Net, Value, PnlOn, Blend;
      LedgerConcat(fills, [f]);
      LedgerSingle(f);
      if qty == 0 {
        Nothing(avgEntry);
        qty, avgEntry, side := f.qty, f.price, f.side;
      } else if f.side == side {
        BlendCost(side, avgEntry, qty, f.price, f.qty);
        qty, avgEntry := qty + f.qty, Blend(avgEntry, qty, f.price, f.qty);
      } else {
        var closeQty := if f.qty < qty then f.qty else qty;
        CloseOut(side, qty, closeQty, f.qty, avgEntry, f.price);
        Nothing(avgEntry);
        Nothing(0.0);
        Nothing(f.price);
        realised := realised + PnlOn(side, avgEntry, f.price, closeQty);
        qty := qty - closeQty;
        if qty == 0 {
          avgEntry, side := 0.0, FLAT;
        }
        if f.qty > closeQty {
          qty, avgEntry, side := f.qty - closeQty, f.price, f.side;
        }
      }
      lastPrice := f.price;
      unrealised := ComputeUnrealised();
      fills := fills + [f];
    }

    method UpdateMark(mark: real)
      requires Valid()
      modifies this`lastPrice, this`unrealised
      ensures Valid() && lastPrice == mark
      ensures realised + unrealised == Worth(fills, mark)
    {
      hide CashFlow, Net, Value, PnlOn;
      lastPrice := mark;
      unrealised := ComputeUnrealised();
    }

    method ComputeUnrealised() returns (u: real)
      requires qty == 0 <==> side == FLAT
      ensures u == Value(Signed(side, qty), lastPrice) - Value(Signed(side, qty), avgEntry)
    {
      return if qty == 0 then 0.0 else PnlOn(side, avgEntry, lastPrice, qty);
    }

    /** At every moment of every run. */
    lemma Conserved()
      requires Valid()
      ensures realised + unrealised == Worth(fills, lastPrice)
    {
    }
  }

  /** Profit on `units` held on a side from one price to another. */
  function PnlOn(side: Side, from: real, to: real, units: int): (p: real)
    ensures side != FLAT ==> p == Value(Signed(side, units), to) - Value(Signed(side, units), from)
  {
    if side == BUY then (to - from) * units as real else (from - to) * units as real
  }

  /** The average price after adding to a position. */
  function Blend(avg: real, qty: int, price: real, more: int): real
    requires qty + more > 0
  {
    (avg * qty as real + price * more as real) / (qty + more) as real
  }

  lemma BlendCost(side: Side, avg: real, qty: int, price: real, more: int)
    requires qty + more > 0
    ensures Value(Signed(side, qty + more), Blend(avg, qty, price, more))
         == Value(Signed(side, qty), avg) + Value(Signed(side, more), price)
  {
    var b := Blend(avg, qty, price, more);
    assert b * (qty + more) as real == avg * qty as real + price * more as real;
  }

  lemma Nothing(price: real)
    ensures Value(0, price) == 0.0
  {
  }

  lemma CloseOut(side: Side, qty: int, close: int, filled: int, avg: real, price: real)
    ensures Value(Signed(side, qty - close), avg) == Value(Signed(side, qty), avg) - Value(Signed(side, close), avg)
    ensures var other := if side == BUY then SELL else BUY;
            side != FLAT ==>
              Value(Signed(other, filled - close), price)
              == Value(Signed(other, filled), price) + Value(Signed(side, close), price)
  {
  }

  // ---------------------------------------------------------------- the client

  ghost function TotalWorth(ps: seq<PositionRecord>): real
    reads ps
  {
    if ps == [] then 0.0 else TotalWorth(ps[..|ps| - 1]) + Worth(ps[|ps| - 1].fills, ps[|ps| - 1].lastPrice)
  }

  /** The total is a sum: it adds up over any split, and over one position is its ledger's worth. */
  lemma {:induction false} TotalAdds(a: seq<PositionRecord>, b: seq<PositionRecord>, p: PositionRecord)
    ensures TotalWorth(a + b) == TotalWorth(a) + TotalWorth(b)
    ensures TotalWorth([p]) == Worth(p.fills, p.lastPrice)
  {
    hide Worth;
    assert [p][..0] == [];
    assert TotalWorth([p]) == TotalWorth([]) + Worth(p.fills, p.lastPrice);
    if b == [] {
      assert a + b == a;
    } else {
      var m := |b| - 1;
      TotalAdds(a, b[..m], p);
      assert (a + b)[..|a + b| - 1] == a + b[..m] && (a + b)[|a + b| - 1] == b[m];
    }
  }

  method NetMtm(ps: seq<PositionRecord>) returns (m: real)
    requires forall i :: 0 <= i < |ps| ==> ps[i].Valid()
    ensures m == TotalWorth(ps)
  {
    hide CashFlow, Net;
    m := 0.0;
    var i := 0;
    while i < |ps|
      invariant 0 <= i <= |ps| && m == TotalWorth(ps[..i])
    {
      ps[i].Conserved();
      assert ps[..i + 1][..i] == ps[..i];
      m := m + ps[i].unrealised + ps[i].realised;
      i := i + 1;
    }
    assert ps[..|ps|] == ps;
  }

  class ClientRiskState {
    const capital: real
    var peakEquity: real
    var drawdownPct: real
    ghost var equities: seq<real>

    constructor (capital: real)
      ensures Valid() && this.capital == capital && equities == [] && drawdownPct == 0.0
    {
      this.capital, peakEquity, drawdownPct, equities := capital, capital, 0.0, [];
    }

    /** The peak is the largest of the starting capital and every equity checked. */
    ghost predicate Valid()
      reads this
    {
      peakEquity >= capital && (forall i :: 0 <= i < |equities| ==> equities[i] <= peakEquity)
      && (peakEquity == capital || peakEquity in equities)
    }

    method UpdateDrawdown(ps: seq<PositionRecord>)
      requires Valid() && forall i :: 0 <= i < |ps| ==> ps[i].Valid()
      modifies this
      ensures Valid() && equities == old(equities) + [capital + TotalWorth(ps)]
      ensures capital > 0.0 ==>
        var exact := (peakEquity - equities[|equities| - 1]) / capital * 100.0;
        exact >= 0.0 && exact - 0.0005 <= drawdownPct <= exact + 0.0005
      ensures capital <= 0.0 ==> drawdownPct == 0.0
    {
      hide CashFlow, Net, Value, RoundTo;
      var mtm := NetMtm(ps);
      var eq := capital + mtm;
      if eq > peakEquity {
        peakEquity := eq;
      }
      var dd := if capital != 0.0 then (peakEquity - eq) / capital * 100.0 else 0.0;
      if capital != 0.0 {
        ShareSign(peakEquity - eq, capital);
      }
      RoundToExact(0.0, 0.001, 0);
      drawdownPct := RoundTo(if dd > 0.0 then dd else 0.0, 0.001);
      equities := equities + [eq];
    }
  }

  lemma ShareSign(x: real, d: real)
    requires x >= 0.0 && d != 0.0
    ensures d > 0.0 ==> x / d >= 0.0
    ensures d < 0.0 ==> x / d <= 0.0
  {
    var q := x / d;
    assert q * d == x;
    if d > 0.0 {
      assert q < 0.0 ==> -q * d > 0.0;
    } else {
      assert q > 0.0 ==> q * -d > 0.0;
    }
  }
}
