/**
 Weighted-average-cost position of one instrument, over exact reals.

 `Fill` gives the effect of one execution; the class `Tracker` updates its fields in place and is
 proved equal to it.  The theorems relate any sequence of fills to the cash it moved.
 */
module Position {

  datatype Side = Buy | Sell

  /** One execution: `px` and `sz` as parsed, `sz` strictly positive. */
  datatype Execution = Execution(side: Side, px: real, sz: real)

  datatype Book = Book(netQty: real, avgEntryPx: real, realizedPnl: real) {
    function UnrealizedPnl(mark: real): real {
      netQty * (mark - avgEntryPx)
    }
  }

  const FLAT := Book(0.0, 0.0, 0.0)

  function Abs(x: real): real {
    if x < 0.0 then -x else x
  }

  function Min(x: real, y: real): real {
    if x < y then x else y
  }

  function SignedQty(e: Execution): real {
    if e.side == Buy then e.sz else -e.sz
  }

  /** The average price of `held` units at `avg` joined by `sz` units at `px`. */
  function Blend(held: real, avg: real, sz: real, px: real): real
    requires held >= 0.0 && sz > 0.0
  {
    (held * avg + sz * px) / (held + sz)
  }

  /** Profit of closing `qty` units of a position long or short at `avg`. */
  function Gain(long: bool, avg: real, px: real, qty: real): real {
    (if long then px - avg else avg - px) * qty
  }

  /** The position after one execution. */
  function Fill(b: Book, e: Execution): Book
    requires e.sz > 0.0
  {
    var signed := SignedQty(e);
    var newQty := b.netQty + signed;
    if b.netQty == 0.0 || (b.netQty > 0.0) == (signed > 0.0) then
      b.(netQty := newQty,
         avgEntryPx := Blend(Abs(b.netQty), b.avgEntryPx, e.sz, e.px))
    else
      Book(newQty,
           if newQty == 0.0 then 0.0
           else if (newQty > 0.0) != (b.netQty > 0.0) then e.px
           else b.avgEntryPx,
           b.realizedPnl + Gain(b.netQty > 0.0, b.avgEntryPx, e.px, Min(e.sz, Abs(b.netQty))))
  }

  ghost predicate AllPositive(es: seq<Execution>) {
    forall i :: 0 <= i < |es| ==> es[i].sz > 0.0
  }

  /** `books[i]` is the position after the first `i` executions. */
  ghost predicate IsRun(books: seq<Book>, es: seq<Execution>) {
    && |books| == |es| + 1
    && AllPositive(es)
    && forall i :: 0 <= i < |es| ==> StepAt(books, es, i)
  }

  ghost predicate StepAt(books: seq<Book>, es: seq<Execution>, i: nat)
    requires |books| == |es| + 1 && i < |es| && AllPositive(es)
  {
    books[i + 1] == Fill(books[i], es[i])
  }

  lemma RunExtends(books: seq<Book>, es: seq<Execution>, e: Execution)
    requires IsRun(books, es) && e.sz > 0.0
    ensures IsRun(books + [Fill(books[|es|], e)], es + [e])
  {
    hide Fill;
    var more, all := books + [Fill(books[|es|], e)], es + [e];
    forall i | 0 <= i < |all| ensures StepAt(more, all, i) {
      assert i < |es| ==> StepAt(books, es, i);
    }
  }

  /** Money received minus money paid. */
  function CashFlow(es: seq<Execution>): real {
    if es == [] then 0.0
    else CashFlow(es[..|es| - 1]) - SignedQty(es[|es| - 1]) * es[|es| - 1].px
  }

  function NetQuantity(es: seq<Execution>): real {
    if es == [] then 0.0 else NetQuantity(es[..|es| - 1]) + SignedQty(es[|es| - 1])
  }

  /** Every branch of a fill moves `realized - net * avg` by exactly the cash it moved. */
  lemma FillConserves(b: Book, e: Execution)
    requires e.sz > 0.0
    ensures var c := Fill(b, e);
            && c.netQty == b.netQty + SignedQty(e)
            && c.realizedPnl - c.netQty * c.avgEntryPx
               == b.realizedPnl - b.netQty * b.avgEntryPx - SignedQty(e) * e.px
  {
    var held := Abs(b.netQty);
    if b.netQty == 0.0 || (b.netQty > 0.0) == (e.side == Buy) {
      assert (held + e.sz) * Blend(held, b.avgEntryPx, e.sz, e.px) == held * b.avgEntryPx + e.sz * e.px;
    }
  }

  lemma StepConserves(books: seq<Book>, es: seq<Execution>, i: nat)
    requires IsRun(books, es) && i < |es|
    ensures books[i + 1].netQty == books[i].netQty + SignedQty(es[i])
    ensures books[i + 1].realizedPnl - books[i + 1].netQty * books[i + 1].avgEntryPx
            == books[i].realizedPnl - books[i].netQty * books[i].avgEntryPx - SignedQty(es[i]) * es[i].px
  {
    assert StepAt(books, es, i);
    FillConserves(books[i], es[i]);
  }

  /**
   At every point of every run from flat, realised plus unrealised profit at any mark is the cash
   moved so far plus the value of what is held, through every open, add, close and flip.
   */
  lemma PnlConservation(books: seq<Book>, es: seq<Execution>, mark: real, i: nat)
    requires IsRun(books, es) && books[0] == FLAT && i <= |es|
    ensures books[i].netQty == NetQuantity(es[..i])
    ensures books[i].realizedPnl + books[i].UnrealizedPnl(mark)
            == CashFlow(es[..i]) + NetQuantity(es[..i]) * mark
  {
    CashBasis(books, es, i);
    assert books[i].UnrealizedPnl(mark) == books[i].netQty * mark - books[i].netQty * books[i].avgEntryPx;
  }

  lemma {:induction false} CashBasis(books: seq<Book>, es: seq<Execution>, i: nat)
    requires IsRun(books, es) && books[0] == FLAT && i <= |es|
    ensures books[i].netQty == NetQuantity(es[..i])
    ensures books[i].realizedPnl - books[i].netQty * books[i].avgEntryPx == CashFlow(es[..i])
  {
    if i != 0 {
      CashBasis(books, es, i - 1);
      StepConserves(books, es, i - 1);
      assert es[..i][..i - 1] == es[..i - 1];
    }
  }

  // How profit divides into realised and unrealised.

  /** The position grows: there is none yet, or the fill is on its side. */
  predicate Adds(net: real, signed: real) {
    net == 0.0 || (net > 0.0 && signed > 0.0) || (net < 0.0 && signed < 0.0)
  }

  /** The fill takes the position to the other side of zero. */
  predicate Crosses(net: real, signed: real) {
    (net > 0.0 && net + signed < 0.0) || (net < 0.0 && net + signed > 0.0)
  }

  lemma AddDivides(b: Book, e: Execution)
    requires e.sz > 0.0 && Adds(b.netQty, if e.side == Buy then e.sz else -e.sz)
    ensures var c, signed := Fill(b, e), if e.side == Buy then e.sz else -e.sz;
            c.netQty != 0.0 && c.realizedPnl == b.realizedPnl
            && c.netQty * c.avgEntryPx == b.netQty * b.avgEntryPx + signed * e.px
  {
    hide Blend;
    FillConserves(b, e);
  }

  lemma CloseDivides(b: Book, e: Execution)
    requires e.sz > 0.0 && !Adds(b.netQty, if e.side == Buy then e.sz else -e.sz)
    ensures var c, signed := Fill(b, e), if e.side == Buy then e.sz else -e.sz;
            && (c.netQty == 0.0 ==> c.avgEntryPx == 0.0)
            && (Crosses(b.netQty, signed) ==>
                  c.avgEntryPx == e.px && c.realizedPnl == b.realizedPnl + b.netQty * (e.px - b.avgEntryPx))
            && (!Crosses(b.netQty, signed) ==>
                  && c.realizedPnl == b.realizedPnl - signed * (e.px - b.avgEntryPx)
                  && (c.netQty != 0.0 ==> c.avgEntryPx == b.avgEntryPx))
  {
    hide Blend, Gain;
    var long, closed := b.netQty > 0.0, Min(e.sz, Abs(b.netQty));
    GainOf(long, b.avgEntryPx, e.px, closed);
  }

  lemma GainOf(long: bool, avg: real, px: real, qty: real)
    ensures Gain(long, avg, px, qty) == (if long then qty else -qty) * (px - avg)
  {
  }

  /**
   Adding realises nothing and weighs the price in by size; closing realises the closed size times its
   distance from the average, and moves the average only on a flip, to the price, or on going flat, to zero.
   */
  lemma FillDivides(b: Book, e: Execution)
    requires e.sz > 0.0 && (b.netQty == 0.0 ==> b.avgEntryPx == 0.0)
    ensures var c, signed := Fill(b, e), if e.side == Buy then e.sz else -e.sz;
            && (c.netQty == 0.0 ==> c.avgEntryPx == 0.0)
            && (Adds(b.netQty, signed) ==>
                  && c.realizedPnl == b.realizedPnl
                  && c.netQty * c.avgEntryPx == b.netQty * b.avgEntryPx + signed * e.px)
            && (Crosses(b.netQty, signed) ==>
                  c.avgEntryPx == e.px && c.realizedPnl == b.realizedPnl + b.netQty * (e.px - b.avgEntryPx))
            && (!Adds(b.netQty, signed) && !Crosses(b.netQty, signed) ==>
                  && c.realizedPnl == b.realizedPnl - signed * (e.px - b.avgEntryPx)
                  && (c.netQty != 0.0 ==> c.avgEntryPx == b.avgEntryPx))
  {
    hide Fill;
    if Adds(b.netQty, if e.side == Buy then e.sz else -e.sz) {
      AddDivides(b, e);
    } else {
      CloseDivides(b, e);
    }
  }

  /** Part of what is held: a size and the price it was opened at. */
  datatype Lot = Lot(qty: real, px: real)

  function Size(lots: seq<Lot>): real {
    if lots == [] then 0.0 else Size(lots[..|lots| - 1]) + lots[|lots| - 1].qty
  }

  function Cost(lots: seq<Lot>): real {
    if lots == [] then 0.0 else Cost(lots[..|lots| - 1]) + lots[|lots| - 1].qty * lots[|lots| - 1].px
  }

  function Cut(lot: Lot, share: real): Lot {
    Lot(lot.qty * share, lot.px)
  }

  /** Every lot cut to the same share of it. */
  function Shrink(lots: seq<Lot>, share: real): seq<Lot> {
    if lots == [] then []
    else Shrink(lots[..|lots| - 1], share) + [Cut(lots[|lots| - 1], share)]
  }

  /**
   What is held after one more execution: an opening fill is a lot of its own, a close takes the same
   share of every lot, going flat clears them and a flip starts anew with what is left.
   */
  function NextLots(lots: seq<Lot>, net: real, e: Execution): seq<Lot> {
    var signed := if e.side == Buy then e.sz else -e.sz;
    if net + signed == 0.0 then []
    else if Crosses(net, signed) then [Lot(Abs(net + signed), e.px)]
    else if Adds(net, signed) then lots + [Lot(e.sz, e.px)]
    else Shrink(lots, Abs(net + signed) / Abs(net))
  }

  /** What is held, read off the executions alone. */
  function Lots(es: seq<Execution>): seq<Lot> {
    if es == [] then []
    else NextLots(Lots(es[..|es| - 1]), NetQuantity(es[..|es| - 1]), es[|es| - 1])
  }

  lemma LotAdded(lots: seq<Lot>, lot: Lot)
    ensures Size(lots + [lot]) == Size(lots) + lot.qty && Cost(lots + [lot]) == Cost(lots) + lot.qty * lot.px
  {
    assert (lots + [lot])[..|lots|] == lots;
  }

  lemma Scaled(sum: real, qty: real, px: real, share: real)
    ensures sum * share + qty * share == (sum + qty) * share
    ensures sum * share + qty * share * px == (sum + qty * px) * share
  {
  }

  lemma {:induction false} ShrinkScales(lots: seq<Lot>, share: real)
    ensures Size(Shrink(lots, share)) == Size(lots) * share
    ensures Cost(Shrink(lots, share)) == Cost(lots) * share
  {
    hide Size, Cost;
    if lots == [] {
      NoLots();
    } else {
      var front, last := lots[..|lots| - 1], lots[|lots| - 1];
      ShrinkScales(front, share);
      assert lots == front + [last];
      LotAdded(front, last);
      LotAdded(Shrink(front, share), Cut(last, share));
      Scaled(Size(front), last.qty, last.px, share);
      Scaled(Cost(front), last.qty, last.px, share);
    }
  }

  /** The average is the mean price of the lots held: weighted-average cost. */
  ghost predicate Averages(b: Book, lots: seq<Lot>) {
    && Size(lots) == Abs(b.netQty) && Cost(lots) == Abs(b.netQty) * b.avgEntryPx
    && (b.netQty == 0.0 ==> lots == [] && b.avgEntryPx == 0.0)
  }

  lemma OneLot(qty: real, px: real)
    ensures Size([Lot(qty, px)]) == qty && Cost([Lot(qty, px)]) == qty * px
  {
    assert [Lot(qty, px)][..0] == [];
  }

  /** Closing a share of the position takes that share of its size and of its cost. */
  lemma ShareLeft(held: real, left: real, avg: real)
    requires held > 0.0
    ensures held * (left / held) == left && (held * avg) * (left / held) == left * avg
  {
    assert held * (left / held) == left;
    assert (held * avg) * (left / held) == avg * (held * (left / held));
  }

  /** The size and the price of a position on either side, as cost. */
  lemma CostOf(net: real, avg: real)
    ensures Abs(net) * avg == if net < 0.0 then -(net * avg) else net * avg
  {
  }

  /** Adding weighs the price in by size. */
  lemma AddedCost(b: Book, e: Execution)
    requires e.sz > 0.0 && (b.netQty == 0.0 ==> b.avgEntryPx == 0.0)
    requires Adds(b.netQty, if e.side == Buy then e.sz else -e.sz)
    ensures var c := Fill(b, e);
            Abs(c.netQty) == Abs(b.netQty) + e.sz
            && Abs(c.netQty) * c.avgEntryPx == Abs(b.netQty) * b.avgEntryPx + e.sz * e.px
  {
    hide Fill, Abs;
    FillDivides(b, e);
    FillConserves(b, e);
    CostOf(b.netQty, b.avgEntryPx);
    CostOf(Fill(b, e).netQty, Fill(b, e).avgEntryPx);
    SameSide(b.netQty, e);
  }

  lemma AddAverages(b: Book, e: Execution, lots: seq<Lot>)
    requires e.sz > 0.0 && Averages(b, lots) && Adds(b.netQty, if e.side == Buy then e.sz else -e.sz)
    ensures Averages(Fill(b, e), lots + [Lot(e.sz, e.px)])
  {
    hide Fill, Size, Cost;
    AddedCost(b, e);
    LotAdded(lots, Lot(e.sz, e.px));
  }

  lemma SameSide(net: real, e: Execution)
    requires e.sz > 0.0 && Adds(net, if e.side == Buy then e.sz else -e.sz)
    ensures Abs(net + if e.side == Buy then e.sz else -e.sz) == Abs(net) + e.sz
  {
  }

  lemma CloseAverages(b: Book, e: Execution, lots: seq<Lot>)
    requires e.sz > 0.0 && Averages(b, lots)
    requires var signed := if e.side == Buy then e.sz else -e.sz;
             !Adds(b.netQty, signed) && !Crosses(b.netQty, signed) && b.netQty + signed != 0.0
    ensures Averages(Fill(b, e), Shrink(lots, Abs(b.netQty + if e.side == Buy then e.sz else -e.sz) / Abs(b.netQty)))
  {
    hide Fill, Size, Cost, Shrink;
    var c := Fill(b, e);
    FillDivides(b, e);
    FillConserves(b, e);
    ShrinkScales(lots, Abs(c.netQty) / Abs(b.netQty));
    ShareLeft(Abs(b.netQty), Abs(c.netQty), b.avgEntryPx);
  }

  lemma StepAverages(b: Book, e: Execution, lots: seq<Lot>)
    requires e.sz > 0.0 && Averages(b, lots)
    ensures Averages(Fill(b, e), NextLots(lots, b.netQty, e))
  {
    hide Fill, Size, Cost, Shrink;
    var signed := if e.side == Buy then e.sz else -e.sz;
    FillDivides(b, e);
    FillConserves(b, e);
    if b.netQty + signed == 0.0 {
      NoLots();
    } else if Crosses(b.netQty, signed) {
      OneLot(Abs(b.netQty + signed), e.px);
    } else if Adds(b.netQty, signed) {
      AddAverages(b, e, lots);
    } else {
      CloseAverages(b, e, lots);
    }
  }

  lemma NoLots()
    ensures Size([]) == 0.0 && Cost([]) == 0.0
  {
  }

  /**
   At every point of every run from flat: the average is the mean price of the lots held, and the
   realised profit is the cash moved so far plus what those lots cost, taken off for a short position.
   */
  lemma {:induction false} WeightedAverageCost(books: seq<Book>, es: seq<Execution>, i: nat)
    requires IsRun(books, es) && books[0] == FLAT && i <= |es|
    ensures Averages(books[i], Lots(es[..i]))
    ensures books[i].realizedPnl
            == CashFlow(es[..i]) + if NetQuantity(es[..i]) > 0.0 then Cost(Lots(es[..i])) else -Cost(Lots(es[..i]))
  {
    hide Fill, Lots, Averages;
    RunAverages(books, es, i);
    CashBasis(books, es, i);
    CostIsBasis(books[i], Lots(es[..i]));
  }

  lemma CostIsBasis(b: Book, lots: seq<Lot>)
    requires Averages(b, lots)
    ensures b.netQty * b.avgEntryPx == if b.netQty > 0.0 then Cost(lots) else -Cost(lots)
  {
  }

  lemma {:induction false} RunAverages(books: seq<Book>, es: seq<Execution>, i: nat)
    requires IsRun(books, es) && books[0] == FLAT && i <= |es|
    ensures Averages(books[i], Lots(es[..i]))
  {
    hide Fill, Averages;
    if i == 0 {
      NothingHeld();
    } else {
      RunAverages(books, es, i - 1);
      CashBasis(books, es, i - 1);
      assert StepAt(books, es, i - 1);
      assert es[..i][..i - 1] == es[..i - 1];
      StepAverages(books[i - 1], es[i - 1], Lots(es[..i - 1]));
    }
  }

  lemma NothingHeld()
    ensures Averages(FLAT, [])
  {
  }

  // The plain mean of the opening fills.

  /** The opening fills after one more execution, whole, whatever was closed since. */
  function NextOpened(lots: seq<Lot>, net: real, e: Execution): seq<Lot> {
    var signed := if e.side == Buy then e.sz else -e.sz;
    if net + signed == 0.0 then []
    else if Crosses(net, signed) then [Lot(Abs(net + signed), e.px)]
    else if Adds(net, signed) then lots + [Lot(e.sz, e.px)]
    else lots
  }

  /** The opening fills since the position was last flat or flipped. */
  function Opened(es: seq<Execution>): seq<Lot> {
    if es == [] then []
    else NextOpened(Opened(es[..|es| - 1]), NetQuantity(es[..|es| - 1]), es[|es| - 1])
  }

  /** The average is the plain mean of these lots. */
  ghost predicate IsMean(b: Book, lots: seq<Lot>) {
    Size(lots) * b.avgEntryPx == Cost(lots)
  }

  lemma MeanDrifts(held: real, whole: real, avg: real, sz: real, px: real, next: real)
    requires whole >= held >= 0.0 && sz > 0.0
    requires (held + sz) * next == held * avg + sz * px
    ensures (whole + sz) * next == whole * avg + sz * px <==> whole == held || px == avg
  {
    assert (whole + sz) * next - (whole * avg + sz * px) == (whole - held) * (next - avg);
    assert (held + sz) * (next - avg) == sz * (px - avg);
  }

  /** No less was opened than is held; the rest has been closed. */
  lemma {:induction false} OpenedCoversHeld(es: seq<Execution>)
    requires AllPositive(es)
    ensures Size(Opened(es)) >= Abs(NetQuantity(es))
    ensures NetQuantity(es) == 0.0 ==> Opened(es) == []
  {
    if es != [] {
      var front, e := es[..|es| - 1], es[|es| - 1];
      var net, signed := NetQuantity(front), if e.side == Buy then e.sz else -e.sz;
      OpenedCoversHeld(front);
      OneLot(Abs(net + signed), e.px);
      LotAdded(Opened(front), Lot(e.sz, e.px));
    }
  }

  /** The fill adds to a position of which some has been closed, away from its average. */
  predicate Reweighs(b: Book, opening: seq<Lot>, e: Execution) {
    Adds(b.netQty, if e.side == Buy then e.sz else -e.sz) && Size(opening) != Abs(b.netQty) && e.px != b.avgEntryPx
  }

  /**
   The average is not always the plain mean of the opening fills: a fill keeps it so exactly when it does
   not add, away from the average, to a position of which some has been closed.
   */
  lemma MeanKeptIff(b: Book, e: Execution, lots: seq<Lot>)
    requires e.sz > 0.0 && IsMean(b, lots) && Size(lots) >= Abs(b.netQty)
    requires b.netQty == 0.0 ==> b.avgEntryPx == 0.0 && lots == []
    ensures IsMean(Fill(b, e), NextOpened(lots, b.netQty, e)) <==> !Reweighs(b, lots, e)
  {
    hide Fill, Size, Cost;
    var c, signed := Fill(b, e), if e.side == Buy then e.sz else -e.sz;
    FillDivides(b, e);
    FillConserves(b, e);
    NoLots();
    if Adds(b.netQty, signed) {
      AddedMean(b, e, lots);
    } else if Crosses(b.netQty, signed) {
      OneLot(Abs(c.netQty), e.px);
    }
  }

  lemma AddedMean(b: Book, e: Execution, lots: seq<Lot>)
    requires e.sz > 0.0 && IsMean(b, lots) && Size(lots) >= Abs(b.netQty)
    requires b.netQty == 0.0 ==> b.avgEntryPx == 0.0 && lots == []
    requires Adds(b.netQty, if e.side == Buy then e.sz else -e.sz)
    ensures IsMean(Fill(b, e), lots + [Lot(e.sz, e.px)]) <==> Size(lots) == Abs(b.netQty) || e.px == b.avgEntryPx
  {
    hide Fill, Size, Cost;
    var c := Fill(b, e);
    AddedCost(b, e);
    LotAdded(lots, Lot(e.sz, e.px));
    MeanDrifts(Abs(b.netQty), Size(lots), b.avgEntryPx, e.sz, e.px, c.avgEntryPx);
  }

  /** Since the position was last flat or flipped, nothing was added after a close. */
  ghost predicate AddsFirst(es: seq<Execution>) {
    if es == [] then true
    else
      var front, e := es[..|es| - 1], es[|es| - 1];
      var net, signed := NetQuantity(front), if e.side == Buy then e.sz else -e.sz;
      || net + signed == 0.0
      || Crosses(net, signed)
      || (AddsFirst(front) && (Adds(net, signed) ==> Size(Opened(front)) == Abs(net)))
  }

  /** While nothing is added after a close, the average is the plain mean of the opening fills. */
  lemma {:induction false} MeanOfOpenings(books: seq<Book>, es: seq<Execution>, i: nat)
    requires IsRun(books, es) && books[0] == FLAT && i <= |es| && AddsFirst(es[..i])
    ensures IsMean(books[i], Opened(es[..i]))
  {
    hide Fill, Averages, Lots, Size, Cost;
    if i == 0 {
      NoLots();
    } else {
      var front, b, e := es[..i - 1], books[i - 1], es[i - 1];
      assert es[..i][..i - 1] == front;
      assert StepAt(books, es, i - 1);
      CashBasis(books, es, i - 1);
      RunAverages(books, es, i - 1);
      FlatIsClear(b, Lots(front));
      OpenedCoversHeld(front);
      ClosedIsMean(b, e, Opened(front));
      if AddsFirst(front) {
        MeanOfOpenings(books, es, i - 1);
        MeanKeptIff(b, e, Opened(front));
      }
    }
  }

  lemma NothingOpened()
    ensures Opened([]) == [] && NetQuantity([]) == 0.0
  {
  }

  lemma FlatIsClear(b: Book, lots: seq<Lot>)
    requires Averages(b, lots)
    ensures b.netQty == 0.0 ==> b.avgEntryPx == 0.0
  {
  }

  /** Going flat or flipping starts the mean anew. */
  lemma ClosedIsMean(b: Book, e: Execution, lots: seq<Lot>)
    requires e.sz > 0.0 && (b.netQty == 0.0 ==> b.avgEntryPx == 0.0)
    ensures var signed := if e.side == Buy then e.sz else -e.sz;
            b.netQty + signed == 0.0 || Crosses(b.netQty, signed) ==> IsMean(Fill(b, e), NextOpened(lots, b.netQty, e))
  {
    hide Fill, Size, Cost;
    FillDivides(b, e);
    FillConserves(b, e);
    NoLots();
    OneLot(Abs(Fill(b, e).netQty), e.px);
  }

  /** One execution more. */
  lemma {:induction false} OpenedStep(front: seq<Execution>, e: Execution)
    ensures var net, signed := NetQuantity(front), if e.side == Buy then e.sz else -e.sz;
            && NetQuantity(front + [e]) == net + signed
            && (Adds(net, signed) && net + signed != 0.0 ==> Opened(front + [e]) == Opened(front) + [Lot(e.sz, e.px)])
            && (!Adds(net, signed) && !Crosses(net, signed) && net + signed != 0.0 ==> Opened(front + [e]) == Opened(front))
  {
    assert (front + [e])[..|front|] == front;
  }

  /** Buy 10 at 100, sell 4, buy 6 at 110: the average is 105, the mean of the two buys 103.75. */
  lemma MeanLost(px: real)
    ensures var es := [Execution(Buy, 100.0, 10.0), Execution(Sell, px, 4.0), Execution(Buy, 110.0, 6.0)];
            var b := Fill(Fill(Fill(FLAT, es[0]), es[1]), es[2]);
            && Opened(es) == [Lot(10.0, 100.0), Lot(6.0, 110.0)] && b.avgEntryPx == 105.0
            && Size(Opened(es)) == 16.0 && Cost(Opened(es)) == 16.0 * 103.75 && !IsMean(b, Opened(es))
  {
    hide Opened, NetQuantity, Size, Cost;
    assert NetQuantity([]) == 0.0 && Opened([]) == [] by { NothingOpened(); }
    var e1, e2, e3 := Execution(Buy, 100.0, 10.0), Execution(Sell, px, 4.0), Execution(Buy, 110.0, 6.0);
    OpenedStep([], e1);
    assert [] + [e1] == [e1] && NetQuantity([e1]) == 10.0;
    OpenedStep([e1], e2);
    assert [e1] + [e2] == [e1, e2] && NetQuantity([e1, e2]) == 6.0;
    OpenedStep([e1, e2], e3);
    assert [e1, e2] + [e3] == [e1, e2, e3];
    OneLot(10.0, 100.0);
    LotAdded([Lot(10.0, 100.0)], Lot(6.0, 110.0));
    assert [Lot(10.0, 100.0)] + [Lot(6.0, 110.0)] == [Lot(10.0, 100.0), Lot(6.0, 110.0)];
  }

  lemma BlendSplits(held: real, avg: real, x: real, y: real, px: real)
    requires held >= 0.0 && x > 0.0 && y > 0.0
    ensures Blend(held + x, Blend(held, avg, x, px), y, px) == Blend(held, avg, x + y, px)
  {
    assert (held + x) * Blend(held, avg, x, px) == held * avg + x * px;
  }

  lemma BlendConstant(held: real, avg: real, sz: real, px: real)
    requires held >= 0.0 && sz > 0.0 && (held == 0.0 || avg == px)
    ensures Blend(held, avg, sz, px) == px
  {
    assert held * avg + sz * px == (held + sz) * px;
  }

  lemma GainSplits(long: bool, avg: real, px: real, x: real, y: real)
    ensures Gain(long, avg, px, x) + Gain(long, avg, px, y) == Gain(long, avg, px, x + y)
  {
  }

  /** One fill of size `x + y` and two fills of `x` then `y` leave the same position. */
  lemma FillSplits(b: Book, side: Side, px: real, x: real, y: real)
    requires x > 0.0 && y > 0.0
    ensures Fill(b, Execution(side, px, x + y))
            == Fill(Fill(b, Execution(side, px, x)), Execution(side, px, y))
  {
    var size := Abs(b.netQty);
    if b.netQty == 0.0 || (b.netQty > 0.0) == (side == Buy) {
      BlendSplits(size, b.avgEntryPx, x, y, px);
    } else if x > size {
      BlendConstant(x - size, px, y, px);
    } else if x == size {
      BlendConstant(0.0, 0.0, y, px);
    } else {
      GainSplits(b.netQty > 0.0, b.avgEntryPx, px, x, Min(y, size - x));
    }
  }

  function Total(parts: seq<real>): real {
    if parts == [] then 0.0 else Total(parts[..|parts| - 1]) + parts[|parts| - 1]
  }

  function Parts(side: Side, px: real, parts: seq<real>): seq<Execution> {
    seq(|parts|, i requires 0 <= i < |parts| => Execution(side, px, parts[i]))
  }

  /** Any number of same-side, same-price parts leave the position of the whole fill. */
  lemma {:induction false} AnySplit(books: seq<Book>, side: Side, px: real, parts: seq<real>, i: nat)
    requires IsRun(books, Parts(side, px, parts)) && 0 < i <= |parts|
    ensures Total(parts[..i]) > 0.0
    ensures books[i] == Fill(books[0], Execution(side, px, Total(parts[..i])))
  {
    var es := Parts(side, px, parts);
    var x, y := Total(parts[..i - 1]), parts[i - 1];
    assert parts[..i][..i - 1] == parts[..i - 1];
    assert es[i - 1] == Execution(side, px, y);
    assert StepAt(books, es, i - 1);
    if i > 1 {
      AnySplit(books, side, px, parts, i - 1);
      FillSplits(books[0], side, px, x, y);
    }
  }

  /** The tracker as the engine holds it: three fields updated in place. */
  class Tracker {
    var netQty: real
    var avgEntryPx: real
    var realizedPnl: real

    constructor ()
      ensures View() == FLAT
    {
      netQty, avgEntryPx, realizedPnl := 0.0, 0.0, 0.0;
    }

    function View(): (b: Book)
      reads this
    {
      Book(netQty, avgEntryPx, realizedPnl)
    }

    method ApplyFill(e: Execution)
      requires e.sz > 0.0
      modifies this
      ensures View() == Fill(old(View()), e)
    {
      var signedQty := if e.side == Buy then e.sz else -e.sz;
      if netQty == 0.0 || (netQty > 0.0) == (signedQty > 0.0) {
        var newQty := netQty + signedQty;
        avgEntryPx := Blend(Abs(netQty), avgEntryPx, e.sz, e.px);
        netQty := newQty;
        return;
      }
      var closingQty := Min(e.sz, Abs(netQty));
      realizedPnl := realizedPnl + Gain(netQty > 0.0, avgEntryPx, e.px, closingQty);
      var newQty := netQty + signedQty;
      if newQty == 0.0 {
        avgEntryPx := 0.0;
      } else if (newQty > 0.0) != (netQty > 0.0) {
        avgEntryPx := e.px;
      }
      netQty := newQty;
    }
  }
}
