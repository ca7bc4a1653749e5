/** How long a query at the gateway goes on reporting a paid trade as paid, with requests running side by side. */
module PaidReports {
  import opened PayTypes
  import opened Gateway

  /** What a query answers. */
  predicate ReportsPaid(g: Gate, no: string) {
    TradeOf(g, no).Some? && TradeOf(g, no).value.status == TradeSuccess
  }

  /** The memory holds the payment, which guards it against page visits and failed submissions. */
  predicate Held(g: Gate, no: string) {
    no in g.memory && g.memory[no].status == TradeSuccess
  }

  predicate RowPaid(g: Gate, no: string) {
    no in g.rows && g.rows[no].status == TradeSuccess
  }

  /** A paid trade whose row, if there are rows, has been saved. */
  predicate Kept(g: Gate, no: string) {
    Held(g, no) && (g.hasDb ==> RowPaid(g, no))
  }

  /** The step takes the payment out of the memory: a restart, or a refund or chargeback of a trade read as paid. */
  predicate Drops(s: NetStep, no: string) {
    s.Restart? || (s.Mutate? && s.no == no && s.next in {TradeRefund, TradeChargeback} && s.seen.status == TradeSuccess)
  }

  ghost predicate DroppedAt(steps: seq<NetStep>, j: nat, no: string)
    requires j < |steps|
  {
    Drops(steps[j], no) && forall k :: j < k < |steps| ==> steps[k] != Submit(no, true)
  }

  /** The payment was dropped from memory and the buyer has not paid again since. */
  ghost predicate MemoryGone(steps: seq<NetStep>, no: string) {
    exists j :: 0 <= j < |steps| && DroppedAt(steps, j, no)
  }

  lemma MemoryGoneStep(steps: seq<NetStep>, no: string)
    requires steps != []
    ensures var prefix, s := steps[..|steps| - 1], steps[|steps| - 1];
            MemoryGone(steps, no) <==> Drops(s, no) || (MemoryGone(prefix, no) && s != Submit(no, true))
  {
    hide Drops;
    var prefix, s := steps[..|steps| - 1], steps[|steps| - 1];
    if Drops(s, no) {
      assert DroppedAt(steps, |steps| - 1, no);
    }
    if MemoryGone(prefix, no) && s != Submit(no, true) {
      var j :| 0 <= j < |prefix| && DroppedAt(prefix, j, no);
      assert forall k :: j < k < |prefix| ==> steps[k] == prefix[k];
      assert DroppedAt(steps, j, no);
    }
    if MemoryGone(steps, no) && !Drops(s, no) {
      var j :| 0 <= j < |steps| && DroppedAt(steps, j, no);
      assert forall k :: j < k < |prefix| ==> prefix[k] == steps[k];
      assert DroppedAt(prefix, j, no);
    }
  }

  lemma LegalPrefix(cat: Catalog, net: Net, steps: seq<NetStep>)
    requires NetLegalRun(cat, net, steps) && steps != []
    ensures NetLegalRun(cat, net, steps[..|steps| - 1])
    ensures NetLegal(cat, NetRun(net, steps[..|steps| - 1]), steps[|steps| - 1])
  {
    hide NetLegal, NetRun;
    var prefix := steps[..|steps| - 1];
    assert forall i :: 0 <= i < |prefix| ==> prefix[..i] == steps[..i] && prefix[i] == steps[i];
  }

  lemma StoredHeld(g: Gate, no: string, n: string, t: Trade)
    ensures Held(Stored(g, n, t), no) <==>
              (n == no && t.status == TradeSuccess)
              || (Held(g, no) && (n != no || t.status !in {TradeRefund, TradeChargeback}))
    ensures Stored(g, n, t).rows == g.rows && Stored(g, n, t).hasDb == g.hasDb
  {
  }

  lemma LandedHeld(g: Gate, no: string, n: string, t: Trade)
    ensures Held(Landed(g, n, t), no) <==> Held(g, no)
    ensures Landed(g, n, t).hasDb == g.hasDb
  {
  }

  lemma MutateHeld(net: Net, no: string, n: string, next: TradeStatus, seen: Trade)
    requires next in {TradeClosed, TradeRefund, TradeChargeback}
    ensures var s := Mutate(n, next, seen);
            && (Held(GateStep(net, s), no) <==> Held(net.gate, no) && !Drops(s, no))
            && GateStep(net, s).rows == net.gate.rows && GateStep(net, s).hasDb == net.gate.hasDb
  {
    hide Stored;
    StoredHeld(net.gate.(lookups := net.gate.lookups - multiset{(n, seen)}), no, n, seen.(status := next));
  }

  lemma HeldStep(cat: Catalog, net: Net, s: NetStep, no: string)
    requires NetLegal(cat, net, s)
    ensures Held(GateStep(net, s), no) <==> s == Submit(no, true) || (Held(net.gate, no) && !Drops(s, no))
    ensures GateStep(net, s).hasDb == net.gate.hasDb
  {
    hide TradeOf, Stored, Landed, Held;
    match s
    case Show(n) => StoredHeld(net.gate, no, n, ShownTrade(net.db.orders[n].amount, net.db.orders[n].channel));
    case Submit(n, paid) =>
      StoredHeld(net.gate, no, n, SubmittedTrade(n, net.db.orders[n].amount, net.db.orders[n].channel, paid));
    case Save(n, t) => LandedHeld(net.gate, no, n, t);
    case Mutate(n, next, seen) => MutateHeld(net, no, n, next, seen);
    case Restart => NothingHeld(GateStep(net, s), no);
    case Read(n) => SameMemory(net.gate, GateStep(net, s), no);
    case _ =>
  }

  lemma NothingHeld(g: Gate, no: string)
    requires g.memory == map[]
    ensures !Held(g, no)
  {
  }

  lemma SameMemory(g: Gate, h: Gate, no: string)
    requires g.memory == h.memory
    ensures Held(g, no) <==> Held(h, no)
  {
  }

  /** From the payment on, the memory holds it exactly until it is dropped, and again from the next payment on. */
  lemma {:induction false} HeldRun(cat: Catalog, net: Net, steps: seq<NetStep>, no: string)
    requires NetLegalRun(cat, net, steps) && Held(net.gate, no)
    ensures Held(NetRun(net, steps).gate, no) <==> !MemoryGone(steps, no)
    ensures NetRun(net, steps).gate.hasDb == net.gate.hasDb
  {
    hide NetLegal, Held, Drops, MemoryGone, ApplyNet, GateStep;
    if steps == [] {
      NothingGone(no);
    } else {
      var prefix, s := steps[..|steps| - 1], steps[|steps| - 1];
      LegalPrefix(cat, net, steps);
      HeldRun(cat, net, prefix, no);
      MemoryGoneStep(steps, no);
      HeldStep(cat, NetRun(net, prefix), s, no);
      SubmitDropsNothing(no);
      GateAfter(NetRun(net, prefix), s);
    }
  }

  lemma NothingGone(no: string)
    ensures !MemoryGone([], no)
  {
  }

  lemma SubmitDropsNothing(no: string)
    ensures !Drops(Submit(no, true), no)
  {
  }

  lemma GateAfter(net: Net, s: NetStep)
    ensures ApplyNet(net, s).gate == GateStep(net, s)
  {
  }

  // ---------- exactly when the report stops ----------

  /** A row of the trade that does not say paid is saved. */
  predicate UnpaidSave(s: NetStep, no: string) {
    s.Save? && s.no == no && s.trade.status != TradeSuccess
  }

  /** With a database the report goes with the row, without one with the memory. */
  predicate Forgets(hasDb: bool, s: NetStep, no: string) {
    if hasDb then UnpaidSave(s, no) else Drops(s, no)
  }

  /** A report of payment that rests on the row, or without a database on the memory. */
  predicate Stands(g: Gate, no: string) {
    if g.hasDb then RowPaid(g, no) else Held(g, no)
  }

  lemma StandsStep(cat: Catalog, net: Net, s: NetStep, no: string)
    requires NetLegal(cat, net, s) && Stands(net.gate, no)
    ensures ReportsPaid(GateStep(net, s), no) <==> !Forgets(net.gate.hasDb, s, no)
    ensures ReportsPaid(GateStep(net, s), no) <==> Stands(GateStep(net, s), no)
  {
    hide NetLegal, GateStep, Held, Drops, ReportsPaid, RowPaid, UnpaidSave;
    HeldStep(cat, net, s, no);
    SubmitDropsNothing(no);
    if net.gate.hasDb {
      RowStep(cat, net, s, no);
    } else {
      MemoryReports(GateStep(net, s), no);
    }
  }

  lemma MemoryReports(g: Gate, no: string)
    requires !g.hasDb
    ensures ReportsPaid(g, no) <==> Held(g, no)
  {
  }

  lemma RowReports(g: Gate, no: string)
    requires g.hasDb && no in g.rows
    ensures ReportsPaid(g, no) <==> RowPaid(g, no)
  {
  }

  /** Only a save changes a row. */
  lemma RowStep(cat: Catalog, net: Net, s: NetStep, no: string)
    requires NetLegal(cat, net, s) && net.gate.hasDb && RowPaid(net.gate, no)
    ensures RowPaid(GateStep(net, s), no) <==> !UnpaidSave(s, no)
    ensures ReportsPaid(GateStep(net, s), no) <==> RowPaid(GateStep(net, s), no)
  {
    hide ReportsPaid, Held, TradeOf, Stored;
    HeldStep(cat, net, s, no);
    var g := GateStep(net, s);
    assert no in g.rows ==> (ReportsPaid(g, no) <==> RowPaid(g, no)) by {
      if no in g.rows {
        RowReports(g, no);
      }
    }
    match s
    case Show(n) => StoredHeld(net.gate, no, n, ShownTrade(net.db.orders[n].amount, net.db.orders[n].channel));
    case Submit(n, paid) =>
      StoredHeld(net.gate, no, n, SubmittedTrade(n, net.db.orders[n].amount, net.db.orders[n].channel, paid));
    case Mutate(n, next, seen) => MutateHeld(net, no, n, next, seen);
    case _ =>
  }

  ghost predicate AlwaysPaid(net: Net, steps: seq<NetStep>, no: string) {
    forall i :: 0 <= i <= |steps| ==> ReportsPaid(NetRun(net, steps[..i]).gate, no)
  }

  ghost predicate NeverForgets(hasDb: bool, steps: seq<NetStep>, no: string) {
    forall i :: 0 <= i < |steps| ==> !Forgets(hasDb, steps[i], no)
  }

  /**
   * From the saved payment on, a query reports the trade as paid throughout a run if and only if no row of it that does
   * not say paid is saved; without a database, if and only if there is no restart, refund or chargeback.
   */
  lemma {:induction false} PaidStaysReported(cat: Catalog, net: Net, steps: seq<NetStep>, no: string)
    requires NetLegalRun(cat, net, steps) && Kept(net.gate, no)
    ensures AlwaysPaid(net, steps, no) <==> NeverForgets(net.gate.hasDb, steps, no)
    ensures AlwaysPaid(net, steps, no) ==> Stands(NetRun(net, steps).gate, no)
  {
    hide NetLegal, ApplyNet, GateStep, ReportsPaid, Forgets, Stands, Held, Kept;
    KeptStands(net.gate, no);
    HeldRun(cat, net, steps, no);
    if steps == [] {
      assert steps[..0] == steps;
    } else {
      var prefix, s := steps[..|steps| - 1], steps[|steps| - 1];
      LegalPrefix(cat, net, steps);
      PaidStaysReported(cat, net, prefix, no);
      HeldRun(cat, net, prefix, no);
      AlwaysPaidStep(net, steps, no);
      NeverForgetsStep(net.gate.hasDb, steps, no);
      if AlwaysPaid(net, prefix, no) {
        StandsStep(cat, NetRun(net, prefix), s, no);
        GateAfter(NetRun(net, prefix), s);
      }
    }
  }

  lemma KeptStands(g: Gate, no: string)
    requires Kept(g, no)
    ensures Held(g, no) && Stands(g, no) && ReportsPaid(g, no)
  {
  }

  lemma AlwaysPaidStep(net: Net, steps: seq<NetStep>, no: string)
    requires steps != []
    ensures AlwaysPaid(net, steps, no) <==>
              AlwaysPaid(net, steps[..|steps| - 1], no) && ReportsPaid(NetRun(net, steps).gate, no)
  {
    hide ReportsPaid, NetRun;
    var prefix := steps[..|steps| - 1];
    assert forall i :: 0 <= i <= |prefix| ==> prefix[..i] == steps[..i];
    assert steps[..|steps|] == steps;
    if AlwaysPaid(net, steps, no) {
      forall i | 0 <= i <= |prefix|
        ensures ReportsPaid(NetRun(net, prefix[..i]).gate, no)
      {
        assert prefix[..i] == steps[..i];
      }
    }
  }

  lemma NeverForgetsStep(hasDb: bool, steps: seq<NetStep>, no: string)
    requires steps != []
    ensures NeverForgets(hasDb, steps, no) <==>
              NeverForgets(hasDb, steps[..|steps| - 1], no) && !Forgets(hasDb, steps[|steps| - 1], no)
  {
    hide Forgets;
    var prefix := steps[..|steps| - 1];
    assert forall i :: 0 <= i < |prefix| ==> prefix[i] == steps[i];
  }

  // ---------- where such a save comes from ----------

  /** A row of the trade that does not say paid waits to be saved: the next step may end the report. */
  ghost predicate AtRisk(g: Gate, no: string) {
    exists t :: (no, t) in g.pending && t.status != TradeSuccess
  }

  /** The step leaves such a row to save, given whether the memory holds the payment. */
  predicate StoresUnpaid(s: NetStep, no: string, held: bool) {
    match s
    case Show(n) => n == no && !held
    case Submit(n, paid) => n == no && !paid && !held
    case Mutate(n, next, seen) =>
      n == no && (if next == TradeClosed then seen.status == TradeWait && !held else seen.status == TradeSuccess)
    case _ => false
  }

  lemma RiskIsReal(cat: Catalog, net: Net, no: string) returns (s: NetStep)
    requires net.gate.hasDb && AtRisk(net.gate, no)
    ensures NetLegal(cat, net, s) && !ReportsPaid(GateStep(net, s), no)
  {
    var t :| (no, t) in net.gate.pending && t.status != TradeSuccess;
    s := Save(no, t);
  }

  lemma StoredRisk(g: Gate, no: string, n: string, t: Trade)
    requires g.hasDb
    ensures AtRisk(Stored(g, n, t), no) <==>
              AtRisk(g, no) || (n == no && t.status != TradeSuccess && !Protects(g.memory, n, t))
  {
    if AtRisk(g, no) {
      var u :| (no, u) in g.pending && u.status != TradeSuccess;
      assert (no, u) in Stored(g, n, t).pending;
    }
    if n == no && t.status != TradeSuccess && !Protects(g.memory, n, t) {
      assert (no, t) in Stored(g, n, t).pending;
    }
  }

  lemma LandedRisk(g: Gate, no: string, n: string, t: Trade)
    requires n != no || t.status == TradeSuccess
    ensures AtRisk(Landed(g, n, t), no) <==> AtRisk(g, no)
  {
    forall u: Trade | u.status != TradeSuccess
      ensures (no, u) in Landed(g, n, t).pending <==> (no, u) in g.pending
    {
      assert (no, u) != (n, t);
    }
  }

  lemma RiskStep(cat: Catalog, net: Net, s: NetStep, no: string)
    requires NetLegal(cat, net, s) && net.gate.hasDb && !UnpaidSave(s, no)
    ensures AtRisk(GateStep(net, s), no) <==>
              !s.Restart? && (AtRisk(net.gate, no) || StoresUnpaid(s, no, Held(net.gate, no)))
  {
    hide Stored, Landed, AtRisk, TradeOf;
    match s
    case Show(n) =>
      StoredRisk(net.gate, no, n, ShownTrade(net.db.orders[n].amount, net.db.orders[n].channel));
    case Submit(n, paid) =>
      StoredRisk(net.gate, no, n, SubmittedTrade(n, net.db.orders[n].amount, net.db.orders[n].channel, paid));
    case Save(n, t) => LandedRisk(net.gate, no, n, t);
    case Mutate(n, next, seen) =>
      var g := net.gate.(lookups := net.gate.lookups - multiset{(n, seen)});
      StoredRisk(g, no, n, seen.(status := next));
      SamePending(net.gate, g, no);
    case Restart => NothingPending(GateStep(net, s), no);
    case Read(_) => SamePending(net.gate, GateStep(net, s), no);
    case _ =>
  }

  lemma SamePending(g: Gate, h: Gate, no: string)
    requires g.pending == h.pending
    ensures AtRisk(g, no) <==> AtRisk(h, no)
  {
  }

  lemma NothingPending(g: Gate, no: string)
    requires g.pending == multiset{}
    ensures !AtRisk(g, no)
  {
  }

  ghost predicate RiskFrom(steps: seq<NetStep>, j: nat, no: string)
    requires j < |steps|
  {
    StoresUnpaid(steps[j], no, !MemoryGone(steps[..j], no)) && forall k :: j < k < |steps| ==> !steps[k].Restart?
  }

  ghost predicate Risky(steps: seq<NetStep>, no: string) {
    exists j :: 0 <= j < |steps| && RiskFrom(steps, j, no)
  }

  lemma RiskyStep(steps: seq<NetStep>, no: string)
    requires steps != []
    ensures var prefix, s := steps[..|steps| - 1], steps[|steps| - 1];
            Risky(steps, no) <==>
              StoresUnpaid(s, no, !MemoryGone(prefix, no)) || (!s.Restart? && Risky(prefix, no))
  {
    hide MemoryGone, StoresUnpaid;
    var n := |steps| - 1;
    var prefix, s := steps[..n], steps[n];
    if StoresUnpaid(s, no, !MemoryGone(prefix, no)) {
      assert RiskFrom(steps, n, no);
    }
    if !s.Restart? && Risky(prefix, no) {
      var j :| 0 <= j < |prefix| && RiskFrom(prefix, j, no);
      assert prefix[..j] == steps[..j];
      assert RiskFrom(steps, j, no);
    }
    if Risky(steps, no) && !StoresUnpaid(s, no, !MemoryGone(prefix, no)) {
      var j :| 0 <= j < |steps| && RiskFrom(steps, j, no);
      assert j < n && prefix[..j] == steps[..j];
      assert forall k :: j < k < n ==> prefix[k] == steps[k];
      assert RiskFrom(prefix, j, no);
    }
  }

  ghost predicate NoRestart(steps: seq<NetStep>) {
    forall i :: 0 <= i < |steps| ==> !steps[i].Restart?
  }

  /**
   * While the trade is reported as paid, its report can end with the next save if and only if, since the last restart,
   * the trade was refunded or charged back, or its page was visited, a submission failed or its hold was released at a
   * time when the memory did not hold the payment; or if such a row was waiting when the payment's own was saved.
   */
  lemma {:induction false} RiskCauses(cat: Catalog, net: Net, steps: seq<NetStep>, no: string)
    requires NetLegalRun(cat, net, steps) && Held(net.gate, no) && net.gate.hasDb
    requires NeverForgets(true, steps, no)
    ensures AtRisk(NetRun(net, steps).gate, no) <==> Risky(steps, no) || (AtRisk(net.gate, no) && NoRestart(steps))
  {
    hide NetLegal, ApplyNet, GateStep, AtRisk, Held, MemoryGone, StoresUnpaid, UnpaidSave, Risky;
    if steps == [] {
      NothingRisky(no);
    } else {
      var n := |steps| - 1;
      var prefix, s := steps[..n], steps[n];
      LegalPrefix(cat, net, steps);
      NeverForgetsStep(true, steps, no);
      RiskCauses(cat, net, prefix, no);
      HeldRun(cat, net, prefix, no);
      RiskStep(cat, NetRun(net, prefix), s, no);
      GateAfter(NetRun(net, prefix), s);
      RiskyStep(steps, no);
      RestartStoresNothing(s, no, !MemoryGone(prefix, no));
      assert NoRestart(steps) <==> NoRestart(prefix) && !s.Restart? by {
        assert forall i :: 0 <= i < n ==> prefix[i] == steps[i];
      }
    }
  }

  lemma NothingRisky(no: string)
    ensures !Risky([], no)
  {
  }

  lemma RestartStoresNothing(s: NetStep, no: string, held: bool)
    ensures s.Restart? ==> !StoresUnpaid(s, no, held)
  {
  }

  // ---------- two ways to lose the report ----------

  /** A submission that pays, with its save, keeps the trade, whatever was known or pending before. */
  lemma PaidIsKept(g: Gate, no: string, amount: int, channel: string)
    ensures Kept(Remember(g, no, SubmittedTrade(no, amount, channel, true)), no)
  {
  }

  /** A page visit writes the memory, the buyer pays and that is saved, and then the visit's row is saved. */
  function LateSave(no: string, o: PayOrder): seq<NetStep> {
    [Show(no), Submit(no, true), Save(no, SubmittedTrade(no, o.amount, o.channel, true)),
     Save(no, ShownTrade(o.amount, o.channel))]
  }

  lemma LateGates(g: Gate, no: string, paid: Trade, shown: Trade)
    requires g.hasDb && !Held(g, no) && paid.status == TradeSuccess && shown.status == TradeWait
    ensures var g2 := Stored(Stored(g, no, shown), no, paid);
            var g3 := Landed(g2, no, paid);
            var g4 := Landed(g3, no, shown);
            && (no, paid) in g2.pending && (no, shown) in g3.pending && Kept(g3, no)
            && Held(g4, no) && TradeOf(g4, no) == Some(shown)
  {
  }

  lemma ShowSubmit(cat: Catalog, net: Net, no: string)
    requires no != "" && no in net.db.orders
    ensures var o := net.db.orders[no];
            && NetLegal(cat, net, Show(no)) &&
                GateStep(net, Show(no)) == Stored(net.gate, no, ShownTrade(o.amount, o.channel))
            && NetLegal(cat, net, Submit(no, true))
            && GateStep(net, Submit(no, true)) == Stored(net.gate, no, SubmittedTrade(no, o.amount, o.channel, true))
  {
  }

  lemma LegalSave(cat: Catalog, net: Net, no: string, t: Trade)
    requires (no, t) in net.gate.pending
    ensures NetLegal(cat, net, Save(no, t))
  {
  }

  /**
   * Such a run is legal, with no restart, refund or later visit. After the payment's save the trade is reported as
   * paid; after the last one it is reported as waiting and may not be refunded, while the memory still holds the
   * payment.
   */
  lemma LateSaveForgets(cat: Catalog, net: Net, no: string)
    requires no != "" && no in net.db.orders && net.gate.hasDb && !Held(net.gate, no)
    ensures var steps := LateSave(no, net.db.orders[no]);
            var after := NetRun(net, steps);
            && NetLegalRun(cat, net, steps) && Kept(NetRun(net, steps[..3]).gate, no)
            && after.db == net.db && Held(after.gate, no) && TradeOf(after.gate, no).Some?
            && !ReportsPaid(after.gate, no) && Guarded(TradeOf(after.gate, no).value, TradeRefund) == NotPaid
  {
    hide NetRun, NetLegalRun, NetLegal, ApplyNet, GateStep, Stored, Landed, Kept, Held, TradeOf;
    var o := net.db.orders[no];
    var paid, shown := SubmittedTrade(no, o.amount, o.channel, true), ShownTrade(o.amount, o.channel);
    var steps := LateSave(no, o);
    LateGates(net.gate, no, paid, shown);
    EmptyRun(cat, net);
    ShowSubmit(cat, net, no);
    RunExtends(cat, net, [], Show(no));
    GateOnly(net, Show(no));
    var net1 := NetRun(net, [] + [Show(no)]);
    ShowSubmit(cat, net1, no);
    RunExtends(cat, net, [] + [Show(no)], Submit(no, true));
    GateOnly(net1, Submit(no, true));
    Saves(cat, net, [] + [Show(no)] + [Submit(no, true)], no, paid);
    Saves(cat, net, [] + [Show(no)] + [Submit(no, true)] + [Save(no, paid)], no, shown);
    assert steps == [] + [Show(no)] + [Submit(no, true)] + [Save(no, paid)] + [Save(no, shown)];
    assert steps[..3] == [] + [Show(no)] + [Submit(no, true)] + [Save(no, paid)];
  }

  lemma Saves(cat: Catalog, net: Net, steps: seq<NetStep>, no: string, t: Trade)
    requires NetLegalRun(cat, net, steps) && (no, t) in NetRun(net, steps).gate.pending
    ensures NetLegalRun(cat, net, steps + [Save(no, t)])
    ensures NetRun(net, steps + [Save(no, t)]).gate == Landed(NetRun(net, steps).gate, no, t)
    ensures NetRun(net, steps + [Save(no, t)]).db == NetRun(net, steps).db
  {
    hide NetRun, NetLegalRun, NetLegal, ApplyNet, GateStep, Landed;
    LegalSave(cat, NetRun(net, steps), no, t);
    RunExtends(cat, net, steps, Save(no, t));
    GateOnly(NetRun(net, steps), Save(no, t));
    SaveOnly(NetRun(net, steps), no, t);
  }

  /** The buyer pays and that is saved, the gateway restarts, and the page is opened again. */
  function Reopened(no: string, o: PayOrder): seq<NetStep> {
    [Submit(no, true), Save(no, SubmittedTrade(no, o.amount, o.channel, true)), Restart, Show(no),
     Save(no, ShownTrade(o.amount, o.channel))]
  }

  lemma ReopenedGates(g: Gate, no: string, paid: Trade, shown: Trade)
    requires g.hasDb && paid.status == TradeSuccess && shown.status == TradeWait
    ensures var g1 := Stored(g, no, paid);
            var g2 := Landed(g1, no, paid);
            var g4 := Stored(g2.(memory := map[], pending := multiset{}, lookups := multiset{}), no, shown);
            && (no, paid) in g1.pending && Kept(g2, no) && (no, shown) in g4.pending
            && TradeOf(Landed(g4, no, shown), no) == Some(shown)
  {
  }

  lemma RestartOnly(cat: Catalog, net: Net)
    ensures NetLegal(cat, net, Restart)
    ensures GateStep(net, Restart) == net.gate.(memory := map[], pending := multiset{}, lookups := multiset{})
  {
  }

  /** A legal run, after which a trade that was reported as paid is reported as waiting. */
  lemma ReopenedPageForgets(cat: Catalog, net: Net, no: string)
    requires no != "" && no in net.db.orders && net.gate.hasDb
    ensures var steps := Reopened(no, net.db.orders[no]);
            && NetLegalRun(cat, net, steps) && Kept(NetRun(net, steps[..2]).gate, no)
            && NetRun(net, steps).db == net.db && !ReportsPaid(NetRun(net, steps).gate, no)
  {
    hide NetRun, NetLegalRun, NetLegal, ApplyNet, GateStep, Stored, Landed, Kept, TradeOf;
    var o := net.db.orders[no];
    var paid, shown := SubmittedTrade(no, o.amount, o.channel, true), ShownTrade(o.amount, o.channel);
    var steps := Reopened(no, o);
    ReopenedGates(net.gate, no, paid, shown);
    EmptyRun(cat, net);
    ShowSubmit(cat, net, no);
    RunExtends(cat, net, [], Submit(no, true));
    GateOnly(net, Submit(no, true));
    var run := [] + [Submit(no, true)];
    Saves(cat, net, run, no, paid);
    run := run + [Save(no, paid)];
    assert steps[..2] == run;
    RestartOnly(cat, NetRun(net, run));
    RunExtends(cat, net, run, Restart);
    GateOnly(NetRun(net, run), Restart);
    run := run + [Restart];
    ShowSubmit(cat, NetRun(net, run), no);
    RunExtends(cat, net, run, Show(no));
    GateOnly(NetRun(net, run), Show(no));
    run := run + [Show(no)];
    Saves(cat, net, run, no, shown);
    assert steps == run + [Save(no, shown)];
  }
}
