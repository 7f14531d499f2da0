/** What delivering a request does to the ledger: which batch loses stock,
    what the movement log records, which invariants survive, and what is
    left behind when a delivery fails part-way. */
module FulfilmentProperties {
  import opened Common
  import opened MedicamentoModel
  import opened SolicitudModel
  import opened EntregaModel
  import opened MovimientoModel
  import opened Persistence
  import opened SolicitudesService

  /** Taking `q` units from batch `i` lowers that batch and the total by `q`
      and leaves every other batch, the threshold and the name as they were. */
  lemma DecrementTakesFromOneBatch(med: Medicamento, i: nat, q: int)
    requires i < |med.lotes| && StockConsistent(med)
    ensures var after := Decrement(med, i, q);
      && |after.lotes| == |med.lotes|
      && after.lotes[i].cantidad == med.lotes[i].cantidad - q
      && after.lotes[i].lote == med.lotes[i].lote
      && (forall j :: 0 <= j < |med.lotes| && j != i ==> after.lotes[j] == med.lotes[j])
      && after.stockTotal == med.stockTotal - q
      && StockConsistent(after)
      && after.umbralBajoStock == med.umbralBajoStock
      && after.nombre == med.nombre
  {
    SumUpdate(med.lotes, i, med.lotes[i].cantidad - q);
  }

  /** A withdrawal that went through came from the first batch in stored
      order that held at least `q`, which in fact held more than `q` (a batch
      left at 0 fails validation), and left the total at or above the
      low-stock threshold. */
  lemma WithdrawnKeepsThreshold(before: Medicamento, after: Medicamento, q: int)
    requires Withdrawn(before, after, q) && StockConsistent(before)
    ensures FindIndex(before.lotes, Sufficient(q)).Some?
    ensures var i := FindIndex(before.lotes, Sufficient(q)).value;
      && i < |before.lotes|
      && (forall j :: 0 <= j < i ==> before.lotes[j].cantidad < q)
      && before.lotes[i].cantidad > q
      && after.lotes[i].cantidad == before.lotes[i].cantidad - q
    ensures after.stockTotal == before.stockTotal - q
    ensures after.stockTotal >= after.umbralBajoStock
    ensures MedicamentoValid(after) && StockConsistent(after)
  {
    var i := FindIndex(before.lotes, Sufficient(q)).value;
    DecrementTakesFromOneBatch(before, i, q);
    assert after.lotes[i].cantidad > 0;
    forall j | 0 <= j < i
      ensures before.lotes[j].cantidad < q
    {
      assert !Sufficient(q)(before.lotes[j]);
    }
  }

  /** Replacing one medication by a withdrawal from it keeps a valid
      catalogue valid, and only that medication changes, by the quantity. */
  lemma WithdrawalKeepsMedicamentosValid(before: map<MedId, Medicamento>, after: map<MedId, Medicamento>, id: MedId, q: int)
    requires MedicamentosValid(before) && id in before && id in after
    requires after == before[id := after[id]]
    requires after[id] == before[id] || Withdrawn(before[id], after[id], q)
    ensures MedicamentosValid(after)
    ensures forall x :: x in before && after[x] != before[x] ==>
      && x == id
      && after[x].stockTotal == before[x].stockTotal - q
      && after[x].stockTotal >= after[x].umbralBajoStock
  {
    if after[id] != before[id] {
      WithdrawnKeepsThreshold(before[id], after[id], q);
    }
  }

  /** Delivering one item keeps every medication valid and consistent; the
      one it touches drops by exactly the quantity and stays at or above its
      threshold. */
  lemma ProcessItemKeepsMedicamentosValid(s: Store, item: Item, usuarioId: UserId, now: Date)
    requires MedicamentosValid(s.medicamentos)
    ensures var o := ProcessItem(s, item, usuarioId, now);
      && MedicamentosValid(o.store.medicamentos)
      && forall x :: x in s.medicamentos && o.store.medicamentos[x] != s.medicamentos[x] ==>
           && x == item.medicamentoId
           && o.store.medicamentos[x].stockTotal == s.medicamentos[x].stockTotal - item.cantidad
           && o.store.medicamentos[x].stockTotal >= o.store.medicamentos[x].umbralBajoStock
  {
    var o := ProcessItem(s, item, usuarioId, now);
    var id := item.medicamentoId;
    if id in s.medicamentos {
      ProcessItemWithdrawal(s, item, usuarioId, now);
      WithdrawalKeepsMedicamentosValid(s.medicamentos, o.store.medicamentos, id, item.cantidad);
    } else {
      ProcessItemRefusals(s, item, usuarioId, now);
    }
  }

  /** A batch holding exactly the requested quantity, when it is the first
      that covers it, makes the delivery of that item fail: the decremented
      medication would keep a batch at 0, which the schema refuses. */
  lemma DrainingABatchFails(s: Store, item: Item, usuarioId: UserId, now: Date)
    requires item.medicamentoId in s.medicamentos
    requires var med := s.medicamentos[item.medicamentoId];
      && med.stockTotal - item.cantidad >= med.umbralBajoStock
      && FindIndex(med.lotes, Sufficient(item.cantidad)).Some?
      && med.lotes[FindIndex(med.lotes, Sufficient(item.cantidad)).value].cantidad == item.cantidad
    ensures ProcessItem(s, item, usuarioId, now) == Outcome(s, Err(ValidationFailed))
  {
    var med := s.medicamentos[item.medicamentoId];
    var i := FindIndex(med.lotes, Sufficient(item.cantidad)).value;
    var after := Decrement(med, i, item.cantidad);
    assert after.lotes[i].cantidad == 0;
    assert !MedicamentoValid(after);
  }

  /** Movement `m` is the EGRESO logged for `item`: same medication, same
      quantity, a batch code recorded, and valid at `now`. */
  predicate LogsItem(m: Movimiento, item: Item, now: Date) {
    && m.tipo == Egreso
    && m.medicamentoId == item.medicamentoId
    && m.cantidad == item.cantidad
    && m.lote.Some?
    && MovimientoValid(m, now)
  }

  /** Detail `d` and movement `m` describe the same delivered line of `item`:
      medication, quantity and batch code agree. */
  predicate RecordsItem(d: DetalleEntrega, m: Movimiento, item: Item, now: Date) {
    && LogsItem(m, item, now)
    && d.medicamentoId == item.medicamentoId
    && d.cantidadEntregada == item.cantidad
    && d.lote == m.lote
  }

  /** `added` logs the leading items of `items`, one movement each, in order. */
  predicate LogsItems(added: seq<Movimiento>, items: seq<Item>, now: Date) {
    && |added| <= |items|
    && forall k :: 0 <= k < |added| ==> LogsItem(added[k], items[k], now)
  }

  /** Details `ds` and movements `added` describe `items` one for one. */
  predicate RecordsItems(ds: seq<DetalleEntrega>, added: seq<Movimiento>, items: seq<Item>, now: Date) {
    && |ds| == |added| == |items|
    && forall k :: 0 <= k < |items| ==> RecordsItem(ds[k], added[k], items[k], now)
  }

  /** `LogsItems` built from its first element and the rest. */
  lemma LogsItemsCons(added: seq<Movimiento>, items: seq<Item>, now: Date)
    requires |added| > 0 && |items| > 0
    requires LogsItem(added[0], items[0], now) && LogsItems(added[1..], items[1..], now)
    ensures LogsItems(added, items, now)
  {
    forall k | 0 < k < |added|
      ensures LogsItem(added[k], items[k], now)
    {
      assert added[k] == added[1..][k - 1];
      assert items[k] == items[1..][k - 1];
    }
  }

  /** `RecordsItems` built from its first elements and the rest. */
  lemma RecordsItemsCons(ds: seq<DetalleEntrega>, added: seq<Movimiento>, items: seq<Item>, now: Date)
    requires |ds| > 0 && |added| > 0 && |items| > 0
    requires RecordsItem(ds[0], added[0], items[0], now) && RecordsItems(ds[1..], added[1..], items[1..], now)
    ensures RecordsItems(ds, added, items, now)
  {
    forall k | 0 < k < |items|
      ensures RecordsItem(ds[k], added[k], items[k], now)
    {
      assert ds[k] == ds[1..][k - 1];
      assert added[k] == added[1..][k - 1];
      assert items[k] == items[1..][k - 1];
    }
  }

  /** On success one item appends exactly one movement, and it and the
      detail describe the item; on failure nothing is appended. */
  lemma ProcessItemRecordsItem(s: Store, item: Item, usuarioId: UserId, now: Date)
    ensures var o := ProcessItem(s, item, usuarioId, now);
      && (o.result.Err? ==> o.store.movimientos == s.movimientos)
      && (o.result.Ok? ==>
            && |o.store.movimientos| == |s.movimientos| + 1
            && RecordsItem(o.result.value, o.store.movimientos[|s.movimientos|], item, now))
  {
    ProcessItemRefusals(s, item, usuarioId, now);
    ProcessItemWithdrawal(s, item, usuarioId, now);
  }

  /** The fold appends one EGRESO per item it gets through, in item order, and
      nothing for the item it stops at; it succeeds exactly when every item
      got one. */
  lemma {:induction false} FulfilLogsEachItem(s: Store, items: seq<Item>, usuarioId: UserId, now: Date, acc: seq<DetalleEntrega>)
    ensures var o := Fulfil(s, items, usuarioId, now, acc);
      var added := o.store.movimientos[|s.movimientos|..];
      && LogsItems(added, items, now)
      && (o.result.Ok? <==> |added| == |items|)
    decreases |items|
  {
    var o := Fulfil(s, items, usuarioId, now, acc);
    var n := |s.movimientos|;
    if items == [] {
      assert o.store.movimientos[n..] == [];
    } else {
      var step := ProcessItem(s, items[0], usuarioId, now);
      ProcessItemRecordsItem(s, items[0], usuarioId, now);
      match step.result
      case Err(e) =>
        assert o.store.movimientos[n..] == [];
      case Ok(d) =>
        var rest := Fulfil(step.store, items[1..], usuarioId, now, acc + [d]);
        FulfilLogsEachItem(step.store, items[1..], usuarioId, now, acc + [d]);
        assert o == rest;
        var ms := rest.store.movimientos;
        assert ms[..n + 1] == step.store.movimientos;
        assert ms[n..][0] == step.store.movimientos[n];
        assert ms[n..][1..] == ms[n + 1..];
        LogsItemsCons(ms[n..], items, now);
    }
  }

  /** On success, detail k of the receipt and movement k of the log both
      describe item k: same medication, same quantity, same batch code. */
  lemma {:induction false} FulfilRecordsDetails(s: Store, items: seq<Item>, usuarioId: UserId, now: Date, acc: seq<DetalleEntrega>)
    ensures var o := Fulfil(s, items, usuarioId, now, acc);
      o.result.Ok? ==> RecordsItems(o.result.value[|acc|..], o.store.movimientos[|s.movimientos|..], items, now)
    decreases |items|
  {
    var o := Fulfil(s, items, usuarioId, now, acc);
    var n := |s.movimientos|;
    if items == [] {
      assert o.store.movimientos[n..] == [];
      assert o.result.value[|acc|..] == [];
    } else {
      var step := ProcessItem(s, items[0], usuarioId, now);
      ProcessItemRecordsItem(s, items[0], usuarioId, now);
      match step.result
      case Err(e) =>
      case Ok(d) =>
        var rest := Fulfil(step.store, items[1..], usuarioId, now, acc + [d]);
        FulfilRecordsDetails(step.store, items[1..], usuarioId, now, acc + [d]);
        assert o == rest;
        if rest.result.Ok? {
          var ms := rest.store.movimientos;
          assert ms[..n + 1] == step.store.movimientos;
          assert ms[n..][0] == step.store.movimientos[n];
          assert ms[n..][1..] == ms[n + 1..];
          var ds := rest.result.value;
          assert ds[..|acc| + 1] == acc + [d];
          assert ds[|acc|] == ds[..|acc| + 1][|acc|];
          assert ds[|acc|..][0] == ds[|acc|];
          assert ds[|acc|..][1..] == ds[|acc| + 1..];
          RecordsItemsCons(ds[|acc|..], ms[n..], items, now);
        }
    }
  }

  /** The fold keeps every medication valid and consistent, and every
      medication it changed ends at or above its low-stock threshold, whether
      the fold succeeds or stops part-way. */
  lemma {:induction false} FulfilRespectsThreshold(s: Store, items: seq<Item>, usuarioId: UserId, now: Date, acc: seq<DetalleEntrega>)
    requires MedicamentosValid(s.medicamentos)
    ensures var o := Fulfil(s, items, usuarioId, now, acc);
      && MedicamentosValid(o.store.medicamentos)
      && forall x :: x in s.medicamentos && o.store.medicamentos[x] != s.medicamentos[x] ==>
           o.store.medicamentos[x].stockTotal >= o.store.medicamentos[x].umbralBajoStock
    decreases |items|
  {
    if items != [] {
      var step := ProcessItem(s, items[0], usuarioId, now);
      ProcessItemKeepsMedicamentosValid(s, items[0], usuarioId, now);
      match step.result
      case Err(e) =>
      case Ok(d) =>
        FulfilRespectsThreshold(step.store, items[1..], usuarioId, now, acc + [d]);
    }
  }

  /** The net a log records splits at any point. */
  lemma NetLoggedSplit(ms: seq<Movimiento>, n: nat, n1: nat, x: MedId)
    requires n <= n1 <= |ms|
    ensures NetLogged(ms[n..], x) == NetLogged(ms[n..n1], x) + NetLogged(ms[n1..], x)
  {
    assert ms[n..] == ms[n..n1] + ms[n1..];
    NetLoggedAppend(ms[n..n1], ms[n1..], x);
  }

  /** Two stretches of a log that each account for a change of stock account
      together for the combined change. */
  lemma ComposeConservation(before: map<MedId, Medicamento>, mid: map<MedId, Medicamento>, after: map<MedId, Medicamento>,
                            ms: seq<Movimiento>, n: nat, n1: nat)
    requires n <= n1 <= |ms|
    requires before.Keys == mid.Keys == after.Keys
    requires forall x :: x in before ==> mid[x].stockTotal == before[x].stockTotal + NetLogged(ms[n..n1], x)
    requires forall x :: x in mid ==> after[x].stockTotal == mid[x].stockTotal + NetLogged(ms[n1..], x)
    ensures forall x :: x in before ==> after[x].stockTotal == before[x].stockTotal + NetLogged(ms[n..], x)
  {
    forall x | x in before
      ensures after[x].stockTotal == before[x].stockTotal + NetLogged(ms[n..], x)
    {
      NetLoggedSplit(ms, n, n1, x);
    }
  }

  /** With a valid item, the stock a delivered line removes is exactly what
      the movement it appends records, for every medication, and every total
      still agrees with its batches. */
  lemma ProcessItemLogsWithdrawal(s: Store, item: Item, usuarioId: UserId, now: Date)
    requires StocksConsistent(s.medicamentos) && ItemValid(item)
    ensures var o := ProcessItem(s, item, usuarioId, now);
      && StocksConsistent(o.store.medicamentos)
      && forall x :: x in s.medicamentos ==>
        o.store.medicamentos[x].stockTotal == s.medicamentos[x].stockTotal + NetLogged(o.store.movimientos[|s.movimientos|..], x)
  {
    var o := ProcessItem(s, item, usuarioId, now);
    var added := o.store.movimientos[|s.movimientos|..];
    var id := item.medicamentoId;
    ProcessItemRefusals(s, item, usuarioId, now);
    ProcessItemWithdrawal(s, item, usuarioId, now);
    if o.result.Err? {
      assert added == [];
    } else {
      var m := added[0];
      assert added == [m];
      assert added[1..] == [];
      WithdrawnKeepsThreshold(s.medicamentos[id], o.store.medicamentos[id], item.cantidad);
      forall x | x in s.medicamentos
        ensures o.store.medicamentos[x].stockTotal == s.medicamentos[x].stockTotal + NetLogged(added, x)
      {
        if x != id {
          assert NetLogged(added, x) == 0;
        }
      }
    }
  }

  /** With valid items, every medication's stock after the fold equals its
      stock before plus the net of the movements the fold appended: no
      unlogged change, even when the fold stops part-way. */
  lemma {:induction false} FulfilConservesStock(s: Store, items: seq<Item>, usuarioId: UserId, now: Date, acc: seq<DetalleEntrega>)
    requires StocksConsistent(s.medicamentos)
    requires forall k :: 0 <= k < |items| ==> ItemValid(items[k])
    ensures var o := Fulfil(s, items, usuarioId, now, acc);
      forall x :: x in s.medicamentos ==>
        o.store.medicamentos[x].stockTotal == s.medicamentos[x].stockTotal + NetLogged(o.store.movimientos[|s.movimientos|..], x)
    decreases |items|
  {
    var o := Fulfil(s, items, usuarioId, now, acc);
    var n := |s.movimientos|;
    if items == [] {
      assert o.store.movimientos[n..] == [];
    } else {
      var step := ProcessItem(s, items[0], usuarioId, now);
      ProcessItemLogsWithdrawal(s, items[0], usuarioId, now);
      match step.result
      case Err(e) =>
      case Ok(d) =>
        var rest := Fulfil(step.store, items[1..], usuarioId, now, acc + [d]);
        assert forall k :: 0 <= k < |items[1..]| ==> ItemValid(items[1..][k]);
        FulfilConservesStock(step.store, items[1..], usuarioId, now, acc + [d]);
        assert o == rest;
        var ms := rest.store.movimientos;
        var n1 := |step.store.movimientos|;
        assert ms[..n1] == step.store.movimientos;
        assert ms[n..n1] == step.store.movimientos[n..];
        ComposeConservation(s.medicamentos, step.store.medicamentos, rest.store.medicamentos, ms, n, n1);
    }
  }

  /** A valid log extended by movements that each log an item stays valid. */
  lemma MovimientosValidExtend(ms: seq<Movimiento>, n: nat, items: seq<Item>, now: Date)
    requires n <= |ms|
    requires MovimientosValid(ms[..n], now) && LogsItems(ms[n..], items, now)
    ensures MovimientosValid(ms, now)
  {
    forall k | 0 <= k < |ms|
      ensures MovimientoValid(ms[k], now)
    {
      if k < n {
        assert ms[k] == ms[..n][k];
      } else {
        assert ms[k] == ms[n..][k - n];
      }
    }
  }

  /** The fold only ever appends valid movements. */
  lemma FulfilKeepsMovimientosValid(s: Store, items: seq<Item>, usuarioId: UserId, now: Date, acc: seq<DetalleEntrega>)
    requires MovimientosValid(s.movimientos, now)
    ensures MovimientosValid(Fulfil(s, items, usuarioId, now, acc).store.movimientos, now)
  {
    var ms := Fulfil(s, items, usuarioId, now, acc).store.movimientos;
    FulfilLogsEachItem(s, items, usuarioId, now, acc);
    MovimientosValidExtend(ms, |s.movimientos|, items, now);
  }

  /** Fulfilling items in a valid store leaves a valid store, whether the
      fold succeeds or stops part-way. */
  lemma FulfilKeepsStoreValid(s: Store, items: seq<Item>, usuarioId: UserId, now: Date, acc: seq<DetalleEntrega>)
    requires StoreValid(s, now)
    ensures StoreValid(Fulfil(s, items, usuarioId, now, acc).store, now)
  {
    FulfilRespectsThreshold(s, items, usuarioId, now, acc);
    FulfilKeepsMovimientosValid(s, items, usuarioId, now, acc);
  }
}
