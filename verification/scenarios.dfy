/** Concrete runs of the ledger and the fulfilment step on small stores,
    showing the first-fit batch choice, the low-stock threshold, and the
    merge-by-code comparison on untrimmed codes. */
module Scenarios {
  import opened Common
  import opened MedicamentoModel
  import opened SolicitudModel
  import opened MovimientoModel
  import opened Persistence
  import opened MedicamentosService
  import opened SolicitudesService

  const Med: MedId := 1
  const Clerk: UserId := 7
  const Today: Date := 1000

  function Batch(code: string, q: int): Lote {
    Lote(code, q, 0, 5000)
  }

  function StoreWith(m: Medicamento): Store {
    Store({3}, map[Med := m], map[], [], [])
  }

  /** Two batches of 3 hold 6 units, but no single batch covers a request
      of 5, so first-fit refuses it although the total would suffice. */
  lemma SplitStockRefused()
    ensures var m := Medicamento("Amoxicilina", 3, [Batch("A", 3), Batch("B", 3)], 6, 0, true);
      && m.stockTotal >= 5
      && ProcessItem(StoreWith(m), Item(Med, 5), Clerk, Today) == Outcome(StoreWith(m), Err(InsufficientStock(Med)))
  {
    var m := Medicamento("Amoxicilina", 3, [Batch("A", 3), Batch("B", 3)], 6, 0, true);
    assert !Sufficient(5)(m.lotes[0]) && !Sufficient(5)(m.lotes[1]);
  }

  /** With 10 units and a threshold of 5, a request of 6 would leave 4 and
      is refused; a request of 4 leaves 6 and takes 4 from the one batch. */
  lemma ThresholdDecides()
    ensures var m := Medicamento("Paracetamol", 3, [Batch("P1", 10)], 10, 5, true);
      var s := StoreWith(m);
      && ProcessItem(s, Item(Med, 6), Clerk, Today) == Outcome(s, Err(BelowThreshold(Med)))
      && ProcessItem(s, Item(Med, 4), Clerk, Today).result.Ok?
      && ProcessItem(s, Item(Med, 4), Clerk, Today).store.medicamentos[Med].lotes == [Batch("P1", 6)]
      && ProcessItem(s, Item(Med, 4), Clerk, Today).store.medicamentos[Med].stockTotal == 6
  {
    var m := Medicamento("Paracetamol", 3, [Batch("P1", 10)], 10, 5, true);
    var s := StoreWith(m);
    assert Sufficient(4)(m.lotes[0]);
    var after := Decrement(m, 0, 4);
    assert after.lotes == [Batch("P1", 6)];
    assert Sum(after.lotes) == 6;
  }

  /** A medication created without batches has a total of 0; with the
      default threshold, any request for it fails on the threshold. */
  lemma EmptyMedicationRefused(q: int)
    requires q >= 1
    ensures var m := Medicamento("Paracetamol Test", 3, [], 0, CrearUmbralFallback, true);
      ProcessItem(StoreWith(m), Item(Med, q), Clerk, Today) == Outcome(StoreWith(m), Err(BelowThreshold(Med)))
  {
  }

  /** `" A".trim()` is `"A"`. */
  lemma TrimLeadingSpace()
    ensures Trim(" A") == "A"
  {
    assert IsWhitespace(' ');
    assert TrimStart(" A") == TrimStart(" A"[1..]);
    assert " A"[1..] == "A";
    assert !IsWhitespace('A');
  }

  /** The code match compares the raw code with the stored, trimmed ones:
      adding " A" to a medication holding batch "A" appends a second batch
      whose stored code is also "A". */
  lemma UntrimmedCodeDuplicates()
    ensures var r := MergeLote([Batch("A", 5)], " A", 3, 0, 5000);
      && |r| == 2 && r[0].lote == "A" && r[1].lote == "A"
      && !UniqueCodes(r)
  {
    TrimLeadingSpace();
    var ls := [Batch("A", 5)];
    assert forall j :: 0 <= j < |ls| ==> ls[j].lote != " A";
  }

  /** Trimming the code first, as the corrected intake does, merges " A"
      into the stored batch "A". */
  lemma TrimmedCodeMerges()
    ensures MergeLote([Batch("A", 5)], Trim(" A"), 3, 0, 5000) == [Batch("A", 8)]
  {
    TrimLeadingSpace();
    assert HasCode("A")(Batch("A", 5));
  }

  /** A batch whose ingestion date is the falsy 0 is logged at `now`, as the
      `lote.fechaIngreso ? … : new Date()` fallback decides, while a batch
      with a real date keeps it. */
  lemma EpochIngestionDatedNow()
    ensures var ms := IngresoMovements(Med, [LoteDoc(Some("L1"), Some(5), Some(0), Some(5000)),
                                             LoteDoc(Some("L2"), Some(4), Some(900), Some(5000))], Clerk, Today);
      && |ms| == 2
      && ms[0].fechaMovimiento == Today
      && ms[1].fechaMovimiento == 900
      && SeededNotFuture([LoteDoc(Some("L1"), Some(5), Some(0), Some(5000))], Today)
  {
    var ds := [LoteDoc(Some("L1"), Some(5), Some(0), Some(5000)), LoteDoc(Some("L2"), Some(4), Some(900), Some(5000))];
    IngresoMovementsOnePerBatch(Med, ds, Clerk, Today);
  }
}
