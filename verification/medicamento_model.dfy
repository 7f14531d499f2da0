/** The Medicamento schema: a medication owning an ordered list of batches
    (lotes), its stored stock total, low-stock threshold and active flag.
    `LoteDoc` and `MedicamentoDoc` are documents as callers hand them to
    Mongoose, with every field possibly absent; the cast functions apply the
    schema's `trim` setters, defaults and validators. */
module MedicamentoModel {
  import opened Common

  /** A stored batch: code, units on hand, ingestion and expiry dates. */
  datatype Lote = Lote(lote: string, cantidad: int, fechaIngreso: Date, fechaVencimiento: Date)

  datatype Medicamento = Medicamento(
    nombre: string,
    proveedorId: ProvId,
    lotes: seq<Lote>,
    stockTotal: int,
    umbralBajoStock: int,
    activo: bool)

  datatype LoteDoc = LoteDoc(
    lote: Option<string>,
    cantidad: Option<int>,
    fechaIngreso: Option<Date>,
    fechaVencimiento: Option<Date>)

  datatype MedicamentoDoc = MedicamentoDoc(
    nombre: Option<string>,
    proveedorId: Option<ProvId>,
    lotes: Option<seq<LoteDoc>>,
    stockTotal: Option<int>,
    umbralBajoStock: Option<int>,
    activo: Option<bool>)

  const DefaultStockTotal: int := 0
  const DefaultUmbralBajoStock: int := 100
  const DefaultActivo: bool := true

  /** The batch sub-schema's validators on a cast batch: a code is required
      (a blank one is empty once trimmed), the quantity is non-negative and the
      expiry is strictly after the ingestion date. */
  predicate LoteValid(l: Lote) {
    && l.lote != ""
    && l.cantidad >= 0
    && l.fechaVencimiento > l.fechaIngreso
  }

  /** The medication schema's validators: a name is required, every batch is
      valid and, by the `lotes` array validator, holds more than zero units,
      and the stock total and threshold are non-negative. */
  predicate MedicamentoValid(m: Medicamento) {
    && m.nombre != ""
    && (forall i :: 0 <= i < |m.lotes| ==> LoteValid(m.lotes[i]) && m.lotes[i].cantidad > 0)
    && m.stockTotal >= 0
    && m.umbralBajoStock >= 0
  }

  /** Units on hand across all batches, the `reduce` the services use to
      recompute `stockTotal`. */
  function Sum(ls: seq<Lote>): int {
    if ls == [] then 0 else ls[0].cantidad + Sum(ls[1..])
  }

  /** The stored total agrees with its batches. */
  predicate StockConsistent(m: Medicamento) {
    m.stockTotal == Sum(m.lotes)
  }

  /** The batch sub-schema read field by field on an uncast document: the four
      fields are required, the quantity has minimum 0, and the expiry validator
      compares against the ingestion date whenever one is present. */
  predicate LoteDocValid(d: LoteDoc) {
    && d.lote.Some? && Trim(d.lote.value) != ""
    && d.cantidad.Some? && d.cantidad.value >= 0
    && d.fechaIngreso.Some?
    && d.fechaVencimiento.Some?
    && (d.fechaIngreso.Some? ==> d.fechaVencimiento.value > d.fechaIngreso.value)
  }

  /** Casting a batch document: the code is trimmed and the result is valid. */
  function CastLote(d: LoteDoc): (r: Result<Lote>)
    ensures r.Ok? <==> LoteDocValid(d)
    ensures r.Ok? ==> LoteValid(r.value)
    ensures r.Ok? ==> r.value.lote == Trim(d.lote.value) && r.value.cantidad == d.cantidad.value
    ensures r.Ok? ==> r.value.fechaIngreso == d.fechaIngreso.value && r.value.fechaVencimiento == d.fechaVencimiento.value
  {
    match (d.lote, d.cantidad, d.fechaIngreso, d.fechaVencimiento)
    case (Some(code), Some(q), Some(fi), Some(fv)) =>
      var l := Lote(Trim(code), q, fi, fv);
      if LoteValid(l) then Ok(l) else Err(ValidationFailed)
    case _ => Err(ValidationFailed)
  }

  /** The medication schema read field by field on an uncast document. */
  predicate MedicamentoDocValid(doc: MedicamentoDoc) {
    var ls := doc.lotes.GetOr([]);
    && doc.nombre.Some? && Trim(doc.nombre.value) != ""
    && doc.proveedorId.Some?
    && (forall i :: 0 <= i < |ls| ==> LoteDocValid(ls[i]) && ls[i].cantidad.value > 0)
    && doc.stockTotal.GetOr(DefaultStockTotal) >= 0
    && doc.umbralBajoStock.GetOr(DefaultUmbralBajoStock) >= 0
  }

  /** `Medicamento.create` before the insert: trims the name, casts the
      batches, fills in the defaults (no batches, stock 0, threshold 100,
      active) and runs the validators. */
  function CastMedicamento(doc: MedicamentoDoc): (r: Result<Medicamento>)
    ensures r.Ok? <==> MedicamentoDocValid(doc)
    ensures r.Ok? ==> MedicamentoValid(r.value)
    ensures r.Ok? ==>
      && r.value.nombre == Trim(doc.nombre.value)
      && r.value.proveedorId == doc.proveedorId.value
      && r.value.stockTotal == doc.stockTotal.GetOr(DefaultStockTotal)
      && r.value.umbralBajoStock == doc.umbralBajoStock.GetOr(DefaultUmbralBajoStock)
      && r.value.activo == doc.activo.GetOr(DefaultActivo)
    ensures r.Ok? ==>
      var ls := doc.lotes.GetOr([]);
      && |r.value.lotes| == |ls|
      && forall i :: 0 <= i < |ls| ==> Ok(r.value.lotes[i]) == CastLote(ls[i])
  {
    match (doc.nombre, doc.proveedorId)
    case (Some(nombre), Some(prov)) =>
      (match CastAll(doc.lotes.GetOr([]), CastLote)
       case Err(e) => Err(e)
       case Ok(ls) =>
         var m := Medicamento(
           Trim(nombre), prov, ls,
           doc.stockTotal.GetOr(DefaultStockTotal),
           doc.umbralBajoStock.GetOr(DefaultUmbralBajoStock),
           doc.activo.GetOr(DefaultActivo));
         CastMedicamentoChecks(doc, m);
         if MedicamentoValid(m) then Ok(m) else Err(ValidationFailed))
    case _ => Err(ValidationFailed)
  }

  /** Cast batches pass the medication's batch validators exactly when their
      documents pass the batch schema with a positive quantity. */
  lemma CastBatchesAgree(ds: seq<LoteDoc>, ls: seq<Lote>)
    requires CastAll(ds, CastLote) == Ok(ls)
    ensures |ls| == |ds|
    ensures (forall i :: 0 <= i < |ls| ==> LoteValid(ls[i]) && ls[i].cantidad > 0)
        <==> (forall i :: 0 <= i < |ds| ==> LoteDocValid(ds[i]) && ds[i].cantidad.value > 0)
  {
  }

  /** Once the batches have cast, the validators on the built medication
      accept exactly the documents the schema accepts. */
  lemma CastMedicamentoChecks(doc: MedicamentoDoc, m: Medicamento)
    requires doc.nombre.Some? && doc.proveedorId.Some?
    requires CastAll(doc.lotes.GetOr([]), CastLote) == Ok(m.lotes)
    requires m.nombre == Trim(doc.nombre.value)
    requires m.stockTotal == doc.stockTotal.GetOr(DefaultStockTotal)
    requires m.umbralBajoStock == doc.umbralBajoStock.GetOr(DefaultUmbralBajoStock)
    ensures MedicamentoValid(m) <==> MedicamentoDocValid(doc)
  {
    CastBatchesAgree(doc.lotes.GetOr([]), m.lotes);
  }

  lemma {:induction false} SumAppend(a: seq<Lote>, b: seq<Lote>)
    ensures Sum(a + b) == Sum(a) + Sum(b)
  {
    if a == [] {
      assert a + b == b;
    } else {
      assert (a + b)[1..] == a[1..] + b;
      SumAppend(a[1..], b);
    }
  }

  /** Changing one batch's quantity changes the sum by the same amount. */
  lemma {:induction false} SumUpdate(ls: seq<Lote>, i: nat, q: int)
    requires i < |ls|
    ensures Sum(ls[i := ls[i].(cantidad := q)]) == Sum(ls) - ls[i].cantidad + q
  {
    if i > 0 {
      assert ls[i := ls[i].(cantidad := q)][1..] == ls[1..][i - 1 := ls[i].(cantidad := q)];
      SumUpdate(ls[1..], i - 1, q);
    }
  }
}
