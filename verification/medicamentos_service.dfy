/** The batch ledger: creating a medication with its initial batches,
    adding a batch (merging by code), and the low-stock query. Every intake
    is logged as an INGRESO movement. */
module MedicamentosService {
  import opened Common
  import opened MedicamentoModel
  import opened MovimientoModel
  import opened Persistence

  /** The fields `crear` reads from its `data` argument. */
  datatype MedicamentoInput = MedicamentoInput(
    nombre: Option<string>,
    proveedorId: Option<ProvId>,
    umbralBajoStock: Option<int>,
    lotes: Option<seq<LoteDoc>>)

  /** The threshold `crear` substitutes for a missing or zero one. */
  const CrearUmbralFallback: int := 10

  /** `lotes.reduce((sum, lote) => sum + (lote.cantidad || 0), 0)`. */
  function SuppliedStock(ds: seq<LoteDoc>): int {
    if ds == [] then 0 else ds[0].cantidad.GetOr(0) + SuppliedStock(ds[1..])
  }

  /** `umbralBajoStock || 10`. */
  function UmbralOrFallback(u: Option<int>): int {
    if MissingNumber(u) then CrearUmbralFallback else u.value
  }

  /** Whether `crear` logs an intake for the batch: `lote.cantidad > 0`. */
  predicate Seeds(d: LoteDoc) {
    d.cantidad.Some? && d.cantidad.value > 0
  }

  /** The date `crear` passes for a batch's intake: `lote.fechaIngreso ?
      new Date(lote.fechaIngreso) : new Date()`, so an absent date and the
      falsy date 0 both leave the movement to be dated `now`. */
  function IngresoFecha(d: LoteDoc): Option<Date> {
    if MissingNumber(d.fechaIngreso) then None else d.fechaIngreso
  }

  /** The intake logged for one initial batch. */
  function IngresoOf(id: MedId, d: LoteDoc, usuarioId: UserId, now: Date): Movimiento {
    NewMovimiento(Ingreso, id, d.lote, d.cantidad.GetOr(0), IngresoFecha(d), usuarioId, now)
  }

  /** The movement schema accepts a seeded batch's intake exactly when the
      date it carries is not after `now`. */
  lemma IngresoOfAccepted(id: MedId, d: LoteDoc, usuarioId: UserId, now: Date)
    requires Seeds(d)
    ensures MovimientoValid(IngresoOf(id, d, usuarioId, now), now) <==> IngresoFecha(d).GetOr(now) <= now
  {
  }

  /** Reference definition of the log `crear` writes: one intake per batch
      with a positive quantity, in batch order. */
  function IngresoMovements(id: MedId, ds: seq<LoteDoc>, usuarioId: UserId, now: Date): seq<Movimiento> {
    if ds == [] then []
    else (if Seeds(ds[0]) then [IngresoOf(id, ds[0], usuarioId, now)] else [])
         + IngresoMovements(id, ds[1..], usuarioId, now)
  }

  /** No batch that `crear` logs an intake for is dated after `now`. */
  predicate SeededNotFuture(ds: seq<LoteDoc>, now: Date) {
    forall k :: 0 <= k < |ds| && Seeds(ds[k]) ==> IngresoFecha(ds[k]).GetOr(now) <= now
  }

  lemma SeededNotFutureCons(ds: seq<LoteDoc>, now: Date)
    requires ds != []
    ensures SeededNotFuture(ds, now) <==>
      (Seeds(ds[0]) ==> IngresoFecha(ds[0]).GetOr(now) <= now) && SeededNotFuture(ds[1..], now)
  {
    assert forall k :: 1 <= k < |ds| ==> ds[k] == ds[1..][k - 1];
  }

  /** The `for (const lote of lotes)` loop of `crear`: creates the intakes one
      at a time and stops at the first one the schema rejects (a future
      ingestion date), keeping those already written. */
  function SeedIngresos(s: Store, id: MedId, ds: seq<LoteDoc>, usuarioId: UserId, now: Date): (o: Outcome<()>)
    ensures o.store == s.(movimientos := o.store.movimientos)
    ensures |s.movimientos| <= |o.store.movimientos| && o.store.movimientos[..|s.movimientos|] == s.movimientos
    ensures o.result.Ok? ==> o.store.movimientos == s.movimientos + IngresoMovements(id, ds, usuarioId, now)
    ensures o.result.Ok? <==> SeededNotFuture(ds, now)
    ensures forall k :: |s.movimientos| <= k < |o.store.movimientos| ==> MovimientoValid(o.store.movimientos[k], now)
    decreases |ds|
  {
    if ds == [] then Outcome(s, Ok(()))
    else
      SeededNotFutureCons(ds, now);
      if Seeds(ds[0]) then
        IngresoOfAccepted(id, ds[0], usuarioId, now);
        match CreateMovimiento(s, IngresoOf(id, ds[0], usuarioId, now), now)
        case Err(e) => Outcome(s, Err(e))
        case Ok(s1) =>
          var mv := IngresoOf(id, ds[0], usuarioId, now);
          var o := SeedIngresos(s1, id, ds[1..], usuarioId, now);
          assert o.store.movimientos[|s.movimientos|] == s1.movimientos[|s.movimientos|];
          assert o.result.Ok? ==> o.store.movimientos == s.movimientos + IngresoMovements(id, ds, usuarioId, now) by {
            var rest := IngresoMovements(id, ds[1..], usuarioId, now);
            assert IngresoMovements(id, ds, usuarioId, now) == [mv] + rest;
            assert (s.movimientos + [mv]) + rest == s.movimientos + ([mv] + rest);
          }
          o
      else
        SeedIngresos(s, id, ds[1..], usuarioId, now)
  }

  /** The document `crear` hands to the schema: the request's fields, with
      the total and the defaulted threshold filled in. */
  function CrearDoc(data: MedicamentoInput): MedicamentoDoc {
    var ds := data.lotes.GetOr([]);
    MedicamentoDoc(
      data.nombre, data.proveedorId, Some(ds),
      Some(SuppliedStock(ds)), Some(UmbralOrFallback(data.umbralBajoStock)), None)
  }

  /** `crear`: checks the name and supplier are given and the supplier exists,
      stores the medication with its total set to the supplied batch
      quantities' sum and its threshold defaulted to 10, then logs one intake
      per batch with a positive quantity. */
  function Crear(s: Store, data: MedicamentoInput, usuarioId: UserId, id: MedId, now: Date): (o: Outcome<Medicamento>)
    requires id !in s.medicamentos
    ensures MissingText(data.nombre) || data.proveedorId.None? ==> o == Outcome(s, Err(MissingFields))
    ensures !MissingText(data.nombre) && data.proveedorId.Some? && data.proveedorId.value !in s.proveedores ==>
              o == Outcome(s, Err(UnknownSupplier))
    ensures o.result.Ok? ==>
      var m := o.result.value;
      var ds := data.lotes.GetOr([]);
      && o.store.medicamentos == s.medicamentos[id := m]
      && m.stockTotal == SuppliedStock(ds)
      && m.umbralBajoStock == UmbralOrFallback(data.umbralBajoStock)
      && m.activo
      && o.store.movimientos == s.movimientos + IngresoMovements(id, ds, usuarioId, now)
    ensures o.store != s ==> id in o.store.medicamentos && o.store.medicamentos == s.medicamentos[id := o.store.medicamentos[id]]
  {
    if MissingText(data.nombre) || data.proveedorId.None? then Outcome(s, Err(MissingFields))
    else if data.proveedorId.value !in s.proveedores then Outcome(s, Err(UnknownSupplier))
    else
      var ds := data.lotes.GetOr([]);
      match CastMedicamento(CrearDoc(data))
      case Err(e) => Outcome(s, Err(e))
      case Ok(m) =>
        var s1 := s.(medicamentos := s.medicamentos[id := m]);
        var seeded := SeedIngresos(s1, id, ds, usuarioId, now);
        match seeded.result
        case Err(e) => Outcome(seeded.store, Err(e))
        case Ok(_) => Outcome(seeded.store, Ok(m))
  }

  /** Summing the supplied quantities with a missing one read as 0 gives the
      batches' total whenever the batches cast. */
  lemma {:induction false} SuppliedStockIsSum(ds: seq<LoteDoc>, ls: seq<Lote>)
    requires CastAll(ds, CastLote) == Ok(ls)
    ensures SuppliedStock(ds) == Sum(ls)
  {
    if ds != [] {
      assert CastLote(ds[0]) == Ok(ls[0]);
      assert CastAll(ds[1..], CastLote) == Ok(ls[1..]);
      SuppliedStockIsSum(ds[1..], ls[1..]);
    }
  }

  /** When every batch is seeded, the log holds exactly one intake per batch,
      each carrying that batch's trimmed code and quantity, in batch order,
      dated at the batch's ingestion date, or at `now` when that date is
      absent or 0. */
  lemma {:induction false} IngresoMovementsOnePerBatch(id: MedId, ds: seq<LoteDoc>, usuarioId: UserId, now: Date)
    requires forall k :: 0 <= k < |ds| ==> Seeds(ds[k])
    ensures var ms := IngresoMovements(id, ds, usuarioId, now);
      && |ms| == |ds|
      && forall k :: 0 <= k < |ds| ==>
           && ms[k].tipo == Ingreso && ms[k].medicamentoId == id
           && ds[k].cantidad == Some(ms[k].cantidad)
           && ms[k].lote == TrimOpt(ds[k].lote)
           && ms[k].fechaMovimiento == (if MissingNumber(ds[k].fechaIngreso) then now else ds[k].fechaIngreso.value)
  {
    if ds != [] {
      IngresoMovementsOnePerBatch(id, ds[1..], usuarioId, now);
      assert forall k :: 1 <= k < |ds| ==> ds[k] == ds[1..][k - 1];
    }
  }

  /** A batch whose quantity is not positive is not logged. */
  lemma {:induction false} IngresoMovementsSkipEmpty(id: MedId, ds: seq<LoteDoc>, usuarioId: UserId, now: Date)
    ensures |IngresoMovements(id, ds, usuarioId, now)| <= |ds|
    ensures (forall k :: 0 <= k < |ds| ==> !Seeds(ds[k])) ==> IngresoMovements(id, ds, usuarioId, now) == []
  {
    if ds != [] {
      IngresoMovementsSkipEmpty(id, ds[1..], usuarioId, now);
      assert forall k :: 1 <= k < |ds| ==> ds[k] == ds[1..][k - 1];
    }
  }

  /** A successful `crear` stores a valid, consistent medication whose total
      is the sum of its batches, and logs one intake per batch. */
  lemma CrearSucceeds(s: Store, data: MedicamentoInput, usuarioId: UserId, id: MedId, now: Date)
    requires id !in s.medicamentos
    ensures var o := Crear(s, data, usuarioId, id, now);
      o.result.Ok? ==>
        var m := o.result.value;
        var ds := data.lotes.GetOr([]);
        && MedicamentoValid(m)
        && m.stockTotal == Sum(m.lotes)
        && |m.lotes| == |ds|
        && |o.store.movimientos| == |s.movimientos| + |ds|
  {
    var o := Crear(s, data, usuarioId, id, now);
    if o.result.Ok? {
      var ds := data.lotes.GetOr([]);
      var m := CastMedicamento(CrearDoc(data)).value;
      assert m == o.result.value;
      SuppliedStockIsSum(ds, m.lotes);
      assert forall k :: 0 <= k < |ds| ==> Seeds(ds[k]) by {
        forall k | 0 <= k < |ds|
          ensures Seeds(ds[k])
        {
          assert LoteDocValid(ds[k]) && ds[k].cantidad.value > 0;
        }
      }
      IngresoMovementsOnePerBatch(id, ds, usuarioId, now);
    }
  }

  /** A seeded batch with a (non-zero) ingestion date after `now` makes the
      intake loop fail, and the loop writes nothing but movements. */
  lemma SeedFutureFails(s: Store, id: MedId, ds: seq<LoteDoc>, usuarioId: UserId, now: Date, k: nat)
    requires k < |ds| && Seeds(ds[k])
    requires !MissingNumber(ds[k].fechaIngreso) && ds[k].fechaIngreso.value > now
    ensures var o := SeedIngresos(s, id, ds, usuarioId, now);
      o.result.Err? && o.store.medicamentos == s.medicamentos
  {
    assert IngresoFecha(ds[k]).GetOr(now) > now;
  }

  /** `crear` is not atomic: a batch with a (non-zero) ingestion date in the
      future passes the medication schema, so the medication is stored, and then its intake is refused, so
      the call fails with the medication left in place. */
  lemma CrearFutureIngestionLeavesMedication(s: Store, data: MedicamentoInput, usuarioId: UserId, id: MedId, now: Date, k: nat)
    requires id !in s.medicamentos
    requires CastMedicamento(CrearDoc(data)).Ok?
    requires data.lotes.Some? && k < |data.lotes.value|
    requires data.lotes.value[k].fechaIngreso.value != 0 && data.lotes.value[k].fechaIngreso.value > now
    requires data.proveedorId.Some? && data.proveedorId.value in s.proveedores
    ensures var o := Crear(s, data, usuarioId, id, now);
      o.result.Err? && id in o.store.medicamentos
  {
    var ds := data.lotes.value;
    var m := CastMedicamento(CrearDoc(data)).value;
    assert Ok(m.lotes[k]) == CastLote(ds[k]);
    var s1 := s.(medicamentos := s.medicamentos[id := m]);
    SeedFutureFails(s1, id, ds, usuarioId, now, k);
  }

  /** The batch-code test of `med.lotes.find(l => l.lote === lote)`. */
  function HasCode(code: string): Lote -> bool {
    (l: Lote) => l.lote == code
  }

  /** Batch `i` is the first one carrying `code`. */
  predicate FirstWithCode(ls: seq<Lote>, code: string, i: int) {
    && 0 <= i < |ls|
    && ls[i].lote == code
    && forall j :: 0 <= j < i ==> ls[j].lote != code
  }

  /** The `find` by code lands on the first batch with that code, and finds
      nothing exactly when no batch has it. */
  lemma FindCodeIsFirst(ls: seq<Lote>, code: string)
    ensures var f := FindIndex(ls, HasCode(code));
      && (f.Some? ==> FirstWithCode(ls, code, f.value))
      && (f.None? <==> forall j :: 0 <= j < |ls| ==> ls[j].lote != code)
  {
    var f := FindIndex(ls, HasCode(code));
    assert forall j :: 0 <= j < |ls| ==> (HasCode(code)(ls[j]) <==> ls[j].lote == code);
  }

  /** Merge-by-code: the first batch with the given code gains `q` units;
      when none has it, a new batch (code trimmed by the schema) is appended. */
  function MergeLote(ls: seq<Lote>, code: string, q: int, fi: Date, fv: Date): (r: seq<Lote>)
    ensures Sum(r) == Sum(ls) + q
    ensures (forall j :: 0 <= j < |ls| ==> ls[j].lote != code) ==> r == ls + [Lote(Trim(code), q, fi, fv)]
    ensures forall i :: FirstWithCode(ls, code, i) ==>
              && |r| == |ls|
              && r[i] == ls[i].(cantidad := ls[i].cantidad + q)
              && (forall j :: 0 <= j < |ls| && j != i ==> r[j] == ls[j])
  {
    FindCodeIsFirst(ls, code);
    match FindIndex(ls, HasCode(code))
    case Some(i) =>
      assert forall k :: FirstWithCode(ls, code, k) ==> k == i;
      SumUpdate(ls, i, ls[i].cantidad + q);
      ls[i := ls[i].(cantidad := ls[i].cantidad + q)]
    case None =>
      var l := Lote(Trim(code), q, fi, fv);
      SumAppend(ls, [l]);
      assert Sum([l]) == q;
      ls + [l]
  }

  /** No two batches of a medication share a code. */
  predicate UniqueCodes(ls: seq<Lote>) {
    forall i, j :: 0 <= i < j < |ls| ==> ls[i].lote != ls[j].lote
  }

  /** Batches with the same codes, position by position, as a list with
      unique codes have unique codes too. */
  lemma SameCodesKeepUnique(ls: seq<Lote>, r: seq<Lote>)
    requires UniqueCodes(ls) && |r| == |ls|
    requires forall j :: 0 <= j < |ls| ==> r[j].lote == ls[j].lote
    ensures UniqueCodes(r)
  {
  }

  /** Appending a batch whose code no batch has keeps codes unique. */
  lemma AppendKeepsCodesUnique(ls: seq<Lote>, l: Lote)
    requires UniqueCodes(ls)
    requires forall j :: 0 <= j < |ls| ==> ls[j].lote != l.lote
    ensures UniqueCodes(ls + [l])
  {
    var r := ls + [l];
    forall a, b | 0 <= a < b < |r|
      ensures r[a].lote != r[b].lote
    {
      assert r[a] == ls[a];
      if b < |ls| {
        assert r[b] == ls[b];
      } else {
        assert r[b] == l;
      }
    }
  }

  /** Merging into an existing batch keeps codes unique. */
  lemma MergeExistingKeepsCodesUnique(ls: seq<Lote>, code: string, q: int, fi: Date, fv: Date, i: nat)
    requires UniqueCodes(ls) && FirstWithCode(ls, code, i)
    ensures UniqueCodes(MergeLote(ls, code, q, fi, fv))
  {
    var r := MergeLote(ls, code, q, fi, fv);
    assert r[i].lote == ls[i].lote;
    SameCodesKeepUnique(ls, r);
  }

  /** Appending a new batch whose code is already trimmed keeps codes unique. */
  lemma MergeNewKeepsCodesUnique(ls: seq<Lote>, code: string, q: int, fi: Date, fv: Date)
    requires UniqueCodes(ls) && Trim(code) == code
    requires forall j :: 0 <= j < |ls| ==> ls[j].lote != code
    ensures UniqueCodes(MergeLote(ls, code, q, fi, fv))
  {
    AppendKeepsCodesUnique(ls, Lote(code, q, fi, fv));
  }

  /** Merging keeps batch codes unique when the incoming code carries no
      surrounding white space (the stored codes are compared untrimmed). */
  lemma MergeLoteKeepsCodesUnique(ls: seq<Lote>, code: string, q: int, fi: Date, fv: Date)
    requires UniqueCodes(ls)
    requires Trim(code) == code
    ensures UniqueCodes(MergeLote(ls, code, q, fi, fv))
  {
    var found := FindIndex(ls, HasCode(code));
    if found.Some? {
      var i := found.value;
      assert FirstWithCode(ls, code, i) by {
        assert HasCode(code)(ls[i]);
        forall j | 0 <= j < i
          ensures ls[j].lote != code
        {
          assert !HasCode(code)(ls[j]);
        }
      }
      MergeExistingKeepsCodesUnique(ls, code, q, fi, fv, i);
    } else {
      forall j | 0 <= j < |ls|
        ensures ls[j].lote != code
      {
        assert !HasCode(code)(ls[j]);
      }
      MergeNewKeepsCodesUnique(ls, code, q, fi, fv);
    }
  }

  /** `agregarLote`: requires a code, a non-zero quantity and both dates
      (timestamps, so the `!fecha` test also refuses the epoch, 0),
      refuses an already expired batch and an unknown medication, merges the
      batch by code, recomputes the total and saves, then logs one intake of
      the added quantity. */
  function AgregarLote(s: Store, id: MedId, input: LoteDoc, usuarioId: UserId, now: Date): (o: Outcome<Medicamento>)
    ensures MissingText(input.lote) || MissingNumber(input.cantidad) || MissingNumber(input.fechaIngreso) || MissingNumber(input.fechaVencimiento) ==>
              o == Outcome(s, Err(MissingFields))
    ensures !MissingText(input.lote) && !MissingNumber(input.cantidad) && !MissingNumber(input.fechaIngreso) && !MissingNumber(input.fechaVencimiento) ==>
              && (input.fechaVencimiento.value < now ==> o == Outcome(s, Err(ExpiredBatch)))
              && (input.fechaVencimiento.value >= now && id !in s.medicamentos ==> o == Outcome(s, Err(MedicationNotFound)))
    ensures o.result.Ok? ==>
      var before := s.medicamentos[id];
      var m := o.result.value;
      && id in s.medicamentos
      && o.store.medicamentos == s.medicamentos[id := m]
      && m.lotes == MergeLote(before.lotes, input.lote.value, input.cantidad.value, input.fechaIngreso.value, input.fechaVencimiento.value)
      && m.stockTotal == Sum(m.lotes) == Sum(before.lotes) + input.cantidad.value
      && m.(lotes := before.lotes, stockTotal := before.stockTotal) == before
      && o.store.movimientos == s.movimientos + [NewMovimiento(Ingreso, id, input.lote, input.cantidad.value, None, usuarioId, now)]
    ensures o.store.proveedores == s.proveedores && o.store.solicitudes == s.solicitudes && o.store.entregas == s.entregas
  {
    if MissingText(input.lote) || MissingNumber(input.cantidad) || MissingNumber(input.fechaIngreso) || MissingNumber(input.fechaVencimiento) then
      Outcome(s, Err(MissingFields))
    else if input.fechaVencimiento.value < now then Outcome(s, Err(ExpiredBatch))
    else if id !in s.medicamentos then Outcome(s, Err(MedicationNotFound))
    else
      var before := s.medicamentos[id];
      var q := input.cantidad.value;
      var ls := MergeLote(before.lotes, input.lote.value, q, input.fechaIngreso.value, input.fechaVencimiento.value);
      var m := before.(lotes := ls, stockTotal := Sum(ls));
      match SaveMedicamento(s, id, m)
      case Err(e) => Outcome(s, Err(e))
      case Ok(s1) =>
        match CreateMovimiento(s1, NewMovimiento(Ingreso, id, input.lote, q, None, usuarioId, now), now)
        case Err(e) => Outcome(s1, Err(e))
        case Ok(s2) => Outcome(s2, Ok(m))
  }

  /** With a quantity that is not negative, a failed `agregarLote` has written
      nothing: every check that can refuse it comes before the first write,
      and the intake it logs afterwards always passes the movement schema. */
  lemma AgregarLoteAtomicUnlessNegative(s: Store, id: MedId, input: LoteDoc, usuarioId: UserId, now: Date)
    requires input.cantidad.None? || input.cantidad.value >= 0
    ensures var o := AgregarLote(s, id, input, usuarioId, now);
      o.result.Err? ==> o.store == s
  {
  }

  /** After a successful `agregarLote` the total grew by exactly the added
      quantity, and the intake logged for the medication accounts for it. */
  lemma AgregarLoteLogsIntake(s: Store, id: MedId, input: LoteDoc, usuarioId: UserId, now: Date)
    requires id in s.medicamentos && StockConsistent(s.medicamentos[id])
    ensures var o := AgregarLote(s, id, input, usuarioId, now);
      o.result.Ok? ==>
        && StockConsistent(o.result.value)
        && o.result.value.stockTotal == s.medicamentos[id].stockTotal + input.cantidad.value
        && o.result.value.stockTotal - s.medicamentos[id].stockTotal
             == NetLogged(o.store.movimientos[|s.movimientos|..], id)
  {
    var o := AgregarLote(s, id, input, usuarioId, now);
    if o.result.Ok? {
      assert o.store.movimientos[|s.movimientos|..] == [NewMovimiento(Ingreso, id, input.lote, input.cantidad.value, None, usuarioId, now)];
    }
  }

  /** With an existing code, `agregarLote` only raises that batch and keeps
      the batch count; with a new code it appends one batch at the end. */
  lemma {:induction false} AgregarLoteMergesByCode(s: Store, id: MedId, input: LoteDoc, usuarioId: UserId, now: Date)
    ensures var o := AgregarLote(s, id, input, usuarioId, now);
      o.result.Ok? ==>
        var before := s.medicamentos[id].lotes;
        var after := o.result.value.lotes;
        var code := input.lote.value;
        && (forall i :: FirstWithCode(before, code, i) ==>
              && |after| == |before|
              && after[i].cantidad == before[i].cantidad + input.cantidad.value
              && (forall j :: 0 <= j < |before| && j != i ==> after[j] == before[j]))
        && ((forall j :: 0 <= j < |before| ==> before[j].lote != code) ==>
              && |after| == |before| + 1
              && after[..|before|] == before
              && after[|before|] == Lote(Trim(code), input.cantidad.value, input.fechaIngreso.value, input.fechaVencimiento.value))
  {
    var o := AgregarLote(s, id, input, usuarioId, now);
    if o.result.Ok? {
      var before := s.medicamentos[id].lotes;
      var code := input.lote.value;
      var l := Lote(Trim(code), input.cantidad.value, input.fechaIngreso.value, input.fechaVencimiento.value);
      assert o.result.value.lotes == MergeLote(before, code, input.cantidad.value, input.fechaIngreso.value, input.fechaVencimiento.value);
      if forall j :: 0 <= j < |before| ==> before[j].lote != code {
        assert o.result.value.lotes == before + [l];
      }
    }
  }

  /** `agregarLote` introduces no duplicate batch code when the given code is
      already trimmed and the stored codes were unique. */
  lemma AgregarLoteKeepsCodesUnique(s: Store, id: MedId, input: LoteDoc, usuarioId: UserId, now: Date)
    requires id in s.medicamentos && UniqueCodes(s.medicamentos[id].lotes)
    requires input.lote.Some? && Trim(input.lote.value) == input.lote.value
    ensures var o := AgregarLote(s, id, input, usuarioId, now);
      o.result.Ok? ==> UniqueCodes(o.result.value.lotes)
  {
    var o := AgregarLote(s, id, input, usuarioId, now);
    if o.result.Ok? {
      MergeLoteKeepsCodesUnique(s.medicamentos[id].lotes, input.lote.value, input.cantidad.value,
        input.fechaIngreso.value, input.fechaVencimiento.value);
    }
  }

  /** `stockBajo`: exactly the stored medications whose total is below
      their threshold, each as stored. */
  function StockBajo(s: Store): (r: map<MedId, Medicamento>)
    ensures forall id :: id in r <==> id in s.medicamentos && s.medicamentos[id].stockTotal < s.medicamentos[id].umbralBajoStock
    ensures forall id :: id in r ==> r[id] == s.medicamentos[id]
  {
    map id | id in s.medicamentos && s.medicamentos[id].stockTotal < s.medicamentos[id].umbralBajoStock :: s.medicamentos[id]
  }

  /** The medication a successful `crear` stores is on the low-stock list
      exactly when its supplied total is below its threshold (10 when none
      or 0 is given); every other entry of the list is as before. */
  lemma CrearListsLowStock(s: Store, data: MedicamentoInput, usuarioId: UserId, id: MedId, now: Date)
    requires id !in s.medicamentos
    ensures var o := Crear(s, data, usuarioId, id, now);
      o.result.Ok? ==>
        && (id in StockBajo(o.store) <==> SuppliedStock(data.lotes.GetOr([])) < UmbralOrFallback(data.umbralBajoStock))
        && (forall x :: x != id ==> (x in StockBajo(o.store) <==> x in StockBajo(s)))
  {
  }

  /** An intake never puts a medication on the low-stock list: whatever is
      low after a successful `agregarLote` was low before it. */
  lemma AgregarLoteNeverCreatesLowStock(s: Store, id: MedId, input: LoteDoc, usuarioId: UserId, now: Date)
    requires id in s.medicamentos && StockConsistent(s.medicamentos[id])
    ensures var o := AgregarLote(s, id, input, usuarioId, now);
      o.result.Ok? ==> forall x :: x in StockBajo(o.store) ==> x in StockBajo(s)
  {
    var o := AgregarLote(s, id, input, usuarioId, now);
    if o.result.Ok? {
      assert !MissingNumber(input.cantidad);
      assert input.cantidad.value >= 1 by {
        assert MovimientoValid(o.store.movimientos[|s.movimientos|], now);
      }
    }
  }

  /** Storing a medication and then running the intake loop changes only
      that medication and the log, which it extends with valid movements. */
  lemma PutThenSeedWritesValid(s: Store, id: MedId, m: Medicamento, ds: seq<LoteDoc>, usuarioId: UserId, now: Date)
    ensures var t := SeedIngresos(s.(medicamentos := s.medicamentos[id := m]), id, ds, usuarioId, now).store;
      && t.medicamentos == s.medicamentos[id := m]
      && t == s.(medicamentos := t.medicamentos, movimientos := t.movimientos)
      && |s.movimientos| <= |t.movimientos|
      && t.movimientos[..|s.movimientos|] == s.movimientos
      && forall k :: |s.movimientos| <= k < |t.movimientos| ==> MovimientoValid(t.movimientos[k], now)
  {
  }

  /** A `crear` that changes the store got past the schema and ran the
      intake loop on the store holding the cast medication. */
  lemma CrearStoresCast(s: Store, data: MedicamentoInput, usuarioId: UserId, id: MedId, now: Date)
    requires id !in s.medicamentos
    ensures var o := Crear(s, data, usuarioId, id, now);
      o.store != s ==>
        && CastMedicamento(CrearDoc(data)).Ok?
        && var m := CastMedicamento(CrearDoc(data)).value;
           o.store == SeedIngresos(s.(medicamentos := s.medicamentos[id := m]), id, data.lotes.GetOr([]), usuarioId, now).store
  {
  }

  /** The medication `crear` builds, once the schema accepts it, is valid and
      its total is the sum of its batches. */
  lemma CrearDocCastsConsistent(data: MedicamentoInput)
    requires CastMedicamento(CrearDoc(data)).Ok?
    ensures var m := CastMedicamento(CrearDoc(data)).value;
      MedicamentoValid(m) && StockConsistent(m)
  {
    var m := CastMedicamento(CrearDoc(data)).value;
    SuppliedStockIsSum(data.lotes.GetOr([]), m.lotes);
  }

  /** Whatever `crear` writes is valid: the medication it stores passes the
      schema and agrees with its batches, and each intake it appends is a
      valid movement; nothing else is touched. */
  lemma CrearWritesValid(s: Store, data: MedicamentoInput, usuarioId: UserId, id: MedId, now: Date)
    requires id !in s.medicamentos
    ensures var o := Crear(s, data, usuarioId, id, now);
      o.store != s ==>
        && id in o.store.medicamentos
        && o.store.medicamentos == s.medicamentos[id := o.store.medicamentos[id]]
        && MedicamentoValid(o.store.medicamentos[id])
        && StockConsistent(o.store.medicamentos[id])
        && o.store == s.(medicamentos := o.store.medicamentos, movimientos := o.store.movimientos)
        && |s.movimientos| <= |o.store.movimientos|
        && o.store.movimientos[..|s.movimientos|] == s.movimientos
        && forall k :: |s.movimientos| <= k < |o.store.movimientos| ==> MovimientoValid(o.store.movimientos[k], now)
  {
    var o := Crear(s, data, usuarioId, id, now);
    if o.store != s {
      CrearStoresCast(s, data, usuarioId, id, now);
      var m := CastMedicamento(CrearDoc(data)).value;
      CrearDocCastsConsistent(data);
      PutThenSeedWritesValid(s, id, m, data.lotes.GetOr([]), usuarioId, now);
    }
  }

  /** `crear` keeps the store valid, also when it fails after storing the
      medication. */
  lemma CrearKeepsStoreValid(s: Store, data: MedicamentoInput, usuarioId: UserId, id: MedId, now: Date)
    requires id !in s.medicamentos && StoreValid(s, now)
    ensures StoreValid(Crear(s, data, usuarioId, id, now).store, now)
  {
    var t := Crear(s, data, usuarioId, id, now).store;
    CrearWritesValid(s, data, usuarioId, id, now);
    if t != s {
      var s2 := s.(medicamentos := s.medicamentos[id := t.medicamentos[id]]);
      PutMedicamentoKeepsStoreValid(s, id, t.medicamentos[id], now);
      ExtendMovimientosKeepsStoreValid(s2, t.movimientos, now);
      assert t == s2.(movimientos := t.movimientos);
    }
  }

  /** `agregarLote` keeps the store valid whatever it is given: a rejected
      save changes nothing, and a saved medication has its total recomputed. */
  lemma AgregarLoteKeepsStoreValid(s: Store, id: MedId, input: LoteDoc, usuarioId: UserId, now: Date)
    requires StoreValid(s, now)
    ensures StoreValid(AgregarLote(s, id, input, usuarioId, now).store, now)
  {
    var o := AgregarLote(s, id, input, usuarioId, now);
    if !(MissingText(input.lote) || MissingNumber(input.cantidad) || MissingNumber(input.fechaIngreso) || MissingNumber(input.fechaVencimiento))
       && input.fechaVencimiento.value >= now && id in s.medicamentos {
      var before := s.medicamentos[id];
      var q := input.cantidad.value;
      var ls := MergeLote(before.lotes, input.lote.value, q, input.fechaIngreso.value, input.fechaVencimiento.value);
      var m := before.(lotes := ls, stockTotal := Sum(ls));
      if MedicamentoValid(m) {
        var s1 := s.(medicamentos := s.medicamentos[id := m]);
        PutMedicamentoKeepsStoreValid(s, id, m, now);
        var mv := NewMovimiento(Ingreso, id, input.lote, q, None, usuarioId, now);
        if MovimientoValid(mv, now) {
          AppendMovimientoKeepsStoreValid(s1, mv, now);
          assert o.store == s1.(movimientos := s1.movimientos + [mv]);
        } else {
          assert o.store == s1;
        }
      } else {
        assert o.store == s;
      }
    } else {
      assert o.store == s;
    }
  }

  /** As written, `agregarLote` accepts a negative quantity (`!cantidad` only
      rejects 0 and absence). Added to an existing batch that stays positive,
      it saves the medication with a lower total and then fails to log the
      movement (quantities must be at least 1): the stock drops and nothing
      records it. */
  lemma AgregarLoteNegativeUnlogged(s: Store, id: MedId, input: LoteDoc, usuarioId: UserId, now: Date, i: nat)
    requires id in s.medicamentos && MedicamentoValid(s.medicamentos[id])
    requires input.lote.Some? && input.cantidad.Some? && !MissingNumber(input.fechaIngreso) && !MissingNumber(input.fechaVencimiento)
    requires input.lote.value != "" && input.fechaVencimiento.value >= now
    requires input.cantidad.value < 0
    requires FirstWithCode(s.medicamentos[id].lotes, input.lote.value, i)
    requires s.medicamentos[id].lotes[i].cantidad + input.cantidad.value > 0
    requires Sum(s.medicamentos[id].lotes) + input.cantidad.value >= 0
    ensures var o := AgregarLote(s, id, input, usuarioId, now);
      && o.result == Err(ValidationFailed)
      && o.store.medicamentos[id].stockTotal == Sum(s.medicamentos[id].lotes) + input.cantidad.value
      && o.store.medicamentos[id].stockTotal < Sum(s.medicamentos[id].lotes)
      && o.store.movimientos == s.movimientos
  {
    NegativeMergeStaysValid(s.medicamentos[id], input.lote.value, input.cantidad.value, input.fechaIngreso.value, input.fechaVencimiento.value, i);
  }

  /** Lowering an existing batch that stays positive keeps a medication valid. */
  lemma NegativeMergeStaysValid(before: Medicamento, code: string, q: int, fi: Date, fv: Date, i: nat)
    requires MedicamentoValid(before) && FirstWithCode(before.lotes, code, i)
    requires before.lotes[i].cantidad + q > 0 && Sum(before.lotes) + q >= 0
    ensures var ls := MergeLote(before.lotes, code, q, fi, fv);
      MedicamentoValid(before.(lotes := ls, stockTotal := Sum(ls)))
  {
    var ls := MergeLote(before.lotes, code, q, fi, fv);
    forall j | 0 <= j < |ls|
      ensures LoteValid(ls[j]) && ls[j].cantidad > 0
    {
      if j != i {
        assert ls[j] == before.lotes[j];
      }
    }
  }

  /** `agregarLote` as evidently intended: a negative quantity is refused
      before anything is written, and the code is trimmed before it is
      compared with the stored (trimmed) codes. */
  function AgregarLoteGuarded(s: Store, id: MedId, input: LoteDoc, usuarioId: UserId, now: Date): (o: Outcome<Medicamento>)
    ensures input.cantidad.Some? && input.cantidad.value < 0 ==> o == Outcome(s, Err(NonPositiveQuantity))
    ensures input.cantidad.None? || input.cantidad.value >= 0 ==> o == AgregarLote(s, id, input.(lote := TrimOpt(input.lote)), usuarioId, now)
  {
    if input.cantidad.Some? && input.cantidad.value < 0 then Outcome(s, Err(NonPositiveQuantity))
    else AgregarLote(s, id, input.(lote := TrimOpt(input.lote)), usuarioId, now)
  }

  /** With the code trimmed before the find, an intake never duplicates a
      batch code, whatever white space surrounds the code it is given. */
  lemma AgregarLoteGuardedKeepsCodesUnique(s: Store, id: MedId, input: LoteDoc, usuarioId: UserId, now: Date)
    requires id in s.medicamentos && UniqueCodes(s.medicamentos[id].lotes)
    ensures var o := AgregarLoteGuarded(s, id, input, usuarioId, now);
      o.result.Ok? ==> UniqueCodes(o.result.value.lotes)
  {
    if input.lote.Some? && !(input.cantidad.Some? && input.cantidad.value < 0) {
      TrimIdempotent(input.lote.value);
      AgregarLoteKeepsCodesUnique(s, id, input.(lote := TrimOpt(input.lote)), usuarioId, now);
    }
  }

  /** With the guard, every change to a medication's total is recorded: for
      any input, the total after the call equals the total before plus the
      net of the movements the call appended, and no other medication moves. */
  lemma AgregarLoteGuardedConservesStock(s: Store, id: MedId, input: LoteDoc, usuarioId: UserId, now: Date)
    requires id in s.medicamentos && StockConsistent(s.medicamentos[id])
    ensures var o := AgregarLoteGuarded(s, id, input, usuarioId, now);
      && |s.movimientos| <= |o.store.movimientos|
      && id in o.store.medicamentos
      && o.store.medicamentos == s.medicamentos[id := o.store.medicamentos[id]]
      && o.store.medicamentos[id].stockTotal == s.medicamentos[id].stockTotal + NetLogged(o.store.movimientos[|s.movimientos|..], id)
  {
    var o := AgregarLoteGuarded(s, id, input, usuarioId, now);
    var added := o.store.movimientos[|s.movimientos|..];
    if o.result.Ok? {
      AgregarLoteLogsIntake(s, id, input.(lote := TrimOpt(input.lote)), usuarioId, now);
    } else {
      if input.cantidad.None? || input.cantidad.value >= 0 {
        AgregarLoteAtomicUnlessNegative(s, id, input.(lote := TrimOpt(input.lote)), usuarioId, now);
      }
      assert added == [];
    }
  }
}
