/** The document store as an explicit value. Every write goes through the
    schema's validation, as Mongoose's `save` and `create` do: a rejected
    document leaves the store as it was. */
module Persistence {
  import opened Common
  import opened MedicamentoModel
  import opened SolicitudModel
  import opened EntregaModel
  import opened MovimientoModel

  datatype Store = Store(
    proveedores: set<ProvId>,
    medicamentos: map<MedId, Medicamento>,
    solicitudes: map<SolId, Solicitud>,
    movimientos: seq<Movimiento>,
    entregas: seq<Entrega>)

  /** The store after an operation, and what the operation returned. On a
      failure the store still carries every write made before it. */
  datatype Outcome<T> = Outcome(store: Store, result: Result<T>)

  /** `med.save()` / `Medicamento.create`: validate, then write. */
  function SaveMedicamento(s: Store, id: MedId, m: Medicamento): (r: Result<Store>)
    ensures r.Ok? <==> MedicamentoValid(m)
    ensures r.Ok? ==> r.value == s.(medicamentos := s.medicamentos[id := m])
  {
    if MedicamentoValid(m) then Ok(s.(medicamentos := s.medicamentos[id := m])) else Err(ValidationFailed)
  }

  /** `solicitud.save()` / `Solicitud.create`: validate, then write. */
  function SaveSolicitud(s: Store, id: SolId, sol: Solicitud): (r: Result<Store>)
    ensures r.Ok? <==> SolicitudValid(sol)
    ensures r.Ok? ==> r.value == s.(solicitudes := s.solicitudes[id := sol])
  {
    if SolicitudValid(sol) then Ok(s.(solicitudes := s.solicitudes[id := sol])) else Err(ValidationFailed)
  }

  /** `Movimiento.create`: validate, then append to the log. */
  function CreateMovimiento(s: Store, m: Movimiento, now: Date): (r: Result<Store>)
    ensures r.Ok? <==> MovimientoValid(m, now)
    ensures r.Ok? ==> r.value == s.(movimientos := s.movimientos + [m])
  {
    if MovimientoValid(m, now) then Ok(s.(movimientos := s.movimientos + [m])) else Err(ValidationFailed)
  }

  /** Whether some stored receipt already references the request. */
  predicate Delivered(es: seq<Entrega>, solId: SolId) {
    exists i :: 0 <= i < |es| && es[i].solicitudId == solId
  }

  /** `Entrega.create`: validate, then insert, which the unique index on
      `solicitudId` refuses when the request already has a receipt. */
  function CreateEntrega(s: Store, e: Entrega, now: Date): (r: Result<Store>)
    ensures r.Ok? <==> EntregaValid(e, now) && !Delivered(s.entregas, e.solicitudId)
    ensures EntregaValid(e, now) && Delivered(s.entregas, e.solicitudId) ==> r == Err(DuplicateKey)
    ensures r.Ok? ==> r.value == s.(entregas := s.entregas + [e])
    ensures r.Ok? && OneEntregaPerSolicitud(s.entregas) ==> OneEntregaPerSolicitud(r.value.entregas)
  {
    if !EntregaValid(e, now) then Err(ValidationFailed)
    else if exists i :: 0 <= i < |s.entregas| && s.entregas[i].solicitudId == e.solicitudId then Err(DuplicateKey)
    else Ok(s.(entregas := s.entregas + [e]))
  }

  predicate MedicamentosValid(meds: map<MedId, Medicamento>) {
    forall id :: id in meds ==> MedicamentoValid(meds[id]) && StockConsistent(meds[id])
  }

  /** Every stored total agrees with its batches. */
  predicate StocksConsistent(meds: map<MedId, Medicamento>) {
    forall x :: x in meds ==> StockConsistent(meds[x])
  }

  predicate SolicitudesValid(sols: map<SolId, Solicitud>) {
    forall id :: id in sols ==> SolicitudValid(sols[id])
  }

  predicate MovimientosValid(ms: seq<Movimiento>, now: Date) {
    forall i :: 0 <= i < |ms| ==> MovimientoValid(ms[i], now)
  }

  predicate EntregasValid(es: seq<Entrega>, now: Date) {
    && (forall i :: 0 <= i < |es| ==> EntregaValid(es[i], now))
    && OneEntregaPerSolicitud(es)
  }

  /** Every stored document satisfies its schema, every medication's total
      agrees with its batches, and no request has two receipts. */
  predicate StoreValid(s: Store, now: Date) {
    && MedicamentosValid(s.medicamentos)
    && SolicitudesValid(s.solicitudes)
    && MovimientosValid(s.movimientos, now)
    && EntregasValid(s.entregas, now)
  }

  /** Storing a valid, consistent medication keeps a valid store valid. */
  lemma PutMedicamentoKeepsStoreValid(s: Store, id: MedId, m: Medicamento, now: Date)
    requires StoreValid(s, now) && MedicamentoValid(m) && StockConsistent(m)
    ensures StoreValid(s.(medicamentos := s.medicamentos[id := m]), now)
  {
  }

  /** Appending a valid movement keeps a valid store valid. */
  lemma AppendMovimientoKeepsStoreValid(s: Store, mv: Movimiento, now: Date)
    requires StoreValid(s, now) && MovimientoValid(mv, now)
    ensures StoreValid(s.(movimientos := s.movimientos + [mv]), now)
  {
    var ms := s.movimientos + [mv];
    forall i | 0 <= i < |ms|
      ensures MovimientoValid(ms[i], now)
    {
      if i < |s.movimientos| {
        assert ms[i] == s.movimientos[i];
      }
    }
  }

  /** Extending the movement log with valid movements keeps a valid store
      valid. */
  lemma ExtendMovimientosKeepsStoreValid(s: Store, ms: seq<Movimiento>, now: Date)
    requires StoreValid(s, now)
    requires |s.movimientos| <= |ms| && ms[..|s.movimientos|] == s.movimientos
    requires forall k :: |s.movimientos| <= k < |ms| ==> MovimientoValid(ms[k], now)
    ensures StoreValid(s.(movimientos := ms), now)
  {
    forall k | 0 <= k < |s.movimientos|
      ensures MovimientoValid(ms[k], now)
    {
      assert ms[k] == ms[..|s.movimientos|][k];
    }
  }

  /** On a valid store, `save` of a medication that agrees with its batches
      succeeds exactly when the store it would write is still valid: the
      validators refuse precisely the writes that would break the store. */
  lemma SaveMedicamentoGuardsStore(s: Store, id: MedId, m: Medicamento, now: Date)
    requires StoreValid(s, now) && StockConsistent(m)
    ensures SaveMedicamento(s, id, m).Ok? <==> StoreValid(s.(medicamentos := s.medicamentos[id := m]), now)
  {
    if MedicamentoValid(m) {
      PutMedicamentoKeepsStoreValid(s, id, m, now);
    } else {
      assert id in s.medicamentos[id := m];
    }
  }

  /** On a valid store, `save` of a request succeeds exactly when the store
      it would write is still valid. */
  lemma SaveSolicitudGuardsStore(s: Store, id: SolId, sol: Solicitud, now: Date)
    requires StoreValid(s, now)
    ensures SaveSolicitud(s, id, sol).Ok? <==> StoreValid(s.(solicitudes := s.solicitudes[id := sol]), now)
  {
    if !SolicitudValid(sol) {
      assert id in s.solicitudes[id := sol];
    }
  }

  /** On a valid store, `Movimiento.create` succeeds exactly when the log it
      would write is still valid. */
  lemma CreateMovimientoGuardsStore(s: Store, mv: Movimiento, now: Date)
    requires StoreValid(s, now)
    ensures CreateMovimiento(s, mv, now).Ok? <==> StoreValid(s.(movimientos := s.movimientos + [mv]), now)
  {
    if MovimientoValid(mv, now) {
      AppendMovimientoKeepsStoreValid(s, mv, now);
    } else {
      assert (s.movimientos + [mv])[|s.movimientos|] == mv;
    }
  }
}
