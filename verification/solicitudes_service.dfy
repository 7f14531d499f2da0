/** The request workflow and delivery fulfilment: creating a request,
    flipping its status, delivering it batch by batch, and the combined
    approve-and-deliver call. Nothing here is transactional: each write is
    kept even when a later step fails. */
module SolicitudesService {
  import opened Common
  import opened MedicamentoModel
  import opened SolicitudModel
  import opened EntregaModel
  import opened MovimientoModel
  import opened Persistence

  /** `crearSolicitud`: refuses a missing or empty item list, otherwise
      stores the request as the schema builds it. */
  function CrearSolicitud(s: Store, id: SolId, usuarioId: UserId, items: Option<seq<ItemDoc>>, observaciones: Option<string>): (o: Outcome<Solicitud>)
    requires id !in s.solicitudes
    ensures items.None? || |items.value| == 0 ==> o == Outcome(s, Err(EmptyItems))
    ensures o.result.Ok? <==> items.Some? && |items.value| > 0 && forall i :: 0 <= i < |items.value| ==> CastItem(items.value[i]).Ok?
    ensures o.result.Err? ==> o.store == s
    ensures o.result.Ok? ==>
      var sol := o.result.value;
      && o.store == s.(solicitudes := s.solicitudes[id := sol])
      && sol.usuarioId == usuarioId
      && sol.estado == Pendiente
      && |sol.items| == |items.value|
      && (forall i :: 0 <= i < |items.value| ==> Ok(sol.items[i]) == CastItem(items.value[i]))
  {
    if items.None? || |items.value| == 0 then Outcome(s, Err(EmptyItems))
    else
      match NewSolicitud(usuarioId, items.value, observaciones)
      case Err(e) => Outcome(s, Err(e))
      case Ok(sol) =>
        match SaveSolicitud(s, id, sol)
        case Err(e) => Outcome(s, Err(e))
        case Ok(s1) => Outcome(s1, Ok(sol))
  }

  /** Creating a request keeps the store valid: only a request that passed
      the schema is written. */
  lemma CrearSolicitudKeepsStoreValid(s: Store, id: SolId, usuarioId: UserId, items: Option<seq<ItemDoc>>, observaciones: Option<string>, now: Date)
    requires id !in s.solicitudes && StoreValid(s, now)
    ensures StoreValid(CrearSolicitud(s, id, usuarioId, items, observaciones).store, now)
  {
  }

  /** The two statuses `cambiarEstadoSolicitud` accepts as targets. */
  predicate SettableStatus(estado: string) {
    estado == "APROBADA" || estado == "RECHAZADA"
  }

  /** `cambiarEstadoSolicitud`: accepts only APROBADA or RECHAZADA as the
      target and never looks at the current status, so any request,
      delivered or rejected ones included, can be flipped. */
  function CambiarEstadoSolicitud(s: Store, id: SolId, estado: string): (o: Outcome<Solicitud>)
    ensures !SettableStatus(estado) ==> o == Outcome(s, Err(InvalidStatus))
    ensures SettableStatus(estado) && id !in s.solicitudes ==> o == Outcome(s, Err(RequestNotFound))
    ensures SettableStatus(estado) && id in s.solicitudes && SolicitudValid(s.solicitudes[id]) ==> o.result.Ok?
    ensures o.result.Err? ==> o.store == s
    ensures o.result.Ok? ==>
      var sol := o.result.value;
      && id in s.solicitudes
      && EstadoName(sol.estado) == estado
      && sol.items == s.solicitudes[id].items
      && sol.observaciones == s.solicitudes[id].observaciones
      && sol.usuarioId == s.solicitudes[id].usuarioId
      && o.store == s.(solicitudes := s.solicitudes[id := sol])
  {
    if !SettableStatus(estado) then Outcome(s, Err(InvalidStatus))
    else if id !in s.solicitudes then Outcome(s, Err(RequestNotFound))
    else
      var target := if estado == "APROBADA" then Aprobada else Rechazada;
      var sol := s.solicitudes[id].(estado := target);
      match SaveSolicitud(s, id, sol)
      case Err(e) => Outcome(s, Err(e))
      case Ok(s1) => Outcome(s1, Ok(sol))
  }

  /** A status change keeps the store valid: the request is saved through
      the schema or not at all. */
  lemma CambiarEstadoKeepsStoreValid(s: Store, id: SolId, estado: string, now: Date)
    requires StoreValid(s, now)
    ensures StoreValid(CambiarEstadoSolicitud(s, id, estado).store, now)
  {
  }

  /** The batch test of `med.lotes.find(l => l.cantidad >= item.cantidad)`. */
  function Sufficient(q: int): Lote -> bool {
    (l: Lote) => l.cantidad >= q
  }

  /** The medication with `q` units taken from batch `i` and the total
      recomputed from the batches, as the loop body rewrites it. */
  function Decrement(med: Medicamento, i: nat, q: int): Medicamento
    requires i < |med.lotes|
  {
    var lotes := med.lotes[i := med.lotes[i].(cantidad := med.lotes[i].cantidad - q)];
    med.(lotes := lotes, stockTotal := Sum(lotes))
  }

  /** `after` is `before` once `q` units have been taken from the first batch
      holding at least `q`: the threshold check passed and the decremented
      document passed validation. */
  predicate Withdrawn(before: Medicamento, after: Medicamento, q: int) {
    var found := FindIndex(before.lotes, Sufficient(q));
    && before.stockTotal - q >= before.umbralBajoStock
    && found.Some?
    && after == Decrement(before, found.value, q)
    && MedicamentoValid(after)
  }

  /** The output logged for one delivered line. */
  function EgresoOf(item: Item, code: string, usuarioId: UserId, now: Date): Movimiento {
    NewMovimiento(Egreso, item.medicamentoId, Some(code), item.cantidad, None, usuarioId, now)
  }

  /** The writes for one item once batch `i` has been chosen: save the
      decremented medication, then log the EGRESO, then build the detail. */
  function WithdrawFrom(s: Store, item: Item, i: nat, usuarioId: UserId, now: Date): (o: Outcome<DetalleEntrega>)
    requires item.medicamentoId in s.medicamentos && i < |s.medicamentos[item.medicamentoId].lotes|
    ensures o.store == s.(medicamentos := o.store.medicamentos, movimientos := o.store.movimientos)
    ensures item.medicamentoId in o.store.medicamentos
    ensures o.store.medicamentos == s.medicamentos[item.medicamentoId := o.store.medicamentos[item.medicamentoId]]
    ensures var med := s.medicamentos[item.medicamentoId];
      || o.store.medicamentos[item.medicamentoId] == med
      || (o.store.medicamentos[item.medicamentoId] == Decrement(med, i, item.cantidad) && MedicamentoValid(Decrement(med, i, item.cantidad)))
    ensures |s.movimientos| <= |o.store.movimientos| && o.store.movimientos[..|s.movimientos|] == s.movimientos
    ensures o.result.Err? ==> o.store.movimientos == s.movimientos
    ensures o.result.Err? && item.cantidad >= 1 ==> o.store == s
    ensures o.result.Ok? ==>
      var med := s.medicamentos[item.medicamentoId];
      && item.cantidad >= 1
      && o.store.medicamentos[item.medicamentoId] == Decrement(med, i, item.cantidad)
      && o.result.value == NewDetalle(item.medicamentoId, Some(med.lotes[i].lote), item.cantidad)
      && o.store.movimientos == s.movimientos + [EgresoOf(item, med.lotes[i].lote, usuarioId, now)]
  {
    var id := item.medicamentoId;
    var med := s.medicamentos[id];
    match SaveMedicamento(s, id, Decrement(med, i, item.cantidad))
    case Err(e) => Outcome(s, Err(e))
    case Ok(s1) =>
      match CreateMovimiento(s1, EgresoOf(item, med.lotes[i].lote, usuarioId, now), now)
      case Err(e) => Outcome(s1, Err(e))
      case Ok(s2) => Outcome(s2, Ok(NewDetalle(id, Some(med.lotes[i].lote), item.cantidad)))
  }

  /** One iteration of the `for (const item of solicitud.items)` loop of
      `entregarSolicitud`: threshold check, first sufficient batch, then the
      writes. Its contract is only the frame; what it refuses and what it
      writes are `ProcessItemRefusals` and `ProcessItemWithdrawal`. */
  function ProcessItem(s: Store, item: Item, usuarioId: UserId, now: Date): (o: Outcome<DetalleEntrega>)
    ensures o.store == s.(medicamentos := o.store.medicamentos, movimientos := o.store.movimientos)
    ensures o.store.medicamentos.Keys == s.medicamentos.Keys
    ensures |s.movimientos| <= |o.store.movimientos| && o.store.movimientos[..|s.movimientos|] == s.movimientos
  {
    var id := item.medicamentoId;
    if id !in s.medicamentos then Outcome(s, Err(MedicationNotFound))
    else
      var med := s.medicamentos[id];
      if med.stockTotal - item.cantidad < med.umbralBajoStock then Outcome(s, Err(BelowThreshold(id)))
      else
        match FindIndex(med.lotes, Sufficient(item.cantidad))
        case None => Outcome(s, Err(InsufficientStock(id)))
        case Some(i) => WithdrawFrom(s, item, i, usuarioId, now)
  }

  /** The refusals of one item, each leaving the store untouched: an unknown
      medication, a quantity that would take the total below the low-stock
      threshold (checked before any batch is looked at), and no single batch
      holding the quantity, even when the batches together would. A valid
      item that fails at any later point leaves the store untouched too. */
  lemma ProcessItemRefusals(s: Store, item: Item, usuarioId: UserId, now: Date)
    ensures var o := ProcessItem(s, item, usuarioId, now);
      && (item.medicamentoId !in s.medicamentos ==> o == Outcome(s, Err(MedicationNotFound)))
      && (item.medicamentoId in s.medicamentos ==>
            var med := s.medicamentos[item.medicamentoId];
            && (med.stockTotal - item.cantidad < med.umbralBajoStock ==>
                  o == Outcome(s, Err(BelowThreshold(item.medicamentoId))))
            && (med.stockTotal - item.cantidad >= med.umbralBajoStock
                && (forall j :: 0 <= j < |med.lotes| ==> med.lotes[j].cantidad < item.cantidad) ==>
                  o == Outcome(s, Err(InsufficientStock(item.medicamentoId)))))
      && (o.result.Err? ==> o.store.movimientos == s.movimientos)
      && (o.result.Err? && item.cantidad >= 1 ==> o.store == s)
  {
    var id := item.medicamentoId;
    if id in s.medicamentos {
      var med := s.medicamentos[id];
      if (forall j :: 0 <= j < |med.lotes| ==> med.lotes[j].cantidad < item.cantidad) {
        assert forall j :: 0 <= j < |med.lotes| ==> !Sufficient(item.cantidad)(med.lotes[j]);
      }
    }
  }

  /** What one item writes: only its own medication can change, and only by a
      withdrawal that passed both checks; on success the detail and the
      single EGRESO appended name the chosen batch and the requested
      quantity, which is at least 1. */
  lemma ProcessItemWithdrawal(s: Store, item: Item, usuarioId: UserId, now: Date)
    ensures var o := ProcessItem(s, item, usuarioId, now);
      && (item.medicamentoId in s.medicamentos ==>
            var med := s.medicamentos[item.medicamentoId];
            && o.store.medicamentos == s.medicamentos[item.medicamentoId := o.store.medicamentos[item.medicamentoId]]
            && (o.store.medicamentos[item.medicamentoId] == med || Withdrawn(med, o.store.medicamentos[item.medicamentoId], item.cantidad)))
      && (o.result.Ok? ==>
            var id := item.medicamentoId;
            && item.cantidad >= 1
            && id in s.medicamentos
            && Withdrawn(s.medicamentos[id], o.store.medicamentos[id], item.cantidad)
            && var chosen := s.medicamentos[id].lotes[FindIndex(s.medicamentos[id].lotes, Sufficient(item.cantidad)).value];
            && o.result.value == NewDetalle(id, Some(chosen.lote), item.cantidad)
            && o.store.movimientos == s.movimientos + [EgresoOf(item, chosen.lote, usuarioId, now)])
  {
  }

  /** The fulfilment loop as a fold over the items, carrying the details
      accumulated so far. The first failing item ends the fold; everything
      written for the items before it stays written. */
  function Fulfil(s: Store, items: seq<Item>, usuarioId: UserId, now: Date, acc: seq<DetalleEntrega>): (o: Outcome<seq<DetalleEntrega>>)
    ensures o.store == s.(medicamentos := o.store.medicamentos, movimientos := o.store.movimientos)
    ensures o.store.medicamentos.Keys == s.medicamentos.Keys
    ensures |s.movimientos| <= |o.store.movimientos| && o.store.movimientos[..|s.movimientos|] == s.movimientos
    ensures o.result.Ok? ==> |o.result.value| == |acc| + |items| && o.result.value[..|acc|] == acc
    decreases |items|
  {
    if items == [] then Outcome(s, Ok(acc))
    else
      var step := ProcessItem(s, items[0], usuarioId, now);
      match step.result
      case Err(e) => Outcome(step.store, Err(e))
      case Ok(d) =>
        var o := Fulfil(step.store, items[1..], usuarioId, now, acc + [d]);
        var n := |s.movimientos|;
        assert step.store.movimientos[..n] == s.movimientos;
        assert o.store.movimientos[..|step.store.movimientos|] == step.store.movimientos;
        assert o.store.movimientos[..n] == s.movimientos by {
          assert o.store.movimientos[..n] == o.store.movimientos[..|step.store.movimientos|][..n];
        }
        assert o.result.Ok? ==> o.result.value[..|acc|] == (acc + [d])[..|acc|];
        o
  }

  /** `entregarSolicitud` for a stored request: fulfils every item, then
      inserts one receipt with the accumulated details and marks the request
      ENTREGADA. It does not look at the request's status. */
  function EntregarSolicitud(s: Store, solId: SolId, usuarioId: UserId, now: Date): (o: Outcome<Entrega>)
    requires solId in s.solicitudes
    ensures o.store.proveedores == s.proveedores && o.store.medicamentos.Keys == s.medicamentos.Keys
    ensures o.result.Ok? ==>
      var f := Fulfil(s, s.solicitudes[solId].items, usuarioId, now, []);
      var e := o.result.value;
      && f.result.Ok?
      && e == NewEntrega(solId, f.result.value, None, usuarioId, now)
      && o.store.medicamentos == f.store.medicamentos
      && o.store.movimientos == f.store.movimientos
      && o.store.entregas == s.entregas + [e]
      && o.store.solicitudes == s.solicitudes[solId := s.solicitudes[solId].(estado := Entregada)]
  {
    var sol := s.solicitudes[solId];
    var f := Fulfil(s, sol.items, usuarioId, now, []);
    match f.result
    case Err(e) => Outcome(f.store, Err(e))
    case Ok(detalles) =>
      var entrega := NewEntrega(solId, detalles, None, usuarioId, now);
      match CreateEntrega(f.store, entrega, now)
      case Err(e) => Outcome(f.store, Err(e))
      case Ok(s2) =>
        match SaveSolicitud(s2, solId, sol.(estado := Entregada))
        case Err(e) => Outcome(s2, Err(e))
        case Ok(s3) => Outcome(s3, Ok(entrega))
  }

  /** `aprobarYEntregar`: sets the status to APROBADA, then delivers. A failed
      delivery does not undo the approval. */
  function AprobarYEntregar(s: Store, solId: SolId, usuarioId: UserId, now: Date): (o: Outcome<Entrega>)
    ensures solId !in s.solicitudes ==> o == Outcome(s, Err(RequestNotFound))
    ensures o.result.Ok? ==> solId in s.solicitudes && solId in o.store.solicitudes && o.store.solicitudes[solId].estado == Entregada
  {
    var approved := CambiarEstadoSolicitud(s, solId, "APROBADA");
    match approved.result
    case Err(e) => Outcome(approved.store, Err(e))
    case Ok(_) => EntregarSolicitud(approved.store, solId, usuarioId, now)
  }
}
