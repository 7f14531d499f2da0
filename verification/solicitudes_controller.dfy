/** The HTTP layer over the request service: the authentication, body and
    status checks each handler makes before calling the service, and the
    status code it answers with. Every exception the service raises becomes
    a 400 carrying that error. */
module SolicitudesController {
  import opened Common
  import opened SolicitudModel
  import opened EntregaModel
  import opened Persistence
  import opened SolicitudesService

  /** The store after the handler, the HTTP status, and the JSON body. */
  datatype Reply<T> = Reply(store: Store, status: int, body: Result<T>)

  /** A service call answered with `okStatus` on success and 400 with the
      error otherwise (the handlers' `catch` blocks). */
  function FromService<T>(o: Outcome<T>, okStatus: int): (r: Reply<T>)
    ensures r.store == o.store && r.body == o.result
    ensures r.status == if o.result.Ok? then okStatus else 400
  {
    Reply(o.store, if o.result.Ok? then okStatus else 400, o.result)
  }

  /** The per-item check of `crearSolicitud`: a medication reference and a
      positive quantity. */
  predicate ItemAccepted(d: ItemDoc) {
    d.medicamentoId.Some? && !MissingNumber(d.cantidad) && d.cantidad.value > 0
  }

  /** The handler's item check and the schema's item cast agree: an item
      passes the handler exactly when it casts, and then it casts to the
      reference and quantity the handler checked. */
  lemma ItemAcceptedIffCasts(d: ItemDoc)
    ensures ItemAccepted(d) <==> CastItem(d).Ok?
    ensures ItemAccepted(d) ==> CastItem(d).value == Item(d.medicamentoId.value, d.cantidad.value)
  {
  }

  /** The error for the first item the check refuses. */
  function ItemError(d: ItemDoc): Error {
    if d.medicamentoId.None? then MissingMedicationRef else NonPositiveQuantity
  }

  /** `observaciones?.trim() || ""`. */
  function NotesArg(observaciones: Option<string>): string {
    if observaciones.None? then "" else Trim(observaciones.value)
  }

  /** `crearSolicitud` handler: 401 without a user, 400 for a missing or
      empty item list, 400 naming the first item that lacks a reference or a
      positive quantity, otherwise the service call, answered 201. Every item
      the handler accepts the schema accepts too, so once past its checks the
      request is always created, with its notes trimmed exactly once. */
  function CrearSolicitud(s: Store, id: SolId, user: Option<UserId>, items: Option<seq<ItemDoc>>, observaciones: Option<string>): (r: Reply<Solicitud>)
    requires id !in s.solicitudes
    ensures user.None? ==> r == Reply(s, 401, Err(Unauthenticated))
    ensures user.Some? && (items.None? || |items.value| == 0) ==> r == Reply(s, 400, Err(EmptyItems))
    ensures user.Some? && items.Some? ==>
      forall k :: 0 <= k < |items.value| && !ItemAccepted(items.value[k]) && (forall j :: 0 <= j < k ==> ItemAccepted(items.value[j])) ==>
        r == Reply(s, 400, Err(ItemError(items.value[k])))
    ensures r.status == 201 <==> user.Some? && items.Some? && |items.value| > 0 && forall k :: 0 <= k < |items.value| ==> ItemAccepted(items.value[k])
    ensures r.status != 201 ==> r.store == s && r.body.Err?
    ensures r.status == 201 ==> r.body.Ok?
    ensures r.status == 201 ==>
      var sol := r.body.value;
      && r.store == s.(solicitudes := s.solicitudes[id := sol])
      && sol.usuarioId == user.value
      && sol.estado == Pendiente
      && sol.observaciones == NotesArg(observaciones)
      && |sol.items| == |items.value|
      && forall k :: 0 <= k < |items.value| ==>
           Some(sol.items[k].medicamentoId) == items.value[k].medicamentoId && Some(sol.items[k].cantidad) == items.value[k].cantidad
  {
    if user.None? then Reply(s, 401, Err(Unauthenticated))
    else if items.None? || |items.value| == 0 then Reply(s, 400, Err(EmptyItems))
    else
      match FindIndex(items.value, (d: ItemDoc) => !ItemAccepted(d))
      case Some(k) => Reply(s, 400, Err(ItemError(items.value[k])))
      case None =>
        var o := SolicitudesService.CrearSolicitud(s, id, user.value, items, Some(NotesArg(observaciones)));
        assert o.result.Ok? ==> o.result.value.observaciones == NotesArg(observaciones) by {
          if observaciones.Some? {
            TrimIdempotent(observaciones.value);
          }
        }
        FromService(o, 201)
  }

  /** `cambiarEstado` handler: lets any of the four status names through,
      but the service only sets APROBADA or RECHAZADA, so PENDIENTE and
      ENTREGADA end in the same 400 as an unknown name. */
  function CambiarEstado(s: Store, id: SolId, estado: Option<string>): (r: Reply<Solicitud>)
    ensures estado.None? || !SettableStatus(estado.value) ==> r == Reply(s, 400, Err(InvalidStatus))
    ensures estado.Some? && SettableStatus(estado.value) && id !in s.solicitudes ==> r == Reply(s, 400, Err(RequestNotFound))
    ensures r.status == 200 || r.status == 400
    ensures r.status != 200 ==> r.store == s && r.body.Err?
    ensures r.status == 200 ==>
      && estado.Some? && id in s.solicitudes && r.body.Ok?
      && EstadoName(r.body.value.estado) == estado.value
      && r.store == s.(solicitudes := s.solicitudes[id := r.body.value])
  {
    if MissingText(estado) || ParseEstado(estado.value).None? then Reply(s, 400, Err(InvalidStatus))
    else FromService(CambiarEstadoSolicitud(s, id, estado.value), 200)
  }

  /** `entregarSolicitud` handler: 401 without a user, 404 for an unknown
      request, 400 unless the request is APROBADA, otherwise the delivery,
      answered 200. */
  function Entregar(s: Store, id: SolId, user: Option<UserId>, now: Date): (r: Reply<Entrega>)
    ensures user.None? ==> r == Reply(s, 401, Err(Unauthenticated))
    ensures user.Some? && id !in s.solicitudes ==> r == Reply(s, 404, Err(RequestNotFound))
    ensures user.Some? && id in s.solicitudes && s.solicitudes[id].estado != Aprobada ==> r == Reply(s, 400, Err(NotApproved))
    ensures r.status == 200 ==>
      && id in s.solicitudes && s.solicitudes[id].estado == Aprobada
      && id in r.store.solicitudes && r.store.solicitudes[id].estado == Entregada
      && r.body.Ok? && r.body.value.solicitudId == id
      && r.store.entregas == s.entregas + [r.body.value]
  {
    if user.None? then Reply(s, 401, Err(Unauthenticated))
    else if id !in s.solicitudes then Reply(s, 404, Err(RequestNotFound))
    else if s.solicitudes[id].estado != Aprobada then Reply(s, 400, Err(NotApproved))
    else FromService(EntregarSolicitud(s, id, user.value, now), 200)
  }

  /** `aprobarYEntregar` handler: 401 without a user, otherwise the service
      call, answered 200. It skips the APROBADA check of `Entregar`. */
  function AprobarYEntregar(s: Store, id: SolId, user: Option<UserId>, now: Date): (r: Reply<Entrega>)
    ensures user.None? ==> r == Reply(s, 401, Err(Unauthenticated))
    ensures user.Some? && id !in s.solicitudes ==> r == Reply(s, 400, Err(RequestNotFound))
    ensures r.status == 200 ==> id in s.solicitudes && id in r.store.solicitudes && r.store.solicitudes[id].estado == Entregada
  {
    if user.None? then Reply(s, 401, Err(Unauthenticated))
    else FromService(SolicitudesService.AprobarYEntregar(s, id, user.value, now), 200)
  }

  /** The APROBADA check makes the delivery handler single-shot: once it has
      answered 200, calling it again for the same request answers 400 and
      touches nothing, so no stock is withdrawn twice. */
  lemma EntregarOnce(s: Store, id: SolId, user: Option<UserId>, now: Date, later: Date)
    ensures var r := Entregar(s, id, user, now);
      r.status == 200 ==> Entregar(r.store, id, user, later) == Reply(r.store, 400, Err(NotApproved))
  {
  }
}
