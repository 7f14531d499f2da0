/** The Solicitud schema: a user's request for quantities of medications,
    with a status drawn from a four-value enumeration and optional notes. */
module SolicitudModel {
  import opened Common

  datatype Estado = Pendiente | Aprobada | Rechazada | Entregada

  /** The enumeration values as stored and as sent by clients. */
  function EstadoName(e: Estado): string {
    match e
    case Pendiente => "PENDIENTE"
    case Aprobada => "APROBADA"
    case Rechazada => "RECHAZADA"
    case Entregada => "ENTREGADA"
  }

  /** Reads a status string against the enumeration; anything else is refused. */
  function ParseEstado(s: string): (r: Option<Estado>)
    ensures r.Some? ==> EstadoName(r.value) == s
    ensures r.None? ==> forall e: Estado :: EstadoName(e) != s
  {
    if s == "PENDIENTE" then Some(Pendiente)
    else if s == "APROBADA" then Some(Aprobada)
    else if s == "RECHAZADA" then Some(Rechazada)
    else if s == "ENTREGADA" then Some(Entregada)
    else None
  }

  /** Every status survives being written out and read back. */
  lemma ParseEstadoRoundTrip(e: Estado)
    ensures ParseEstado(EstadoName(e)) == Some(e)
  {
  }

  /** A new request starts pending. */
  const DefaultEstado: Estado := Pendiente

  datatype Item = Item(medicamentoId: MedId, cantidad: int)

  datatype ItemDoc = ItemDoc(medicamentoId: Option<MedId>, cantidad: Option<int>)

  datatype Solicitud = Solicitud(
    usuarioId: UserId,
    items: seq<Item>,
    estado: Estado,
    observaciones: string)

  /** An item asks for at least one unit. */
  predicate ItemValid(i: Item) {
    i.cantidad >= 1
  }

  /** A request has at least one item and every item is valid. */
  predicate SolicitudValid(s: Solicitud) {
    && |s.items| > 0
    && forall i :: 0 <= i < |s.items| ==> ItemValid(s.items[i])
  }

  /** Casting an item: the medication reference and the quantity are
      required, and the quantity is at least 1. */
  function CastItem(d: ItemDoc): (r: Result<Item>)
    ensures r.Ok? <==> d.medicamentoId.Some? && d.cantidad.Some? && d.cantidad.value >= 1
    ensures r.Ok? ==> ItemValid(r.value)
    ensures r.Ok? ==> r.value.medicamentoId == d.medicamentoId.value && r.value.cantidad == d.cantidad.value
  {
    match (d.medicamentoId, d.cantidad)
    case (Some(m), Some(q)) => if q >= 1 then Ok(Item(m, q)) else Err(ValidationFailed)
    case _ => Err(ValidationFailed)
  }

  /** `Solicitud.create({usuarioId, items, observaciones})` before the insert:
      casts the items, refuses an empty list, starts the request pending and
      stores the trimmed notes, or the empty string when none are given. */
  function NewSolicitud(usuarioId: UserId, items: seq<ItemDoc>, observaciones: Option<string>): (r: Result<Solicitud>)
    ensures r.Ok? <==> |items| > 0 && forall i :: 0 <= i < |items| ==> CastItem(items[i]).Ok?
    ensures r.Ok? ==> SolicitudValid(r.value)
    ensures r.Ok? ==>
      && r.value.usuarioId == usuarioId
      && r.value.estado == Pendiente
      && r.value.observaciones == (if observaciones.Some? then Trim(observaciones.value) else "")
    ensures r.Ok? ==>
      && |r.value.items| == |items|
      && forall i :: 0 <= i < |items| ==> Ok(r.value.items[i]) == CastItem(items[i])
  {
    match CastAll(items, CastItem)
    case Err(e) => Err(e)
    case Ok(its) =>
      if |its| == 0 then Err(ValidationFailed)
      else Ok(Solicitud(usuarioId, its, DefaultEstado, TrimOpt(observaciones).GetOr("")))
  }
}
