/** The Entrega schema: the receipt of a fulfilled request, listing which
    batch of which medication each delivered quantity came from. */
module EntregaModel {
  import opened Common

  /** One delivered line; `lote` is absent (null) when no code is given. */
  datatype DetalleEntrega = DetalleEntrega(medicamentoId: MedId, lote: Option<string>, cantidadEntregada: int)

  datatype Entrega = Entrega(
    solicitudId: SolId,
    detalles: seq<DetalleEntrega>,
    fechaEntrega: Date,
    entregadoPor: UserId)

  /** A detail delivers at least one unit. */
  predicate DetalleValid(d: DetalleEntrega) {
    d.cantidadEntregada >= 1
  }

  /** A receipt lists at least one valid detail and is not dated in the future. */
  predicate EntregaValid(e: Entrega, now: Date) {
    && |e.detalles| > 0
    && (forall i :: 0 <= i < |e.detalles| ==> DetalleValid(e.detalles[i]))
    && e.fechaEntrega <= now
  }

  /** At most one receipt per request: the unique index on `solicitudId`. */
  predicate OneEntregaPerSolicitud(es: seq<Entrega>) {
    forall i, j :: 0 <= i < j < |es| ==> es[i].solicitudId != es[j].solicitudId
  }

  /** A detail as the schema stores it: the code trimmed, null when absent. */
  function NewDetalle(medicamentoId: MedId, lote: Option<string>, cantidad: int): (d: DetalleEntrega)
    ensures d.medicamentoId == medicamentoId && d.cantidadEntregada == cantidad
    ensures lote.None? ==> d.lote.None?
    ensures lote.Some? ==> d.lote == Some(Trim(lote.value))
  {
    DetalleEntrega(medicamentoId, TrimOpt(lote), cantidad)
  }

  /** A stored detail is a fixed point of the schema: its code is unchanged
      by the setter, so saving it again gives the same document; and it is
      valid exactly when it delivers at least one unit. */
  lemma NewDetalleStable(medicamentoId: MedId, lote: Option<string>, cantidad: int)
    ensures var d := NewDetalle(medicamentoId, lote, cantidad);
      && (d.lote.Some? ==> Trim(d.lote.value) == d.lote.value)
      && NewDetalle(d.medicamentoId, d.lote, d.cantidadEntregada) == d
      && (DetalleValid(d) <==> cantidad >= 1)
  {
    if lote.Some? {
      TrimIdempotent(lote.value);
    }
  }

  /** A receipt as the schema stores it: dated `now` unless a date is given. */
  function NewEntrega(solicitudId: SolId, detalles: seq<DetalleEntrega>, fecha: Option<Date>, entregadoPor: UserId, now: Date): (e: Entrega)
    ensures e.solicitudId == solicitudId && e.detalles == detalles && e.entregadoPor == entregadoPor
    ensures e.fechaEntrega == fecha.GetOr(now)
    ensures fecha.None? ==> (EntregaValid(e, now) <==> |detalles| > 0 && forall i :: 0 <= i < |detalles| ==> DetalleValid(detalles[i]))
  {
    Entrega(solicitudId, detalles, fecha.GetOr(now), entregadoPor)
  }
}
