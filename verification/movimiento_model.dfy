/** The Movimiento schema: the append-only audit log of stock intake
    (INGRESO) and stock output (EGRESO). */
module MovimientoModel {
  import opened Common

  datatype Tipo = Ingreso | Egreso

  datatype Movimiento = Movimiento(
    tipo: Tipo,
    medicamentoId: MedId,
    lote: Option<string>,
    cantidad: int,
    fechaMovimiento: Date,
    usuarioId: UserId,
    observaciones: string)

  /** A movement records a positive magnitude (an output is an EGRESO, never a
      negative INGRESO) and is not dated in the future. */
  predicate MovimientoValid(m: Movimiento, now: Date) {
    && m.cantidad >= 1
    && m.fechaMovimiento <= now
  }

  /** A movement as the schema stores it: the code trimmed or null, dated
      `now` unless a date is given, with empty notes. */
  function NewMovimiento(tipo: Tipo, medicamentoId: MedId, lote: Option<string>, cantidad: int, fecha: Option<Date>, usuarioId: UserId, now: Date): (m: Movimiento)
    ensures m.tipo == tipo && m.medicamentoId == medicamentoId && m.cantidad == cantidad && m.usuarioId == usuarioId
    ensures lote.None? ==> m.lote.None?
    ensures lote.Some? ==> m.lote == Some(Trim(lote.value))
    ensures m.fechaMovimiento == fecha.GetOr(now)
    ensures m.observaciones == ""
    ensures MovimientoValid(m, now) <==> cantidad >= 1 && (fecha.None? || fecha.value <= now)
  {
    Movimiento(tipo, medicamentoId, TrimOpt(lote), cantidad, fecha.GetOr(now), usuarioId, "")
  }

  /** The net stock change a log records for one medication: intakes count
      up, outputs count down. */
  function NetLogged(ms: seq<Movimiento>, id: MedId): int {
    if ms == [] then 0
    else
      var here := if ms[0].medicamentoId != id then 0
                  else if ms[0].tipo == Ingreso then ms[0].cantidad
                  else -ms[0].cantidad;
      here + NetLogged(ms[1..], id)
  }

  lemma {:induction false} NetLoggedAppend(a: seq<Movimiento>, b: seq<Movimiento>, id: MedId)
    ensures NetLogged(a + b, id) == NetLogged(a, id) + NetLogged(b, id)
  {
    if a == [] {
      assert a + b == b;
    } else {
      assert (a + b)[1..] == a[1..] + b;
      NetLoggedAppend(a[1..], b, id);
    }
  }
}
