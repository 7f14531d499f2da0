/** What a delivery leaves behind: a valid receipt describing every item,
    the request marked ENTREGADA, at most one receipt per request, and a
    store that stays valid, also when the delivery fails part-way. */
module DeliveryProperties {
  import opened Common
  import opened MedicamentoModel
  import opened SolicitudModel
  import opened EntregaModel
  import opened MovimientoModel
  import opened Persistence
  import opened MedicamentosService
  import opened SolicitudesService
  import opened FulfilmentProperties

  /** The fold's details for a valid request make a valid receipt: one
      detail per item, each delivering at least one unit. */
  lemma FulfilledReceiptValid(s: Store, solId: SolId, usuarioId: UserId, now: Date)
    requires solId in s.solicitudes && SolicitudValid(s.solicitudes[solId])
    ensures var items := s.solicitudes[solId].items;
      var f := Fulfil(s, items, usuarioId, now, []);
      f.result.Ok? ==>
        && |f.result.value| == |items|
        && EntregaValid(NewEntrega(solId, f.result.value, None, usuarioId, now), now)
  {
    var items := s.solicitudes[solId].items;
    var f := Fulfil(s, items, usuarioId, now, []);
    FulfilRecordsDetails(s, items, usuarioId, now, []);
    if f.result.Ok? {
      var ds := f.result.value;
      assert ds[0..] == ds;
      forall k | 0 <= k < |ds|
        ensures DetalleValid(ds[k])
      {
        assert ItemValid(items[k]);
      }
    }
  }

  /** Delivering a valid request that has no receipt yet succeeds exactly
      when the fold does. On success the receipt belongs to the request and
      its details match the logged movements item for item, and the request
      is ENTREGADA; on failure only the fold's writes remain. */
  lemma EntregarRecordsReceipt(s: Store, solId: SolId, usuarioId: UserId, now: Date)
    requires solId in s.solicitudes && SolicitudValid(s.solicitudes[solId])
    requires !Delivered(s.entregas, solId)
    ensures var items := s.solicitudes[solId].items;
      var f := Fulfil(s, items, usuarioId, now, []);
      var o := EntregarSolicitud(s, solId, usuarioId, now);
      && (o.result.Ok? <==> f.result.Ok?)
      && (o.result.Err? ==> o.store == f.store && o.result.error == f.result.error)
      && (o.result.Ok? ==>
            var e := o.result.value;
            && e.solicitudId == solId
            && RecordsItems(e.detalles, o.store.movimientos[|s.movimientos|..], items, now)
            && Delivered(o.store.entregas, solId)
            && o.store.solicitudes[solId].estado == Entregada)
  {
    var items := s.solicitudes[solId].items;
    var f := Fulfil(s, items, usuarioId, now, []);
    var o := EntregarSolicitud(s, solId, usuarioId, now);
    FulfilledReceiptValid(s, solId, usuarioId, now);
    FulfilRecordsDetails(s, items, usuarioId, now, []);
    if f.result.Ok? {
      assert f.result.value[0..] == f.result.value;
      assert f.store.entregas == s.entregas;
      assert o.store.entregas[|s.entregas|].solicitudId == solId;
    }
  }

  /** Adding a valid receipt for a request without one, and marking the
      request ENTREGADA, keeps a valid store valid. */
  lemma ReceiptKeepsStoreValid(t: Store, solId: SolId, e: Entrega, now: Date)
    requires StoreValid(t, now) && solId in t.solicitudes
    requires EntregaValid(e, now) && !Delivered(t.entregas, e.solicitudId)
    ensures StoreValid(t.(entregas := t.entregas + [e], solicitudes := t.solicitudes[solId := t.solicitudes[solId].(estado := Entregada)]), now)
  {
    var es := t.entregas + [e];
    assert forall i :: 0 <= i < |es| ==> EntregaValid(es[i], now) by {
      forall i | 0 <= i < |es|
        ensures EntregaValid(es[i], now)
      {
        if i < |t.entregas| {
          assert es[i] == t.entregas[i];
        }
      }
    }
    assert OneEntregaPerSolicitud(es) by {
      forall i, j | 0 <= i < j < |es|
        ensures es[i].solicitudId != es[j].solicitudId
      {
        assert es[i] == t.entregas[i];
        if j == |t.entregas| {
          assert es[j] == e;
        } else {
          assert es[j] == t.entregas[j];
        }
      }
    }
  }

  /** `entregarSolicitud` keeps the store valid, whichever way it ends. */
  lemma EntregarKeepsStoreValid(s: Store, solId: SolId, usuarioId: UserId, now: Date)
    requires solId in s.solicitudes && StoreValid(s, now)
    ensures StoreValid(EntregarSolicitud(s, solId, usuarioId, now).store, now)
  {
    var items := s.solicitudes[solId].items;
    var f := Fulfil(s, items, usuarioId, now, []);
    var o := EntregarSolicitud(s, solId, usuarioId, now);
    FulfilKeepsStoreValid(s, items, usuarioId, now, []);
    FulfilledReceiptValid(s, solId, usuarioId, now);
    if f.result.Ok? && !Delivered(f.store.entregas, solId) {
      var e := NewEntrega(solId, f.result.value, None, usuarioId, now);
      assert f.store.solicitudes == s.solicitudes;
      ReceiptKeepsStoreValid(f.store, solId, e, now);
      assert o.store == f.store.(entregas := f.store.entregas + [e], solicitudes := f.store.solicitudes[solId := f.store.solicitudes[solId].(estado := Entregada)]);
    } else {
      assert o.store == f.store;
    }
  }

  /** A second delivery of the same request is refused by the unique index,
      but only after the fold has run: the stock it withdrew and the
      movements it logged stay, while receipts and requests do not change. */
  lemma EntregarAgainFails(s: Store, solId: SolId, usuarioId: UserId, now: Date)
    requires solId in s.solicitudes && SolicitudValid(s.solicitudes[solId])
    requires Delivered(s.entregas, solId)
    ensures var f := Fulfil(s, s.solicitudes[solId].items, usuarioId, now, []);
      var o := EntregarSolicitud(s, solId, usuarioId, now);
      && o.result.Err?
      && o.store == f.store
      && (f.result.Ok? ==> o.result == Err(DuplicateKey))
      && o.store.entregas == s.entregas
      && o.store.solicitudes == s.solicitudes
  {
    FulfilledReceiptValid(s, solId, usuarioId, now);
  }

  /** `aprobarYEntregar` on any stored request of a valid store, whatever its
      status: success leaves it ENTREGADA with a receipt; failure leaves it
      APROBADA with no new receipt; the store stays valid either way. A
      request that already has a receipt always fails, on the unique index,
      after its stock has been withdrawn again, and it ends APROBADA although
      it was delivered. */
  lemma AprobarYEntregarOutcome(s: Store, solId: SolId, usuarioId: UserId, now: Date)
    requires solId in s.solicitudes && StoreValid(s, now)
    ensures var o := AprobarYEntregar(s, solId, usuarioId, now);
      && solId in o.store.solicitudes
      && (o.result.Ok? ==> o.store.solicitudes[solId].estado == Entregada && Delivered(o.store.entregas, solId))
      && (o.result.Err? ==> o.store.solicitudes[solId].estado == Aprobada && o.store.entregas == s.entregas)
      && (Delivered(s.entregas, solId) ==> o.result.Err?)
      && StoreValid(o.store, now)
  {
    var approved := CambiarEstadoSolicitud(s, solId, "APROBADA");
    var a := approved.store;
    assert approved.result.Ok?;
    assert a.solicitudes[solId].estado == Aprobada;
    assert StoreValid(a, now);
    EntregarKeepsStoreValid(a, solId, usuarioId, now);
    var f := Fulfil(a, a.solicitudes[solId].items, usuarioId, now, []);
    if !Delivered(a.entregas, solId) {
      EntregarRecordsReceipt(a, solId, usuarioId, now);
      assert f.store.solicitudes == a.solicitudes && f.store.entregas == a.entregas;
    } else {
      EntregarAgainFails(a, solId, usuarioId, now);
    }
  }

  /** No medication a fulfilment drew from ends on the low-stock list, even
      when the fold stops part-way. */
  lemma FulfilNeverLeavesTouchedLow(s: Store, items: seq<Item>, usuarioId: UserId, now: Date)
    requires MedicamentosValid(s.medicamentos)
    ensures var o := Fulfil(s, items, usuarioId, now, []);
      forall x :: x in s.medicamentos && o.store.medicamentos[x] != s.medicamentos[x] ==> x !in StockBajo(o.store)
  {
    FulfilRespectsThreshold(s, items, usuarioId, now, []);
  }
}
