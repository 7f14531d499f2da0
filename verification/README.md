# Pharmacy stock ledger and request fulfilment, in Dafny

This project models the inventory core of the pharmacy backend. It covers:

- **The batch ledger** (`medicamentosService`):
  - `crear` stores a medication with its initial batches (`lotes`). Its stock total (`stockTotal`) is set to the sum of the supplied batch quantities, and one INGRESO movement is logged per batch that has a positive quantity.
  - `agregarLote` merges a batch into the medication by batch code, recomputes the total, and logs one INGRESO.
  - `stockBajo` is the low-stock query.
- **The request workflow** (`solicitudesService`):
  - `crearSolicitud` creates a request.
  - `cambiarEstadoSolicitud` flips the status to APROBADA or RECHAZADA.
  - `entregarSolicitud` fulfils a request. For each item in order it checks the low-stock threshold, takes the quantity from the first batch that alone covers it, saves the medication, records a delivery detail, and logs an EGRESO movement. It then creates the receipt (`Entrega`) and marks the request ENTREGADA.
  - `aprobarYEntregar` approves a request and then delivers it.
- **The HTTP checks** in `solicitudesController`:
  - authentication;
  - item validation;
  - the status names a status change accepts;
  - the 404 for an unknown request, and the APROBADA precondition, before a delivery.
- **The Mongoose schemas** `Medicamento`, `Solicitud`, `Entrega` and `Movimiento`, as validity predicates and cast functions. The cast functions apply each schema's `trim`, defaults and validators.

The store is an explicit value (`Persistence.Store`). It holds:

- the suppliers;
- a map of medications;
- a map of requests;
- the movement log, as a sequence;
- the receipts, as a sequence.

Every write goes through the schema's validation, as `save` and `create` do. Every operation returns an `Outcome`: the store after the call, together with `Ok(value)` or `Err(error)`.

The source has no transactions. A failure therefore leaves every earlier write in place, and the model keeps those writes too. Some consequences:

- A fulfilment that stops at item k keeps the decrements and movements of items 0..k-1.
- `crear` can store a medication and then fail while logging its intakes.
- `aprobarYEntregar` leaves the request APROBADA when the delivery fails.

"Now" is a parameter. The user on the request is also a parameter: an `Option`, absent when the request is unauthenticated.

Modules:

- `Common`: identifiers, `Option`/`Result`, error kinds, JavaScript falsiness, `Array.prototype.find`, `String.prototype.trim`.
- `MedicamentoModel`, `SolicitudModel`, `EntregaModel`, `MovimientoModel`: the schemas.
- `Persistence`: the store and its validating writes.
- `MedicamentosService`: the ledger operations, plus the corrected `agregarLote` of the findings below.
- `SolicitudesService`: the request workflow and the fulfilment fold.
- `FulfilmentProperties`: threshold, first-fit, one movement and one detail per item, stock conservation, validity.
- `DeliveryProperties`: the receipt, a second delivery, approve-and-deliver.
- `SolicitudesController`: the handlers.
- `Scenarios`: small concrete stores.

Three behaviours of the code that a reader might not expect:

- **Status changes.** `cambiarEstadoSolicitud` never reads the current status, so a delivered or rejected request can be set back to APROBADA. `SolicitudesService.CambiarEstadoSolicitud` succeeds for any stored valid request.
- **No rollback.** Stock is saved medication by medication during a delivery and is never rolled back when a later item fails.
- **Updates and deletion.** `actualizar` and `eliminar` are a plain update and a plain delete, and log no movement (see Left out).

## Model

| member | source | states |
|---|---|---|
| Common.FindIndex | backend_farmacia/api/src/services/solicitudesService.js:66-67 | the index `find` stops at: it satisfies the test, no earlier element does, and there is none exactly when no element does |
| Common.TrimCutsOnlyBlanks | backend_farmacia/api/src/models/Medicamento.js:8-12 | a `trim: true` value is the infix of the input left after cutting white space from both ends: it neither starts nor ends with white space, and everything cut is white space |
| Common.TrimIdempotent | backend_farmacia/api/src/controllers/solicitudesController.js:26 | trimming notes the controller already trimmed changes nothing |
| MedicamentoModel.CastLote | backend_farmacia/api/src/models/Medicamento.js:7-33 | a batch is accepted exactly when code, quantity and both dates are present, the trimmed code is non-empty, the quantity is at least 0 and expiry is after ingestion; the code is stored trimmed |
| MedicamentoModel.CastMedicamento | backend_farmacia/api/src/models/Medicamento.js:39-77 | a medication is accepted exactly when the name and supplier are given and every batch is valid with a positive quantity; total 0, threshold 100 and active are the defaults |
| MedicamentoModel.CastMedicamentoChecks | backend_farmacia/api/src/models/Medicamento.js:53-70 | the validators on the built document accept exactly the documents the schema accepts |
| MedicamentoModel.SumAppend | backend_farmacia/api/src/services/medicamentosService.js:69-71 | appending a batch adds its quantity to the recomputed total |
| MedicamentoModel.SumUpdate | backend_farmacia/api/src/services/solicitudesService.js:70-71 | changing one batch's quantity changes the recomputed total by the same amount |
| SolicitudModel.ParseEstado | backend_farmacia/api/src/models/Solicitud.js:41-46 | a status string is accepted exactly when it names one of the four enum values |
| SolicitudModel.ParseEstadoRoundTrip | backend_farmacia/api/src/models/Solicitud.js:41-47 | every status reads back from its own name |
| SolicitudesController.ItemAcceptedIffCasts | backend_farmacia/api/src/controllers/solicitudesController.js:21-24 | the handler's per-item check and the item schema (Solicitud.js:7-18) accept exactly the same items, and an accepted item casts to the reference and quantity the handler checked, so the service's cast never refuses an item the handler let through |
| SolicitudModel.NewSolicitud | backend_farmacia/api/src/models/Solicitud.js:25-54 | a request is created exactly when the list is non-empty and every item casts; it starts PENDIENTE with trimmed notes or "" |
| EntregaModel.NewDetalleStable | backend_farmacia/api/src/models/Entrega.js:7-23 | a stored detail is a fixed point of the schema: its code is unchanged by the `trim` setter, so saving it again gives the same document; it is valid exactly when it delivers at least 1 |
| EntregaModel.NewEntrega | backend_farmacia/api/src/models/Entrega.js:30-62 | a receipt dated now is valid exactly when it has at least one detail and every detail delivers at least 1 |
| MovimientoModel.NewMovimiento | backend_farmacia/api/src/models/Movimiento.js:8-52 | a movement keeps type, medication, quantity and user; its code is trimmed or null; its date defaults to now; its notes default to ""; it is valid exactly when the quantity is at least 1 and the date is not in the future |
| MovimientoModel.NetLoggedAppend | backend_farmacia/api/src/models/Movimiento.js:9-31 | the net stock change a log records, with intakes up and outputs down, adds up over concatenated logs |
| Persistence.SaveMedicamentoGuardsStore | backend_farmacia/api/src/services/medicamentosService.js:72 | on a valid store, `save` of a medication whose total agrees with its batches succeeds exactly when the store it writes is still valid |
| Persistence.SaveSolicitudGuardsStore | backend_farmacia/api/src/services/solicitudesService.js:42-43 | on a valid store, `save` of a request succeeds exactly when the store it writes is still valid |
| Persistence.CreateMovimientoGuardsStore | backend_farmacia/api/src/services/medicamentosService.js:74 | on a valid store, `Movimiento.create` succeeds exactly when the log it writes is still valid |
| Persistence.CreateEntrega | backend_farmacia/api/src/models/Entrega.js:31-46 | a receipt is inserted exactly when it is valid and its request has none; a valid second receipt is a duplicate key; at most one receipt per request is kept |
| MedicamentosService.SeedIngresos | backend_farmacia/api/src/services/medicamentosService.js:33-44 | the intake loop only appends; it succeeds exactly when no seeded batch is dated in the future (a batch whose ingestion date is absent or 0 is dated now), and then it has logged the reference intakes; every movement it appends is valid |
| MedicamentosService.Crear | backend_farmacia/api/src/services/medicamentosService.js:12-47 | missing name or supplier and an unknown supplier fail with nothing written; success stores the medication with total = summed supplied quantities, threshold = the supplied one, or 10 when it is absent or 0, active, and logs the reference intakes |
| MedicamentosService.SuppliedStockIsSum | backend_farmacia/api/src/services/medicamentosService.js:21 | the total `crear` computes, with a missing quantity read as 0, equals the sum of the stored batches |
| MedicamentosService.IngresoMovementsOnePerBatch | backend_farmacia/api/src/services/medicamentosService.js:33-44 | with every batch positive, one INGRESO per batch, in batch order, with its trimmed code and quantity, dated at the batch's ingestion date, or now when that date is absent or 0 |
| MedicamentosService.IngresoMovementsSkipEmpty | backend_farmacia/api/src/services/medicamentosService.js:34 | batches with quantity at most 0 log nothing; never more intakes than batches |
| MedicamentosService.CrearSucceeds | backend_farmacia/api/src/services/medicamentosService.js:21-44 | a created medication is valid, its total equals its batch sum, and one intake per batch was logged |
| MedicamentosService.CrearFutureIngestionLeavesMedication | backend_farmacia/api/src/services/medicamentosService.js:24-42 | a batch with a non-zero ingestion date in the future makes `crear` fail after the medication was stored |
| MedicamentosService.CrearWritesValid | backend_farmacia/api/src/services/medicamentosService.js:24-44 | whatever `crear` writes is a valid, consistent medication plus valid movements appended to the log |
| MedicamentosService.CrearKeepsStoreValid | backend_farmacia/api/src/services/medicamentosService.js:12-47 | `crear` keeps the store valid, also when it fails part-way |
| MedicamentosService.MergeLote | backend_farmacia/api/src/services/medicamentosService.js:67-69 | merge-by-code: the first batch with the code gains the quantity and the others are unchanged; otherwise one new batch is appended; the sum grows by the quantity |
| MedicamentosService.MergeLoteKeepsCodesUnique | backend_farmacia/api/src/services/medicamentosService.js:67-69 | merging a code without surrounding white space introduces no duplicate code |
| MedicamentosService.AgregarLote | backend_farmacia/api/src/services/medicamentosService.js:57-76 | missing fields (a quantity or date of 0 counts as missing), an expired batch and an unknown medication fail with nothing written; success stores the merged batches with total = sum = old sum + quantity, leaves the other fields alone, and logs one INGRESO |
| MedicamentosService.AgregarLoteAtomicUnlessNegative | backend_farmacia/api/src/services/medicamentosService.js:58-74 | with a quantity that is not negative, a failed intake leaves the store exactly as it was: every refusal comes before the save, and the INGRESO that follows always passes the movement schema |
| MedicamentosService.AgregarLoteLogsIntake | backend_farmacia/api/src/services/medicamentosService.js:71-74 | after a successful intake the total grew by the quantity, and the logged movement accounts for exactly that growth |
| MedicamentosService.AgregarLoteMergesByCode | backend_farmacia/api/src/services/medicamentosService.js:67-71 | an existing code raises only that batch and keeps the count; a new code appends one batch at the end |
| MedicamentosService.AgregarLoteKeepsCodesUnique | backend_farmacia/api/src/services/medicamentosService.js:67-69 | batch codes stay unique across an intake with a trimmed code |
| MedicamentosService.CrearListsLowStock | backend_farmacia/api/src/services/medicamentosService.js:102-104 | after a successful `crear`, the new medication is on the low-stock list exactly when its supplied total is below its threshold (10 when none or 0 is given), and every other entry is as before |
| MedicamentosService.AgregarLoteNeverCreatesLowStock | backend_farmacia/api/src/services/medicamentosService.js:68-74 | a successful intake never puts a medication on the low-stock list |
| MedicamentosService.AgregarLoteKeepsStoreValid | backend_farmacia/api/src/services/medicamentosService.js:57-76 | `agregarLote` keeps the store valid for every input |
| MedicamentosService.AgregarLoteNegativeUnlogged | backend_farmacia/api/src/services/medicamentosService.js:58-74 | as written, a negative quantity added to an existing batch lowers the stored total and then fails with no movement logged |
| MedicamentosService.AgregarLoteGuardedKeepsCodesUnique | backend_farmacia/api/src/services/medicamentosService.js:67-69 | with the code trimmed before the find, an intake never duplicates a batch code, whatever white space surrounds the given code |
| MedicamentosService.AgregarLoteGuardedConservesStock | backend_farmacia/api/src/services/medicamentosService.js:68-74 | with the guard, for every input, the total changes by exactly the net of the movements logged, and no other medication changes |
| SolicitudesService.CrearSolicitud | backend_farmacia/api/src/services/solicitudesService.js:14-17 | a missing or empty list fails; creation succeeds exactly when every item casts, giving a PENDIENTE request of the given user and items; a failure writes nothing |
| SolicitudesService.CrearSolicitudKeepsStoreValid | backend_farmacia/api/src/services/solicitudesService.js:14-17 | creating a request keeps the store valid |
| SolicitudesService.CambiarEstadoSolicitud | backend_farmacia/api/src/services/solicitudesService.js:37-45 | targets other than APROBADA/RECHAZADA and unknown ids fail with nothing written; whatever the prior status, success sets the target and keeps items, notes and user |
| SolicitudesService.CambiarEstadoKeepsStoreValid | backend_farmacia/api/src/services/solicitudesService.js:37-45 | a status change keeps the store valid |
| SolicitudesService.WithdrawFrom | backend_farmacia/api/src/services/solicitudesService.js:69-88 | one item's writes touch only its medication: that medication is stored decremented at the chosen batch, the detail is built and one EGRESO is appended, or nothing is written |
| SolicitudesService.ProcessItem | backend_farmacia/api/src/services/solicitudesService.js:57-89 | one item leaves suppliers, requests and receipts alone, keeps the set of stored medications, and only appends to the log |
| SolicitudesService.ProcessItemRefusals | backend_farmacia/api/src/services/solicitudesService.js:58-67 | an unknown medication, a total that would drop below the threshold, or no single batch covering the quantity fail before anything is written |
| SolicitudesService.ProcessItemWithdrawal | backend_farmacia/api/src/services/solicitudesService.js:65-88 | a served item is taken from the first batch holding enough, with one detail and one EGRESO carrying that batch's code |
| SolicitudesService.Fulfil | backend_farmacia/api/src/services/solicitudesService.js:54-89 | the fold only changes medications and appends movements; on success it returns one detail per item after those already accumulated |
| SolicitudesService.EntregarSolicitud | backend_farmacia/api/src/services/solicitudesService.js:54-103 | on success the fold succeeded, the receipt is built from its details and appended, and the request is ENTREGADA |
| SolicitudesService.AprobarYEntregar | backend_farmacia/api/src/services/solicitudesService.js:111-117 | an unknown request fails with nothing written; success leaves the request ENTREGADA |
| FulfilmentProperties.DecrementTakesFromOneBatch | backend_farmacia/api/src/services/solicitudesService.js:70-71 | the chosen batch loses the quantity and keeps its code, other batches are unchanged, and the total drops by the quantity |
| FulfilmentProperties.WithdrawnKeepsThreshold | backend_farmacia/api/src/services/solicitudesService.js:61-72 | a withdrawal uses the first batch with enough units, leaves it positive, and ends at or above the threshold with a valid medication |
| FulfilmentProperties.ProcessItemKeepsMedicamentosValid | backend_farmacia/api/src/services/solicitudesService.js:57-72 | one item keeps all medications valid; the one it changes drops by the quantity and stays at or above its threshold |
| FulfilmentProperties.DrainingABatchFails | backend_farmacia/api/src/services/solicitudesService.js:66-72 | taking a batch's exact quantity leaves it at 0, which the medication validator rejects, so the item fails with nothing written |
| FulfilmentProperties.ProcessItemRecordsItem | backend_farmacia/api/src/services/solicitudesService.js:74-88 | a served item adds exactly one movement, and it and the detail carry the item's medication, quantity and batch code |
| FulfilmentProperties.FulfilLogsEachItem | backend_farmacia/api/src/services/solicitudesService.js:57-89 | one EGRESO per item served, in item order, none for the failing item; success exactly when every item was logged |
| FulfilmentProperties.FulfilRecordsDetails | backend_farmacia/api/src/services/solicitudesService.js:74-89 | on success, detail k and movement k both describe item k |
| FulfilmentProperties.FulfilRespectsThreshold | backend_farmacia/api/src/services/solicitudesService.js:57-72 | also when the fold stops part-way, every medication stays valid and each one it touched is at or above its threshold |
| FulfilmentProperties.ProcessItemLogsWithdrawal | backend_farmacia/api/src/services/solicitudesService.js:69-88 | one item changes each total by exactly the net of what it logged |
| FulfilmentProperties.FulfilConservesStock | backend_farmacia/api/src/services/solicitudesService.js:57-89 | whether it succeeds or not, each medication's total changes by exactly the net of the movements the fold appended |
| FulfilmentProperties.FulfilKeepsMovimientosValid | backend_farmacia/api/src/services/solicitudesService.js:82-88 | the fold only appends valid movements |
| FulfilmentProperties.FulfilKeepsStoreValid | backend_farmacia/api/src/services/solicitudesService.js:57-89 | the fold keeps the store valid, also when it stops part-way |
| DeliveryProperties.FulfilledReceiptValid | backend_farmacia/api/src/services/solicitudesService.js:91-96 | a fold over a valid request yields one detail per item and a valid receipt |
| DeliveryProperties.EntregarRecordsReceipt | backend_farmacia/api/src/services/solicitudesService.js:91-102 | for a valid request without a receipt: success exactly when the fold succeeds; on failure only the fold's writes remain; on success the receipt references the request, its details match the logged movements item by item, and the request is ENTREGADA |
| DeliveryProperties.ReceiptKeepsStoreValid | backend_farmacia/api/src/services/solicitudesService.js:92-100 | adding a valid receipt for a request without one and marking the request ENTREGADA keeps the store valid |
| DeliveryProperties.EntregarKeepsStoreValid | backend_farmacia/api/src/services/solicitudesService.js:54-103 | delivering keeps the store valid, whichever way it ends |
| DeliveryProperties.EntregarAgainFails | backend_farmacia/api/src/services/solicitudesService.js:92-96 | a second delivery fails with a duplicate key after the fold has withdrawn stock; receipts and requests are unchanged |
| DeliveryProperties.AprobarYEntregarOutcome | backend_farmacia/api/src/services/solicitudesService.js:111-117 | for any stored request, whatever its status: approve-and-deliver either ends ENTREGADA with a receipt, or APROBADA with no new receipt, and keeps the store valid; a request that already has a receipt always fails |
| DeliveryProperties.FulfilNeverLeavesTouchedLow | backend_farmacia/api/src/services/solicitudesService.js:61-63 | no medication a fulfilment drew from is on the low-stock list afterwards |
| SolicitudesController.CrearSolicitud | backend_farmacia/api/src/controllers/solicitudesController.js:8-33 | 401 without a user; 400 for a missing or empty list; 400 naming the first item that lacks a medication or a positive quantity; 201 exactly when all pass, storing a PENDIENTE request whose notes are trimmed once or "" |
| SolicitudesController.CambiarEstado | backend_farmacia/api/src/controllers/solicitudesController.js:57-74 | anything but APROBADA/RECHAZADA ends in 400, including PENDIENTE and ENTREGADA, which pass the handler's check; on 200 the stored status is the requested one |
| SolicitudesController.Entregar | backend_farmacia/api/src/controllers/solicitudesController.js:79-98 | 401 without a user, 404 for an unknown request, 400 with no stock change unless APROBADA; on 200 the request is ENTREGADA and has a new receipt |
| SolicitudesController.AprobarYEntregar | backend_farmacia/api/src/controllers/solicitudesController.js:103-116 | 401 without a user; an unknown request is a 400; on 200 the request is ENTREGADA |
| SolicitudesController.EntregarOnce | backend_farmacia/api/src/controllers/solicitudesController.js:85-91 | after a 200 the same delivery answers 400 and writes nothing |
| Scenarios.SplitStockRefused | backend_farmacia/api/src/services/solicitudesService.js:66-67 | batches of 3 and 3 refuse a request of 5 although the total covers it |
| Scenarios.ThresholdDecides | backend_farmacia/api/src/services/solicitudesService.js:61-71 | 10 units with a threshold of 5 refuse a request of 6 and serve a request of 4 |
| Scenarios.EmptyMedicationRefused | backend_farmacia/api/tests/entregas.test.js:54-71 | a medication created without batches refuses any request, on the threshold |
| Scenarios.UntrimmedCodeDuplicates | backend_farmacia/api/src/services/medicamentosService.js:67-69 | the code " A" does not match the stored "A", and the merge leaves two batches both coded "A" |
| Scenarios.EpochIngestionDatedNow | backend_farmacia/api/src/services/medicamentosService.js:41 | a batch whose ingestion date is 0 is logged at now, since 0 is falsy, while a batch dated 900 keeps its date; the batch dated 0 is not counted as future |
| Scenarios.TrimmedCodeMerges | backend_farmacia/api/src/services/medicamentosService.js:67-68 | once trimmed, the code " A" finds the stored batch "A" and raises it from 5 to 8 |

## Left out

- Authentication (tokens, password hashing, role middleware), Express routing and application start-up: the handlers receive the user as an `Option`.
- Mongoose queries, `populate` and sorting: `listar`, `listarSolicitudes` and `listarMovimientos` have no logic of their own. The lookup that `entregarSolicitud`'s handler makes through `listarSolicitudes` is modelled as a map lookup.
- `actualizar` and `eliminar` in `medicamentosService`: a plain update and a plain delete that log no movement and keep no invariant.
- `porVencer` and the daily expiry-alert job: date arithmetic on the clock and a scheduled task.
- Suppliers, users, alerts and the frontend: CRUD and UI outside the ledger. Suppliers appear only as the set `crear` checks against.
- Concurrency: every call runs to completion against one store value, so races between deliveries are not represented.
- Numbers are integers and dates are integer timestamps: non-integral quantities, `Number(...)` on strings and `new Date(...)` parsing are not modelled.
- The controllers' `!id` checks on route parameters and the `Array.isArray` test: an identifier is always present and the item list is an `Option` of a sequence.
- The body of an error reply is the error kind, not its Spanish message. An exception the source raises by dereferencing a missing medication is modelled as `MedicationNotFound`.
- `entregarSolicitud` takes the request document in the source; here it takes the request's id, which both callers resolve from the store just before.
- A malformed identifier: `findById` throws a cast error, which the handlers' `catch` answers with 400. Identifiers here are natural numbers, so an unknown request can only give the 404.
- A `null` entry in `items`: reading `item.medicamentoId` throws, which also ends as 400. An item here is always a document, possibly with absent fields.
- An empty string as a date in `agregarLote`, or as a batch's ingestion date in `crear`: dates are integer timestamps, so the only falsy date modelled is 0, which both operations treat as absent.
- Common.Trim: its own contract gives only the ends of the result and when it is empty, to keep it cheap for its many callers; that the result is the infix left after cutting white space is stated by `Common.TrimCutsOnlyBlanks`.
- SolicitudesService.ProcessItem: its own contract states only what it touches; what it decides is stated by `ProcessItemRefusals` and `ProcessItemWithdrawal`.
- SolicitudesService.Fulfil: its own contract states only the frame and the shape of the result; what each item contributes is stated by the `FulfilmentProperties` lemmas.

## Findings

| source | as written | input that shows it | evidently intended | confidence | as-written member | corrected member |
|---|---|---|---|---|---|---|
| backend_farmacia/api/src/services/medicamentosService.js:58-74 | `!cantidad` rejects only an absent or zero quantity, so a negative one is merged into an existing batch and saved, and then the INGRESO is refused by the movement schema (minimum 1) | a batch "L1" of 10 units and `agregarLote` with `lote: "L1"` and `cantidad: -3`: the batch and the total drop by 3, the call fails, and no movement records the drop | a negative quantity is refused before anything is written, so every change to a total is logged | not executed | MedicamentosService.AgregarLoteNegativeUnlogged | MedicamentosService.AgregarLoteGuardedConservesStock |
| backend_farmacia/api/src/services/medicamentosService.js:67-69 | the find compares the code as given with the stored codes, which the schema trims, so a code with surrounding white space never matches and is pushed as a new batch, which the setter then trims | a medication holding batch "A" and `agregarLote` with `lote: " A"`: a second batch coded "A" is appended | the code is trimmed before the find, so the intake merges into batch "A" and codes stay unique | not executed | Scenarios.UntrimmedCodeDuplicates | MedicamentosService.AgregarLoteGuardedKeepsCodesUnique |
