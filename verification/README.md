# Shipping import and QR normalisation — a Dafny model

This project models the shipping back end of the dbxXtralight service. A warehouse uploads an
Excel manifest with two sheets. "PO" declares purchase orders with their pair and carton totals.
"Cartones" lists carton lines: a carton id, a SKU, the pairs per carton and the PO the line
belongs to.

`importarExcel` handles the upload in these steps:

1. It parses both sheets into candidates and row errors.
2. It rejects a file with no valid PO or no valid carton line.
3. It rejects repeated (carton, SKU) lines that disagree on quantity or PO.
4. It tags each carton MONO or MUSICAL by its number of distinct SKUs.
5. It reconciles the declared totals against the carton lines. If they do not reconcile, it
   records a failed import.
6. It upserts the POs and inserts the carton lines whose PO row was created.
7. It writes an import record with the counts and the error list.

The model also covers the table operations this flow relies on:

- `purchase_orders`: upsert, `checkIfComplete`, `updateProgress`;
- `po_cartones`: bulk insert, `isMusicale`, `checkMusicalComplete`, `completeMusical`,
  `ligarCaja`, `countByPoAndEstado`;
- `shipping_imports`: `create`, `getUltimaImportacion`.

Separately, it models `normalizarQR`, which reduces a scanned QR text or a label-API URL to the
label code.

Modules, one per source unit:

- `Wrappers` (Option/Result)
- `Text`: JavaScript `trim`, ASCII case mapping, the `[A-Za-z0-9]` class
- `JsObject`: `Object.keys` order of a plain object
- `ShippingTypes`: candidates, errors, the insert oracle
- `ShippingTotals`: `validateShippingData`
- `CartonClassifier`: `identificarTipoCartones`
- `CartonConsistency`: `validateCartonConsistency`
- `ExcelShippingParser`
- `PurchaseOrders`
- `Cartons`
- `ShippingImports`
- `ShippingController`: `importarExcel`
- `QrNormalizer`

Tables are sequences of rows in insertion order, with a serial id counter. The database cannot be
seen, so each bulk insert takes an oracle `nat -> Attempt`. The oracle says whether the statement
for the k-th element of the batch commits or raises, and with which message. The import record's
timestamp is a parameter, and so is the uploaded workbook: its sheets are rows of
(header, cell) pairs in key order.

## Model

| member | source | states |
|---|---|---|
| JsObject.OwnKeysOrder | src/utils/shippingValidations.js:44 | `Object.keys` of a plain object lists exactly its keys: array-index keys first in ascending numeric value, then the other keys in first-assignment order |
| JsObject.FirstAssignedKeys | src/utils/shippingValidations.js:12-19 | re-assigning a key keeps its first position: the insertion order holds every assigned key once and nothing else |
| JsObject.OwnKeysOfObject | src/utils/shippingValidations.js:105-118 | walking `Object.keys` visits every key of the object exactly once |
| ShippingTotals.BuildPosMap | src/utils/shippingValidations.js:11-19 | the `posMap` loop, one entry per declared PO number; its contents are stated by `PosMapKeys` and `LaterDeclarationWins` |
| ShippingTotals.TallyCartons | src/utils/shippingValidations.js:22-41 | the carton loop; its errors, kept totals and counts are stated by `TallyOrphans`, `TallyKeepsDeclared` and `TallyCounts` |
| ShippingTotals.WalkPos | src/utils/shippingValidations.js:44-71 | the walk over `Object.keys(posMap)`; what it reports is stated by `TotalsErrorsEmpty`, `TotalsErrorsComplete` and `TotalsErrorsSource` |
| ShippingTotals.ValidateShippingData | src/utils/shippingValidations.js:73-83 | `valido` holds exactly when the error list is empty; `resumen` has one row per distinct declared PO |
| ShippingTotals.ValidIffBalanced | src/utils/shippingValidations.js:7-84 | `valido` holds exactly when every carton line references a declared PO and every PO's declared pairs and cartons equal the pair sum and the distinct carton-id count of its lines |
| ShippingTotals.LaterDeclarationWins | src/utils/shippingValidations.js:12-19 | a PO number declared on several rows keeps the totals of its last row |
| ShippingTotals.PosMapKeys | src/utils/shippingValidations.js:11-19 | the PO map has exactly one key per declared PO number |
| ShippingTotals.TallyOrphans | src/utils/shippingValidations.js:25-34 | the carton loop emits one `PO_NO_ENCONTRADA` per line with an undeclared PO, in line order |
| ShippingTotals.TallyKeepsDeclared | src/utils/shippingValidations.js:22-41 | the carton loop adds no key and never changes a PO's declared totals |
| ShippingTotals.TallyCounts | src/utils/shippingValidations.js:36-41 | after the loop a declared PO holds the pair sum and the set of distinct carton ids of the lines that reference it |
| ShippingTotals.OrphanReported | src/utils/shippingValidations.js:25-34 | a line whose PO is not declared is reported as `PO_NO_ENCONTRADA` with its carton and PO |
| ShippingTotals.OrphansExcluded | src/utils/shippingValidations.js:26-33 | removing the lines whose PO is not declared leaves `resumen` unchanged: such lines count toward no PO |
| ShippingTotals.ReportErrors | src/utils/shippingValidations.js:22-71 | the errors are the unknown-PO errors of the carton loop, then the discrepancies of the PO walk in key order |
| ShippingTotals.TotalsErrorsEmpty | src/utils/shippingValidations.js:44-71 | the PO walk reports nothing exactly when every walked PO balances |
| ShippingTotals.TotalsErrorsComplete | src/utils/shippingValidations.js:47-70 | every discrepancy of a walked PO is reported, pairs before cartons |
| ShippingTotals.TotalsErrorsSource | src/utils/shippingValidations.js:47-70 | every reported discrepancy comes from one walked PO |
| ShippingTotals.ResumenErrorsAgree | src/utils/shippingValidations.js:47-82 | a `resumen` row's pair (carton) mismatch is reported exactly when its found value differs from the declared one |
| ShippingTotals.DiscrepancyIsReal | src/utils/shippingValidations.js:47-70 | every reported pair or carton discrepancy names a declared PO, its last-declared total, the true pair sum or distinct carton count, a non-zero difference and that difference as found minus declared |
| ShippingTotals.ResumenOnePerPo | src/utils/shippingValidations.js:76-82 | `resumen` lists every declared PO once, in `Object.keys` order, with its declared and found totals |
| CartonClassifier.IdentificarTipoCartones | src/utils/shippingValidations.js:91-121 | the output holds the input lines, each once and untouched except for the tag: a permutation |
| CartonClassifier.TipoFollowsSkus | src/utils/shippingValidations.js:105-117 | a line is tagged MUSICAL exactly when its carton carries more than one distinct SKU anywhere in the manifest |
| CartonClassifier.SameCartonSameTipo | src/utils/shippingValidations.js:110-117 | all lines of one carton get the same tag |
| CartonClassifier.ReorderKeepsTipo | src/utils/shippingValidations.js:93-110 | reordering the manifest never changes the tag a line receives |
| CartonClassifier.CartonsContiguous | src/utils/shippingValidations.js:105-118 | the lines of one carton come out as one block |
| CartonClassifier.CartonLinesKeepOrder | src/utils/shippingValidations.js:95-117 | within a carton, lines keep their manifest order |
| CartonClassifier.ClassifyGroupsRows | src/utils/shippingValidations.js:105-118 | every output line is a manifest line of a walked carton, tagged with its carton's reference type |
| CartonConsistency.ScanFirstSeen | src/utils/shippingValidations.js:132-159 | the `forEach` over the lines with the first-seen map, for any key; what it reports is stated by `ScanStoresFirst`, `ScanComparesWithFirst` and `ScanValidIffAgreement` |
| CartonConsistency.ValidateCartonConsistency | src/utils/shippingValidations.js:128-165 | `valido` holds exactly when no error was pushed (string-keyed, as deployed) |
| CartonConsistency.ConsistencyValidIffAgreement | src/utils/shippingValidations.js:128-165 | the deployed check passes exactly when every two lines with the same `${cartonId}-${sku}` key agree on quantity and PO |
| CartonConsistency.ScanStoresFirst | src/utils/shippingValidations.js:135-158 | the map holds, for each key, the first line that carries it |
| CartonConsistency.ScanComparesWithFirst | src/utils/shippingValidations.js:132-159 | under any key, the scan's errors are the reference errors: each line that is not the first of its key compared with the first line of that key, in line order |
| CartonConsistency.ComparedWithFirst | src/utils/shippingValidations.js:132-159 | the deployed check's errors are exactly those reference errors under the `${cartonId}-${sku}` key |
| CartonConsistency.ComparedWithFirstOnly | src/utils/shippingValidations.js:135-155 | deployed check: repeats are compared with the first line of their key and not with each other; lines with 12, 6 and 6 pairs give two quantity errors, both against 12 |
| CartonConsistency.KeyCollision | src/utils/shippingValidations.js:133 | carton "A-B"/SKU "C" and carton "A"/SKU "B-C" share the key "A-B-C": the deployed check reports two errors for unrelated lines |
| CartonConsistency.ValidateCartonConsistencyByPair | src/utils/shippingValidations.js:128-165 | the pair-keyed check: `valido` holds exactly when no error was pushed |
| CartonConsistency.ByPairValidIffAgreement | src/utils/shippingValidations.js:128-165 | the pair-keyed check passes exactly when every two lines with the same carton id and SKU agree on quantity and PO |
| CartonConsistency.AsWrittenImpliesByPair | src/utils/shippingValidations.js:133 | whatever the deployed check accepts, the pair-keyed check accepts |
| CartonConsistency.NoCollisionSameReport | src/utils/shippingValidations.js:133 | without two pairs sharing a concatenated key, both checks return the same report, errors included |
| CartonConsistency.EquivalentKeysSameErrors | src/utils/shippingValidations.js:132-159 | two keys that group the lines alike make the scan report the same errors |
| CartonConsistency.DistinctPairsValid | src/utils/shippingValidations.js:156-158 | pair-keyed check only: a manifest that never repeats a (carton, SKU) pair passes |
| CartonConsistency.DistinctKeysValid | src/utils/shippingValidations.js:156-158 | deployed check: a manifest that never repeats a `${cartonId}-${sku}` string passes |
| ExcelShippingParser.FindKey | src/utils/excelShippingParser.js:40-43 | a found header is a position of the row; which one is stated by `FindKeyFirst` and `FindKeyNone` |
| ExcelShippingParser.ParsePoRow | src/utils/excelShippingParser.js:37-144 | one iteration of the "PO" loop; its outcome is stated by `PoRowOutcome` |
| ExcelShippingParser.ParseCartonRow | src/utils/excelShippingParser.js:150-245 | one iteration of the "Cartones" loop; its outcome is stated by `CartonRowOutcome` |
| ExcelShippingParser.ParseSheet | src/utils/excelShippingParser.js:36-145 | one sheet loop; stated by `ParseSheetCount`, `ParseSheetRecords` and `ParseSheetErrors` |
| ExcelShippingParser.ParseShippingExcel | src/utils/excelShippingParser.js:8-252 | the sheet checks and both loops; stated by `MissingSheetAborts` and `ParsedShippingShape` |
| ExcelShippingParser.FindKeyFirst | src/utils/excelShippingParser.js:42-43 | `findKey` returns the first header, in key order, whose lower-cased trimmed form is an alias |
| ExcelShippingParser.FindKeyNone | src/utils/excelShippingParser.js:42-43 | `findKey` finds nothing exactly when no header matches an alias |
| ExcelShippingParser.HeaderCaseInsensitive | src/utils/excelShippingParser.js:43 | headers match aliases regardless of letter case |
| ExcelShippingParser.PoColumnsMissing | src/utils/excelShippingParser.js:45-83 | a "PO" row lacks its columns exactly when one of the four alias lists matches no header |
| ExcelShippingParser.CartonColumnsMissing | src/utils/excelShippingParser.js:158-186 | a "Cartones" row lacks its columns exactly when one of the four alias lists matches no header |
| ExcelShippingParser.PoRowOutcome | src/utils/excelShippingParser.js:70-144 | a "PO" row yields a record exactly when columns resolve, the trimmed PO number is non-empty, both counts are positive and the date converts; an error is at row `index + 2`, and its kind implies the earlier checks passed: columns, PO number, pairs, cartons, date |
| ExcelShippingParser.CartonRowOutcome | src/utils/excelShippingParser.js:178-245 | a "Cartones" row yields a record of the trimmed values exactly when columns resolve, carton id, SKU and PO number are non-empty and the quantity is positive; an error is at row `index + 2` and its kind implies the earlier checks passed: carton id, SKU, quantity, PO number |
| ExcelShippingParser.ParseSheetCount | src/utils/excelShippingParser.js:36-145 | every row yields exactly one record or one error |
| ExcelShippingParser.ParseSheetRecords | src/utils/excelShippingParser.js:132-137 | the records are those of the rows that parsed, in row order |
| ExcelShippingParser.ParseSheetErrors | src/utils/excelShippingParser.js:76-143 | the errors are those of the rows that failed, in row order |
| ExcelShippingParser.PoSheetErrorRows | src/utils/excelShippingParser.js:76-143 | every "PO" error names that sheet and row `index + 2` |
| ExcelShippingParser.CartonSheetErrorRows | src/utils/excelShippingParser.js:179-244 | every "Cartones" error names that sheet and row `index + 2` |
| ExcelShippingParser.MissingSheetAborts | src/utils/excelShippingParser.js:16-22 | a missing sheet aborts the parse, "PO" checked first; with both present the parse succeeds |
| ExcelShippingParser.ParsedShippingShape | src/utils/excelShippingParser.js:8-252 | a parse accounts for every row once, lists "PO" errors before "Cartones" errors, and emits only records that passed their checks |
| PurchaseOrders.Upsert | src/models/PurchaseOrder.js:321-330 | the insert-or-update of one PO on `po_number`; stated by `UpsertValid`, `UpsertWrites`, `UpsertConflictKeepsProgress` and `UpsertOthersUnchanged` |
| PurchaseOrders.BulkCreate | src/models/PurchaseOrder.js:310-345 | the batch of upserts with per-statement failures; stated by `BulkCreateAccounts`, `BulkCreateAllCommitted`, `BulkCreateValid` and `BulkCreateStored` |
| PurchaseOrders.CheckIfComplete | src/models/PurchaseOrder.js:257-277 | the completion query; stated by `CheckIfCompleteMeaning` |
| PurchaseOrders.UpdateProgress | src/models/PurchaseOrder.js:182-215 | the counter update; stated by `UpdateProgressEffect`, `UpdateProgressWrites` and `UpdateProgressValid` |
| PurchaseOrders.UpsertValid | src/models/PurchaseOrder.js:321-328 | the upsert keeps `po_number` and ids unique |
| PurchaseOrders.UpsertWrites | src/models/PurchaseOrder.js:321-330 | afterwards the number has exactly one row, carrying the batch's pairs, cartons and date, and that row is returned |
| PurchaseOrders.UpsertConflictKeepsProgress | src/models/PurchaseOrder.js:321-328 | on conflict the row keeps id, state and progress counters; a new number is appended as IMPORTADA with zero counters and a fresh id |
| PurchaseOrders.UpsertOthersUnchanged | src/models/PurchaseOrder.js:321-328 | rows of other numbers are untouched |
| PurchaseOrders.IndexOfPoUnique | src/models/PurchaseOrder.js:29-48 | with unique numbers, `findByPoNumber` finds the one row carrying the number |
| PurchaseOrders.BulkCreateAccounts | src/models/PurchaseOrder.js:310-345 | created plus errors is the batch size; the k-th error names the PO and message of the k-th failed statement; created rows follow the committed POs in order; the table stays valid |
| PurchaseOrders.BulkCreateAllCommitted | src/models/PurchaseOrder.js:318-335 | when every statement commits, one row per PO is returned in batch order and no error |
| PurchaseOrders.BulkCreateValid | src/models/PurchaseOrder.js:318-335 | the bulk insert keeps numbers and ids unique |
| PurchaseOrders.BulkCreateStored | src/models/PurchaseOrder.js:318-335 | every PO whose statement committed has a row afterwards |
| PurchaseOrders.CheckIfCompleteMeaning | src/models/PurchaseOrder.js:257-277 | complete exactly when a row with the id exists and both counters reached their targets; an unknown id is never complete |
| PurchaseOrders.UpdateProgressEffect | src/models/PurchaseOrder.js:187-201 | `updateProgress` throws exactly when neither counter is given |
| PurchaseOrders.UpdateProgressWrites | src/models/PurchaseOrder.js:182-215 | only the given counters of the row with the id change; every other row and column is as before |
| PurchaseOrders.UpdateProgressValid | src/models/PurchaseOrder.js:206-211 | `updateProgress` keeps numbers and ids unique |
| PurchaseOrders.ProgressToTargetCompletes | src/models/PurchaseOrder.js:182-277 | setting both counters to their targets makes the PO complete |
| Cartons.BulkCreate | src/models/Carton.js:188-223 | the batch of inserts with per-line failures; stated by `BulkCreateAccounts` and `BulkCreateAllCommitted` |
| Cartons.IsMusicale | src/models/Carton.js:130-139 | the distinct-SKU count over all lines of the number; stated by `IsMusicaleAgreesWithClassifier` and `EarlierLineMakesMusicale` |
| Cartons.CheckMusicalComplete | src/models/Carton.js:244-257 | the completed-versus-total count of a carton; stated by `CheckMusicalCompleteMeaning` |
| Cartons.CompleteMusical | src/models/Carton.js:262-272 | the update of a carton's lines to COMPLETADO; stated by `CompleteMusicalEffect` |
| Cartons.LigarCaja | src/models/Carton.js:112-125 | the box link of a carton; stated by `LigarCajaEffect` |
| Cartons.CountByPoAndEstado | src/models/Carton.js:174-183 | the distinct-carton count per PO and state; stated by `CountByPoAndEstadoDistinct` |
| Cartons.BulkCreateAccounts | src/models/Carton.js:188-223 | created plus errors is the batch size; created lines are appended in order as PENDIENTE without box, carrying their input's PO, carton, SKU and quantity; each error names the carton of a failed insert |
| Cartons.BulkCreateAllCommitted | src/models/Carton.js:196-213 | when every insert commits the batch is stored line for line |
| Cartons.IsMusicaleAgreesWithClassifier | src/models/Carton.js:130-139 | `isMusicale` counts every line of the table with the number; when the table's lines of that number are exactly the lines that mirror a manifest (after lines of other cartons), it says MUSICAL exactly when the import classifier does |
| Cartons.StoredTipoAgrees | src/models/Carton.js:130-139 | storing a classified manifest line for line after lines of other cartons, every line's import tag agrees with what `isMusicale` later says of its carton |
| Cartons.EarlierLineMakesMusicale | src/models/Carton.js:130-139 | an older line of the same carton with another SKU makes `isMusicale` true for a carton the manifest alone tags MONO |
| Cartons.CheckMusicalCompleteMeaning | src/models/Carton.js:244-257 | holds exactly when every line of the carton is COMPLETADO, and so for a carton with no lines |
| Cartons.CountCompletedMeaning | src/models/Carton.js:246-250 | COMPLETADO lines never outnumber lines and match them only when all are COMPLETADO |
| Cartons.CompleteMusicalEffect | src/models/Carton.js:262-272 | every line of the carton becomes COMPLETADO and nothing else changes; the carton is then complete; one COMPLETADO line of the carton is returned per line it has |
| Cartons.LigarCajaEffect | src/models/Carton.js:112-125 | the box and COMPLETADO are set on exactly the carton's lines; a boxed line of the carton is returned, none exactly when the carton has no lines |
| Cartons.CountByPoAndEstadoDistinct | src/models/Carton.js:174-183 | the count is the number of distinct carton numbers among the PO's lines in the state, never more than the table's lines |
| ShippingImports.Create | src/models/ShippingImport.js:7-42 | the insert of one import record; stated by `CreateDefaults` |
| ShippingImports.GetUltimaImportacion | src/models/ShippingImport.js:84-95 | the newest fully imported record; stated by `LatestIsNewestComplete`, `PartialRecordNeverLatest` and `PartialCreateKeepsLatest` |
| ShippingImports.CreateDefaults | src/models/ShippingImport.js:7-42 | `create` appends one record; absent counts are stored as 0 and given ones as given; an error list is stored when given, even empty, and NULL otherwise |
| ShippingImports.LatestIsNewestComplete | src/models/ShippingImport.js:84-95 | the answer is a fully imported record and no fully imported record is newer; nothing is returned only when no record is fully imported |
| ShippingImports.PartialRecordNeverLatest | src/models/ShippingImport.js:88 | a record with something left uncreated is never the last import |
| ShippingImports.PartialCreateKeepsLatest | src/models/ShippingImport.js:84-95 | appending a partial record does not change the last import |
| ShippingController.ImportPipeline | src/controllers/shippingController.js:25-136 | `importarExcel` with the consistency check as a parameter; its branches are stated by `EarlyExitsWriteNothing`, `UnbalancedWritesOnlyRecord` and `ImportedRecord` |
| ShippingController.AfterParse | src/controllers/shippingController.js:46-95 | the gates after parsing; stated by `EarlyExitsWriteNothing` and `UnbalancedWritesOnlyRecord` |
| ShippingController.Persist | src/controllers/shippingController.js:97-136 | the inserts and the import record; stated by `PersistCounts`, `PersistErrors`, `PersistOnlyCreatedPos` and `PersistFullyImported` |
| ShippingController.ImportarExcel | src/controllers/shippingController.js:25-136 | the pipeline as deployed, with the string-keyed consistency check; related to the pair-keyed one by `AcceptedAgreesWithByPair` and `NoCollisionSameRun` |
| ShippingController.ImportarExcelByPair | src/controllers/shippingController.js:59 | the same pipeline with the pair-keyed consistency check |
| ShippingController.PosIdMap | src/controllers/shippingController.js:102-106 | the number-to-id map; stated by `PosIdMapKeys` and `PosIdMapLast` |
| ShippingController.AttachPoIds | src/controllers/shippingController.js:108-116 | the PO id attachment and the `c.poId` filter; stated by `AttachPoIdsKeeps` |
| ShippingController.DroppedCount | src/controllers/shippingController.js:115-116 | the lines the filter drops silently; stated by `AttachPoIdsKeeps` and `PersistCounts` |
| ShippingController.EarlyExitsWriteNothing | src/controllers/shippingController.js:26-67 | no file, a missing sheet, no valid PO, no valid carton line or a failed consistency check each end the request with the store untouched, each exactly in its case and in that order |
| ShippingController.UnbalancedWritesOnlyRecord | src/controllers/shippingController.js:75-95 | a failed reconciliation leaves PO and carton tables untouched and appends one record with zero created, the file's totals, and parser errors then the non-empty reconciliation errors; the last import stays what it was |
| ShippingController.ClassifiedCount | src/controllers/shippingController.js:71 | classification keeps one line per parsed carton line |
| ShippingController.PersistCounts | src/controllers/shippingController.js:97-136 | totals are the PO count and line count; created counts never exceed them; every classified line is created, failed with an error, or dropped by the filter |
| ShippingController.PersistErrors | src/controllers/shippingController.js:122-134 | the stored errors are parser errors, then PO_INSERT errors, then CARTON_INSERT errors, and NULL exactly when all three are empty |
| ShippingController.PersistOnlyCreatedPos | src/controllers/shippingController.js:102-116 | every inserted line carries the non-zero id of a PO row created by this run for the PO number of a classified line with the same carton id |
| ShippingController.PersistFullyImported | src/controllers/shippingController.js:128-136 | the record counts as fully imported exactly when no PO failed and every classified line was inserted, none failed and none dropped |
| ShippingController.ImportedRecord | src/controllers/shippingController.js:128-136 | a completed import appends one record whose totals are the parsed counts and whose created counts do not exceed them |
| ShippingController.PosIdMapKeys | src/controllers/shippingController.js:103-106 | a PO number is in the id map exactly when a created row carries it |
| ShippingController.PosIdMapLast | src/controllers/shippingController.js:103-106 | a number maps to the id of the last created row carrying it |
| ShippingController.AttachPoIdsKeeps | src/controllers/shippingController.js:110-116 | the filter keeps only lines whose PO maps to a non-zero id, each with that id and its carton, SKU and quantity; kept plus dropped is all lines, and nothing is dropped exactly when every line's PO maps to a non-zero id |
| ShippingController.AcceptedAgreesWithByPair | src/controllers/shippingController.js:59-67 | whenever the deployed consistency check lets the request through, the pair-keyed pipeline makes the same run |
| ShippingController.NoCollisionSameRun | src/controllers/shippingController.js:59-67 | without key collisions in the parsed lines, the deployed and the pair-keyed pipelines make the same run |
| QrNormalizer.MatchAfter | src/utils/qrNormalizer.js:27-36 | a capture is a non-empty run of letters and digits with room for the marker before it; which run is stated by `MatchAfterMeaning` and `NoMatchMeaning` |
| QrNormalizer.Normalizado | src/utils/qrNormalizer.js:23-52 | the four branches after `trim`; stated by `NormalizadoCases` |
| QrNormalizer.NormalizarQR | src/utils/qrNormalizer.js:18-21 | the result is null exactly when the input is missing, not a string, or empty |
| QrNormalizer.MatchAfterMeaning | src/utils/qrNormalizer.js:27-36 | `<marker>([A-Za-z0-9]+)$` with flag `i` captures `s[q..]` exactly when the marker, ignoring case, ends at `q` and only letters and digits follow |
| QrNormalizer.NoMatchMeaning | src/utils/qrNormalizer.js:27-36 | the expression fails exactly when no position qualifies |
| QrNormalizer.NormalizadoCases | src/utils/qrNormalizer.js:27-52 | only two branches decide: the code after `/Q/`, else after `-Q-`, else the trimmed text; the `verify.crocs.com` branch is unreachable and the bare-code branch equals the fallback |
| QrNormalizer.VerifyImpliesApi | src/utils/qrNormalizer.js:40-43 | text matching the `verify.crocs.com/Q/` expression already matches `/Q/` with the same capture |
| QrNormalizer.ApiFormGivesCode | src/utils/qrNormalizer.js:25-30 | `<prefix>/Q/<code>` with a letter-and-digit code and no leading blank normalises to the code upper-cased |
| QrNormalizer.ScannerFormGivesCode | src/utils/qrNormalizer.js:32-37 | `<prefix>-Q-<code>` with a letter-and-digit code and no leading blank normalises to the code upper-cased |
| QrNormalizer.FormMatches | src/utils/qrNormalizer.js:27-36 | a marker followed by a letter-and-digit code at the end of the text captures exactly that code |
| QrNormalizer.ScannerFormNotApi | src/utils/qrNormalizer.js:27-37 | a scanner reading ending in `-Q-<code>` never matches the `/Q/` expression, so the second branch decides |
| QrNormalizer.ScannerAndApiAgree | src/utils/qrNormalizer.js:4-11 | the scanner reading `httpsÑ--verify.crocs.com-Q-X` and the API URL `http://host/Q/X` normalise to the same upper-cased X |
| QrNormalizer.NormalizedUppercase | src/utils/qrNormalizer.js:29-52 | a normalised code has no lower-case ASCII letter |
| QrNormalizer.NormalizarQRIdempotent | src/utils/qrNormalizer.js:18-53 | normalising a non-empty normalised code again returns it unchanged |
| QrNormalizer.MatchAfterUpper | src/utils/qrNormalizer.js:27-36 | upper-casing a text does not change whether a marker expression matches it |
| QrNormalizer.NormalizarQrDesdeApi | src/utils/qrNormalizer.js:60-62 | the API entry point returns null exactly when its input is missing or empty, as `normalizarQR` does |
| Text.ToUpperIdempotent | src/utils/qrNormalizer.js:29 | upper-casing leaves no lower-case ASCII letter and is idempotent |

## Left out

- Reading the XLSX file, `sheet_to_json`, `parseInt` and the date conversion. A cell is given as
  its string form, its `parseInt` value (None for NaN) and its converted date or the conversion's
  error message. Rows are given in key order.
- SQL and transactions. Each statement's outcome comes from an oracle. A failed statement leaves
  the table as it was and the loop moves on. PostgreSQL actually aborts the whole transaction after
  a failed statement inside `BEGIN`. Column defaults and the `creado_en`/`actualizado_en`
  timestamps are not modelled; new PO counters are taken as 0.
- PurchaseOrders.UpdateProgressWrites: a counter given as `null`, which the source writes as SQL
  NULL, is not modelled; a counter is either absent or an integer.
- ShippingImports.GetUltimaImportacion: ties on `creado_en` are left unordered by SQL. The model
  returns the record inserted last among them.
- ShippingImports.CreateDefaults: the error list is stored as the list itself; `JSON.stringify`
  is not modelled.
- Prototype property names such as `__proto__` used as PO numbers or carton ids. JavaScript objects
  treat them specially; the model treats them as ordinary keys.
- Text.ToUpperIdempotent: `toUpperCase`/`toLowerCase` are modelled on ASCII letters only. Other
  characters pass unchanged, and Unicode expansions such as "ß" → "SS" are left out.
- QrNormalizer.NormalizarQRIdempotent: holds for ASCII text only. JavaScript's `toUpperCase` maps
  "ı" (U+0131) to "I" and "ſ" (U+017F) to "S", and neither matches `[A-Za-z0-9]` under the `i`
  flag. So "/Q/ı" normalises to "/Q/I", and normalising that gives "I".
- QrNormalizer.MatchAfterUpper: holds for ASCII text only. With the same mapping, "/Q/ı" does not
  match the `/Q/` expression but its upper-cased form "/Q/I" does.
- QrNormalizer.NormalizedUppercase: states only that no lower-case ASCII letter is left. Some
  lower-case letters, such as "ĸ" (U+0138), have no upper-case form and stay lower-case.
- QrNormalizer.NormalizarQR: a non-string argument is modelled as a missing one. A whitespace-only
  string normalises to the empty string, and normalising that again gives null, so idempotence is
  stated for non-empty results.
- The audit log, the temporary-file cleanup, the HTTP response shape and the `AppError` messages
  of `importarExcel`. These are I/O. The outcome datatype keeps the response's counts, the
  `resumen` and the error lists.
- Other table operations not on the import path (`findAll`, `getEstadisticas`, `create`,
  `findById`, `getCartonInfo`, `getPendientesByPo`, `updateEstado`). They are plain queries with
  no logic of their own.
- Cartons dropped by the `c.poId` filter are not reported as CARTON_INSERT errors, because the
  code drops them silently; the model counts them through `ShippingController.DroppedCount`.

## Findings

| source | as written | input that shows it | evidently intended | confidence | as-written member | corrected member |
|---|---|---|---|---|---|---|
| src/utils/shippingValidations.js:133 | the consistency key is the string `${cartonId}-${sku}`, so different (carton, SKU) pairs can share a key | carton "A-B" with SKU "C" (12 pairs, PO1) and carton "A" with SKU "B-C" (6 pairs, PO2) both give "A-B-C". The check reports a quantity and a PO inconsistency between two unrelated lines and rejects the file | lines are grouped by the (carton, SKU) pair itself | high (not executed) | CartonConsistency.ValidateCartonConsistency, CartonConsistency.KeyCollision | CartonConsistency.ValidateCartonConsistencyByPair, CartonConsistency.ByPairValidIffAgreement |

`ShippingController.ImportarExcel` is the pipeline as deployed, with the string-keyed check.
`ShippingController.ImportarExcelByPair` is the same pipeline with the pair-keyed check.
`ShippingController.AcceptedAgreesWithByPair` and `ShippingController.NoCollisionSameRun` show
that the two differ only where the deployed check rejects a file because of a key collision.
