# Tracer registry and reconcile handler (lasso `pkg/controller`)

A Dafny model of the two sequential pieces of the lasso diagnostic tracer:

- **The registration registry** (`mapinginfo.go`). Identity strings of the shape
  `<group>/<version>, Resource=<name>` are parsed into `Ressource` records. The
  parser never fails: it degrades to a partial record instead. `Log` appends one
  `RegisterData` event per registration under the parsed identity. `ToCsv` exports
  a header row, then one 8-column row per event of every identity the `CreatedBy`
  filter selects.
- **The reconcile handler** (`controlLoop.go`, the closure given to
  `RegisterHandler`). A ConfigMap passes a `LOGGER` label gate. A `log` annotation
  equal to the actor tag triggers an export of the registry into the ConfigMap's
  data and a store update. A `DEBUG_LASSO_KIND` annotation advances the
  process-wide phase.

Go's process-wide variables become parameters: the actor tag (`rancher`, which
is "rancher" or "agent") and the phase (`registeredOn`, initially
"initialization"). The handler is a pure function. It takes the delivered object,
the actor tag, the phase, the outcome of the CSV export and the outcome of the
store's update. It returns the object and error handed back to the dispatcher,
the object sent to the update (if the update was called), and the new phase.

Files:

- `Wrappers.dfy`: `Option` and `Result`.
- `GoStrings.dfy`: the library functions the code calls, `strings.Split`
  (mapinginfo.go:124 and 136), `strings.Replace(s, old, new, 1)` (line 135) and
  `strconv.Itoa` (line 72). `Join` and `Atoi` are reference definitions: the
  inverses the round-trip lemmas are stated with.
- `Csv.dfy`: the `encoding/csv` writer with `;` as separator, for fields it
  writes without quotes, and a reader for that text.
- `MappingInfo.dfy`: identities, the registry, `Log`, export rows and export text.
- `ControlLoop.dfy`: the handler.

Go map iteration order is unspecified. The export therefore takes the visiting
order as an argument (`order`, any sequence that lists every key exactly once).
The properties are stated per identity, or as multisets of rows, and never
depend on that order.

## Behaviour of the code worth noting

- `resourceFromString` splits at every ',' (`strings.Split`, mapinginfo.go:124),
  so any input without exactly one ',' takes the degraded path
  (`MappingInfo.ResourceFromString`).
- It removes the first `" Resource="` wherever it occurs in the second segment,
  not only at its start (mapinginfo.go:135, `MappingInfo.MarkerRemovedInside`).
- The header row is spelled `ResourVersion` and `CreateBy` (mapinginfo.go:62,
  `MappingInfo.Header`).
- The periodic dump passes the filter `"agent"` (mapinginfo.go:23). The dump
  itself is left out.
- The registry map has no lock (mapinginfo.go:29-31 and 101-120), so the model is
  sequential and claims nothing about threads.

## Model

| member | source | states |
|---|---|---|
| `GoStrings.Split` | pkg/controller/mapinginfo.go:124 | splitting at a one-character separator yields one more piece than there are separators, and no piece contains the separator |
| `GoStrings.JoinSplit` | pkg/controller/mapinginfo.go:124 | joining the pieces with the separator gives back the original string |
| `GoStrings.SplitJoin` | pkg/controller/mapinginfo.go:136 | splitting a join of separator-free pieces gives back those pieces |
| `GoStrings.SplitPair` | pkg/controller/mapinginfo.go:124-126 | a string with exactly one separator splits into the text before it and the text after it |
| `GoStrings.ReplaceFirst` | pkg/controller/mapinginfo.go:135 | a string without the pattern is unchanged; otherwise only the first occurrence is replaced, and the text around it is kept |
| `GoStrings.ReplaceLeadingPattern` | pkg/controller/mapinginfo.go:135 | removing the pattern from a string that starts with it leaves the rest |
| `GoStrings.Itoa` | pkg/controller/mapinginfo.go:72 | the line number is printed in canonical decimal: at least one digit, a leading '-' exactly when it is negative, and no leading zeros |
| `GoStrings.AtoiItoa` | pkg/controller/mapinginfo.go:72 | reading the printed line number back gives the number |
| `Csv.EncodeRecord` | pkg/controller/mapinginfo.go:72 | one written record is a single line ending in a newline, with no newline inside it |
| `Csv.DecodeEncode` | pkg/controller/mapinginfo.go:59-75 | for records of unquoted fields, reading the written ';'-separated text back gives the same records in the same order |
| `MappingInfo.ResourceFromString` | pkg/controller/mapinginfo.go:123-152 | the parser is total and sets `CreatedBy` to the actor tag in every branch; input without exactly one ',' becomes `{Resource: s, Group: "", Version: ""}` |
| `MappingInfo.ParseWithoutVersion` | pkg/controller/mapinginfo.go:136-144 | with exactly one ',' and a first segment without exactly one '/', the group is the whole first segment and the version is "Default" |
| `MappingInfo.ParseWellFormed` | pkg/controller/mapinginfo.go:146-151 | with one ',' and one '/' before it, group and version are the two sides of the '/', and the resource is the second segment with its first " Resource=" removed |
| `MappingInfo.RoundTrip` | pkg/controller/mapinginfo.go:53-55 | parsing a printed identity gives it back, if `CreatedBy` is the actor tag, group and version hold no ',' or '/', and the resource holds no ',' |
| `MappingInfo.Format` | pkg/controller/mapinginfo.go:53-55 | the printed identity ends with the resource name and holds one ',' more than its fields, so an identity with comma-free fields prints with exactly one ',' and the parser takes its structured branch (`RoundTrip` then gives the identity back) |
| `MappingInfo.MarkerRemovedInside` | pkg/controller/mapinginfo.go:135 | " Resource=" is removed even when it is not at the start of the segment, and any text before its first occurrence stays in the resource name |
| `MappingInfo.KeyOf` | pkg/controller/mapinginfo.go:110-114 | an empty identity string is recorded under the parse of "using_matcher" |
| `MappingInfo.Record` | pkg/controller/mapinginfo.go:114 | appending to a missing or present entry: the key set gains the key, the key's events are the old ones followed by the new event, and every other key's events are unchanged |
| `MappingInfo.Log` | pkg/controller/mapinginfo.go:101-120 | exactly one event is appended at the end of the parsed key's sequence; earlier events and all other keys are unchanged; the event records the phase at call time; with no caller, the file is "unknown" and the line is 0 |
| `MappingInfo.KeyRows` | pkg/controller/mapinginfo.go:70-75 | an identity's rows follow its events one for one and in order, and each row is `[Resource, Group, Version, Name, File, Itoa(Line), InvokedOne, CreatedBy]` |
| `MappingInfo.RowsInOrder` | pkg/controller/mapinginfo.go:65-77 | every data row has 8 fields, and with a non-empty filter every row's `CreatedBy` column equals the filter |
| `MappingInfo.ExportRows` | pkg/controller/mapinginfo.go:57-79 | the export starts with the literal header row, then only 8-column rows whose `CreatedBy` matches a non-empty filter |
| `MappingInfo.ExportRowsOfKey` | pkg/controller/mapinginfo.go:65-76 | the rows belonging to one identity are exactly its events' rows, in recorded order, when the filter is empty or equals its `CreatedBy`, and there are none otherwise |
| `MappingInfo.ExportOrderIndependent` | pkg/controller/mapinginfo.go:65 | any two visiting orders of the map export the same multiset of rows |
| `MappingInfo.RecordAddsOneRow` | pkg/controller/mapinginfo.go:114-119 | appending an event adds exactly one row to an export that selects its identity and none to one that does not |
| `MappingInfo.RecordThenExport` | pkg/controller/mapinginfo.go:114-119 | after an append, the identity's exported rows are the old ones followed by the new event's row; every other identity's rows are unchanged |
| `MappingInfo.LogAddsOneRow` | pkg/controller/mapinginfo.go:101-120 | one `Log` call adds one row to an export that selects the parsed identity, whatever order either export visits keys in |
| `MappingInfo.ExportText` | pkg/controller/mapinginfo.go:57-79 | as written: when at least one data row is written, the text reads back as the exported rows |
| `MappingInfo.HeaderLostWhenNothingSelected` | pkg/controller/mapinginfo.go:62-78 | as written: when the filter selects no event, the destination receives nothing, not even the header |
| `MappingInfo.ExportTextFlushed` | pkg/controller/mapinginfo.go:62-78 | corrected: the text always reads back as the exported rows, header first |
| `MappingInfo.FlushedAgreesWhenRowsWritten` | pkg/controller/mapinginfo.go:71-77 | the written text and the corrected text are equal exactly when at least one data row is written |
| `MappingInfo.OneEventExport` | pkg/controller/mapinginfo.go:57-79 | a registry with one selected event exports the header and that event's row, and the written text already holds both |
| `ControlLoop.NextPhase` | pkg/controller/controlLoop.go:95-98 | a present, non-empty `DEBUG_LASSO_KIND` other than "ignore" becomes the phase; otherwise the phase stays |
| `ControlLoop.NextPhaseIdempotent` | pkg/controller/controlLoop.go:95-98 | reading the same ConfigMap a second time does not move the phase further |
| `ControlLoop.ExportInto` | pkg/controller/controlLoop.go:85-92 | the update is called once, with the CSV text under the actor tag, `log` set to "done", and every label, other annotation and other data entry kept; a failed update returns the delivered object, the error and the old phase; a successful one hands on a typed copy of the sent object with the phase request applied |
| `ControlLoop.Handle` | pkg/controller/controlLoop.go:61-103 | nil, a non-unstructured object, or an object that fails the label gate comes back unchanged, with no update and no phase change; an untriggered ConfigMap is handed on as a typed copy; a CSV error returns nil and the error; a triggered ConfigMap with data whose export succeeded is always updated, and only such a one, with nothing but `log` and the actor's data entry changed; an error is returned exactly when the update failed; the phase moves only on success |
| `ControlLoop.NilDataPanics` | pkg/controller/controlLoop.go:85 | as written: a triggered ConfigMap without data crashes the handler |
| `ControlLoop.HandleFixed` | pkg/controller/controlLoop.go:85 | corrected: the handler never crashes; where the original returns, this one returns the same; a ConfigMap without data gets a data map holding only the export |
| `ControlLoop.RedeliveryIsNoOp` | pkg/controller/controlLoop.go:79-98 | when the actor tag is not "done", delivering the ConfigMap as stored after a successful call changes nothing: no update, the same copy handed on, the same phase |
| `ControlLoop.AgentSkipsRancherRequest` | pkg/controller/controlLoop.go:79-98 | at start-up the agent neither exports nor crashes on a ConfigMap asking "rancher" for an export, and only applies its phase request |
| `ControlLoop.FirstExportScenario` | pkg/controller/controlLoop.go:79-92 | corrected: a ConfigMap labelled `LOGGER`, with `log: rancher` and no data, is updated once to `log: done` with the text under "rancher", and a typed copy of that object is handed on |
| `ControlLoop.FirstExportWithData` | pkg/controller/controlLoop.go:79-92 | as written: the same request against a ConfigMap that already has an empty data map is updated once to `log: done` with the text under "rancher", and a typed copy is handed on |
| `ControlLoop.OneEventScenario` | pkg/controller/controlLoop.go:79-92 | corrected: with one event recorded by "rancher", the stored text reads back as the header and that event's row, the same as the exporter as written produces |

## Findings

| source | as written | input that shows it | evidently intended | confidence | as-written member | corrected member |
|---|---|---|---|---|---|---|
| pkg/controller/mapinginfo.go:62-78 | the CSV writer buffers its output; `ToCsv` flushes only after each data row and returns without a final flush | a registry where no event is selected by the filter, such as an empty registry, or a handler export before anything was recorded by the actor tag | the header row always reaches the destination | high, not executed | `MappingInfo.HeaderLostWhenNothingSelected` | `MappingInfo.ExportTextFlushed` |
| pkg/controller/controlLoop.go:85 | the export text is written into `cp.Data`, which is a nil map when the ConfigMap has no data, so the assignment panics | a ConfigMap with label `LOGGER: on`, annotation `log: <actor tag>`, and no data | the data map is created and the export stored in it | medium, not executed | `ControlLoop.NilDataPanics` | `ControlLoop.HandleFixed` |

`FirstExportScenario` and `OneEventScenario` describe the corrected handler: on
their input, a ConfigMap without data, the handler as written crashes
(`NilDataPanics`). `FirstExportWithData` shows the handler as written on the same
request when the ConfigMap already has a data map. `OneEventScenario` also shows
that, with one data row written, the exporter as written produces the same text
as the corrected one.

## Left out

- Bootstrap in `controlLoop.go` (lines 18-56 and 106-110) is left out: the kubeconfig, RKE2 and k3s fallbacks, the scheme, the controller factory and `Start` are I/O against libraries outside this model. Its only effect that matters here is the actor tag, which is a parameter.
- Conversion from the unstructured form to a ConfigMap, and its panic (controlLoop.go:67-69), is left out. The model receives the ConfigMap already typed.
- The store's `Update` call is an abstract success or failure. Go decodes the server's reply back into `cp`. The model hands on a typed copy of the object it sent, and models no metadata other than labels, annotations and data.
- A typed ConfigMap is told apart from the unstructured one the cache delivers only by its constructor (`TypedConfigMap` against `ConfigMapObject`); how later handlers on the shared controller treat the typed copy is not modelled.
- The background dump goroutine and `ToFile` (mapinginfo.go:14-27 and 43-51) are left out. They cover file creation, a five-minute sleep and printed errors.
- `contextWithCaller` and the context lookup (mapinginfo.go:94-99 and 106) are replaced by an optional call site argument.
- Concurrency is not modelled. The Go map has no lock, and the model is sequential.
- All `fmt.Println` output is left out.
- Csv.Encode: writes fields verbatim and requires every field to be one the Go writer would not quote. The quoting of fields containing ';', '"', a line break, a leading space, or the text `\.` is not modelled.
- MappingInfo.ExportText: requires every exported field to be unquoted (`PlainRegistry`), for the reason above.
- MappingInfo.ExportTextFlushed: has the same requirement as `ExportText`.
- Write and flush errors of the CSV writer are not modelled. In the handler, the export's outcome is an input (`csv`), so its error path is still modelled.
- Go strings are byte strings; the model uses sequences of characters. The separators involved (',', '/', ';', newline) are ASCII. They never occur inside a multi-byte UTF-8 sequence, so splitting behaves the same either way.
- `strconv.Itoa` is modelled on unbounded integers; Go's `int` is 64-bit, which is wide enough for line numbers.
