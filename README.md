# QR code attendance log — a Dafny model of the scan reconciliation

The page `src/pages/TestPage.tsx` of the QR code time log keeps an in-memory
attendance log. Whenever the scanner library reports a batch of codes, the page
reads the first code's raw text as JSON and takes `Name` and `Employee ID` from
it. Each falls back to `"Unknown"` when it is missing or empty. The page then
reconciles the scan against the log: the first entry with the same employee id
and no time-out is closed with the current time; if there is none, a new open
entry is appended. A status line narrates the branch taken. A payload that does
not parse (or parses to `null`) and a scanner fault only change the status line.

The model has four modules:

- `Wrappers` (`wrappers.dfy`): `Option`, which stands for `null` and `undefined`.
- `Payload` (`payload.dfy`): the result of `JSON.parse` as a datatype, and the
  extraction of the identity with the `|| "Unknown"` fallback.
- `Ledger` (`ledger.dfy`): the `Log` record, the `findIndex` search (a pure
  specification `FirstOpen` and a loop `FindIndex` proved equal to it), the
  updater `Reconcile`, and the lemmas about it. These cover the two branches,
  the invariant "at most one open entry per employee id", and the three-scan
  toggle law.
- `Attendance` (`test_page.dfy`): the page state. It holds the class `TestPage`
  with fields `logs` and `status` and the methods `HandleScan` and
  `HandleError`. `HandleScan` is proved against the pure step function
  `Scan`. The module also has `Step`, which is one scanner callback (a scan or
  a reader fault), and `Run`, which folds a sequence of them. It also has the
  lemmas about runs and the `"-"` rule for empty time cells.

Several outside pieces are parameters instead of code:

- The clock value `new Date().toISOString()` is the string parameter `now`.
- `toLocaleTimeString` and `toLocaleString` are function parameters.
- `JSON.parse` is a function parameter `parse: string -> ParseResult`.

The model is then a pure function of these parameters.

A check-out keeps the entry's stored name, which `Ledger.CheckOut` states. The
status line uses the name from the current scan, even when it differs from the
stored one, which `Attendance.AcceptedPayload` states. The code does both.

## Model

| member | source | states |
|---|---|---|
| `Payload.OrUnknown` | src/pages/TestPage.tsx:28-29 | `v \|\| "Unknown"`: a present non-empty value is kept; a missing or empty one becomes `"Unknown"`; the result is never empty |
| `Payload.Extract` | src/pages/TestPage.tsx:27-29 | the catch branch is taken exactly when the text is malformed or parses to `null`; otherwise both fields are non-empty, and a scalar payload gives `Unknown`/`Unknown` |
| `Payload.ObjectFields` | src/pages/TestPage.tsx:28-29 | for an object payload, each field is the payload's value when its key is present and non-empty, and `"Unknown"` when the key is missing or empty |
| `Payload.UnknownNameIff` | src/pages/TestPage.tsx:28 | the extracted name is `"Unknown"` if and only if `Name` is missing, empty or literally `"Unknown"` |
| `Payload.UnknownIdIff` | src/pages/TestPage.tsx:29 | the extracted id is `"Unknown"` if and only if `Employee ID` is missing, empty or literally `"Unknown"` |
| `Ledger.IsOpenFor` | src/pages/TestPage.tsx:34 | the `findIndex` test: same employee id and a null time-out; `FirstOpen`, `CheckOut` and `OpenEntryIsFirst` state what the search makes of it |
| `Ledger.FirstOpen` | src/pages/TestPage.tsx:33-35 | the result is -1 exactly when no entry has the id and a null time-out; otherwise it is an index of such an entry with no such entry before it |
| `Ledger.FindIndex` | src/pages/TestPage.tsx:33-35 | the linear scan returns exactly `FirstOpen`: the lowest open index for the id, or -1 |
| `Ledger.Reconcile` | src/pages/TestPage.tsx:32-53 | the check-out branch runs exactly when an open entry exists for the id; a check-out keeps the length and a check-in adds one entry; the old log is extended, never reordered or shortened |
| `Ledger.CheckOut` | src/pages/TestPage.tsx:37-44 | the first open entry gets time-out `now` and keeps its position, name, id and time-in; the length and every other entry are unchanged |
| `Ledger.CheckIn` | src/pages/TestPage.tsx:45-51 | with no open entry for the id, the new log is the old log plus exactly `{name, employeeId, timeIn: now, timeOut: null}` at the end |
| `Ledger.OpenEntryIsFirst` | src/pages/TestPage.tsx:33-35 | while the invariant holds, an open entry for the id is the one `findIndex` picks, so the first-match tie-break never decides anything |
| `Ledger.ReconcileKeepsAtMostOneOpen` | src/pages/TestPage.tsx:33-51 | every reconciliation preserves "at most one entry per employee id has a null time-out" |
| `Ledger.ThreeScans` | src/pages/TestPage.tsx:33-51 | with no open entry at the start, three scans of one identity give check-in, then check-out of that entry, then a second appended open entry |
| `Attendance.Narration` | src/pages/TestPage.tsx:41-50 | the two status templates "Employee {name} (ID: {id}) checked out/in at {t}"; `NarrationTellsBranch`, `AliceCheckedIn` and `AliceCheckedOut` state their properties |
| `Attendance.Scan` | src/pages/TestPage.tsx:17-59 | one `handleScan` call as an atomic step; `EmptyBatch`, `OnlyFirstBarcode`, `RejectedPayload` and `AcceptedPayload` state its cases |
| `Attendance.Step` | src/pages/TestPage.tsx:80-81 | the `onScan`/`onError` dispatch to a scan or a reader fault; `ReaderFault` and `StepKeepsLedger` state its properties |
| `Attendance.NarrationTellsBranch` | src/pages/TestPage.tsx:41-50 | for the same identity and time, the "checked out" status differs from the "checked in" status |
| `Attendance.EmptyBatch` | src/pages/TestPage.tsx:18 | an empty batch leaves logs and status unchanged |
| `Attendance.OnlyFirstBarcode` | src/pages/TestPage.tsx:27 | two batches with the same first code give the same page; later codes have no effect |
| `Attendance.RejectedPayload` | src/pages/TestPage.tsx:54-55 | a malformed or `null` payload leaves the log unchanged and sets exactly the invalid-format status |
| `Attendance.AcceptedPayload` | src/pages/TestPage.tsx:28-51 | any other payload is reconciled, and the status is "Employee {name} (ID: {id}) checked out at {t}" or "... checked in at {t}", matching the branch |
| `Attendance.ReaderFault` | src/pages/TestPage.tsx:61-64 | a scanner fault sets "Error scanning QR code. Please try again." and leaves the log unchanged |
| `Attendance.StepKeepsLedger` | src/pages/TestPage.tsx:17-64 | every scanner callback preserves the invariant and only extends the log |
| `Attendance.RunKeepsLedger` | src/pages/TestPage.tsx:13-64 | after any sequence of callbacks the invariant holds; no entry moves or disappears; names, ids and time-ins never change; a set time-out never changes |
| `Attendance.AliceScenario` | src/pages/TestPage.tsx:17-59 | Alice/E1 scanned at t1, t2, t3 gives check-in, check-out of that entry and a second entry; then a code without a name for E2 appends an `Unknown` entry |
| `Attendance.AliceCheckedIn` | src/pages/TestPage.tsx:48-50 | the check-in status for Alice/E1 at t reads exactly "Employee Alice (ID: E1) checked in at " followed by t |
| `Attendance.AliceCheckedOut` | src/pages/TestPage.tsx:41-43 | the check-out status for Alice/E1 at t reads exactly "Employee Alice (ID: E1) checked out at " followed by t |
| `Attendance.TimeCell` | src/pages/TestPage.tsx:105-108 | a null or empty time shows `"-"`; any other time shows its locale rendering; `"-"` appears exactly in those cases or when the rendering itself is `"-"` |
| `Attendance.TestPage.constructor` | src/pages/TestPage.tsx:13-14 | the page starts with an empty log and an empty status, which satisfies the invariant |
| `Attendance.TestPage.HandleScan` | src/pages/TestPage.tsx:17-59 | the new logs and status are those of `Scan` on the old ones, and the invariant is kept |
| `Attendance.TestPage.HandleError` | src/pages/TestPage.tsx:61-64 | logs unchanged; status is the reader-error text; the invariant is kept |

## Left out

- The table markup and the rest of the JSX (src/pages/TestPage.tsx:66-116) are UI. Only the `"-"` rule for time cells is kept, as `TimeCell`.
- The camera and QR decoding of `@yudiel/react-qr-scanner` are a foreign library. Its output is the input `seq<Barcode>`; a fault is the event `ReaderFailed`.
- `JSON.parse` is foreign code. Its result is the datatype `ParseResult`, and the parser is a function parameter.
- Field values are modelled as strings only. A non-string JSON value under `Name` or `Employee ID` (a number, boolean, `null`, array or object) is not modelled. The falsy ones (`0`, `false`, `null`) would also fall back to `"Unknown"`. The others would be stored as non-string values and compared with `===` by reference or by value.
- The `isReloading` throttle and its `setTimeout` (src/pages/TestPage.tsx:15, 20-24, 74) are timer-driven UI state.
- `console.error` (src/pages/TestPage.tsx:56, 62) is logging I/O.
- React state-setter semantics are not modelled: one scan is one atomic step. This leaves out updater batching. It also leaves out the development-mode double call of the `setLogs` updater. That double call calls `setStatus` inside the updater, and it writes the time-out into an entry object shared with the previous state.
- Locale formatting (`toLocaleTimeString`, `toLocaleString`) and `toISOString` are function parameters and the `now` parameter, so nothing ties the rendered times to the clock value.
- Nothing orders a check-out time after the check-in time. The code does not enforce that order, so the model does not claim it.
- src/App.tsx is router wiring only and is not part of this model.
