# Contract-creation tracer, modelled in Dafny

A model of the native `contractTracer` of XDPoSChain's tracing layer
(`eth/tracers/native/contract.go`). The tracer watches an EVM execution
through the tracer hooks and records which contract creations deployed
bytecode containing a chosen opcode. The model has three parts:

- `Scanner` (`scanner.dfy`): the bytecode scanner `findOpcodes`. It walks
  the code from offset 0. It jumps over the immediate bytes of push-class
  opcodes and reports whether the target opcode occurs at an instruction
  boundary. It appears twice: as a pure function (`FindOpcodes`, which the
  tracer uses) and as the source's loop (`ScanOpcodes`). Both are proved
  equal to `Occurs`, an independent definition of "genuine occurrence".
  `Occurs` is built on an inductive definition of instruction boundaries.
- `Tracer` (`tracer.dfy`): the configuration (`opCode`, `withByteCode`),
  the state (address map, interrupt flag, stop reason), and one function
  per hook:
  - construction, with normalisation of unknown opcode names to the `"inv"`
    sentinel;
  - `validateAndStoreOpCode`;
  - `CaptureStart`, `CaptureEnter`, `Stop` and `GetResult`.
- `Lifecycle` (`lifecycle.dfy`): the hooks as events, and `Run`, which
  folds a whole trace over the tracer. It holds the properties that span
  several hooks:
  - the flag is sticky;
  - the reported error is the last `Stop` argument;
  - nothing is recorded after `Stop` except by a creating `CaptureStart`;
  - the `"inv"` filter records nothing;
  - every entry comes from a creation that passed the filter;
  - recorded keys are never removed, and the last effective write to a key wins.

`wrappers.dfy` holds `Option` and `Result`. They model Go's nil-able
`error` values and `(value, error)` returns.

Code outside `contract.go` is abstract. It is passed in as the fields of
an `Env` value:
- `vm.StringToOp` is `stringToOp`, any map from names to bytes.
- `OpCode.IsPush` is `isPush`. `StandardPush` gives the PUSH1..PUSH32
  range.
- `addrToHex` and `bytesToHex` are uninterpreted functions.
- `json.Unmarshal` of the configuration is `unmarshal`, which returns a
  configuration or an error.

The push skip length is the source's `int(op - 95)`. Its subtraction is on
a byte, so it wraps modulo 256. The model writes this out as
`(op - 95) % 256`.

Three behaviours of `contract.go` worth stating explicitly:
- `CaptureStart` does not look at the interrupt flag. Only `CaptureEnter`
  does. So not every hook becomes a no-op after `Stop`. See
  `CaptureStartIgnoresInterrupt` and `InterruptedTraceRecordsNothing`.
- `GetResult` returns the marshalled map and the stop reason together.
  The reason does not replace the payload.
- The opcode filter scans the deployed bytecode (the creation's input)
  for the opcode. It does not select frames by kind. With `opCode` set to
  `CREATE2`, a CREATE frame whose code contains a CREATE2 instruction is
  recorded. A CREATE2 frame whose code lacks one is not. See
  `FilterScansDeployedCode`.

## Model

| member | source | states |
|---|---|---|
| Scanner.SkipLength | eth/tracers/native/contract.go:126-127 | The skip is the byte-wrapped `op - 95`, always below 256. PUSH1..PUSH32 skip 1..32 immediate bytes. PUSH0 skips none. |
| Scanner.Next | eth/tracers/native/contract.go:123-131 | Every loop iteration advances the offset by at least 1 and at most 256. A non-push byte advances it by exactly 1. |
| Scanner.FindFrom | eth/tracers/native/contract.go:122-134 | A true answer from offset `i` means a non-push byte equal to the target exists at or after `i`. |
| Scanner.FindOpcodes | eth/tracers/native/contract.go:122-134 | A true answer means the target byte is in the code. A push-class target is never found. Empty code yields false. |
| Scanner.BoundaryGap | eth/tracers/native/contract.go:123-131 | No instruction boundary falls inside an instruction: after boundary `a`, the next boundary is where the scan steps next. |
| Scanner.NextIsBoundary | eth/tracers/native/contract.go:126-131 | The offset the loop moves to from a boundary is again a boundary. |
| Scanner.FindFromCorrect | eth/tracers/native/contract.go:122-134 | Started at a boundary, the scan is true iff some later boundary inside the code holds a non-push byte equal to the target. |
| Scanner.FindOpcodesCorrect | eth/tracers/native/contract.go:122-134 | `findOpcodes` is true iff the target genuinely occurs: at an instruction boundary, and not as a push. |
| Scanner.ScanOpcodes | eth/tracers/native/contract.go:122-134 | The loop as written terminates and reads only inside the code. Its answer is true iff the target genuinely occurs. |
| Scanner.WalkEnd | eth/tracers/native/contract.go:123-131 | The scan leaves the loop at an offset at least the code length, and less than length + 256 when the code is non-empty. |
| Scanner.FindFromShift | eth/tracers/native/contract.go:122-134 | Scanning a suffix after a prefix, from the suffix's own offsets, answers as scanning the suffix alone. |
| Scanner.FindFromConcat | eth/tracers/native/contract.go:122-134 | If the scan of `c1` from `i` ends exactly at its end, scanning `c1 + c2` from `i` is true iff `c1` from `i` or `c2` is true. |
| Scanner.FindOpcodesConcat | eth/tracers/native/contract.go:122-134 | For code with no truncated PUSH at its end, the scan of a concatenation is the disjunction of the scans of the parts. |
| Scanner.PushImmediatesInvisible | eth/tracers/native/contract.go:126-127 | The immediate bytes of a complete PUSH never affect the answer, whatever their values: push data is not mistaken for code. |
| Scanner.TruncatedPushInvisible | eth/tracers/native/contract.go:123-133 | A final PUSH whose operand runs past the end hides the remaining bytes. The scan stops without reading past the end. |
| Scanner.GenuineOccurrenceFound | eth/tracers/native/contract.go:128-129 | A non-push target placed at an instruction boundary is always found. |
| Tracer.NormalizeOpCode | eth/tracers/native/contract.go:58-62 | A name that maps to 0, other than "STOP" or "", becomes "inv". Every other name is kept unchanged. |
| Tracer.NormalizeIdempotent | eth/tracers/native/contract.go:58-62 | After normalisation the name is either recognised or the sentinel. Normalising again changes nothing. |
| Tracer.NewContractTracer | eth/tracers/native/contract.go:47-64 | Construction fails only with the decoder's error. A nil config gives the zero config. Otherwise the map is empty, there is no interrupt and no reason, `withByteCode` is as decoded, and the opcode name is normalised. |
| Tracer.Matches | eth/tracers/native/contract.go:109-112 | "inv" matches nothing. "" matches every creation. Any other name matches iff its opcode genuinely occurs in the input. |
| Tracer.ValidateAndStore | eth/tracers/native/contract.go:108-119 | A non-matching input changes nothing. A matching one adds exactly the key of `to`, whose value is the hex input when `withByteCode` is set and "" otherwise. All other keys, config, flag and reason keep their values. |
| Tracer.LaterStoreOverwrites | eth/tracers/native/contract.go:114-118 | A later matching store for the same address overwrites the earlier one. |
| Tracer.InvalidFilterStoresNothing | eth/tracers/native/contract.go:110-112 | With opCode "inv", a store leaves the tracer unchanged for every input and address. |
| Tracer.EmptyFilterRecordsEveryCreation | eth/tracers/native/contract.go:110-118 | With the empty filter, an uninterrupted CaptureEnter of a CREATE or CREATE2 frame always writes the key of `to`, whatever the bytecode. |
| Tracer.CaptureStart | eth/tracers/native/contract.go:66-70 | Only a creating root frame is considered for recording. A non-create start changes nothing. |
| Tracer.CaptureStartIgnoresInterrupt | eth/tracers/native/contract.go:66-70 | `CaptureStart` records the same whether or not the tracer was interrupted. |
| Tracer.CaptureEnter | eth/tracers/native/contract.go:81-90 | Once interrupted, it does nothing. Otherwise only CREATE and CREATE2 frames are considered, and other frame kinds change nothing. |
| Tracer.Stop | eth/tracers/native/contract.go:103-106 | The reason is recorded (nil included) and the flag becomes 1. The map and config are untouched. |
| Tracer.GetResult | eth/tracers/native/contract.go:95-101 | The result carries both the recorded map and the stop reason. |
| Lifecycle.Apply | eth/tracers/native/contract.go:66-106 | CaptureEnd, CaptureState, CaptureFault and CaptureExit are no-ops. Only Stop changes the flag or the reason. No hook changes the config. |
| Lifecycle.RunKeepsConfig | eth/tracers/native/contract.go:54-62 | The configuration fixed at construction is the same after any trace. |
| Lifecycle.InterruptSticky | eth/tracers/native/contract.go:103-106 | After any trace that contains a Stop the flag is 1. A trace without one leaves the flag as it was, so once set the flag is never cleared. |
| Lifecycle.ReasonIsLastStop | eth/tracers/native/contract.go:103-106 | After any trace, the stored reason is the argument of the most recent Stop, or the prior reason if the trace has no Stop. |
| Lifecycle.InterruptedTraceRecordsNothing | eth/tracers/native/contract.go:81-90 | From an interrupted state, any trace without a creating CaptureStart leaves the map unchanged. This includes any number of CaptureEnter calls. |
| Lifecycle.InvalidFilterTraceRecordsNothing | eth/tracers/native/contract.go:108-112 | With opCode "inv", no trace changes the map. |
| Lifecycle.EntriesComeFromCreations | eth/tracers/native/contract.go:66-119 | Every entry after a trace was already present, or was written by a creation hook in the trace that passed the filter, with that creation's stored value. |
| Lifecycle.RunConcat | eth/tracers/native/contract.go:66-106 | Running two traces one after the other is the same as running their concatenation. |
| Lifecycle.KeysPersist | eth/tracers/native/contract.go:108-119 | No trace removes a recorded address: the keys before a trace are among the keys after it. |
| Lifecycle.KeyUntouched | eth/tracers/native/contract.go:108-119 | A recorded key keeps its value through any trace with no filter-passing creation for that key. |
| Lifecycle.LastWriteWins | eth/tracers/native/contract.go:66-119 | If a creation passes the filter and takes effect (a creating CaptureStart, or a CaptureEnter with no Stop before it), and no later creation passes the filter for the same key, the final map holds that creation's stored value under its key. |
| Lifecycle.UnknownOpCodeYieldsEmptyResult | eth/tracers/native/contract.go:59-61 | A tracer built with an unrecognised opcode name reports an empty map for every trace. |
| Lifecycle.ResultErrorIsLastStop | eth/tracers/native/contract.go:95-106 | For a freshly built tracer, GetResult's error is the most recent Stop argument, or nil if Stop was never called. |
| Lifecycle.FilterScansDeployedCode | eth/tracers/native/contract.go:87-118 | With opCode CREATE2, a CREATE frame deploying `PUSH1 0x00 CREATE2` is recorded. A CREATE2 frame deploying `PUSH1 0xf5` is not. |

## Left out

- Tracer registration in `init` (lines 30-32). It is process-global wiring with no behaviour of its own.
- Atomicity of `interrupt` (`sync/atomic`, lines 83 and 105). The flag is plain sequential state. Cross-thread visibility is outside a sequential model.
- JSON encoding and decoding. `json.Unmarshal` is the abstract `unmarshal` parameter, and `GetResult`'s payload is the map itself.
- Tracer.GetResult: does not model the `json.Marshal` error branch (lines 96-99). Marshalling a map from strings to strings does not fail, so only the success path is kept.
- `vm.StringToOp`, `OpCode.IsPush`, `addrToHex` and `bytesToHex` are defined outside `contract.go`. They are abstract parameters, so no fact about the VM's opcode table is assumed beyond what each statement names.
- The EVM, scope-context and duration arguments of the hooks are dropped. Gas and value are unbounded naturals. The tracer reads none of them.
- The tracer keeps no lifecycle phase; `GetResult` may be called at any point.
