/** The native contract-creation tracer of eth/tracers/native/contract.go:
    its configuration, its state, and one transition function per hook.

    The tracer records, for every contract creation it observes whose
    deployed bytecode passes the opcode filter, the created address
    (rendered as a string) mapped to either the bytecode in hex or "". */
module Tracer {
  import opened Wrappers
  import opened Scanner

  /** A 20-byte account address (`common.Address`). */
  type Address = a: seq<Byte> | |a| == 20 witness seq(20, _ => 0)

  /** A Go `error` value; only its identity matters here. */
  datatype Error = Error(message: string)

  /** What the tracer needs from code outside contract.go, all of it left
      abstract: the VM's opcode-name table and push classification, the
      hex renderers, and the JSON decoder of the configuration blob. */
  datatype Env = Env(
    stringToOp: string -> Byte,
    isPush: PushClass,
    addrToHex: Address -> string,
    bytesToHex: seq<Byte> -> string,
    unmarshal: seq<Byte> -> Result<Config, Error>)

  /** `contractTracerConfig`: the JSON fields `opCode` and `withByteCode`. */
  datatype Config = Config(opCode: string, withByteCode: bool)

  /** The configuration a nil blob leaves: Go's zero value. */
  const DefaultConfig := Config("", false)

  /** The sentinel an unrecognised opcode name is replaced with. */
  const InvalidOpCode := "inv"

  /** Frame kinds `vm.CREATE` and `vm.CREATE2` passed to `CaptureEnter`. */
  const CREATE: Byte := 0xf0
  const CREATE2: Byte := 0xf5

  /** `contractTracer`. The source's `interrupt` is a uint32 that only
      `Stop` writes (always 1); a nil `reason` is `None`. */
  datatype ContractTracer = ContractTracer(
    addrs: map<string, string>,
    config: Config,
    interrupt: nat,
    reason: Option<Error>)

  /** An opcode name the construction keeps: the empty filter, STOP (whose
      code is 0), or any name the VM's table maps to a non-zero code. */
  predicate Recognized(env: Env, name: string) {
    name == "" || name == "STOP" || env.stringToOp(name) != 0
  }

  /** The opcode normalisation of `NewContractTracer`. */
  function NormalizeOpCode(env: Env, name: string): (r: string)
    ensures Recognized(env, name) ==> r == name
    ensures !Recognized(env, name) ==> r == InvalidOpCode
  {
    if env.stringToOp(name) == 0 && name != "STOP" && name != "" then InvalidOpCode else name
  }

  /** Normalisation leaves a name it keeps or the sentinel, and applying
      it again changes nothing. */
  lemma NormalizeIdempotent(env: Env, name: string)
    ensures var r := NormalizeOpCode(env, name); Recognized(env, r) || r == InvalidOpCode
    ensures NormalizeOpCode(env, NormalizeOpCode(env, name)) == NormalizeOpCode(env, name)
  {
  }

  /** The configuration blob as decoded: a nil blob leaves the zero
      configuration, any other blob goes through the JSON decoder. */
  function DecodeConfig(env: Env, cfg: Option<seq<Byte>>): Result<Config, Error> {
    match cfg
    case None => Success(DefaultConfig)
    case Some(blob) => env.unmarshal(blob)
  }

  /** `NewContractTracer`: fails only with the decoder's error; otherwise an
      empty, uninterrupted tracer whose opcode name is normalised. */
  function NewContractTracer(env: Env, cfg: Option<seq<Byte>>): (r: Result<ContractTracer, Error>)
    ensures r.Failure? <==> DecodeConfig(env, cfg).Failure?
    ensures r.Failure? ==> r.error == DecodeConfig(env, cfg).error
    ensures cfg.None? ==> r == Success(ContractTracer(map[], DefaultConfig, 0, None))
    ensures r.Success? ==>
              && r.value.addrs == map[]
              && r.value.interrupt == 0
              && r.value.reason == None
              && r.value.config.withByteCode == DecodeConfig(env, cfg).value.withByteCode
              && (Recognized(env, DecodeConfig(env, cfg).value.opCode) ==>
                    r.value.config.opCode == DecodeConfig(env, cfg).value.opCode)
              && (!Recognized(env, DecodeConfig(env, cfg).value.opCode) ==>
                    r.value.config.opCode == InvalidOpCode)
  {
    match DecodeConfig(env, cfg)
    case Failure(e) => Failure(e)
    case Success(config) =>
      Success(ContractTracer(map[], config.(opCode := NormalizeOpCode(env, config.opCode)), 0, None))
  }

  /** The filter of `validateAndStoreOpCode`: the sentinel matches nothing,
      the empty name matches every creation, and any other name matches
      bytecode in which that opcode genuinely occurs. */
  function Matches(env: Env, config: Config, input: seq<Byte>): (r: bool)
    ensures config.opCode == InvalidOpCode ==> !r
    ensures config.opCode == "" ==> r
    ensures config.opCode != InvalidOpCode && config.opCode != "" ==>
              (r <==> Occurs(input, env.stringToOp(config.opCode), env.isPush))
  {
    FindOpcodesCorrect(input, env.stringToOp(config.opCode), env.isPush);
    !(config.opCode == InvalidOpCode ||
      (config.opCode != "" && !FindOpcodes(input, env.stringToOp(config.opCode), env.isPush)))
  }

  /** What is stored for a recorded creation. */
  function StoredValue(env: Env, config: Config, input: seq<Byte>): string {
    if config.withByteCode then env.bytesToHex(input) else ""
  }

  /** `validateAndStoreOpCode`: a matching creation sets exactly the key of
      its address, to the hex bytecode or ""; nothing else changes. */
  function ValidateAndStore(env: Env, t: ContractTracer, input: seq<Byte>, to: Address): (r: ContractTracer)
    ensures r.config == t.config && r.interrupt == t.interrupt && r.reason == t.reason
    ensures !Matches(env, t.config, input) ==> r.addrs == t.addrs
    ensures Matches(env, t.config, input) ==> r.addrs.Keys == t.addrs.Keys + {env.addrToHex(to)}
    ensures Matches(env, t.config, input) ==>
              r.addrs[env.addrToHex(to)] == (if t.config.withByteCode then env.bytesToHex(input) else "")
    ensures forall k :: k in t.addrs && k != env.addrToHex(to) ==> r.addrs[k] == t.addrs[k]
  {
    if !Matches(env, t.config, input) then t
    else t.(addrs := t.addrs[env.addrToHex(to) := StoredValue(env, t.config, input)])
  }

  /** A later store for an address overrides an earlier one: storing twice
      is the same as storing only the second time, when that one matches. */
  lemma LaterStoreOverwrites(env: Env, t: ContractTracer, input1: seq<Byte>, input2: seq<Byte>, to: Address)
    requires Matches(env, t.config, input2)
    ensures ValidateAndStore(env, ValidateAndStore(env, t, input1, to), input2, to)
            == ValidateAndStore(env, t, input2, to)
  {
  }

  /** With the sentinel filter, nothing is ever recorded. */
  lemma InvalidFilterStoresNothing(env: Env, t: ContractTracer, input: seq<Byte>, to: Address)
    requires t.config.opCode == InvalidOpCode
    ensures ValidateAndStore(env, t, input, to) == t
  {
  }

  /** With the empty filter, an uninterrupted tracer records every
      CREATE and CREATE2 frame, whatever its bytecode. */
  lemma EmptyFilterRecordsEveryCreation(env: Env, t: ContractTracer, typ: Byte, from: Address, to: Address,
                                        input: seq<Byte>, gas: nat, value: nat)
    requires t.config.opCode == "" && t.interrupt == 0 && IsCreateKind(typ)
    ensures env.addrToHex(to) in CaptureEnter(env, t, typ, from, to, input, gas, value).addrs
  {
  }

  /** `CaptureStart`: records the root frame only when it is a creation.
      It does not consult the interrupt flag. */
  function CaptureStart(env: Env, t: ContractTracer, from: Address, to: Address, create: bool,
                        input: seq<Byte>, gas: nat, value: nat): (r: ContractTracer)
    ensures !create ==> r == t
    ensures create ==> r == ValidateAndStore(env, t, input, to)
  {
    if create then ValidateAndStore(env, t, input, to) else t
  }

  /** The interrupt flag makes no difference to `CaptureStart`'s recording. */
  lemma CaptureStartIgnoresInterrupt(env: Env, t: ContractTracer, from: Address, to: Address, create: bool,
                                     input: seq<Byte>, gas: nat, value: nat)
    requires t.interrupt > 0
    ensures CaptureStart(env, t, from, to, create, input, gas, value).addrs
            == CaptureStart(env, t.(interrupt := 0), from, to, create, input, gas, value).addrs
  {
  }

  /** The frame kinds `CaptureEnter` records. */
  predicate IsCreateKind(typ: Byte) {
    typ == CREATE || typ == CREATE2
  }

  /** `CaptureEnter`: once interrupted it does nothing; otherwise it
      records CREATE and CREATE2 frames and ignores all others. */
  function CaptureEnter(env: Env, t: ContractTracer, typ: Byte, from: Address, to: Address,
                        input: seq<Byte>, gas: nat, value: nat): (r: ContractTracer)
    ensures t.interrupt > 0 ==> r == t
    ensures !IsCreateKind(typ) ==> r == t
    ensures t.interrupt == 0 && IsCreateKind(typ) ==> r == ValidateAndStore(env, t, input, to)
  {
    if t.interrupt > 0 then t
    else if typ == CREATE || typ == CREATE2 then ValidateAndStore(env, t, input, to)
    else t
  }

  /** `Stop`: records the reason (possibly nil) and raises the flag,
      leaving the recorded addresses and the configuration alone. */
  function Stop(t: ContractTracer, err: Option<Error>): (r: ContractTracer)
    ensures r.interrupt == 1 && r.reason == err
    ensures r.addrs == t.addrs && r.config == t.config
  {
    t.(reason := err, interrupt := 1)
  }

  /** `GetResult`: the recorded map (the payload before JSON encoding)
      together with the stop reason; both are returned, the reason does
      not replace the payload. */
  function GetResult(t: ContractTracer): (r: (map<string, string>, Option<Error>))
    ensures r.0 == t.addrs && r.1 == t.reason
  {
    (t.addrs, t.reason)
  }
}
