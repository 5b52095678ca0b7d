/** The contract tracer driven through a whole trace: the hooks the EVM
    calls, in order, with `Stop` possibly arriving at any point between
    them. Properties that span several hooks are stated over `Run`. */
module Lifecycle {
  import opened Wrappers
  import opened Scanner
  import opened Tracer

  /** One hook invocation. The EVM, scope and duration arguments the
      source passes are left out; none of them is read by this tracer. */
  datatype Event =
    | Start(from: Address, to: Address, create: bool, input: seq<Byte>, gas: nat, value: nat)
    | End(output: seq<Byte>, gasUsed: nat, err: Option<Error>)
    | State(pc: nat, op: Byte, gas: nat, cost: nat, depth: nat, err: Option<Error>)
    | Fault(pc: nat, op: Byte, gas: nat, cost: nat, depth: nat, err: Option<Error>)
    | Enter(typ: Byte, from: Address, to: Address, input: seq<Byte>, gas: nat, value: nat)
    | Exit(output: seq<Byte>, gasUsed: nat, err: Option<Error>)
    | StopCall(reason: Option<Error>)

  /** The tracer's response to one hook; `CaptureEnd`, `CaptureState`,
      `CaptureFault` and `CaptureExit` have empty bodies. */
  function Apply(env: Env, t: ContractTracer, e: Event): (r: ContractTracer)
    ensures e.End? || e.State? || e.Fault? || e.Exit? ==> r == t
    ensures !e.StopCall? ==> r.interrupt == t.interrupt && r.reason == t.reason
    ensures r.config == t.config
  {
    match e
    case Start(from, to, create, input, gas, value) => CaptureStart(env, t, from, to, create, input, gas, value)
    case Enter(typ, from, to, input, gas, value) => CaptureEnter(env, t, typ, from, to, input, gas, value)
    case StopCall(reason) => Stop(t, reason)
    case _ => t
  }

  /** The tracer after a sequence of hooks. */
  function Run(env: Env, t: ContractTracer, es: seq<Event>): ContractTracer
    decreases |es|
  {
    if es == [] then t else Run(env, Apply(env, t, es[0]), es[1..])
  }

  /** Some `Stop` occurs in the trace. */
  predicate HasStop(es: seq<Event>) {
    exists j :: 0 <= j < |es| && es[j].StopCall?
  }

  /** The argument of the last `Stop` in the trace, or `current` if none. */
  function LastStopReason(es: seq<Event>, current: Option<Error>): Option<Error>
    decreases |es|
  {
    if es == [] then current
    else LastStopReason(es[1..], if es[0].StopCall? then es[0].reason else current)
  }

  /** The configuration is fixed at construction. */
  lemma {:induction false} RunKeepsConfig(env: Env, t: ContractTracer, es: seq<Event>)
    ensures Run(env, t, es).config == t.config
    decreases |es|
  {
    if es != [] {
      RunKeepsConfig(env, Apply(env, t, es[0]), es[1..]);
    }
  }

  /** The flag is 1 after any trace containing a `Stop`, and untouched by
      any trace without one: once set it is never cleared. */
  lemma {:induction false} InterruptSticky(env: Env, t: ContractTracer, es: seq<Event>)
    ensures HasStop(es) ==> Run(env, t, es).interrupt == 1
    ensures !HasStop(es) ==> Run(env, t, es).interrupt == t.interrupt
    decreases |es|
  {
    if es != [] {
      var t' := Apply(env, t, es[0]);
      InterruptSticky(env, t', es[1..]);
      if HasStop(es[1..]) {
        var j :| 0 <= j < |es[1..]| && es[1..][j].StopCall?;
        assert es[j + 1].StopCall?;
      }
      if HasStop(es) && !es[0].StopCall? {
        var j :| 0 <= j < |es| && es[j].StopCall?;
        assert es[1..][j - 1].StopCall?;
      }
      if !HasStop(es) {
        assert !es[0].StopCall?;
      }
    }
  }

  /** The stored reason is always the argument of the latest `Stop`. */
  lemma {:induction false} ReasonIsLastStop(env: Env, t: ContractTracer, es: seq<Event>)
    ensures Run(env, t, es).reason == LastStopReason(es, t.reason)
    decreases |es|
  {
    if es != [] {
      ReasonIsLastStop(env, Apply(env, t, es[0]), es[1..]);
    }
  }

  /** A creation hook: `CaptureStart` of a creating root frame, or
      `CaptureEnter` of a CREATE / CREATE2 frame. */
  predicate IsCreation(e: Event) {
    (e.Start? && e.create) || (e.Enter? && IsCreateKind(e.typ))
  }

  /** Event `e` is a creation passing the filter whose stored entry is
      key `k` with value `v`. */
  predicate RecordsEntry(env: Env, config: Config, e: Event, k: string, v: string) {
    IsCreation(e) && Matches(env, config, e.input)
    && env.addrToHex(e.to) == k && v == StoredValue(env, config, e.input)
  }

  /** After `Stop`, `CaptureEnter` and every other hook except a creating
      `CaptureStart` leave the recorded addresses alone. */
  lemma {:induction false} InterruptedTraceRecordsNothing(env: Env, t: ContractTracer, es: seq<Event>)
    requires t.interrupt > 0
    requires forall j :: 0 <= j < |es| ==> !(es[j].Start? && es[j].create)
    ensures Run(env, t, es).addrs == t.addrs
    decreases |es|
  {
    if es != [] {
      var t' := Apply(env, t, es[0]);
      assert !(es[0].Start? && es[0].create);
      assert t'.addrs == t.addrs && t'.interrupt > 0;
      forall j | 0 <= j < |es[1..]|
        ensures !(es[1..][j].Start? && es[1..][j].create)
      {
        assert es[1..][j] == es[j + 1];
      }
      InterruptedTraceRecordsNothing(env, t', es[1..]);
    }
  }

  /** With the sentinel filter no trace records anything. */
  lemma {:induction false} InvalidFilterTraceRecordsNothing(env: Env, t: ContractTracer, es: seq<Event>)
    requires t.config.opCode == InvalidOpCode
    ensures Run(env, t, es).addrs == t.addrs
    decreases |es|
  {
    if es != [] {
      InvalidFilterTraceRecordsNothing(env, Apply(env, t, es[0]), es[1..]);
    }
  }

  /** Every entry of the result was already there or was written by a
      creation in the trace that passed the filter, with that creation's
      stored value. */
  lemma {:induction false} EntriesComeFromCreations(env: Env, t: ContractTracer, es: seq<Event>)
    ensures forall k :: k in Run(env, t, es).addrs ==>
              (k in t.addrs && Run(env, t, es).addrs[k] == t.addrs[k]) ||
              (exists j :: 0 <= j < |es| && RecordsEntry(env, t.config, es[j], k, Run(env, t, es).addrs[k]))
    decreases |es|
  {
    if es != [] {
      var t' := Apply(env, t, es[0]);
      var r := Run(env, t, es);
      EntriesComeFromCreations(env, t', es[1..]);
      forall k | k in r.addrs
        ensures (k in t.addrs && r.addrs[k] == t.addrs[k]) ||
                (exists j :: 0 <= j < |es| && RecordsEntry(env, t.config, es[j], k, r.addrs[k]))
      {
        if exists j :: 0 <= j < |es[1..]| && RecordsEntry(env, t'.config, es[1..][j], k, r.addrs[k]) {
          var j :| 0 <= j < |es[1..]| && RecordsEntry(env, t'.config, es[1..][j], k, r.addrs[k]);
          assert RecordsEntry(env, t.config, es[j + 1], k, r.addrs[k]);
        } else {
          assert k in t'.addrs && r.addrs[k] == t'.addrs[k];
          if !(k in t.addrs && t'.addrs[k] == t.addrs[k]) {
            assert RecordsEntry(env, t.config, es[0], k, r.addrs[k]);
          }
        }
      }
    }
  }

  /** Running two traces one after the other is running their concatenation. */
  lemma {:induction false} RunConcat(env: Env, t: ContractTracer, a: seq<Event>, b: seq<Event>)
    ensures Run(env, t, a + b) == Run(env, Run(env, t, a), b)
    decreases |a|
  {
    if a != [] {
      assert (a + b)[0] == a[0];
      assert (a + b)[1..] == a[1..] + b;
      RunConcat(env, Apply(env, t, a[0]), a[1..], b);
    } else {
      assert a + b == b;
    }
  }

  /** No hook ever removes a recorded address. */
  lemma {:induction false} KeysPersist(env: Env, t: ContractTracer, es: seq<Event>)
    ensures t.addrs.Keys <= Run(env, t, es).addrs.Keys
    decreases |es|
  {
    if es != [] {
      KeysPersist(env, Apply(env, t, es[0]), es[1..]);
    }
  }

  /** Event `e` is a creation passing the filter whose key is `k`. */
  predicate WritesKey(env: Env, config: Config, e: Event, k: string) {
    IsCreation(e) && Matches(env, config, e.input) && env.addrToHex(e.to) == k
  }

  /** A recorded key keeps its value through any trace with no creation
      that passes the filter for that key. */
  lemma {:induction false} KeyUntouched(env: Env, t: ContractTracer, es: seq<Event>, k: string)
    requires k in t.addrs
    requires forall i :: 0 <= i < |es| ==> !WritesKey(env, t.config, es[i], k)
    ensures k in Run(env, t, es).addrs && Run(env, t, es).addrs[k] == t.addrs[k]
    decreases |es|
  {
    if es != [] {
      var t' := Apply(env, t, es[0]);
      assert !WritesKey(env, t.config, es[0], k);
      assert k in t'.addrs && t'.addrs[k] == t.addrs[k];
      forall i | 0 <= i < |es[1..]|
        ensures !WritesKey(env, t'.config, es[1..][i], k)
      {
        assert es[1..][i] == es[i + 1];
      }
      KeyUntouched(env, t', es[1..], k);
    }
  }

  /** The last write wins over a whole trace: if `es[j]` is a creation that
      passes the filter and takes effect (a creating `CaptureStart`, or a
      `CaptureEnter` with no `Stop` before it on an uninterrupted tracer),
      and no later creation passes the filter for the same key, the final
      map holds that creation's stored value under its key. */
  lemma LastWriteWins(env: Env, t: ContractTracer, es: seq<Event>, j: nat)
    requires j < |es| && IsCreation(es[j]) && Matches(env, t.config, es[j].input)
    requires es[j].Enter? ==> t.interrupt == 0 && !HasStop(es[..j])
    requires forall i :: j < i < |es| ==> !WritesKey(env, t.config, es[i], env.addrToHex(es[j].to))
    ensures env.addrToHex(es[j].to) in Run(env, t, es).addrs
    ensures Run(env, t, es).addrs[env.addrToHex(es[j].to)] == StoredValue(env, t.config, es[j].input)
  {
    var k := env.addrToHex(es[j].to);
    var pre, post := es[..j], es[j + 1..];
    assert es == pre + ([es[j]] + post);
    RunConcat(env, t, pre, [es[j]] + post);
    var t1 := Run(env, t, pre);
    RunKeepsConfig(env, t, pre);
    InterruptSticky(env, t, pre);
    var t2 := Apply(env, t1, es[j]);
    assert ([es[j]] + post)[0] == es[j] && ([es[j]] + post)[1..] == post;
    assert Run(env, t1, [es[j]] + post) == Run(env, t2, post);
    assert k in t2.addrs && t2.addrs[k] == StoredValue(env, t.config, es[j].input);
    forall i | 0 <= i < |post|
      ensures !WritesKey(env, t2.config, post[i], k)
    {
      assert post[i] == es[j + 1 + i];
    }
    KeyUntouched(env, t2, post, k);
  }

  /** A freshly constructed tracer whose opcode name the VM does not know
      (other than STOP and "") reports an empty map for every trace. */
  lemma UnknownOpCodeYieldsEmptyResult(env: Env, blob: seq<Byte>, es: seq<Event>)
    requires env.unmarshal(blob).Success?
    requires !Recognized(env, env.unmarshal(blob).value.opCode)
    ensures NewContractTracer(env, Some(blob)).Success?
    ensures GetResult(Run(env, NewContractTracer(env, Some(blob)).value, es)).0 == map[]
  {
    InvalidFilterTraceRecordsNothing(env, NewContractTracer(env, Some(blob)).value, es);
  }

  /** `GetResult`'s error component is the argument of the most recent
      `Stop`, or nil when `Stop` was never called. */
  lemma ResultErrorIsLastStop(env: Env, cfg: Option<seq<Byte>>, es: seq<Event>)
    requires NewContractTracer(env, cfg).Success?
    ensures GetResult(Run(env, NewContractTracer(env, cfg).value, es)).1 == LastStopReason(es, None)
  {
    ReasonIsLastStop(env, NewContractTracer(env, cfg).value, es);
  }

  /** A VM table that knows CREATE and CREATE2 only, and a decoder that
      reads any blob as `{"opCode": "CREATE2", "withByteCode": true}`;
      used by the example below. */
  function ExampleEnv(): Env {
    Env(name => if name == "CREATE2" then CREATE2 else if name == "CREATE" then CREATE else 0,
        StandardPush,
        (a: Address) => if a[0] == 1 then "A" else "B",
        code => "hex",
        blob => Success(Config("CREATE2", true)))
  }

  /** The filter looks at the deployed bytecode, not at the frame kind:
      with `opCode` CREATE2, a CREATE frame deploying PUSH1 0x00 CREATE2 is
      recorded, while a CREATE2 frame deploying PUSH1 0xf5 (0xf5 only as
      push data) is not. */
  lemma FilterScansDeployedCode(from: Address)
    ensures var t := NewContractTracer(ExampleEnv(), Some([0x7b, 0x7d]));
            && t.Success?
            && GetResult(Run(ExampleEnv(), t.value,
                             [Enter(CREATE, from, seq(20, _ => 1), [0x60, 0x00, 0xf5], 0, 0),
                              Enter(CREATE2, from, seq(20, _ => 2), [0x60, 0xf5], 0, 0)])).0
               == map["A" := "hex"]
  {
    var env := ExampleEnv();
    var a1: Address := seq(20, _ => 1);
    var a2: Address := seq(20, _ => 2);
    assert a1[0] == 1 && a2[0] == 2;
    var e1 := Enter(CREATE, from, a1, [0x60, 0x00, 0xf5], 0, 0);
    var e2 := Enter(CREATE2, from, a2, [0x60, 0xf5], 0, 0);
    var t0 := NewContractTracer(env, Some([0x7b, 0x7d])).value;
    assert t0.config == Config("CREATE2", true) && t0.interrupt == 0;
    assert FindOpcodes([0x60, 0x00, 0xf5], CREATE2, StandardPush);
    assert !FindOpcodes([0x60, 0xf5], CREATE2, StandardPush);
    var t1 := Apply(env, t0, e1);
    assert t1.addrs == map["A" := "hex"];
    var t2 := Apply(env, t1, e2);
    assert t2.addrs == map["A" := "hex"];
    assert [e1, e2][1..] == [e2];
    assert Run(env, t0, [e1, e2]) == Run(env, t1, [e2]) == t2;
  }
}
