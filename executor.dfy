/**
 * Transaction execution protocol of opentron/src/manager/executor.rs.
 *
 * A transaction is decoded, its declared owner is compared with the first
 * recovered signer, and a builtin contract then runs the fixed pipeline
 * validate -> execute -> bandwidth consume on one transaction context, which
 * is finally converted into a receipt.  Every step may fail and returns
 * early.  The actuators, the bandwidth processor, signature recovery and
 * protobuf decoding are not visible here: they are the function values of a
 * `Runtime`, over an abstract manager state `M`.  Nothing is rolled back: a
 * stage that fails hands back the manager as it left it.
 */
module Executor {
  import opened Wrappers

  /** Rust `i64`. */
  newtype i64 = x: int | -0x8000_0000_0000_0000 <= x < 0x8000_0000_0000_0000

  type Bytes = seq<bv8>

  /** A transaction hash (`H256`): exactly 32 bytes. */
  type H256 = s: Bytes | |s| == 32 witness seq(32, _ => 0 as bv8)

  datatype BlockHeader = BlockHeader(hash: H256, number: i64, timestamp: i64)

  /** Only the header of the enclosing block is read by the executor. */
  datatype Block = Block(header: BlockHeader)

  /** `google.protobuf.Any`: the still-encoded contract parameter. */
  datatype Any = Any(typeUrl: string, value: Bytes)

  /** The contract envelope of a transaction: raw type tag and parameter. */
  datatype ContractEnvelope = ContractEnvelope(typeTag: int, parameter: Option<Any>)

  datatype RawData = RawData(contract: Option<ContractEnvelope>)

  datatype Transaction = Transaction(hash: H256, rawData: Option<RawData>, signatures: seq<Bytes>)

  /** The contract types the executor distinguishes; every other known type is `Other`. */
  datatype ContractType =
    | Transfer
    | ProposalCreate
    | ProposalApprove
    | WitnessCreate
    | FreezeBalance
    | VoteWitness
    | TriggerSmartContract
    | CreateSmartContract
    | Other(name: string)

  /** Types that have an actuator arm: decoded, owner-checked and run through the pipeline. */
  predicate HasActuator(kind: ContractType) {
    kind.Transfer? || kind.ProposalCreate? || kind.ProposalApprove? ||
    kind.WitnessCreate? || kind.FreezeBalance? || kind.VoteWitness?
  }

  /** Types whose arm ends in a receipt; VoteWitness runs the pipeline and then panics. */
  predicate IsSupported(kind: ContractType) {
    HasActuator(kind) && !kind.VoteWitness?
  }

  /** A decoded builtin contract: its type, its `owner_address` and its encoded parameter. */
  datatype BuiltinContract = BuiltinContract(kind: ContractType, ownerAddress: Bytes, parameter: Any)

  /** The fields of the context that validate, execute and consume write. */
  datatype Tallies = Tallies(bandwidthUsage: i64, bandwidthFee: i64, contractFee: i64, newAccountCreated: bool)

  /** Per-transaction accumulator; the header and hash are borrowed, read-only references. */
  datatype TransactionContext = TransactionContext(blockHeader: BlockHeader, transactionHash: H256, tallies: Tallies)

  datatype ResourceReceipt = ResourceReceipt(bandwidthUsage: i64, bandwidthFee: i64, contractFee: i64)

  datatype TransactionReceipt = TransactionReceipt(
    success: bool,
    hash: Bytes,
    blockNumber: i64,
    blockTimestamp: i64,
    resourceReceipt: Option<ResourceReceipt>)

  /** `TransactionContext::new`: a zeroed accumulator over the given header and hash. */
  function NewContext(header: BlockHeader, hash: H256): (ctx: TransactionContext)
    ensures ctx.blockHeader == header && ctx.transactionHash == hash
    ensures ctx.tallies.bandwidthUsage == 0 && ctx.tallies.bandwidthFee == 0 && ctx.tallies.contractFee == 0
    ensures !ctx.tallies.newAccountCreated
  {
    TransactionContext(header, hash, Tallies(0, 0, 0, false))
  }

  /** `From<TransactionContext> for TransactionReceipt`. */
  function IntoReceipt(ctx: TransactionContext): (r: TransactionReceipt)
    ensures r.success
    ensures r.hash == ctx.transactionHash && |r.hash| == 32
    ensures r.blockNumber == ctx.blockHeader.number && r.blockTimestamp == ctx.blockHeader.timestamp
    ensures r.resourceReceipt.Some?
    ensures r.resourceReceipt.value.bandwidthUsage == ctx.tallies.bandwidthUsage
    ensures r.resourceReceipt.value.bandwidthFee == ctx.tallies.bandwidthFee
    ensures r.resourceReceipt.value.contractFee == ctx.tallies.contractFee
  {
    TransactionReceipt(
      true,
      ctx.transactionHash,
      ctx.blockHeader.number,
      ctx.blockHeader.timestamp,
      Some(ResourceReceipt(ctx.tallies.bandwidthUsage, ctx.tallies.bandwidthFee, ctx.tallies.contractFee)))
  }

  /**
   * Two contexts give the same receipt exactly when they agree on the
   * transaction hash, the block number and timestamp and the three fee
   * tallies: the new-account flag and the block hash are not carried over.
   */
  lemma ReceiptKeepsExactlyTheReportedFields(c1: TransactionContext, c2: TransactionContext)
    ensures IntoReceipt(c1) == IntoReceipt(c2) <==>
      && c1.transactionHash == c2.transactionHash
      && c1.blockHeader.number == c2.blockHeader.number
      && c1.blockHeader.timestamp == c2.blockHeader.timestamp
      && c1.tallies.bandwidthUsage == c2.tallies.bandwidthUsage
      && c1.tallies.bandwidthFee == c2.tallies.bandwidthFee
      && c1.tallies.contractFee == c2.tallies.contractFee
  {
    if IntoReceipt(c1) == IntoReceipt(c2) {
      assert IntoReceipt(c1).resourceReceipt.value == IntoReceipt(c2).resourceReceipt.value;
    }
  }

  /** A context that no stage has touched converts to a successful receipt with zero fees. */
  lemma FreshContextReceipt(header: BlockHeader, hash: H256)
    ensures IntoReceipt(NewContext(header, hash)) ==
      TransactionReceipt(true, hash, header.number, header.timestamp, Some(ResourceReceipt(0, 0, 0)))
  {
  }

  /** What a validate, execute or consume stage returns; both cases carry the manager as the stage left it. */
  datatype StageResult<M> = Done(manager: M, tallies: Tallies) | Failed(manager: M, error: string)

  /**
   * The collaborators the executor calls but whose code is not part of this
   * model.  `debugEnabled` is whether the `log` crate's Debug level is on:
   * the arguments of a `debug!` line are evaluated only then.  `describable`
   * is whether the arm's debug description of a contract can be formatted;
   * it is false when FreezeBalance's resource code or a ProposalCreate
   * parameter key is unknown, and the `unwrap` in that description panics.
   */
  datatype Runtime<!M> = Runtime(
    contractTypeOf: int -> Option<ContractType>,
    recoverOwner: Transaction -> Option<seq<Bytes>>,
    ownerOf: (ContractType, Any) -> Option<Bytes>,
    validate: (BuiltinContract, M, TransactionContext) -> StageResult<M>,
    execute: (BuiltinContract, M, TransactionContext) -> StageResult<M>,
    consume: (Transaction, BuiltinContract, M, TransactionContext) -> StageResult<M>,
    debugEnabled: bool,
    describable: BuiltinContract -> bool)

  /** The `unwrap`/`expect`/index panics of the executor. */
  datatype Abort =
    | MissingRawData
    | MissingContract
    | UnhandledContractType(tag: int)
    | SignatureRecoveryFailed
    | MissingParameter
    | UndecodableParameter
    | NoRecoveredSigner
    | UndescribableContract

  datatype Outcome =
    | Ok(receipt: TransactionReceipt)
    | Err(message: string)
    | Unsupported(kind: ContractType)
    | Aborted(cause: Abort)

  const InvalidSignature: string := "invalid signature"

  /** `ActuatorExecute` is the actuator's own `execute`, not the executor's. */
  datatype Stage = OwnerCheck | Validate | ActuatorExecute | Consume

  /** The stages of an actuator arm, in the order they run, when every one of them is called. */
  const Pipeline: seq<Stage> := [OwnerCheck, Validate, ActuatorExecute, Consume]

  /** The stages an arm calls when none fails: execute is called only when `executeRuns`. */
  function Stages(executeRuns: bool): (s: seq<Stage>)
    ensures s <= Pipeline || s == [OwnerCheck, Validate, Consume]
    ensures ActuatorExecute in s <==> executeRuns
    ensures |s| >= 3 && s[0] == OwnerCheck && s[|s| - 1] == Consume
  {
    if executeRuns then Pipeline else [OwnerCheck, Validate, Consume]
  }

  /** How decoding ends: a panic, a type without an actuator arm, or a decoded contract and its first signer. */
  datatype Admission =
    | Rejected(cause: Abort)
    | NoActuator(kind: ContractType)
    | Admitted(contract: BuiltinContract, signer: Bytes)

  /** The contract envelope, when the raw data and its contract are both present. */
  function EnvelopeOf(txn: Transaction): Option<ContractEnvelope> {
    if txn.rawData.Some? then txn.rawData.value.contract else None
  }

  /** The type `ContractType::from_i32` gives the envelope's tag, when there is an envelope. */
  function KindOf<M>(rt: Runtime<M>, txn: Transaction): Option<ContractType> {
    if EnvelopeOf(txn).Some? then rt.contractTypeOf(EnvelopeOf(txn).value.typeTag) else None
  }

  /**
   * Decoding in the source's order: raw data, contract, type tag and
   * signature recovery for every type; then, in an actuator arm only, the
   * parameter, its decoding with its owner field, and the first signer.
   */
  function Admit<M>(rt: Runtime<M>, txn: Transaction): (a: Admission)
    ensures txn.rawData.None? <==> a == Rejected(MissingRawData)
    ensures txn.rawData.Some? && txn.rawData.value.contract.None? <==> a == Rejected(MissingContract)
    ensures EnvelopeOf(txn).Some? && KindOf(rt, txn).None? ==>
      a == Rejected(UnhandledContractType(EnvelopeOf(txn).value.typeTag))
    ensures a.Rejected? && a.cause.UnhandledContractType? ==> EnvelopeOf(txn).Some? && KindOf(rt, txn).None?
    ensures KindOf(rt, txn).Some? && rt.recoverOwner(txn).None? <==> a == Rejected(SignatureRecoveryFailed)
    ensures a == Rejected(MissingParameter) <==>
      && KindOf(rt, txn).Some? && HasActuator(KindOf(rt, txn).value) && rt.recoverOwner(txn).Some?
      && EnvelopeOf(txn).value.parameter.None?
    ensures a == Rejected(UndecodableParameter) <==>
      && KindOf(rt, txn).Some? && HasActuator(KindOf(rt, txn).value) && rt.recoverOwner(txn).Some?
      && EnvelopeOf(txn).value.parameter.Some?
      && rt.ownerOf(KindOf(rt, txn).value, EnvelopeOf(txn).value.parameter.value).None?
    ensures a == Rejected(NoRecoveredSigner) <==>
      && KindOf(rt, txn).Some? && HasActuator(KindOf(rt, txn).value) && rt.recoverOwner(txn).Some?
      && EnvelopeOf(txn).value.parameter.Some?
      && rt.ownerOf(KindOf(rt, txn).value, EnvelopeOf(txn).value.parameter.value).Some?
      && |rt.recoverOwner(txn).value| == 0
    ensures a.NoActuator? <==>
      KindOf(rt, txn).Some? && rt.recoverOwner(txn).Some? && !HasActuator(KindOf(rt, txn).value)
    ensures a.NoActuator? ==> a.kind == KindOf(rt, txn).value
    ensures a.Admitted? <==>
      && KindOf(rt, txn).Some? && HasActuator(KindOf(rt, txn).value)
      && rt.recoverOwner(txn).Some? && |rt.recoverOwner(txn).value| > 0
      && EnvelopeOf(txn).value.parameter.Some?
      && rt.ownerOf(KindOf(rt, txn).value, EnvelopeOf(txn).value.parameter.value).Some?
    ensures a.Admitted? ==>
      var parameter := EnvelopeOf(txn).value.parameter.value;
      && a.contract.kind == KindOf(rt, txn).value
      && a.contract.parameter == parameter
      && a.contract.ownerAddress == rt.ownerOf(a.contract.kind, parameter).value
      && a.signer == rt.recoverOwner(txn).value[0]
  {
    if txn.rawData.None? then Rejected(MissingRawData)
    else if txn.rawData.value.contract.None? then Rejected(MissingContract)
    else
      var envelope := txn.rawData.value.contract.value;
      match rt.contractTypeOf(envelope.typeTag)
      case None => Rejected(UnhandledContractType(envelope.typeTag))
      case Some(kind) =>
        match rt.recoverOwner(txn)
        case None => Rejected(SignatureRecoveryFailed)
        case Some(signers) =>
          if !HasActuator(kind) then NoActuator(kind)
          else if envelope.parameter.None? then Rejected(MissingParameter)
          else
            match rt.ownerOf(kind, envelope.parameter.value)
            case None => Rejected(UndecodableParameter)
            case Some(owner) =>
              if |signers| == 0 then Rejected(NoRecoveredSigner)
              else Admitted(BuiltinContract(kind, owner, envelope.parameter.value), signers[0])
  }

  /** The debug description logged after the owner check panics: only ProposalCreate and FreezeBalance unwrap in it. */
  predicate DescriptionPanics<M>(rt: Runtime<M>, c: BuiltinContract) {
    rt.debugEnabled && (c.kind.ProposalCreate? || c.kind.FreezeBalance?) && !rt.describable(c)
  }

  /** The result of one `execute` call: its outcome, the manager afterwards and the stages that ran. */
  datatype Execution<M> = Execution(outcome: Outcome, manager: M, trace: seq<Stage>)

  /**
   * An actuator arm, with the actuator's execute called only when
   * `executeRuns`; when it is not called, consume receives the context and
   * manager validate left.
   */
  function RunStages<M>(rt: Runtime<M>, txn: Transaction, block: Block, m: M, executeRuns: bool): (e: Execution<M>)
    ensures e.trace <= Stages(executeRuns)
    ensures e.outcome.Ok? ==> e.trace == Stages(executeRuns)
    ensures e.trace == [] || e.trace == [OwnerCheck] ==> e.manager == m
  {
    match Admit(rt, txn)
    case Rejected(cause) => Execution(Aborted(cause), m, [])
    case NoActuator(kind) => Execution(Unsupported(kind), m, [])
    case Admitted(c, signer) =>
      if c.ownerAddress != signer then Execution(Err(InvalidSignature), m, [OwnerCheck])
      else if DescriptionPanics(rt, c) then Execution(Aborted(UndescribableContract), m, [OwnerCheck])
      else
        var ctx := NewContext(block.header, txn.hash);
        match rt.validate(c, m, ctx)
        case Failed(m1, e) => Execution(Err(e), m1, [OwnerCheck, Validate])
        case Done(m1, t1) =>
          var ctx1 := ctx.(tallies := t1);
          var x := if executeRuns then rt.execute(c, m1, ctx1) else Done(m1, t1);
          if x.Failed? then Execution(Err(x.error), x.manager, [OwnerCheck, Validate, ActuatorExecute])
          else
            var ctx2 := ctx1.(tallies := x.tallies);
            var ran := Stages(executeRuns);
            match rt.consume(txn, c, x.manager, ctx2)
            case Failed(m3, e) => Execution(Err(e), m3, ran)
            case Done(m3, t3) =>
              var ctx3 := ctx2.(tallies := t3);
              if c.kind.VoteWitness? then Execution(Unsupported(c.kind), m3, ran)
              else Execution(Ok(IntoReceipt(ctx3)), m3, ran)
  }

  /**
   * `TransactionExecutor::execute` as written, as a function of the manager
   * before the call: the actuator's execute is an argument of `debug!` and
   * is called only when Debug logging is enabled.
   */
  function Run<M>(rt: Runtime<M>, txn: Transaction, block: Block, m: M): (e: Execution<M>)
    ensures e.trace <= Pipeline || e.trace <= [OwnerCheck, Validate, Consume]
    ensures ActuatorExecute in e.trace ==> rt.debugEnabled
    ensures e.outcome.Ok? ==> e.trace == Stages(rt.debugEnabled)
    ensures e.trace == [] || e.trace == [OwnerCheck] ==> e.manager == m
  {
    RunStages(rt, txn, block, m, rt.debugEnabled)
  }

  /** The evidently intended `execute`: the actuator's execute is called whatever the log level. */
  function RunIntended<M>(rt: Runtime<M>, txn: Transaction, block: Block, m: M): (e: Execution<M>)
    ensures e.trace <= Pipeline
    ensures e.outcome.Ok? ==> e.trace == Pipeline
  {
    RunStages(rt, txn, block, m, true)
  }

  /** With Debug logging enabled, the source as written and the intended executor agree. */
  lemma DebugOnRunsAsIntended<M>(rt: Runtime<M>, txn: Transaction, block: Block, m: M)
    requires rt.debugEnabled
    ensures Run(rt, txn, block, m) == RunIntended(rt, txn, block, m)
  {
  }

  /**
   * In the intended executor a failing actuator execute is always reported:
   * the call returns its error, after validate, with the manager it left.
   */
  lemma IntendedReportsFailedExecute<M>(rt: Runtime<M>, txn: Transaction, block: Block, m: M)
    requires Admit(rt, txn).Admitted?
    requires Admit(rt, txn).contract.ownerAddress == Admit(rt, txn).signer
    requires !DescriptionPanics(rt, Admit(rt, txn).contract)
    ensures
      var c := Admit(rt, txn).contract;
      var ctx := NewContext(block.header, txn.hash);
      var v := rt.validate(c, m, ctx);
      v.Done? ==>
        var x := rt.execute(c, v.manager, ctx.(tallies := v.tallies));
        x.Failed? ==>
          RunIntended(rt, txn, block, m) == Execution(Err(x.error), x.manager, [OwnerCheck, Validate, ActuatorExecute])
  {
  }

  /** A declared owner that is not the first recovered signer is rejected before any stage can touch the manager. */
  lemma OwnerMismatchRejected<M>(rt: Runtime<M>, txn: Transaction, block: Block, m: M)
    requires Admit(rt, txn).Admitted?
    requires Admit(rt, txn).contract.ownerAddress != Admit(rt, txn).signer
    ensures Run(rt, txn, block, m) == Execution(Err(InvalidSignature), m, [OwnerCheck])
  {
  }

  /**
   * Once the owner check passes, a panicking debug description aborts before
   * any stage; otherwise the stages run in order on one context and the
   * first failure is returned unchanged, with the manager the failing stage
   * left behind (there is no rollback).  With Debug off, execute is not
   * called and consume receives what validate left.
   */
  lemma FirstFailureIsReturned<M>(rt: Runtime<M>, txn: Transaction, block: Block, m: M)
    requires Admit(rt, txn).Admitted?
    requires Admit(rt, txn).contract.ownerAddress == Admit(rt, txn).signer
    ensures
      var c := Admit(rt, txn).contract;
      var ctx := NewContext(block.header, txn.hash);
      var v := rt.validate(c, m, ctx);
      if DescriptionPanics(rt, c) then
        Run(rt, txn, block, m) == Execution(Aborted(UndescribableContract), m, [OwnerCheck])
      else if v.Failed? then
        Run(rt, txn, block, m) == Execution(Err(v.error), v.manager, [OwnerCheck, Validate])
      else if rt.debugEnabled then
        var x := rt.execute(c, v.manager, ctx.(tallies := v.tallies));
        if x.Failed? then
          Run(rt, txn, block, m) == Execution(Err(x.error), x.manager, [OwnerCheck, Validate, ActuatorExecute])
        else
          var b := rt.consume(txn, c, x.manager, ctx.(tallies := x.tallies));
          b.Failed? ==> Run(rt, txn, block, m) == Execution(Err(b.error), b.manager, Pipeline)
      else
        var b := rt.consume(txn, c, v.manager, ctx.(tallies := v.tallies));
        b.Failed? ==> Run(rt, txn, block, m) == Execution(Err(b.error), b.manager, [OwnerCheck, Validate, Consume])
  {
  }

  /**
   * `Ok` exactly when a supported contract passes the owner check, its debug
   * description (if formatted) does not panic and every stage called
   * succeeds; the receipt is then the conversion of the one context threaded
   * through the stages, and the manager is the one consume left.  With Debug
   * off the threaded context skips execute.
   */
  lemma SuccessIsReceiptOfThreadedContext<M>(rt: Runtime<M>, txn: Transaction, block: Block, m: M)
    ensures Run(rt, txn, block, m).outcome.Ok? <==>
      var a := Admit(rt, txn);
      a.Admitted? && IsSupported(a.contract.kind) && a.contract.ownerAddress == a.signer &&
      !DescriptionPanics(rt, a.contract) &&
      var ctx := NewContext(block.header, txn.hash);
      var v := rt.validate(a.contract, m, ctx);
      v.Done? &&
      if rt.debugEnabled then
        var x := rt.execute(a.contract, v.manager, ctx.(tallies := v.tallies));
        x.Done? &&
        var b := rt.consume(txn, a.contract, x.manager, ctx.(tallies := x.tallies));
        b.Done? &&
        Run(rt, txn, block, m) == Execution(Ok(IntoReceipt(ctx.(tallies := b.tallies))), b.manager, Pipeline)
      else
        var b := rt.consume(txn, a.contract, v.manager, ctx.(tallies := v.tallies));
        b.Done? &&
        Run(rt, txn, block, m) ==
          Execution(Ok(IntoReceipt(ctx.(tallies := b.tallies))), b.manager, [OwnerCheck, Validate, Consume])
  {
  }

  /** A successful receipt reports the transaction hash and the block header it was given. */
  lemma ReceiptMirrorsInputs<M>(rt: Runtime<M>, txn: Transaction, block: Block, m: M)
    requires Run(rt, txn, block, m).outcome.Ok?
    ensures
      var r := Run(rt, txn, block, m).outcome.receipt;
      r.success && r.hash == txn.hash && r.blockNumber == block.header.number &&
      r.blockTimestamp == block.header.timestamp
  {
  }

  /**
   * VoteWitness, the smart-contract types and every other type never give
   * `Ok`; VoteWitness reports `Unsupported` only after every stage the log
   * level lets run, the others before any stage ran and without touching the
   * manager.
   */
  lemma UnsupportedTypesNeverSucceed<M>(rt: Runtime<M>, txn: Transaction, block: Block, m: M)
    ensures
      var e := Run(rt, txn, block, m);
      e.outcome.Ok? ==> Admit(rt, txn).Admitted? && IsSupported(Admit(rt, txn).contract.kind)
    ensures
      var e := Run(rt, txn, block, m);
      e.outcome == Unsupported(VoteWitness) ==> e.trace == Stages(rt.debugEnabled)
    ensures
      var e := Run(rt, txn, block, m);
      e.outcome.Unsupported? && !e.outcome.kind.VoteWitness? ==> e.trace == [] && e.manager == m
    ensures Admit(rt, txn).NoActuator? ==>
      Run(rt, txn, block, m) == Execution(Unsupported(Admit(rt, txn).kind), m, [])
    ensures Admit(rt, txn).Rejected? ==>
      Run(rt, txn, block, m) == Execution(Aborted(Admit(rt, txn).cause), m, [])
    ensures
      var a := Admit(rt, txn);
      a.Admitted? && a.contract.kind.VoteWitness? && a.contract.ownerAddress == a.signer ==>
        var ctx := NewContext(block.header, txn.hash);
        var v := rt.validate(a.contract, m, ctx);
        v.Done? ==>
          var x := if rt.debugEnabled then rt.execute(a.contract, v.manager, ctx.(tallies := v.tallies))
                   else Done(v.manager, v.tallies);
          x.Done? ==>
            var b := rt.consume(txn, a.contract, x.manager, ctx.(tallies := x.tallies));
            b.Done? ==>
              Run(rt, txn, block, m) == Execution(Unsupported(VoteWitness), b.manager, Stages(rt.debugEnabled))
  {
  }

  /** A Transfer runtime whose validate adds one to the manager and whose execute fails, at the given log level. */
  function FailingTransfer(owner: Bytes, debugEnabled: bool): Runtime<int> {
    Runtime(
      (tag: int) => Some(Transfer),
      (t: Transaction) => Some([owner]),
      (k: ContractType, p: Any) => Some(owner),
      (c: BuiltinContract, m: int, ctx: TransactionContext) => Done(m + 1, ctx.tallies),
      (c: BuiltinContract, m: int, ctx: TransactionContext) => Failed(m, "balance not sufficient"),
      (t: Transaction, c: BuiltinContract, m: int, ctx: TransactionContext) => Done(m, ctx.tallies),
      debugEnabled,
      (c: BuiltinContract) => true)
  }

  /**
   * No atomicity: with Debug on, a validate that writes the manager and an
   * execute that fails, the call returns the error and the validate write
   * persists.
   */
  lemma FailedExecuteKeepsEarlierWrites(txn: Transaction, block: Block, owner: Bytes)
    requires txn.rawData == Some(RawData(Some(ContractEnvelope(1, Some(Any("transfer", []))))))
    ensures Run(FailingTransfer(owner, true), txn, block, 0) ==
      Execution(Err("balance not sufficient"), 1, [OwnerCheck, Validate, ActuatorExecute])
  {
  }

  /**
   * The same transaction with Debug off: the failing execute is never
   * called and the call succeeds, with a receipt for validate's context.
   */
  lemma DebugOffSkipsFailingExecute(txn: Transaction, block: Block, owner: Bytes)
    requires txn.rawData == Some(RawData(Some(ContractEnvelope(1, Some(Any("transfer", []))))))
    ensures Run(FailingTransfer(owner, false), txn, block, 0) ==
      Execution(Ok(IntoReceipt(NewContext(block.header, txn.hash))), 1, [OwnerCheck, Validate, Consume])
    ensures RunIntended(FailingTransfer(owner, false), txn, block, 0).outcome == Err("balance not sufficient")
  {
  }

  /** `TransactionExecutor`: holds the manager exclusively and runs one transaction at a time. */
  class TransactionExecutor<M> {
    var manager: M
    /** The stages the last `Execute` call ran, in order. */
    ghost var trace: seq<Stage>

    constructor (manager: M)
      ensures this.manager == manager && trace == []
    {
      this.manager := manager;
      trace := [];
    }

    /**
     * `TransactionExecutor::execute`: the manager is updated stage by stage,
     * with early returns; the actuator's execute is called only when Debug
     * logging is enabled.
     */
    method Execute(rt: Runtime<M>, txn: Transaction, block: Block) returns (r: Outcome)
      modifies this
      ensures Execution(r, manager, trace) == Run(rt, txn, block, old(manager))
    {
      trace := [];
      var admission := Admit(rt, txn);
      if admission.Rejected? {
        return Aborted(admission.cause);
      }
      if admission.NoActuator? {
        return Unsupported(admission.kind);
      }
      var cntr := admission.contract;
      trace := trace + [OwnerCheck];
      if cntr.ownerAddress != admission.signer {
        return Err(InvalidSignature);
      }
      if DescriptionPanics(rt, cntr) {
        return Aborted(UndescribableContract);
      }
      var ctx := NewContext(block.header, txn.hash);

      trace := trace + [Validate];
      var step := rt.validate(cntr, manager, ctx);
      manager := step.manager;
      if step.Failed? {
        return Err(step.error);
      }
      ctx := ctx.(tallies := step.tallies);

      if rt.debugEnabled {
        trace := trace + [ActuatorExecute];
        step := rt.execute(cntr, manager, ctx);
        manager := step.manager;
        if step.Failed? {
          return Err(step.error);
        }
        ctx := ctx.(tallies := step.tallies);
      }

      trace := trace + [Consume];
      step := rt.consume(txn, cntr, manager, ctx);
      manager := step.manager;
      if step.Failed? {
        return Err(step.error);
      }
      ctx := ctx.(tallies := step.tallies);

      if cntr.kind.VoteWitness? {
        return Unsupported(cntr.kind);
      }
      r := Ok(IntoReceipt(ctx));
    }
  }
}
