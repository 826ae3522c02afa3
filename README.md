# opentron: transaction executor and discovery peer distance

This project models two sequential pieces of the opentron TRON node in Dafny
and proves properties about them.

- **Transaction execution protocol** (`executor.dfy`, module `Executor`).
  `TransactionExecutor::execute` decodes a transaction's contract. It checks
  the declared owner against the first recovered signer. For a builtin
  contract type it then runs `validate`, `execute` (only with Debug logging
  on, see below) and the bandwidth processor's `consume`, in that order, on
  one `TransactionContext`, and finally converts the context into a `TransactionReceipt`. Every step can
  fail and return early. The actuators, the bandwidth processor, signature
  recovery, `ContractType::from_i32` and protobuf decoding are collaborators
  whose code is not part of this model. They are the function values of a
  `Runtime<M>` over an abstract manager state `M`. Each stage returns the
  manager as it left it, whether it succeeded or failed, so no atomicity is
  claimed. The specification function `Run` gives the outcome, the manager
  afterwards and the trace of stages that ran. The class method
  `TransactionExecutor.Execute` is the imperative version: it updates its
  `manager` field stage by stage and keeps a ghost `trace`, and it is proved
  equal to `Run`.
- **Discovery peer distance** (`discovery.dfy`, module `Discovery`).
  `common_prefix_bits` is a loop with an early return (`CommonPrefixBits`).
  It is proved equal to the recursive definition `PrefixBits`, and the
  distance properties are proved about that definition. The pure decisions of
  the discovery loop are modelled too: the version gate on Ping, the
  local-address filter, the nearest-ten selection for FindPeers, the Pings
  sent for a Peers message, and insert-if-absent on Pong. `DiscoveryServer`
  holds the mutable peer set.
- `wrappers.dfy` holds the shared `Option` type.

The model follows the code where it differs from what a reader of the
executor might expect:

- One might expect a failed validate, execute or consume to leave the manager
  unchanged. The code has no checkpoint or rollback. The model hands back the
  failing stage's manager, and `FailedExecuteKeepsEarlierWrites` shows a
  write by validate surviving a failed execute.
- One might expect a failed stage to give a receipt with `success = false`.
  The code returns `Err(message)`, and a receipt always has `success = true`.
- One might expect unsupported contract types to give a recoverable error.
  The code panics with `unimplemented!`. For VoteWitness it does so only after
  every stage it calls has succeeded. The model makes this an explicit
  `Unsupported(kind)` outcome.
- One might expect the block hash in the receipt. The code copies the
  transaction hash and the block number and timestamp only.
- Each arm calls the actuator's `execute` inside the arguments of a `debug!`
  line. The `log` crate evaluates those arguments only when the Debug level
  is enabled, so with Debug off `execute` is never called, and consume
  receives the context and manager validate left. The log level is the
  `debugEnabled` field of `Runtime`, and `Run` and `TransactionExecutor.Execute`
  call execute only when it is set. The same holds for the descriptions
  logged after the owner check: for FreezeBalance and ProposalCreate they
  `unwrap` a resource code or parameter keys, and that panic
  (`UndescribableContract`) can happen only with Debug on. See "## Findings".

## Model

| member | source | states |
|---|---|---|
| `Executor.NewContext` | opentron/src/manager/executor.rs:34-43 | a fresh context holds the given header and hash, zero bandwidth usage, bandwidth fee and contract fee, and no new account |
| `Executor.IntoReceipt` | opentron/src/manager/executor.rs:46-64 | the receipt has `success = true`, the 32-byte transaction hash, the header's number and timestamp, and a resource receipt carrying the three fee fields unchanged |
| `Executor.ReceiptKeepsExactlyTheReportedFields` | opentron/src/manager/executor.rs:46-64 | two contexts give equal receipts if and only if they agree on the transaction hash, block number, block timestamp and the three fee fields; the new-account flag and the block hash are dropped |
| `Executor.FreshContextReceipt` | opentron/src/manager/executor.rs:34-64 | converting an untouched context gives a successful receipt with zero fees for that hash and header |
| `Executor.Admit` | opentron/src/manager/executor.rs:90-118 | decoding panics in source order: missing raw data, missing contract, unknown type tag, failed signature recovery; then, only for the six types with an actuator arm, missing parameter, undecodable parameter, no recovered signer; a decoded type without an actuator arm is `NoActuator` exactly when the earlier steps succeed; an admitted contract carries the decoded type, the parameter, the owner field decoded from it, and the first recovered signer |
| `Executor.Stages` | opentron/src/manager/executor.rs:129-134 | an arm calls owner check, validate and consume, and execute exactly when it is enabled, in that order |
| `Executor.RunStages` | opentron/src/manager/executor.rs:114-268 | for either choice of whether execute is called, the stages that run are a prefix of `Stages`; `Ok` only after all of them; a call that stops at or before the owner check leaves the manager unchanged |
| `Executor.Run` | opentron/src/manager/executor.rs:114-268 | as written: the stages that run are a prefix of the full pipeline or of owner check, validate, consume; execute runs only with Debug on; `Ok` only after every stage the log level lets run; a call that stops at or before the owner check leaves the manager unchanged |
| `Executor.OwnerMismatchRejected` | opentron/src/manager/executor.rs:118-120 | an owner address different from the first recovered signer gives `Err("invalid signature")`, only the owner check ran, and the manager is unchanged |
| `Executor.FirstFailureIsReturned` | opentron/src/manager/executor.rs:129-134 | after the owner check, a panicking debug description aborts with the manager unchanged; otherwise the first failing stage's error is returned unchanged, no later stage runs, and the manager is what the failing stage left (no rollback); with Debug off execute is skipped and consume receives validate's context and manager |
| `Executor.SuccessIsReceiptOfThreadedContext` | opentron/src/manager/executor.rs:129-138 | the result is `Ok` if and only if a supported type passes the owner check, its debug description does not panic and every stage called succeeds (validate, execute, consume with Debug on; validate, consume with it off); the receipt is then the conversion of the one context threaded through those stages |
| `Executor.ReceiptMirrorsInputs` | opentron/src/manager/executor.rs:46-53 | every successful receipt has `success = true`, the transaction's hash, and the block header's number and timestamp |
| `Executor.UnsupportedTypesNeverSucceed` | opentron/src/manager/executor.rs:231-267 | only Transfer, ProposalCreate, ProposalApprove, WitnessCreate and FreezeBalance can give `Ok`; a decoded type without an actuator arm gives `Unsupported` of that type, with no stage run and the manager unchanged; a decode panic gives `Aborted` with `Admit`'s cause and the manager unchanged; a VoteWitness that passes the owner check and every stage the log level lets run gives `Unsupported(VoteWitness)` with the manager consume left, and is `Unsupported` only after those stages |
| `Executor.FailedExecuteKeepsEarlierWrites` | opentron/src/manager/executor.rs:129-131 | concrete run with Debug on: a validate that writes the manager followed by a failing execute returns the error and keeps the write |
| `Executor.DebugOffSkipsFailingExecute` | opentron/src/manager/executor.rs:129-138 | the same transaction with Debug off returns `Ok`, with the receipt of validate's context, the validate write kept and trace owner check, validate, consume; the intended executor returns the execute error |
| `Executor.RunIntended` | opentron/src/manager/executor.rs:129-134 | with execute called on every log level, the stages that run are a prefix of the full pipeline and `Ok` comes only after all four |
| `Executor.DebugOnRunsAsIntended` | opentron/src/manager/executor.rs:131 | with Debug on, the executor as written and the intended one give the same outcome, manager and trace |
| `Executor.IntendedReportsFailedExecute` | opentron/src/manager/executor.rs:129-131 | in the intended executor, a failing execute after a successful validate returns its error, with the manager it left and trace owner check, validate, execute |
| `Executor.TransactionExecutor.constructor` | opentron/src/manager/executor.rs:84-86 | the executor holds the given manager and an empty trace |
| `Executor.TransactionExecutor.Execute` | opentron/src/manager/executor.rs:89-269 | the imperative execute, with early returns, the manager updated after each stage and execute called only with Debug on, yields exactly `Run`'s outcome, manager and stage trace |
| `Discovery.LeadingZeros` | services/discovery/src/server.rs:31 | `u8::leading_zeros`: 8 exactly for zero; otherwise shifting right by 7 minus the result leaves exactly the top set bit |
| `Discovery.PrefixBits` | services/discovery/src/server.rs:27-37 | the shared-prefix bit count never exceeds 8 times the shorter length |
| `Discovery.CommonPrefixBits` | services/discovery/src/server.rs:27-37 | the accumulator loop with early return computes `PrefixBits` |
| `Discovery.PrefixBitsSplit` | services/discovery/src/server.rs:28-34 | each equal leading byte adds exactly 8 to the count |
| `Discovery.PrefixBitsFullIffPrefix` | services/discovery/src/server.rs:28-36 | the count is 8 times the shorter length if and only if one input is a prefix of the other |
| `Discovery.PrefixBitsSelf` | services/discovery/src/server.rs:27-37 | a byte string shares `8 * length` bits with itself |
| `Discovery.PrefixBitsSymmetric` | services/discovery/src/server.rs:29-31 | the count does not depend on the order of the arguments |
| `Discovery.PrefixBitsAtFirstDifference` | services/discovery/src/server.rs:30-33 | with `k` equal leading bytes and a difference at byte `k`, the count is `8k` plus the leading zeros of the XOR of the two bytes, within `[8k, 8k+7]` |
| `Discovery.PingReplies` | services/discovery/src/server.rs:112-136 | a Ping at another version gets no reply; otherwise exactly one Pong, to the sender at the node's version, comes first and at most one more reply follows, a FindPeers to the sender with the random target, sent if and only if the sender's address is not local |
| `Discovery.InsertByScore` | services/discovery/src/server.rs:141-144 | inserting into a score-sorted list keeps it sorted by non-increasing score and adds exactly that peer |
| `Discovery.SortByScore` | services/discovery/src/server.rs:141-144 | the sort is a permutation of the known peers, ordered by non-increasing prefix score with the target |
| `Discovery.NearestPeers` | services/discovery/src/server.rs:139-145 | the reply has `min(n, 10)` peers drawn from the known peers, ordered by non-increasing score, and no omitted peer scores higher than an included one |
| `Discovery.Enumerate` | services/discovery/src/server.rs:140 | collecting the peer set lists each peer of the set exactly once, in some order |
| `Discovery.NearestPeersOfDb` | services/discovery/src/server.rs:139-145 | over the peer set: at most ten peers (`min(size, 10)`), all members of the set, and no peer of the set left out scores higher than one sent |
| `Discovery.PingTargetsExact` | services/discovery/src/server.rs:160-182 | for a Peers message, an endpoint is pinged if and only if its address is not local and parses; every reply is a Ping for one such endpoint of the message, to its parsed address, with the 64-byte placeholder node id and the node's protocol version |
| `Discovery.PingPeers` | services/discovery/src/server.rs:161-181 | the loop over the endpoints sends exactly the Pings `PingTargets` lists, in message order |
| `Discovery.DiscoveryServer.constructor` | services/discovery/src/server.rs:56-57 | the server starts with the given configuration and loaded peer set |
| `Discovery.DiscoveryServer.OnPong` | services/discovery/src/server.rs:183-197 | the peer set becomes the old set plus the Pong's peer; the file is rewritten (`PeerAdded`) if and only if the peer was absent; a Pong without `from` is the `unwrap` panic and changes nothing |
| `Discovery.DiscoveryServer.Handle` | services/discovery/src/server.rs:111-202 | one loop turn: Ping, FindPeers and Peers leave the peer set unchanged and send the replies above; FindPeers answers with the nearest peers of an enumeration of the peer set and then pings the finder |

## Left out

- Signature recovery, multisig, protobuf `Any` decoding, `ContractType::from_i32` and `b58encode_check` are collaborators: the model takes their results from `Runtime`.
- The bodies of the actuators' validate and execute and of `BandwidthProcessor::consume` are not part of this model. They are opaque stages that may fail and may change the manager; no fee table or balance rule is modelled.
- Stages may change only the context's fee tallies and new-account flag, not its borrowed header and hash references.
- The receipt fields set by `..Default::default()` are not modelled; the model holds only the fields the code sets.
- The smart-contract status read (executor.rs:258-264) is not modelled, because it never changes the outcome before `unimplemented!`.
- The text of the `debug!` lines and the `Debug` implementations are left out, since they are output only. Two effects of the logging are modelled: the call of execute inside a `debug!` argument, and the panics in the FreezeBalance and ProposalCreate descriptions, whose outcome the collaborator `describable` gives.
- context/src/lib.rs is not part of this model. It covers configuration, genesis loading, database I/O and locks.
- The async loop is left out: the UDP socket, `select!`, the termination signal, seed-node DNS lookup and the initial Pings, the construction of the node's own endpoint, timestamps, and transport errors. The random FindPeers target is a parameter.
- Reading and writing `peers.json` are left out. Writing the file is reported as the `PeerAdded` status.
- Peer ids are held as node-id bytes rather than hex text, since hex encoding is one-to-one. The `hex::decode(..).unwrap()` panic on a malformed id is not modelled, because that id could come only from an edited peers file.
- `Endpoint::from(&Peer)` (peer.rs) is not part of this model, so a Peers reply carries the selected `Peer` values.
- The `as _` casts of ports are not modelled; ports are unbounded integers.
- Parsing `"address:port"` into a socket address is a collaborator, passed in as `parse`.
- `CommonPrefixBits`: the `u32` accumulator is an unbounded `nat`. Wrap-around would need inputs longer than 2^29 bytes, and node ids are 64 bytes.
- `SortByScore`: equal scores keep their input order (a stable sort, like `sort_by`), but stability is not stated in the contract, because the input order is the unspecified `HashSet` iteration order.

## Findings

| source | as written | input that shows it | evidently intended | confidence | as-written member | corrected member |
|---|---|---|---|---|---|---|
| opentron/src/manager/executor.rs:131 (also 158, 182, 202, 225, 248) | the actuator's `execute` and its `?` sit inside the arguments of `debug!`, so they run only when Debug logging is enabled | Debug off; a Transfer whose owner matches, whose validate succeeds, whose execute would fail and whose consume succeeds: `Ok` with a receipt, though execute never ran | execute is called, and its error returned, on every log level | high; not executed | `Executor.DebugOffSkipsFailingExecute` | `Executor.RunIntended` (with `Executor.IntendedReportsFailedExecute`) |

`Run` and `TransactionExecutor.Execute` keep the behaviour as written, so the
lemmas about them describe the code as it is. `RunIntended` is the same
pipeline with execute called on every log level. `DebugOnRunsAsIntended`
shows it agrees with `Run` whenever Debug is on.
