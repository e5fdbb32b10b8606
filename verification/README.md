# RGB over PSBT: commitment protocol and transfer composition

A Dafny model of how RGB state transitions are embedded in a partially signed bitcoin transaction (PSBT), read back as
bundles and committed to an output, and of how a payment is composed from wallet state. Run
`dafny verify dfyconfig.toml` in this directory to verify it.

## What is modelled

| module | what it models |
|---|---|
| `Base`, `Protocol` | bytes, 32-byte identifiers, opouts and their iteration order, transitions, errors |
| `ConsumerCodec` | the 68-byte records in which a contract's consumed opouts are stored |
| `TransitionOrder` | the depth-first ordering of a bundle's transitions, with cycle detection |
| `Ledger` | the abstract state: stored transitions, and which operation spends each recorded opout |
| `Store` | the proprietary keys of a PSBT as bytes, and their refinement of the ledger |
| `Bundles` | what reading the store back must give, and the round trip from an embedded batch |
| `OutputState`, `Outputs` | MPC, opret and tapret data of one output: as values, and as an object updated in place |
| `OutputEffects` | what the operations on one output read, write and leave alone, key by key |
| `Commitment`, `Psbts` | host selection, MPC messages, commitment and script of the outputs of a PSBT |
| `Misplaced` | a concrete commit that covers another message than the ones it should |
| `RbPsbts` | the rust-bitcoin form of the PSBT, with two parallel output vectors |
| `Selection` | greedy coin selection for a fungible invoice |
| `Conservation`, `Composition`, `Extras`, `Payment` | main and bystander transitions, conservation of state, the batch |
| `Construction` | the PSBT of a payment: selection, placement of the host, composition and embedding |
| `Placement` | marking, sorting and finding outputs of a new PSBT |
| `PlacementEffects` | which output becomes the host, what it keeps, and what is found at the reported positions |
| `Pay` | a payment from invoice to commitment: what the committed output stands for |
| `Wallet` | tapret tweaks of the descriptor, completion of a transfer, search for the terminal of a received output |
| `Terminals` | printing and parsing `&keychain/index` |

Objects that the program updates in place are classes (`TransitionOrder.Search`, `Outputs.Output`, `Psbts.Psbt`,
`RbPsbts.RbPsbt`, `Wallet.TapretKey`). Their methods are proved against functions on values, and the properties are
lemmas about those functions and about runs of them. Iteration over hash maps is an arbitrary choice of the next
element, so the results hold for every order; ordered maps and sets of opouts iterate by operation id, type and number.

Hashing, strict encoding, MPC trees and proofs, taproot programs and the transition builder are function parameters
(`Protocol.Library`, `OutputState.CommitLibrary`, `Composition.BuilderLibrary`). The builder may refuse any single step.
Whether the wallet can fund the outputs and whether the stock takes the committed bundles are parameters as well. What
is assumed of them is stated where it is used: strict encoding decodes to what was encoded, merging reveals keeps the
committed content (`Library.Lawful`), an MPC tree uses the entropy it is given (`UsesGivenEntropy`), and the operation
id separates the transitions at hand (`Ledger.CollisionFree`, only for those transitions, since no hash separates all).

Facts taken from crates that are not part of this model: container limits (65535 inputs and transitions of a bundle, at
least one of each; 2^24 - 1 messages, bundles and encoded bytes), the codes of the close methods, the two fields of a
tapret commitment (32-byte MPC commitment, nonce), the place at the end where a constructed OP_RETURN output goes before
sorting, and that one seal has an opout on it. Amounts are natural numbers, so totals are taken to fit in 64 bits.

## Where the code departs from its documentation or from what one would expect

- `rgb_commit` gives the messages to the first output with a host flag and commits the first output with a suitable
  script; it never checks that these are the same. They are the same exactly when the script of the first flagged output
  is suitable (`HostIsCommittedIff`). `MisplacedHostExample` is a concrete input where they are not: the call succeeds
  and commits to a stale message. When they are the same, the commitment covers exactly the bundles if and only if that
  output had no messages for other contracts (`CommitCoversBundles`; `CommitCoversIff` has both cases).
- MPC entropy of the wrong length reads as absent, as documented, but makes the commitment fail afterwards
  (`MpcCommitSucceedsIff`, with a concrete output in `ShortEntropyExample`).
- The main transition of an amount invoice drops inputs of the invoiced type whose state is not an amount; all state is
  conserved exactly when there are none (`MainConservesIff`, with a concrete input in `DroppedRightExample`). A schema
  gives each assignment type one kind of state, so in a contract that follows its schema no selected output of such an
  invoice has one (`SchemaKeepsAmounts`).
- The main transition of a data or void invoice keeps one state of the invoiced type and drops all others on the spent
  outputs; all state is conserved exactly when there are no others (`SingleConservesIff`, with a concrete input in
  `DroppedDataExample`). A contract that follows its schema can have such outputs.
- When the stock refuses the committed bundles, `transfer` fails, and the recorded tweak stays (`Wallet.Transfer`).
- The search for the terminal of a received tapret output runs below the next derivation index cut to 16 bits. It
  misses no derived key exactly when the next indexes fit in 16 bits (`SearchIsCompleteIff`, with a concrete miss in
  `WrappedSearchExample`).
- The rust-bitcoin tapret prefix spells `TARET` in bytes; the model has the bytes.

## Model

| member | source | states |
|---|---|---|
| `ConsumerCodec.Serialize` | psbt/src/lib.rs:448-457 | the bytes are the records of the map in ascending order of opouts |
| `ConsumerCodec.Deserialize` | psbt/src/lib.rs:460-496 | reads the records in order, later ones overriding; fails exactly when the length is not a multiple of 68 |
| `ConsumerCodec.RoundTrip` | psbt/src/lib.rs:448-496 | deserializing a serialized map gives the map, for every map, and takes 68 bytes per entry |
| `ConsumerCodec.ReserializeIff` | psbt/src/lib.rs:448-496 | serializing what was deserialized gives the same bytes exactly when the records ascend strictly by opout |
| `ConsumerCodec.LastRecordWins` | psbt/src/lib.rs:471-495 | for an opout with several records the last one decides |
| `ConsumerCodec.RecordLayout` | psbt/src/lib.rs:448-457 | the 68 bytes of a record: operation, type and number with the low byte first, spender |
| `ConsumerCodec.RecordAt` | psbt/src/lib.rs:448-457 | record `k` is at byte 68 * k |
| `Base.BelowByFields` | psbt/src/lib.rs:439-453 | opouts iterate by operation, byte by byte, then type, then number |
| `TransitionOrder.InsertTransitionsSorted` | psbt/src/lib.rs:500-548 | for every iteration order: succeeds exactly when dependencies are acyclic and the list has room, and then appends the whole map, each transition once, dependencies first; an inconsistency is reported only for a real cycle |
| `TransitionOrder.Search.VisitAndInsert` | psbt/src/lib.rs:505-540 | one visit terminates, restores the visiting set, only appends, keeps the emitted list sorted and equal to the visited set |
| `TransitionOrder.Search.Emit` | psbt/src/lib.rs:525-537 | moving a finished operation to the list keeps the search invariant; fails only when the list is full |
| `TransitionOrder.OrderingImpliesAcyclic` | psbt/src/lib.rs:500-548 | a map with a dependency order has no cycle, self-loops included |
| `Ledger.ConsumeAllFailsIff` | psbt/src/lib.rs:1006-1008 | recording a list of inputs fails exactly when one has another spender, with a double-spend error |
| `Ledger.ConsumeAllRecords` | psbt/src/lib.rs:1006-1008 | whether it fails or not, nothing recorded is lost and everything new is one of the inputs under this spender |
| `Ledger.SpenderForever` | psbt/src/lib.rs:965-1011 | over every run of calls, failed ones included, a recorded opout keeps its spender and a stored transition stays |
| `Ledger.DoubleSpendIff` | psbt/src/lib.rs:965-1011 | an admissible push fails exactly when an input already has another spender, and reports a double spend |
| `Ledger.AdmitIff` | psbt/src/lib.rs:989-1005 | a push is admitted exactly when it merges with a stored transition of its id, if any, and fits in 2^24 - 1 bytes |
| `Ledger.AnswersTellNews` | psbt/src/lib.rs:965-1011 | a push answers whether the operation is new, a consumer call whether anything was recorded |
| `Ledger.PushAgain` | psbt/src/lib.rs:989-1011 | pushing an accepted transition again changes nothing and reports that it was present |
| `Ledger.RecordsBackedOverRuns` | psbt/src/lib.rs:989-1011 | over every run of pushes, every recorded spender is stored, is of that contract and lists the opout as input |
| `Ledger.EmbedDoubleSpend` | psbt/src/lib.rs:873-878 | embedding reports a double spend only if two transitions, or one and the ledger, compete for an opout, and never succeeds if they do |
| `Ledger.EmbedSucceedsIff` | psbt/src/lib.rs:873-878 | embedding new operations succeeds exactly when all fit and none compete for an opout |
| `Ledger.EmbedRecords` | psbt/src/lib.rs:873-878 | after a successful embedding exactly the inputs of the batch are new, each under its transition, and every transition is stored |
| `Store.ReadsRefine` | psbt/src/lib.rs:904-927 | reading a well-formed store gives the abstract state: no decode error, no empty consumer map |
| `Store.RefinedStateUnique` | psbt/src/lib.rs:904-927 | the bytes determine the abstract state |
| `Store.ConsumerRefines` | psbt/src/lib.rs:965-987 | recording a consumer on the bytes is recording it in the ledger, with the same answer |
| `Store.PushRefines` | psbt/src/lib.rs:989-1011 | a push on the bytes is a push on the abstract state, with the same answer |
| `Store.EmbedRefines` | psbt/src/lib.rs:873-878 | the same for a batch |
| `Store.RunRefines` | psbt/src/lib.rs:965-1011 | across every sequence of calls, failed ones included, the bytes hold what the ledger holds |
| `Store.RunsReadBack` | psbt/src/lib.rs:904-1011 | from a fresh PSBT, after any calls, every reader returns the ledger |
| `Store.SpenderReadForever` | psbt/src/lib.rs:910-1011 | a spender once read from the bytes is read after every later run |
| `Store.EmbedLeavesOtherKeys` | psbt/src/lib.rs:873-1011 | embedding touches no other proprietary key |
| `Store.RgbKeys` | psbt/src/lib.rs:100-112 | prefix, subtype and data of the keys of a PSBT |
| `Bundles.EmbedThenBundle` | psbt/src/lib.rs:873-1043 | after embedding in a fresh PSBT the contracts are those of the transitions with inputs; input maps are the unions of their inputs; the stored graph is their transitions, each once; a bundle can be made exactly when sizes fit and dependencies are acyclic |
| `Bundles.BundlesOfBatch` | psbt/src/lib.rs:873-1043 | the bundles read back hold exactly the embedded batch: contracts, inputs, each transition once, dependencies first |
| `Psbts.Psbt.SetRgbContractConsumer` | psbt/src/lib.rs:965-987 | the new store and answer, for any store, malformed ones included |
| `Psbts.Psbt.PushRgbTransition` | psbt/src/lib.rs:989-1011 | the new store and answer, for any store; partial effects of failures included |
| `Psbts.Psbt.RgbEmbed` | psbt/src/lib.rs:873-878 | the new store and answer for a batch, up to the first failure |
| `Psbts.Psbt.CollectTransitions` | psbt/src/lib.rs:1023-1028 | exactly the stored transitions among the spenders; fails exactly when one cannot be read |
| `Psbts.Psbt.RgbBundle` | psbt/src/lib.rs:1016-1039 | succeeds exactly when the contract can be bundled; all its consumers, its transitions in dependency order |
| `Psbts.Psbt.RgbBundles` | psbt/src/lib.rs:1013-1043 | succeeds exactly when every contract can be bundled, and then has one bundle for each contract of the store |
| `Psbts.SetMessages` | psbt/src/lib.rs:1065-1069 | messages go through exactly when they agree with those present and nothing is committed yet |
| `Psbts.Psbt.RgbBundlesToMpc` | psbt/src/lib.rs:1048-1074 | when it succeeds, and that exactly the bundle ids of all contracts go to the first flagged output; committed data of any output stays, also on failure |
| `Psbts.Psbt.DbcOutput` | psbt/src/bp.rs:213-225 | the first output whose script suits the close method |
| `Psbts.Psbt.OpretDbcCommit` | psbt/src/lib.rs:402-419 | the new output and result of an opret commitment; other outputs stay |
| `Psbts.Psbt.TapretDbcCommit` | psbt/src/lib.rs:421-438 | the new output and result of a tapret commitment; other outputs stay |
| `Psbts.Psbt.DbcCommit` | psbt/src/lib.rs:860-867 | which output is committed and how; nothing happens while outputs are modifiable or none is suitable |
| `Psbts.Psbt.SetOpretCommitment` | psbt/src/bp.rs:227-235 | only the script of that output changes, to the stored commitment |
| `Psbts.Psbt.SetTapretCommitment` | psbt/src/bp.rs:237-244 | only the script of that output changes, to its key tweaked by its tap tree |
| `Psbts.Psbt.RgbCommit` | psbt/src/lib.rs:880-900 | exactly when it succeeds, the outputs after it and the proofs it returns; committed data of any output stays, also on failure |
| `Psbts.Psbt.SetRgbCloseMethod` | psbt/src/lib.rs:945-947 | the close method is set once and read back |
| `Outputs.Output.SetMpcEntropy` | psbt/src/lib.rs:749-763 | entropy is set once; nothing changes after the commitment |
| `Outputs.Output.SetMpcMessage` | psbt/src/lib.rs:776-794 | a message is set once per protocol; nothing changes after the commitment |
| `Outputs.Output.MpcCommit` | psbt/src/lib.rs:796-821 | the new output and result of an MPC commitment, errors included |
| `Outputs.Output.OpretCommit` | psbt/src/lib.rs:618-626 | the new output and result of an opret commitment, errors included |
| `Outputs.Output.TapretCommit` | psbt/src/lib.rs:642-678 | the new output and result of a tapret commitment, errors included |
| `OutputState.SetOnceKeepsFirst` | psbt/src/lib.rs:738-794 | a set value reads back; the same value again is harmless, another fails, the first stays |
| `OutputState.EntropyReadsBack` | psbt/src/lib.rs:718-763 | entropy set on an output is the entropy read from it |
| `OutputEffects.ReadMessagesIff` | psbt/src/lib.rs:699-710 | messages are read exactly when keys and values have 32 bytes and there are at most 2^24 - 1; which message each protocol has |
| `OutputEffects.SourceIsOfOutput` | psbt/src/lib.rs:731-806 | a tree is made from the messages as they are, the one-byte depth and the eight-byte entropy of the output |
| `OutputEffects.MostSignificantLast` | psbt/src/lib.rs:718-753 | entropy is stored with the least significant byte first |
| `OutputEffects.MpcCommitEffect` | psbt/src/lib.rs:796-821 | only entropy, commitment and proof are written, and what is returned is what is stored |
| `OutputEffects.MpcCommitStoresTree` | psbt/src/lib.rs:802-818 | commitment, proof and entropy stored are those of the tree of the messages read |
| `OutputEffects.OpretCommitEffect` | psbt/src/lib.rs:618-626 | the commitment is stored in place of the host flag, and nothing else changes |
| `OutputEffects.TapretCommitEffect` | psbt/src/lib.rs:642-678 | commitment, nonce and proof for the key of the output are stored in place of the host flag; internal key, script and terminals stay |
| `OutputEffects.TerminalDerivationIff` | psbt/src/lib.rs:684-694 | the derivation is a terminal exactly if that is the only one in both lists |
| `OutputEffects.OutputKeys` | psbt/src/lib.rs:61-98 | prefix, subtype and data of the keys of an output |
| `OutputEffects.KeysAreDistinct` | psbt/src/lib.rs:61-98 | the keys of an output do not clash, nor do those of different protocols |
| `OutputEffects.SetHostEffect` | psbt/src/lib.rs:587-591 | marking a host writes its flag only, and answers whether it was there |
| `OutputEffects.SetOnceEffect` | psbt/src/lib.rs:749-794 | setting entropy or a message writes that key only |
| `OutputState.MpcCommitSucceedsIff` | psbt/src/lib.rs:796-821 | exactly when an MPC commitment succeeds |
| `OutputState.ShortEntropyExample` | psbt/src/lib.rs:718-729 | one-byte entropy on an output with a message reads as absent, and the MPC commitment fails |
| `OutputState.RunKeepsCommittedData` | psbt/src/lib.rs:587-821 | over every run of output operations, once committed, messages, entropy, commitments and proofs never change |
| `OutputState.MpcCommitOnce` | psbt/src/lib.rs:796-821 | after a successful MPC commitment no later one succeeds, after any operations in between |
| `OutputState.OpretCommitOnce` | psbt/src/lib.rs:618-626 | the same for opret, also if the host flag is set again |
| `OutputState.TapretCommitOnce` | psbt/src/lib.rs:642-678 | the same for tapret |
| `Commitment.GivenMessagesReadIff` | psbt/src/lib.rs:699-710 | an output reads exactly the messages it was given if and only if it had none for others |
| `Commitment.CommitOutputCommitsTo` | psbt/src/lib.rs:402-438 | a commit needs the host flag, commits to exactly the messages of the output, and its script carries that commitment |
| `Commitment.CommitOutputSucceedsIff` | psbt/src/lib.rs:402-438 | a commit succeeds exactly when its MPC commitment does and the marked output has no commitment of its kind yet (for tapret: an internal key and no tap tree) |
| `Commitment.CommitOutputKeepsKey` | psbt/src/lib.rs:402-438 | a commit, failed or not, leaves internal key, terminals and all other keys as they are |
| `Commitment.CommitOutputSpendsHost` | psbt/src/lib.rs:618-678 | the host flag is used up; the stored and returned tapret proof is the one for the internal key the output had |
| `Commitment.CommitOutputKeepsCommittedData` | psbt/src/lib.rs:402-438 | a commit, failed or not, leaves earlier commitments of the output as they are |
| `Commitment.HostIsCommittedIff` | psbt/src/lib.rs:880-900 | the output with the messages is the committed one exactly when its script suits the close method |
| `Misplaced.MisplacedHost` | psbt/src/lib.rs:880-900 | without a suitable script on the first flagged output a commit can succeed and cover a message for a contract without a bundle, instead of the bundle of the store |
| `Misplaced.MisplacedHostExample` | psbt/src/lib.rs:880-900 | the same at one concrete store, two concrete outputs and concrete libraries |
| `Commitment.CommitCoversBundles` | psbt/src/lib.rs:880-900 | with a suitable first host, the commitment is to exactly one message per contract, the id of its bundle, if and only if the host had no messages for others; no other output changes |
| `Commitment.CommitCoversIff` | psbt/src/lib.rs:880-900 | for any first host: the commitment is to the bundles if and only if that host is suitable and had no messages for others, or else the committed output had just those messages itself |
| `Commitment.CommitOnce` | psbt/src/lib.rs:880-900 | after a successful commit of a PSBT none succeeds again, while close method and scripts stay and committed data is kept |
| `Commitment.CommitKeepsKeys` | psbt/src/lib.rs:880-900 | committing a PSBT leaves internal keys and terminals of all outputs as they are |
| `Selection.SelectForAmount` | src/pay.rs:212-242 | covers the amount with the fewest seals and no seal to spare; empty when everything together falls short or the amount is zero |
| `Selection.GroupBySeal` | src/pay.rs:213-216 | the values of every seal add up to what it holds |
| `Selection.SortGroups` | src/pay.rs:217-221 | one group per seal, ascending by sum |
| `Selection.LastGroupsHoldMost` | src/pay.rs:221-235 | no set of as many seals holds more than the last groups |
| `Conservation.MainConservesIff` | src/pay.rs:290-334 | the main transition conserves the amounts of every type and all state of other types; everything, exactly when the invoiced type has amounts only |
| `Conservation.SingleConservesIff` | src/pay.rs:335-351 | a main transition for a data or void invoice conserves all state of other types; everything, exactly when the invoiced state is the only one of its type |
| `Conservation.HeldIsInSum` | src/pay.rs:290-307 | the sum computed from listed allocations is the sum of the inputs |
| `Composition.AddInputs` | src/pay.rs:292-307 | all assignments of the contract on the outputs become inputs; other types are reassigned to change; fails only if the builder refuses a step or change is missing |
| `Composition.AddAmount` | src/pay.rs:311-334 | the beneficiary gets the invoiced amount, change the rest; fails for want of state exactly when the sum is too small, or for want of change, or in the builder |
| `Composition.BuildMainTransition` | src/pay.rs:261-360 | comes out exactly when the invoice is payable, unless the builder refuses a step that is taken on the way; the inputs and outputs of the transition; the causes of its errors |
| `Composition.BeneficiaryIsPaid` | src/pay.rs:270-351 | the beneficiary gets the invoiced state at its reported position or blinded seal, and everything else is at change |
| `Extras.CollectExtraState` | src/pay.rs:387-404 | every other listed contract once, however often it is listed, with its state on the outputs |
| `Extras.ExtraConserves` | src/pay.rs:415-434 | a bystander transition conserves all state |
| `Extras.MovedAll` | src/pay.rs:406-438 | if one transition was made for every assignment, all of them could be moved: no other way of listing them would have been too long |
| `Extras.BuildExtraTransitions` | src/pay.rs:375-439 | one transition per assignment of the other contracts, each once, to change; succeeds exactly when the contracts are known, there is change if needed, the builder allows every step, and they are not too many |
| `Payment.SelectStateForInvoice` | src/pay.rs:197-258 | what is selected for each kind of invoice |
| `Payment.SelectionAndBuildingAgree` | src/pay.rs:212-315 | building sums up what selection counted, whatever other states the selected outputs hold |
| `Payment.BatchIsDisjoint` | src/pay.rs:545-551 | no two transitions of the batch consume the same assignment |
| `Payment.BatchConsumesAll` | src/pay.rs:545-551 | exactly the assignments of all contracts on the selected outputs are consumed |
| `Payment.BatchConserves` | src/pay.rs:290-438 | every bystander transition holds exactly the state of its inputs; the main transition does for other types, and for the invoiced type exactly when there is nothing to drop, for every kind of invoice |
| `Payment.SchemaKeepsAmounts` | src/pay.rs:212-242 | in a contract that follows its schema an amount invoice finds amounts only, so nothing is dropped |
| `Payment.DroppedRightExample` | src/pay.rs:290-334 | a stock, an amount invoice and the batch that pays it, which drops a right of the invoiced type |
| `Payment.DroppedDataExample` | src/pay.rs:335-348 | a stock, a data invoice and the batch that pays it, which drops another data state of the invoiced type |
| `Payment.WithoutChange` | src/pay.rs:363-372 | without a change output a batch exists only if nothing has to go to change |
| `Payment.EmbeddedPayment` | src/pay.rs:551-556 | embedding the batch in a fresh PSBT never double-spends and records exactly the selected assignments |
| `Payment.PaymentEmbedsIff` | src/pay.rs:551-556 | with operation ids that separate its transitions, embedding a payment fails only for a transition too big to store |
| `Payment.ExactPaymentExample` | src/pay.rs:290-334 | a concrete payment that meets the assumptions of the results on batches: everything to the beneficiary, no change |
| `Construction.EnoughToBuild` | src/pay.rs:212-356 | what was selected, for an invoice of any kind, is never refused for want of state |
| `Construction.ComposeBatch` | src/pay.rs:545-551 | a batch comes out exactly when the payment is composable, unless the builder refuses a step of the main transition |
| `Construction.ConstructPsbtRgb` | src/pay.rs:510-558 | end to end: the selection, the placed outputs, the batch, the store after it, no double spend; and which error stands for which failure |
| `Placement.SetOpretHost` | psbt/src/bp.rs:205-211 | marks the first OP_RETURN output or a new one |
| `Placement.SortHostsFirst` | src/bp_provider.rs:217-223 | a stable sort that puts marked outputs first |
| `Placement.MarkHost` | src/bp_provider.rs:194-225 | which output is marked, and the only case without one |
| `Placement.HostPlaced` | src/bp_provider.rs:194-225 | after sorting, the host is output 0 and the one that will be committed |
| `Placement.CreatePsbt` | src/bp_provider.rs:189-254 | the outputs after marking and sorting; reported positions are those of the change and beneficiary scripts |
| `Placement.PositionsDiffer` | src/bp_provider.rs:227-248 | the positions differ exactly when the scripts do |
| `PlacementEffects.ChangePosition` | src/bp_provider.rs:189-234 | the script at the reported change position is that of the output the wallet constructed as change |
| `PlacementEffects.BeneficiaryPosition` | src/bp_provider.rs:236-248 | the script at the reported position of a witness beneficiary is its own; a blinded one has none |
| `PlacementEffects.OpretPlaced` | src/bp_provider.rs:219-223 | the first OP_RETURN output, or a new one, is put first with its flag; nothing else changes |
| `PlacementEffects.TapretOnChange` | src/bp_provider.rs:194-218 | with change, the first output with its script is put first with its flag; nothing else changes |
| `PlacementEffects.TapretOnBeneficiary` | src/bp_provider.rs:199-218 | without change, the output of the beneficiary gets its internal key and is put first |
| `PlacementEffects.PartitionOfConcat` | src/bp_provider.rs:217-223 | marked and unmarked outputs keep their order |
| `RbPsbts.OpretHostFound` | psbt/src/rb.rs:228-273 | existing pairs keep their order, and the marked pair is the one found for opret |
| `RbPsbts.CommitmentKeepsHost` | psbt/src/rb.rs:275-291 | writing the commitment does not change which pair is found |
| `RbPsbts.MarkedKeeps` | psbt/src/rb.rs:228-247 | marking changes the host flag only |
| `RbPsbts.OnlyHostIsMarked` | psbt/src/rb.rs:228-247 | which pair is marked, and that a new one is an empty OP_RETURN output |
| `RbPsbts.RbPsbt.FlagsAreFirstByte` | psbt/src/rb.rs:37-46 | the flags are the first byte under the key 0x06 |
| `RbPsbts.RbPsbt.SetOpretHost` | psbt/src/rb.rs:228-247 | both vectors stay aligned; the pairs after marking |
| `RbPsbts.RbPsbt.DbcOutput` | psbt/src/rb.rs:249-273 | the first pair whose script suits the close method |
| `RbPsbts.RbPsbt.SetOpretCommitment` | psbt/src/rb.rs:275-282 | only that script changes, and the host stays the first |
| `RbPsbts.RbPsbt.SetTapretCommitment` | psbt/src/rb.rs:284-291 | only that script changes, and the host stays the first |
| `RbPsbts.RbPsbt.SetAsUnmodifiable` | psbt/src/rb.rs:216-224 | clears the outputs flag and no other flag or key |
| `Wallet.TapretKey.AddTapretTweak` | src/descriptor.rs:80-82 | adds one tweak to one terminal |
| `Wallet.TapretKey.Derive` | src/descriptor.rs:258-287 | exactly the key scripts and the tweaked scripts of the terminal |
| `Wallet.TweaksAfterRun` | src/descriptor.rs:80-82 | after any run of additions a terminal has its old tweaks and those added to it |
| `Wallet.OwnershipAfterRun` | src/descriptor.rs:80-287 | derivable scripts stay derivable, other terminals are unaffected |
| `Wallet.OwnsIff` | src/descriptor.rs:258-287 | the owned scripts are those of the keys of a terminal, alone or tweaked by the leaf of a recorded tweak |
| `Wallet.CarriedIsOwned` | src/descriptor.rs:269-287 | a committed output is derivable where its internal key and commitment are recorded |
| `Wallet.RecordTweak` | src/pay.rs:574-581 | the tweak is recorded at the only terminal the host was given; if the key the host had is one of the keys there, the wallet owns its script |
| `Wallet.Transfer` | src/pay.rs:561-612 | the outcome: commit, tweak of a tapret host on change recorded so that the wallet derives the script written, verdict of the stock last; on refusal the tweak stays |
| `Wallet.FindIndex` | src/bp_provider.rs:137-145 | the largest index in range with the internal key, or none has it |
| `Wallet.FindBundleIsFirst` | src/bp_provider.rs:122-125 | the bundle found is the first of the transaction |
| `Wallet.SearchBoundIsTruncated` | src/bp_provider.rs:119 | the search bound is the next index in 16 bits |
| `Wallet.TryAddTapretTweak` | src/bp_provider.rs:113-157 | finds a terminal exactly when one in range has the internal key: the last of the first keychain that has one; the tweak recorded is the commitment that proof, contract and bundle id lead to |
| `Wallet.SearchIsCompleteIff` | src/bp_provider.rs:119-148 | the search finds every key below the next indexes, whatever the keys are, if and only if all next indexes fit in 16 bits |
| `Wallet.WrappedSearchExample` | src/bp_provider.rs:119-148 | with 65536 as next index nothing is searched, and a key of the first terminal is missed |
| `Wallet.ReceivedIsSent` | src/bp_provider.rs:122-136 | if the sender committed the bundle id as message of the contract, the script the receiver finds is the script of the committed output |
| `Pay.PlacedHost` | src/bp_provider.rs:194-225 | in a new PSBT a marked output, if any, is the first, is the one to be committed, and has no messages |
| `Pay.PaymentIsCommitted` | src/pay.rs:510-572 | from placement through embedding to the commitment: the bundles are the payment, each selected assignment with its one spender and the transitions of the batch, each once in dependency order; the first output commits to exactly their ids |
| `Pay.PaymentIsRecorded` | src/pay.rs:572-583 | after the commit of a payment the tweak of a tapret host on change is recorded at its only terminal, and nothing else |
| `Pay.CommittedChangeIsHost` | src/bp_provider.rs:189-218 | the tapret host on change is the change output the wallet constructed, with its key and terminals |
| `Pay.PaymentPaysScripts` | src/pay.rs:510-558 | an output with the script of the beneficiary, or its blinded seal, gets the invoiced state; one with the script of the change gets the rest and all bystanders |
| `Pay.PayInvoice` | src/pay.rs:479-498 | the batch of the order is what was embedded and what the first output commits to, and it pays the scripts it should; success exactly when committed, conclusive and taken by the stock; the recorded tweak also when the stock refuses |
| `Terminals.RoundTrip` | psbt/src/lib.rs:308-357 | every terminal survives printing and parsing |
| `Terminals.PrintIsPlain` | psbt/src/lib.rs:308-313 | printed are an ampersand, a plain numeral, a slash, a plain numeral |
| `Terminals.PrintExample` | psbt/src/lib.rs:308-313 | terminal 10, 305 is printed `&10/305` |
| `Terminals.ParseUnsignedIff` | psbt/src/lib.rs:349-353 | a component is accepted exactly when it is a numeral in range |
| `Terminals.ParseIff` | psbt/src/lib.rs:342-357 | parsing accepts exactly the texts of terminals |

## Left out

- Composition.BuildMainTransition: random blinding and nonces of seals and transitions, which only affect identifiers; which steps a builder refuses, since the schema checks are part of another crate.
- Extras.BuildExtraTransitions: which steps a builder refuses, as above.
- Construction.ConstructPsbtRgb: validation of contract and invoice, whose context is a parameter; how the wallet funds and builds the transaction, which is a verdict, the outputs and the reported change position.
- Wallet.Transfer: the consignment that the stock makes, of which only the two verdicts are modelled; the panic for a witness beneficiary without a position, which `pay` always gives.
- Store.PushRefines: what the stored bytes of a repeated transition would be after merging reveals; the first bytes are kept, as the code does.
- Wallet.TryAddTapretTweak: how an MPC proof is convolved with a contract and a bundle id, which is a function parameter, and the panic when that fails.
- Wallet.TapretKey.AddTapretTweak: the descriptor without taproot, which panics when given a tweak.
- Psbts.Psbt.RgbCommit: an MPC tree depth above 31 in the store, on which the program panics.
- RbPsbts.RbPsbt.SetOpretHost: PSBT outputs are values in a vector here, replaced as a whole, so nothing is said about aliasing of one output.
- Selection.SortGroups: the sort of the standard library is written as a stable insertion on a sequence instead of an array.
- Rollback of failed calls: there is none in the program; the invariants hold after failures as well.
- Fees and signing.
- `Terminal::from_derivation_path`, conversions between the BP and bitcoin types, serde forms.
- The BDK wallet, filters, resolvers, persistence, the command line.
