# Imprint: a verified model of its authority, capture, purge, export, retrieval and transcript cores

Imprint keeps an operator's judgments in a local store and guards every change
of authority with a signed ledger. This project models the parts of it whose
correctness spans many steps, in Dafny, and proves what they promise.

- **Authority ledger** (`AuthorityData`, `AuthorityLedger`, `LedgerHistory`,
  `LedgerRules`, `KeyStates`).
  An append-only, hash-chained, signed ledger. `Accepted` and `KeysAfter` say
  by recursion what a ledger means; the program's single pass with its
  dictionaries is proved to compute the same. Digests and signatures are free
  constructors, so collisions and forgeries do not exist in the model.
- **Trust anchor** (`AuthorityTrust`, `TrustRules`, `TrustRuns`). One anchor row, moved by
  local pins, head advances and compare-and-swap tickets, over every
  interleaving of those steps.
- **Ceremonies** (`AuthorityService`, `AuthorityMachine`, `ServiceRuns`,
  `CeremonyRules`, `CarriedHistory`, `PairingProgress`, `SplitCeremonies`,
  `CeremonyProgress`). Enrollment, checkpoints, rotation, pairing, recovery,
  key-state changes and adjudication; the methods update the tables in place and
  are proved equal to the functions. `ServiceRuns` states the invariant of every
  run, `CeremonyRules` when each ceremony commits, `CarriedHistory` and
  `PairingProgress` when what one machine carries to another is taken there,
  `SplitCeremonies` interleaves reads and writes as separate steps, and
  `CeremonyProgress` runs a pairing from the empty stores and reaches the
  machines on which promises break.
- **Mutation gate** (`MutationGate`, `GateRuns`). Frozen mutations, single-use
  tokens and their execution, over every interleaving with the reads and the
  writes of the ceremonies.
- **Key files** (`KeyPublication`). Publication before commit, with crashes and
  reconciliations at any point, and pairing, which publishes with its request
  and commits when it is finalized.
- **Spool** (`Spool`, `SpoolRuns`) and **lease** (`CompilerLease`). Capture
  files, batch application, acknowledgements and pruning with crashes between
  any two steps; the compiler lock and the recovery of a stale one.
- **Purge** (`PurgeClosure`, `PurgeTraces`), **export and import** (`CellCodec`,
  `Portability`, `ImportRules`), **retrieval** (`Sorting`, `Retrieval`,
  `RetrievalOrder`) and **transcripts** (`Utf8`, `Transcript`).

`Outcomes` holds the option and result types. A `Result` that is `Rejected`
stands for an exception that unwinds the caller's transaction.

Eight promises turn out not to hold of the code as it stands. Each has a lemma
with an input that breaks it, and a theorem that says exactly when it holds:

- One active installation key per installation: broken by a rotation that
  names a recovery key (`OneActiveCanFail`); it holds if and only if no
  rotation does so onto an occupied installation (`OneActiveAlways`). The
  ceremonies never do.
- Writes are blocked exactly while a conflict is undecided, and decisions last:
  broken by an adjudication whose conflict is decided between its read and its
  write (`TwoProcessesDecide`, `WritesReopenUndecided`, on a machine reached from
  the empty store with the keys of `SomeCast`); it holds if and only if every
  adjudication that writes finds its proof still open (`HoldKeptExactly`). The
  other ceremonies are also split, and safe: rotation compares the active row
  again, every ceremony replays the ledger with its own event in it, which needs
  an active signer and, for a key-state change, an active target, and every one
  moves the anchor, which needs open writes (`WriteIsAtomic`).
- A pruned capture is in the store: broken for the second of two events with
  the same wording (`SecondCopyIsLost`); an envelope the store answers for is
  kept if and only if no other event had captured the wording before
  (`ApplyFacts`).
- One compiler at a time: broken by two simultaneous lock recoveries
  (`TwoRecoveriesBreakExclusion`), and even by one whose rename back lands on a
  directory made meanwhile, if the wall clock steps back between its recheck and
  its verification (`OneRecoveryCanBreakExclusion`); each live compile
  owns the lock if and only if no recovery's rename takes effect on a live
  compile's directory (`OwnershipExactly`).
- A committed key row has its blob: broken by a reconciliation that overlaps
  another ceremony (`OverlapStrandsARow`) and, for pairing, by one that overlaps
  nothing (`PendingPairingStrandsARow`); it holds if and only if no
  reconciliation moved the file after the ceremony last looked at it
  (`RowsOnDiskExactly`).
- The tail parser accepts what the full parser accepts: broken by a lone
  surrogate in the prior assistant text (`SurrogateBreaksTail`); it holds if
  and only if there is none and the tail has a user message
  (`TailRefinesFull`).
- What a committed authorization or recovery ceremony gives out can be used:
  broken by a clock that steps back between two pins, because the history is read
  in the order of their times (`StepBackSpoilsBundle`); it holds, while the
  package is fresh, if and only if the clock never does
  (`PackageVerifiesExactly`, `BundleVerifiesExactly`), and then the target's
  finalization commits (`FinalizationCommitsExactly`).
- A scope that resolves can be purged: broken by a node with a business payload
  (`BusinessNodeBlocksPurge`) or in a business relation
  (`BusinessRelationBlocksPurge`), whose rows the purge never deletes, and the
  foreign key rolls everything back; it holds if and only if there is none in
  the closure and no surviving row refers to a removed event
  (`PurgeSucceedsExactly`).

The code marks an expired ticket or mutation as cancelled or expired and then
raises; the connection's rollback undoes the mark, so in the model the mark
leaves no trace.

## Model

| member | source | states |
|---|---|---|
| `AuthorityLedger.LedgerTable.Append` | src/imprint/authority/ledger.py:150-194 | An event is appended exactly when the ledger is non-empty and the event id unused; it continues the head's sequence and digest and nothing else changes. |
| `AuthorityLedger.LedgerTable.StepCertificate` | src/imprint/authority/ledger.py:375-420 | A recovery or pairing certificate is taken exactly when it is complete, new, on a free installation and authorized for this operator, store and head; the key map gains that key. |
| `AuthorityLedger.LedgerTable.StepRotation` | src/imprint/authority/ledger.py:421-440 | A rotation is taken exactly when the signer is the active old key, the successor is new and the installation unchanged; the old key retires. |
| `AuthorityLedger.LedgerTable.StepStateChange` | src/imprint/authority/ledger.py:441-489 | A revocation or compromise is taken exactly when its target is active, its scope is that target's and it is not a key compromising itself; the status, times and replacement are set. |
| `AuthorityLedger.LedgerTable.StepRebind` | src/imprint/authority/ledger.py:490-533 | A rebind is taken exactly when the old installation has one active key and the new certificate is authorized and free once that key has retired. |
| `AuthorityLedger.LedgerTable.Step` | src/imprint/authority/ledger.py:355-553 | The dispatch over event kinds accepts exactly the admissible events and computes the declared next key map; unknown kinds are refused. |
| `AuthorityLedger.LedgerTable.ReplayRow` | src/imprint/authority/ledger.py:323-353 | One row of the pass is accepted exactly when the ledger extended by it is accepted. |
| `AuthorityLedger.LedgerTable.ReplayRows` | src/imprint/authority/ledger.py:318-560 | The single pass with its dictionaries accepts exactly the accepted ledgers and its digests, snapshots and key-state digests are those of every prefix. |
| `AuthorityLedger.LedgerTable.CheckCheckpoint` | src/imprint/authority/ledger.py:569-621 | The dictionary checks decide exactly whether the ledger supports the checkpoint, judged at the checkpoint's own position. |
| `AuthorityLedger.LedgerTable.VerifyAuthorityChain` | src/imprint/authority/ledger.py:266-648 | Verification succeeds exactly on an accepted ledger of the right store that carries the pinned head and supports the checkpoint, and returns its head, digests and key map. |
| `AuthorityLedger.AcceptedPrefix` | src/imprint/authority/ledger.py:323-560 | Every non-empty prefix of an accepted ledger is accepted. |
| `LedgerHistory.ApplyEvolves` | src/imprint/authority/ledger.py:375-553 | No admissible event removes a key, alters a certificate or touches a key that is no longer active. |
| `LedgerHistory.KeysPersist` | src/imprint/authority/ledger.py:341-560 | Along any accepted ledger keys are never removed, certificates are immutable and a non-active status is final. |
| `LedgerHistory.CertifiedOnce` | src/imprint/authority/ledger.py:383-387 | Every key id is certified by exactly one row, and its entry names that row. |
| `LedgerHistory.PresentFromCertificate` | src/imprint/authority/ledger.py:414-419 | A key is in the snapshot at k exactly when its certificate's sequence is at most k. |
| `LedgerHistory.CertifierIsOlder` | src/imprint/authority/ledger.py:341-351 | Every certificate after the first row was signed by a strictly older key that was active just before it. |
| `LedgerHistory.TrustPath` | src/imprint/authority/ledger.py:341-351 | Following certifiers from a key strictly decreases the certificate sequence and ends at sequence 1. |
| `LedgerHistory.EveryKeyTracesToGenesis` | src/imprint/authority/ledger.py:341-533 | Every key of an accepted ledger reaches a key certified by the genesis row through finitely many signatures of then-active older keys. |
| `LedgerHistory.OneActiveStep` | src/imprint/authority/ledger.py:388-392 | An admissible event keeps at most one active installation key per installation if and only if it is not a rotation of a recovery key onto an installation that has one. |
| `LedgerHistory.OneActiveAlways` | src/imprint/authority/ledger.py:375-533 | Every state of an accepted ledger has at most one active installation key per installation if and only if no event is such a rotation. |
| `LedgerHistory.OneActiveWhenRotationsNameInstallations` | src/imprint/authority/service.py:1384-1399 | Ledgers whose rotations name installation keys, as the rotation ceremony's do, always have at most one active installation key per installation. |
| `LedgerHistory.OneActiveCanFail` | src/imprint/authority/ledger.py:421-440 | A concrete accepted two-row ledger ends with two active installation keys of one installation. |
| `LedgerHistory.SameHeadSameEvents` | src/imprint/authority/ledger.py:328-340 | Two accepted ledgers of equal length with the same head digest hold the same events. |
| `LedgerHistory.SameHeadSameHistory` | src/imprint/authority/ledger.py:328-340 | Equal heads also give the same key map. |
| `LedgerHistory.PinMeansExtension` | src/imprint/authority/ledger.py:561-568 | A ledger accepted against the head of another accepted ledger extends it event by event and has the same key map there. |
| `LedgerHistory.ForkBeforePinRejected` | src/imprint/authority/ledger.py:561-568 | A ledger that differs in any event before a pinned head is refused. |
| `LedgerHistory.SnapshotIsPrefixReplay` | src/imprint/authority/ledger.py:555-560 | The snapshot taken at k inside a longer replay is the key map of replaying the k-row prefix. |
| `LedgerHistory.CheckpointSurvivesGrowth` | src/imprint/authority/ledger.py:651-683 | A checkpoint issued at a head verifies against every accepted extension, whatever became of its signer, and also freshly while its window lasts. |
| `LedgerRules.AcceptedExactly` | src/imprint/authority/ledger.py:323-560 | A replay accepts a ledger if and only if every row is numbered, chained to the one before, repeated in its columns, signed by the public key of a key active by then, and admissible. |
| `LedgerRules.AuthorizationBindsRow` | src/imprint/authority/ledger.py:395-413 | An authorization in an accepted ledger names this operator and store, exactly the key it certifies, and the row just before it. |
| `LedgerRules.AuthorizationsAreSingleUse` | src/imprint/authority/ledger.py:395-413 | No two rows of an accepted ledger carry the same authorization. |
| `LedgerRules.CheckpointSpeaksForPrefix` | src/imprint/authority/ledger.py:569-621 | A verified checkpoint is signed, under the public key it certifies, by a key active at its position, over the head and key states of that accepted prefix, for at most a day. |
| `LedgerRules.CheckpointsAgree` | src/imprint/authority/ledger.py:569-621 | Two checkpoints that name one head agree on position, genesis, operator, store and key states, whatever ledgers they were verified on. |
| `KeyStates.EntryExactly` | src/imprint/authority/ledger.py:375-533 | The entry of every key of an accepted ledger is what two rows say: the one certificate, and the first later row that revokes, compromises, rotates or replaces the key, if there is one. |
| `KeyStates.KeyStateShaExactly` | src/imprint/authority/ledger.py:233-250 | Two key maps have one digest if and only if they have the same keys and agree, key by key, in the twelve fields. |
| `KeyStates.DigestChangesExactly` | src/imprint/authority/ledger.py:553-648 | Between any two positions of an accepted ledger the key-state digest a verification returns is the same if and only if every event between them is an adjudication. |
| `AuthorityTrust.AuthorityStore.EstablishAnchor` | src/imprint/authority/trust.py:113-175 | First trust, with or without a checkpoint, is set exactly when none exists, the recovery key is active in the chain and the checkpoint history is closed and unseen; the anchor takes the chain's head. |
| `AuthorityTrust.AuthorityStore.VerifyTransfer` | src/imprint/authority/trust.py:178-251 | The loop over the supplied history accepts exactly the sources that extend the pin, continue the pinned checkpoint and are fresh. |
| `AuthorityTrust.AuthorityStore.PrepareAdvance` | src/imprint/authority/trust.py:254-286 | A ticket is written exactly when writes are allowed and the anchor still equals the one verified against. |
| `AuthorityTrust.AuthorityStore.FinalizeAdvance` | src/imprint/authority/trust.py:289-350 | Finalization moves the anchor exactly under the ticket's compare-and-swap condition; a repeated one answers without writing. |
| `AuthorityTrust.AuthorityStore.PinLocalCheckpoint` | src/imprint/authority/trust.py:353-394 | A local checkpoint is pinned exactly when it verifies, does not go back and continues the pinned one. |
| `AuthorityTrust.AuthorityStore.AdvanceToLocalHead` | src/imprint/authority/trust.py:397-425 | The anchor follows the replayed head exactly when it belongs to the same trust domain and contains the pin. |
| `AuthorityTrust.AuthorityStore.RetainConflict` | src/imprint/authority/trust.py:428-449 | A new proof is stored and writes are blocked; a known proof id or a missing anchor changes nothing. |
| `TrustRuns.EveryTicketTraced` | src/imprint/authority/trust.py:254-286 | Every ticket of every run was written by an earlier prepare step that followed a successful verification. |
| `TrustRuns.FinalizationIsCompareAndSwap` | src/imprint/authority/trust.py:289-350 | In every interleaving a first finalization that succeeds finds the anchor it was verified against, and the old and new pins lie, in order, on the accepted source ledger. |
| `TrustRuns.OnlyOneRacingTicketWins` | src/imprint/authority/trust.py:325-332 | Of two tickets verified against the same anchor only the first finalization that moves the checkpoint succeeds. |
| `TrustRuns.FinalizedOnce` | src/imprint/authority/trust.py:296-308 | After a step of a run that finalized a ticket no later finalization of it changes anything, whatever happened in between, and right after that step it is answered from the anchor. |
| `TrustRuns.BlockedAnchorStays` | src/imprint/authority/trust.py:428-449 | While a conflict is retained no run of these steps moves the pin, prepares a ticket or finalizes one. |
| `TrustRuns.PinMonotone` | src/imprint/authority/trust.py:178-425 | The pinned sequence never decreases between any two moments of any interleaving. |
| `TrustRules.AnchorDigestExactly` | src/imprint/authority/trust.py:34-48 | Two anchors have one digest if and only if they agree in everything but the stored checkpoint text and the update time. |
| `TrustRules.TransferExactly` | src/imprint/authority/trust.py:178-251 | A source is accepted if and only if writes are open, its history ends in the fresh candidate and holds the pinned checkpoint, everything after it continues it and verifies under the pinned head, and the candidate is of the genesis and does not go back. |
| `TrustRules.PreparesExactly` | src/imprint/authority/trust.py:254-286 | A ticket is prepared if and only if the anchor is the one verified against; it carries that checkpoint and lasts a day. |
| `TrustRules.FinalizesExactly` | src/imprint/authority/trust.py:309-350 | A prepared ticket is finalized if and only if it lasts, the claim equals it and the anchor is still that one; the anchor then holds the checkpoint's position, head, key states and certificate. |
| `TrustRules.PinsLocallyExactly` | src/imprint/authority/trust.py:353-394 | A local checkpoint is pinned if and only if it verifies, does not go back or differ at the pin, continues the pinned one and is new. |
| `TrustRules.AdvancesAnchorExactly` | src/imprint/authority/trust.py:397-425 | The anchor follows the head if and only if the trust domain is its own and the pinned row is on the local ledger. |
| `TrustRules.EstablishesExactly` | src/imprint/authority/trust.py:113-175 | First trust is set if and only if there is none, the recovery key, if any, is active as one in the chain, and the history is closed, without repetition, unseen and ends in the checkpoint. |
| `TrustRules.EstablishedIs` | src/imprint/authority/trust.py:140-175 | It then names the chain's domain and head and that recovery key, and pins that history in order. |
| `AuthorityMachine.VerifyHistory` | src/imprint/authority/recovery.py:221-238 | The loop over the carried checkpoints accepts exactly a closed history over one ledger. |
| `AuthorityMachine.VerifyTransport` | src/imprint/authority/recovery.py:291-345 | A transport is accepted exactly when its history is closed, ends in its fresh checkpoint and its genesis matches. |
| `AuthorityMachine.VerifyBundle` | src/imprint/authority/recovery.py:193-264 | A bundle is accepted exactly when its ledger, history, signer and recovery key agree and, when asked for, its last checkpoint is fresh. |
| `AuthorityMachine.Machine.EnrollMachine` | src/imprint/authority/service.py:401-517 | Enrollment commits its specified state or leaves the store unchanged. |
| `AuthorityMachine.Machine.CheckpointNow` | src/imprint/authority/service.py:557-578 | The checkpoint ceremony commits its specified state or leaves the store unchanged. |
| `AuthorityMachine.Machine.RotateKey` | src/imprint/authority/service.py:1349-1440 | The rotation ceremony with nothing in between its read and its write commits its specified state or leaves the store unchanged. |
| `AuthorityMachine.Machine.RotateWith` | src/imprint/authority/service.py:1379-1425 | The write transaction of a rotation, with the key opened earlier, re-checks the active row and commits its specified state or leaves the store unchanged. |
| `AuthorityMachine.Machine.AuthorizeRequest` | src/imprint/authority/service.py:856-944 | Pairing authorization commits its specified state and package or leaves the store unchanged. |
| `AuthorityMachine.Machine.CreateRecoveryBundle` | src/imprint/authority/service.py:1037-1145 | Recovery creation commits its specified state and bundle or leaves the store unchanged. |
| `AuthorityMachine.Machine.ChangeState` | src/imprint/authority/service.py:1442-1531 | Revocation and compromise with nothing in between their read and their write commit their specified state, the latter with its hold, or leave the store unchanged. |
| `AuthorityMachine.Machine.ChangeStateWith` | src/imprint/authority/service.py:1499-1526 | The write transaction of a key-state change, with target and signer read earlier, commits its specified state or leaves the store unchanged. |
| `AuthorityMachine.Machine.AdjudicateConflict` | src/imprint/authority/service.py:1533-1598 | Adjudication with nothing in between its read and its write commits its specified state or leaves the store unchanged. |
| `AuthorityMachine.Machine.ReadPending` | src/imprint/authority/service.py:1548-1565 | The first connection of an adjudication accepts exactly a pending conflict, an active recovery key and the pinned checkpoint as the choice. |
| `AuthorityMachine.Machine.WriteDecision` | src/imprint/authority/service.py:1572-1596 | The second connection appends, replays, records the decision and opens writes without looking at the conflict again. |
| `AuthorityMachine.Machine.FinalizeRequest` | src/imprint/authority/service.py:946-1035 | Pairing finalization commits its specified state or leaves the store unchanged. |
| `ServiceRuns.EnrollStarts` | src/imprint/authority/service.py:401-582 | An enrolled machine satisfies the ceremony invariant with one active key. |
| `ServiceRuns.CheckpointKeeps` | src/imprint/authority/service.py:557-578 | A committed checkpoint keeps the invariant, the ledger and the key rows. |
| `ServiceRuns.RotateKeeps` | src/imprint/authority/service.py:1349-1440 | A committed rotation keeps the invariant, adds one row and leaves exactly the new key active. |
| `ServiceRuns.AuthorizeKeeps` | src/imprint/authority/service.py:856-944 | A committed authorization keeps the invariant, adds the certificate of exactly the requested key and packs that ledger. |
| `ServiceRuns.RecoveryKeeps` | src/imprint/authority/service.py:1037-1145 | A committed recovery creation keeps the invariant and the anchor names the new, active recovery key. |
| `ServiceRuns.StateChangeKeeps` | src/imprint/authority/service.py:1442-1531 | A committed key-state change keeps the invariant and makes the target inactive; it blocks writes exactly for a compromise. |
| `ServiceRuns.AdjudicationKeeps` | src/imprint/authority/service.py:1533-1598 | An adjudication that writes on the state it has read closes the one open proof, opens writes, changes no key and is signed by an active recovery key. |
| `ServiceRuns.CeremonyKeeps` | src/imprint/authority/service.py:557-1598 | A ceremony performed as one step commits while writes are blocked only if it is an adjudication, and adjudication commits only then; the ledger grows by at most one row. |
| `ServiceRuns.CeremonyInvariant` | src/imprint/authority/service.py:557-1598 | After every run of ceremonies performed one after another the anchor is the replayed head, each key row has the replay's status, at most one row is active, and writes are blocked exactly when one proof is open. |
| `ServiceRuns.EnrolledRunsAreCoherent` | src/imprint/authority/service.py:401-1598 | The same for ceremonies one after another from enrollment on. |
| `ServiceRuns.HeldUntilAdjudicated` | src/imprint/authority/service.py:1499-1598 | Without an adjudication no run of ceremonies one after another changes a blocked machine. |
| `ServiceRuns.RunsKeepOneActive` | src/imprint/authority/service.py:1384-1399 | Every ledger the ceremonies grow has at most one active installation key per installation at every position. |
| `ServiceRuns.FinalizeStarts` | src/imprint/authority/service.py:946-1035 | A target that commits an authorized package becomes a coherent machine on the source's ledger with that one active key. |
| `ServiceRuns.PairingConverges` | src/imprint/authority/service.py:723-1035 | When bootstrap, request, authorization and finalization all succeed, source and target hold the same ledger and pin, and the target's one active key is active in the replay. |
| `ServiceRuns.RecoverStarts` | src/imprint/authority/service.py:1147-1347 | A machine recovered onto a fresh store satisfies the invariant; a replaced installation keeps no other active key. |
| `CarriedHistory.HistoryClosedExactly` | src/imprint/authority/service.py:925-927 | The history read from the pin table is a closed chain if and only if the clock never stepped back between two pins; it is then the pins in the order they were made. |
| `CarriedHistory.RunCarries` | src/imprint/authority/service.py:557-1598 | Over every run of ceremonies the pins stay one chain on the ledger that ends at the anchor's checkpoint, and earlier pins and rows stay where they are. |
| `CarriedHistory.EnrollmentCarries` | src/imprint/authority/service.py:401-517 | An enrolled machine starts such a chain. |
| `CarriedHistory.PackageVerifiesExactly` | src/imprint/authority/service.py:911-944 | The package of a committed authorization verifies if and only if the source's clock never stepped back between two pins and its checkpoint is in its window. |
| `CarriedHistory.BundleVerifiesExactly` | src/imprint/authority/service.py:1086-1140 | The bundle of a committed recovery ceremony verifies if and only if the clock had never stepped back between two earlier pins. |
| `PairingProgress.BootstrapExactly` | src/imprint/authority/service.py:723-779 | A fresh target takes the bundle of a recovery ceremony if and only if the source's clock had never stepped back; it then pins that head, history and credential. |
| `PairingProgress.FinalizationCommitsExactly` | src/imprint/authority/service.py:723-1035 | With a bundle taken, a request made and the authorization committed after whatever ceremonies, the target's finalization commits if and only if the source's clock never stepped back and the package is in its window. |
| `PairingProgress.BootstrapsAgainExactly` | src/imprint/authority/service.py:772-779 | A target that has an anchor takes a bundle if and only if it is good and names the domain and credential pinned, and then nothing changes. |
| `PairingProgress.RequestsExactly` | src/imprint/authority/service.py:781-854 | A request is made if and only if there is no ledger, the id is new and a recovery key is trusted; it asks for the row after the pin, for a day, for exactly the new key. |
| `PairingProgress.FinalizationNeeds` | src/imprint/authority/service.py:946-1035 | A package is committed only on a machine without a ledger that has this very request open, and only with a certificate that answers it at the row it asked for; the request is then closed. |
| `PairingProgress.RestoreNeeds` | src/imprint/authority/service.py:1147-1347 | A restore is committed only with the credential and checkpoint the target pinned, active as a recovery key on a fresh transport of the same domain. |
| `PairingProgress.BundleExactly` | src/imprint/authority/recovery.py:193-264 | A bundle is good if and only if its ledger replays and ends where it says, its history is a chain that verifies there, and the active installation key it names signed it for an active recovery key. |
| `PairingProgress.TransportExactly` | src/imprint/authority/recovery.py:291-345 | A transport is accepted if and only if its history is a chain that verifies and ends in its fresh checkpoint, and its genesis is the ledger's. |
| `PairingProgress.RestoreCommitsExactly` | src/imprint/authority/service.py:1147-1347 | A restore onto a target that took a bundle, from the source's later ledger and history, commits if and only if the clock never stepped back, the last checkpoint is fresh, the recovery key still active, and the new key complete, new and on a free installation. |
| `CeremonyRules.EnrollmentCommitsExactly` | src/imprint/authority/service.py:401-517 | An enrollment commits if and only if there is no ledger, anchor or held key in its way and the recovery certificate, if any, is complete and of another key. |
| `CeremonyRules.RowsAgreeExactly` | src/imprint/authority/service.py:198-224 | Rows are reconciled if and only if each is a key of the replay in the same state whose certificate names its very key file. |
| `CeremonyRules.SigningKeyExactly` | src/imprint/authority/service.py:520-556 | A machine may sign if and only if its writes are open, its ledger replays, its rows agree with the replay and exactly one is active, for an active installation key. |
| `CeremonyRules.CheckpointCommitsExactly` | src/imprint/authority/service.py:557-578 | A checkpoint commits if and only if the machine may sign, its lifetime is at most a day and it is fresh. |
| `CeremonyRules.RotationCommitsExactly` | src/imprint/authority/service.py:1349-1440 | A rotation commits if and only if the machine may sign, the event id is unused and the new key complete and new. |
| `CeremonyRules.AuthorizationCommitsExactly` | src/imprint/authority/service.py:856-944 | An authorization commits if and only if the machine may sign, the request is current, of this operator and store and for the next row, and its certificate complete, new and on a free installation. |
| `CeremonyRules.RecoveryCommitsExactly` | src/imprint/authority/service.py:1037-1145 | A recovery ceremony commits if and only if the machine may sign and the certificate is complete and new. |
| `CeremonyRules.StateChangeCommitsExactly` | src/imprint/authority/service.py:1442-1531 | A key-state change commits if and only if writes are open, it names an active target and a reason, and its signer is an accepted bundle's active recovery key or the machine's own, another than the target for a compromise. |
| `CeremonyRules.DecisionCommitsExactly` | src/imprint/authority/service.py:1533-1598 | An adjudication performed as one step commits if and only if its proof is open, it gives a reason and the pinned checkpoint, and an accepted bundle's recovery key is active under that public key. |
| `SplitCeremonies.HalvesMakeTheCeremony` | src/imprint/authority/service.py:557-1598 | A ceremony is its read followed by its write when nothing happens in between. |
| `SplitCeremonies.WriteIsAtomic` | src/imprint/authority/service.py:1379-1425 | A write other than an adjudication's that commits on a later state is exactly the ceremony performed at that moment: its own checks of the active row, the signer, the target and the anchor suffice. |
| `SplitCeremonies.SplitRunsAreAtomic` | src/imprint/authority/service.py:557-1598 | Every interleaving of reads and writes in which no adjudication writes after its proof was decided is a run of whole ceremonies in the order of their writes. |
| `SplitCeremonies.HoldKeptExactly` | src/imprint/authority/service.py:1548-1596 | In every interleaving the ceremony invariant holds at every moment and recorded decisions last if and only if every adjudication that writes finds its proof still open. |
| `SplitCeremonies.EnrolledHoldKeptExactly` | src/imprint/authority/service.py:401-1598 | The same equivalence from enrollment on. |
| `SplitCeremonies.OverrideReplacesDecision` | src/imprint/authority/service.py:1585-1595 | An adjudication that writes after its proof was decided replaces the recorded decision and leaves writes open. |
| `SplitCeremonies.OverrideReopensWrites` | src/imprint/authority/service.py:1585-1595 | If another proof is open by then, such a write opens writes while that proof is undecided. |
| `SplitCeremonies.BothDecisionsCommit` | src/imprint/authority/service.py:1548-1596 | On every machine where either of two adjudications of one conflict would commit, both commit when both read first; the second does so while writes are open. |
| `CeremonyProgress.MachineInConflict` | src/imprint/authority/service.py:401-1531 | Enrollment with a recovery key, a second recovery key and a compromise of the installation key, run from the empty store, reach a coherent machine with exactly that conflict open. |
| `CeremonyProgress.TwoProcessesDecide` | src/imprint/authority/service.py:1548-1596 | On that machine two processes that both read the conflict both commit: the second while writes are open, and it replaces the recorded decision. |
| `CeremonyProgress.WritesReopenUndecided` | src/imprint/authority/service.py:1548-1596 | On that machine, when a second conflict is opened between the two decisions, the second decision opens writes while the new conflict is undecided. |
| `CeremonyProgress.PairingHappens` | src/imprint/authority/service.py:401-1035 | From two empty stores, with any cast and any complete new key for another installation, every step of a pairing commits, from enrollment to finalization. |
| `CeremonyProgress.StepBackSpoilsBundle` | src/imprint/authority/service.py:1102-1106 | An enrolled machine whose clock steps back before a checkpoint: its next recovery ceremony commits and its bundle never verifies. |
| `MutationGate.MutationTables.PrepareMutation` | src/imprint/authority/ledger.py:711-760 | A well-formed new mutation is frozen with its fields; anything else changes nothing. |
| `MutationGate.MutationTables.ApproveRequest` | src/imprint/authority/service.py:1600-1646 | A token is issued exactly for a pending, unexpired, unchanged request by the machine's reconciled active key, and its nonce is recorded. |
| `MutationGate.MutationTables.ExecuteApproved` | src/imprint/store/service.py:273-296 | A token is consumed exactly when the frozen mutation is pending and unchanged and the challenge is this store's, current, unused and signed by the active key; the frozen fields are returned. |
| `GateRuns.AtMostOnce` | src/imprint/authority/ledger.py:686-905 | In every interleaving with the reads and the writes of ceremonies, overriding adjudications included, each operation executes at most once, each provenance row has one consumed challenge and one execution, and executed content is the frozen content. |
| `GateRuns.ProvenanceIsOneToOne` | src/imprint/authority/ledger.py:880-905 | Two provenance rows never share a nonce or an operation. |
| `GateRuns.CeremoniesIgnoreTheGate` | src/imprint/authority/ledger.py:686-905 | The machine and the open ceremonies of a run are those of its ceremony halves alone. |
| `GateRuns.GateRunsCoherent` | src/imprint/authority/service.py:1548-1596 | The ceremony invariant holds along every such run in which no adjudication writes after its proof was decided. |
| `GateRuns.EveryChallengeIssued` | src/imprint/authority/ledger.py:686-708 | Every recorded challenge was issued by an approval step of the run. |
| `GateRuns.LedgerGrows` | src/imprint/authority/ledger.py:842-905 | Along a run the ledger only grows, whatever state a ceremony's write finds. |
| `GateRuns.ExecutionMatchesApproval` | src/imprint/authority/ledger.py:763-905 | In the same interleavings a successful execution finds the ledger of its approval, runs the approved intent and fields, and has not happened before. |
| `GateRuns.HeldRunsIssueNothing` | src/imprint/authority/service.py:1600-1656 | From a blocked machine, with ceremonies of any age half done, no run issues or consumes a token, executes anything or changes the machine until an adjudication writes. |
| `GateRuns.FreezesExactly` | src/imprint/authority/ledger.py:711-760 | A mutation is frozen if and only if it is complete and its operation new; the request commits to its three texts, repeats its lists, and lapses after a day. |
| `GateRuns.ApprovesExactly` | src/imprint/authority/service.py:1600-1646 | A token is issued if and only if writes are open, the ledger replays and agrees with the rows, one key is active, and the request is exactly a pending, unexpired one with a new nonce and a lifetime of one to 120 seconds. |
| `GateRuns.ExecutesExactly` | src/imprint/authority/ledger.py:842-905 | A token executes if and only if writes are open, it is the one active key's signature over its own challenge, now in that challenge's window, the challenge was issued here for this head and is unconsumed, and the mutation is the pending one it approves. |
| `GateRuns.EveryExecutionSigned` | src/imprint/authority/ledger.py:842-905 | Every execution of every run was made with such a token. |
| `GateRuns.ApprovedExecutes` | src/imprint/authority/ledger.py:686-905 | An approved mutation executes, whatever the gate did in between, if and only if its token's window lasts. |
| `KeyPublication.RowsOnDiskExactly` | src/imprint/authority/service.py:174-239 | After every run, whatever crashes and overlaps, every committed key row's blob is on disk with its recorded digest if and only if no reconciliation moved the file of a committed ceremony after that ceremony read it back or, for pairing, published it. |
| `KeyPublication.FileThereUnlessTaken` | src/imprint/authority/service.py:226-233 | The same for each ceremony that relies on its file, committed or not. |
| `KeyPublication.RowsAlwaysOnDisk` | src/imprint/authority/service.py:460-510 | When no reconciliation overlaps a running ceremony, enrollment, rotation and restore rows have their blob at every crash point, and a pairing row has it if and only if no reconciliation moved it while its request was pending. |
| `KeyPublication.FinalsNeverLost` | src/imprint/authority/service.py:226-233 | In every run a published key file is at its name or its bytes are in quarantine. |
| `KeyPublication.KeyDirectory.Reconcile` | src/imprint/authority/service.py:174-239 | Reconciliation refuses a journal, rows that disagree with the ledger and a row without its blob before anything moves; then it moves exactly the files no row refers to into quarantine, or stops at one that is not regular with some of the others moved. The rows' files are on disk after it if and only if they were before. |
| `KeyPublication.ReconciliationCleansUp` | src/imprint/authority/service.py:226-239 | After every run a reconciliation finds each row's blob if and only if no committed file was taken; it then leaves exactly the committed rows' files and has nothing to move the next time. |
| `KeyPublication.OverlapStrandsARow` | src/imprint/authority/service.py:226-233 | A reconciliation that overlaps a rotation can strand its committed row: a concrete run. |
| `KeyPublication.PendingPairingStrandsARow` | src/imprint/authority/service.py:1019-1026 | A reconciliation that overlaps nothing, between a pairing request and its finalization, strands the pairing row: a concrete run. |
| `Spool.SpoolStore.WriteEnvelope` | src/imprint/compiler/spool.py:393-412 | An envelope file is created, the same bytes are accepted again, and other bytes are a conflict that changes nothing. |
| `Spool.SpoolStore.ApplyCapture` | src/imprint/store/service.py:784-846 | One capture is inserted, answered as a duplicate or refused as specified, with every table updated together. |
| `Spool.SpoolStore.ApplyBatch` | src/imprint/store/service.py:740-782 | The grouped loop computes the item-by-item result for every batch size from 1 to 1000 and refuses others. |
| `Spool.SpoolStore.WriteAcknowledgement` | src/imprint/compiler/spool.py:255-293 | Evidence is created, left alone when it matches, and a mismatch changes nothing. |
| `Spool.SpoolStore.PruneAcknowledged` | src/imprint/compiler/spool.py:296-360 | Exactly the acknowledged, byte-identical, old enough sources go, with their acknowledgements and those whose source is already gone. |
| `Spool.SpoolStore.CompileSpools` | src/imprint/compiler/spool.py:436-490 | The scan, batch, acknowledgement and prune loops compute the specified compile, exceptions included. |
| `Spool.PrunedInTurn` | src/imprint/compiler/spool.py:315-360 | Pruning acknowledgements one after another equals pruning them together. |
| `Spool.AcknowledgesExactly` | src/imprint/compiler/spool.py:255-293 | An envelope is acknowledged if and only if its file is there and no other evidence stands in its place; evidence that stands is left as it is. |
| `Spool.AckingExactly` | src/imprint/compiler/spool.py:470-484 | A finished acknowledgement loop leaves a receipt for every refused item and evidence for every other one. |
| `Spool.PruneTakesExactly` | src/imprint/compiler/spool.py:335-349 | A prune takes a file if and only if its own path's acknowledgement is for exactly that envelope and those bytes and old enough; every other file and acknowledgement stays. |
| `Spool.CompileTakesExactly` | src/imprint/compiler/spool.py:436-490 | A compile deletes a file if and only if it runs to its end, lists its producer, and the acknowledgement it found there is for exactly that file and old enough. |
| `SpoolRuns.ApplyFacts` | src/imprint/store/service.py:784-846 | Application keeps the store consistent and monotone; an answered envelope is represented, and kept byte for byte if and only if no other event had captured its wording. |
| `SpoolRuns.KeptVerbatim` | src/imprint/store/service.py:803-808 | A represented envelope is in the store byte for byte if and only if its own event captured its wording first. |
| `SpoolRuns.ResumeEqualsUninterrupted` | src/imprint/store/service.py:743-750 | A batch interrupted after any number of durable applications and run again from the start ends in the same store as one uninterrupted run. |
| `SpoolRuns.ConflictFreeIsApplied` | src/imprint/store/service.py:755-780 | Every conflict-free envelope of a batch is answered captured or duplicate. |
| `SpoolRuns.NoLoss` | src/imprint/compiler/spool.py:196-490 | After any run with crashes between any two steps every file ever written is in the spool or represented in the store, every acknowledgement is for a represented envelope, and each captured event has one row. |
| `SpoolRuns.LostExactlyWhenSecond` | src/imprint/compiler/spool.py:345-349 | A written envelope that left the spool is in the store byte for byte if and only if no other event captured its wording first. |
| `SpoolRuns.SecondCopyIsLost` | src/imprint/store/service.py:803-808 | A concrete run: the second of two events with the same wording is acknowledged, pruned and in neither place. |
| `SpoolRuns.CompileAppliesEverything` | src/imprint/compiler/spool.py:436-490 | After any run one compile over a full listing represents every readable conflict-free envelope of the spool, even if an acknowledgement conflict then stops it. |
| `SpoolRuns.CompileKeepsSafe` | src/imprint/compiler/spool.py:436-490 | A whole compile, finished or stopped by an exception, keeps what runs keep. |
| `SpoolRuns.AnswersExactly` | src/imprint/store/service.py:784-846 | A capture is inserted if and only if it is of the configured operator and producer and its event, wording and nodes are new; it is a duplicate if and only if the same event and content were consumed or the wording captured. |
| `SpoolRuns.KeptForRetention` | src/imprint/compiler/spool.py:335-349 | In every run, with crashes anywhere, a file no longer at its path was taken by a prune at least its retention after it was acknowledged, and by nothing else. |
| `SpoolRuns.OnlyOwnEvents` | src/imprint/store/service.py:784-846 | Along every run the store holds events of the configured operator and producer only, and no two of them create the same node. |
| `SpoolRuns.AppliesInOrder` | src/imprint/compiler/spool.py:436-470 | A compile applies exactly the readable files not yet answered, in the order of capture time, event identity, producer and file name. |
| `CompilerLease.OwnershipExactly` | src/imprint/compiler/spool.py:94-193 | However many recoveries interleave, every compile between its mkdir and its rmdir owns the lock at every moment if and only if no recovery's rename takes effect on a live compile's directory. |
| `CompilerLease.NeverTwoHolders` | src/imprint/compiler/spool.py:421-434 | Then no two live compiles are ever between their mkdir and their rmdir. |
| `CompilerLease.OneRecoveryNeverTakesLive` | src/imprint/compiler/spool.py:94-193 | With one recovery at a time no rename does so, provided none puts a directory back over one made since its absence was tested. |
| `CompilerLease.DeletesOnlyWhatWasInspected` | src/imprint/compiler/spool.py:160-193 | However many recoveries interleave, an owner record is deleted only if inode and bytes are those inspected and its compile is dead. |
| `CompilerLease.DeletesOnlyStale` | src/imprint/compiler/spool.py:160-183 | In every run an owner record is deleted only after it was found, in the claimed directory, at least five minutes old with no live process under its process id. |
| `CompilerLease.LockChangesOnlyBy` | src/imprint/compiler/spool.py:94-193 | The lock goes only by the rmdir of a compile that finds it empty or by a rechecked recovery, and its record changes only by a running compile that writes its own or unlinks after it found its own, or by a directory put back. |
| `CompilerLease.InspectsExactly` | src/imprint/compiler/spool.py:103-121 | A recovery begins if and only if the record has the confirmed nonce and is that old and that dead. |
| `CompilerLease.TwoRecoveriesBreakExclusion` | src/imprint/compiler/spool.py:153-159 | A concrete run with two recoveries at once that ends with two live holders. |
| `CompilerLease.OneRecoveryCanBreakExclusion` | src/imprint/compiler/spool.py:184-190 | A concrete run with one recovery at a time, whose rename back lands on a new compile's directory, and a wall clock that steps back between the recovery's recheck and its verification, that ends with two live holders. |
| `PurgeClosure.Closure` | src/imprint/purge.py:95-117 | The closure loop terminates and computes the hull of its seeds. |
| `PurgeClosure.HullIsLeast` | src/imprint/purge.py:95-117 | The hull contains the seeds, is closed under edges, kept nodes and item links, and is within every closed set that contains them. |
| `PurgeClosure.RemovalIsClean` | src/imprint/purge.py:573-602 | Removing a closed set leaves no edge, version or item pointing at a removed node, and an edge goes exactly when both its ends go. |
| `PurgeClosure.SecondPurgeRemovesTheRest` | src/imprint/purge.py:95-117 | The deletions of two node scopes in turn remove exactly both hulls of the original graph. |
| `PurgeClosure.NodePurgesCommute` | src/imprint/purge.py:95-117 | The deletions of two node scopes commute on nodes, edges, versions and items, whatever they share. |
| `PurgeClosure.PurgeSucceedsExactly` | src/imprint/purge.py:548-612 | On a store whose references resolve a resolved purge succeeds if and only if no surviving row, correction or contest refers to a removed event and no removed version, nor a relation of one, has a business row. |
| `PurgeClosure.BusinessNodeBlocksPurge` | src/imprint/purge.py:570 | A concrete store whose one node has a business version: the purge of that node is rolled back although no surviving row shares an event with it. |
| `PurgeClosure.BusinessRelationBlocksPurge` | src/imprint/purge.py:551-563 | A concrete store whose one node has a relation with a business policy: likewise. |
| `PurgeClosure.PurgeKeepsReferences` | src/imprint/purge.py:548-612 | A successful purge leaves every reference in the store resolved, those of the semantic and business tables and of the deduplication rows included. |
| `PurgeClosure.CommittedPurgesCommute` | src/imprint/purge.py:454-612 | Whole purges of two node scopes commute on nodes, edges, versions and items when none of them is rolled back. |
| `PurgeClosure.RolledBackPurgesDoNotCommute` | src/imprint/purge.py:601-612 | A concrete store where they do not: one purge is rolled back first and commits after the other. |
| `PurgeClosure.PurgedScopeIsGone` | src/imprint/purge.py:51-94 | After a successful purge the same scope text can only resolve to a later kind of scope. |
| `PurgeClosure.PurgeTables.Purge` | src/imprint/purge.py:454-612 | The cascade of deletions commits the specified state or, on a reference left dangling, those of the business tables included, leaves the tables unchanged. |
| `PurgeTraces.ResolvesExactly` | src/imprint/purge.py:51-94 | A scope resolves if and only if it names a source, a node, an operator or a session, in this order, and then to exactly the events and items it names. |
| `PurgeTraces.SeedNodes` | src/imprint/purge.py:51-94 | And from the node itself, the operator's own nodes, or those its events made. |
| `PurgeTraces.EventsGoExactly` | src/imprint/purge.py:95-166 | After a successful purge an event is gone if and only if it was the scope's own or a removed node version, a removed edge version, a ruling of a removed item or a disposition of a removed node referred to it. |
| `PurgeTraces.RowsFollowEvents` | src/imprint/purge.py:586-612 | Receipts, deduplication rows, rulings and dispositions stay, as they were, exactly when their event does. |
| `PurgeTraces.SemanticGoesExactly` | src/imprint/purge.py:548-580 | The semantic rows of removed versions and the relations and heads on them go, corrections and contests of removed nodes too unless no version goes; business rows stay. |
| `CellCodec.DecodeEncode` | src/imprint/portability/jsonld.py:131-134 | Decoding an encoded byte string gives it back. |
| `CellCodec.CellRoundTrip` | src/imprint/portability/jsonld.py:131-149 | Every storable cell survives export and import. |
| `CellCodec.DocumentRoundTrip` | src/imprint/portability/jsonld.py:137-149 | Every accepted document value is re-exported exactly. |
| `CellCodec.AcceptsExactlyCanonical` | src/imprint/portability/jsonld.py:143-147 | A binary cell is accepted if and only if its text is the encoding of some bytes. |
| `CellCodec.LettersInOrder` | src/imprint/portability/jsonld.py:131-134 | The letters are those of Table 1 of RFC 4648, in order. |
| `CellCodec.GroupIsOneNumber` | src/imprint/portability/jsonld.py:131-134 | Four letters are the six-bit digits of three bytes read as one number. |
| `Portability.PortableStore.ImportLedger` | src/imprint/portability/jsonld.py:954-979 | The nested insertion loops compute the specified import, or leave the store unchanged on any refused row. |
| `Portability.Export` | src/imprint/portability/jsonld.py:444-457 | Every exportable store has an export with each table in primary-key order. |
| `Portability.ImportOfExport` | src/imprint/portability/jsonld.py:1102-1115 | Importing the export of any store into an empty one reproduces every table and the content generation. |
| `Portability.ExportIsUnique` | src/imprint/portability/jsonld.py:1117-1138 | A store has one export, so the digests compared after an import never differ. |
| `ImportRules.ImportIsFaithful` | src/imprint/portability/jsonld.py:954-979 | An accepted import has filled every table with exactly the document's rows, each re-exported as it was written, under its own key, admitted, without clash and with its parents present, and restored the generation. |
| `Retrieval.PackSections` | src/imprint/retrieve/engine.py:224-249 | The section loop with its carry computes the specified answer, and the closing budget check never fails. |
| `Retrieval.Retrieve` | src/imprint/retrieve/engine.py:170-249 | There is an answer exactly for the admissible budgets, and it is the specified one. |
| `Retrieval.LimitsSumToBudget` | src/imprint/retrieve/engine.py:113-120 | The section limits sum to the budget. |
| `Retrieval.AnswerIsEligibleAndWithinBudget` | src/imprint/retrieve/engine.py:224-246 | The payload is within the budget, its length is the sum of the section bytes and every record in it is a wanted candidate. |
| `Retrieval.PackSplits` | src/imprint/retrieve/engine.py:228-238 | A record is taken if and only if it fits in what the better-ranked taken records have left. |
| `Retrieval.OmittedDoesNotFit` | src/imprint/retrieve/engine.py:228-238 | Every wanted record left out is longer than the space its own section has left at the end. |
| `Retrieval.OrderDoesNotMatter` | src/imprint/retrieve/engine.py:99-110 | With distinct record identities the answer is the same for every order of the candidates. |
| `RetrievalOrder.RankedByPreference` | src/imprint/retrieve/engine.py:99-110 | Of two ranked records the first is pinned, or of the selected domain, or higher in score, better in status, then tier, more recurrent, later, or smaller in identity, where all before is equal. |
| `RetrievalOrder.SelectedIsPreferred` | src/imprint/retrieve/engine.py:224-238 | Of two wanted records of one section, one selected although the other, no longer than it, is left out is the preferred one. |
| `RetrievalOrder.SharesExactly` | src/imprint/retrieve/engine.py:113-120 | The shares are a quarter, a half and a quarter, and what does not divide goes to the first sections first. |
| `RetrievalOrder.OmittedExceedsShares` | src/imprint/retrieve/engine.py:224-240 | Every wanted record left out is longer than what its section and those before it have left of their shares together. |
| `RetrievalOrder.BudgetExactly` | src/imprint/retrieve/engine.py:158-166 | A budget is admitted up to 32 KiB, and up to 128 KiB where a higher one is allowed. |
| `RetrievalOrder.AnswerCounts` | src/imprint/retrieve/engine.py:224-249 | The payload is the selected renderings in order, section after section, and selected and omitted records add up to the wanted ones. |
| `RetrievalOrder.AnswersHoldOnly` | src/imprint/retrieve/engine.py:40-96 | An answer holds only, and every candidate competes that is, current and undisputed records with provenance and evidence, an admitted pair of tier and status, their cases, and their own domain. |
| `Utf8.TruncateIsLongest` | src/imprint/cli.py:164-168 | Truncation fails exactly on a lone surrogate and otherwise keeps the longest prefix of whole code points that fits. |
| `Utf8.DecodeEncode` | src/imprint/cli.py:165-168 | Encoding succeeds exactly without lone surrogates and strict decoding undoes it. |
| `Utf8.DecodeSplitsAtNewline` | src/imprint/cli.py:182-187 | Strictly decoded text splits at any newline byte. |
| `Utf8.EncodesByRange` | src/imprint/cli.py:165-168 | Each code point takes the number of bytes section 3 of RFC 3629 gives it. |
| `Utf8.DecodesOnlyEncodings` | src/imprint/cli.py:182-187 | Strict decoding accepts nothing but encodings: shortest form, no surrogate, no cut sequence. |
| `Transcript.LinesExactly` | src/imprint/capture/transcript.py:116-121 | The lines are the text, cut after every break and nowhere else; a return and a newline are one. |
| `Transcript.StripsExactly` | src/imprint/capture/transcript.py:122-124 | Stripping takes every return and newline off the end, and nothing else. |
| `Transcript.MessagesExactly` | src/imprint/capture/transcript.py:125-131 | The lines are refused if and only if the last one is malformed and does not end in a return or newline. |
| `Transcript.EachLineSpeaks` | src/imprint/capture/transcript.py:121-142 | Otherwise each line in turn adds the message it says, if it says one. |
| `Transcript.FeedbackExactly` | src/imprint/capture/transcript.py:140-151 | There is feedback if and only if the user has spoken: the last such text, and that of the latest assistant before it. |
| `Transcript.ReadMessages` | src/imprint/capture/transcript.py:116-142 | The line loop collects the messages, records exactly the malformed lines and refuses only an unfinished last line. |
| `Transcript.FindFeedback` | src/imprint/capture/transcript.py:143-151 | The backward searches find the last user message and the assistant message before it. |
| `Transcript.ParseFull` | src/imprint/capture/transcript.py:116-151 | The full parser computes the specified feedback. |
| `Transcript.ParseTail` | src/imprint/cli.py:171-223 | The tail parser computes the specified feedback of what it keeps. |
| `Transcript.LinesSplit` | src/imprint/cli.py:187 | Text splits into lines independently before and after a newline. |
| `Transcript.KeptAgrees` | src/imprint/cli.py:182-216 | On every accepted transcript the kept tail alone has feedback exactly when it has a user message, with the same operator text and the same prior text if one precedes it there. |
| `Transcript.ParsersAgree` | src/imprint/cli.py:200-209 | The two parsers' different defaults for a missing message make no difference. |
| `Transcript.TailRefinesFull` | src/imprint/cli.py:182-223 | On every transcript the full parser accepts the tail parser, with its own reading of lines, succeeds exactly when that tail has a user message and its prior text has no lone surrogate, and returns the same operator text and the longest fitting prefix of the same prior text. |
| `Transcript.SurrogateBreaksTail` | src/imprint/cli.py:164-168 | A concrete transcript, under a concrete reading of its lines, that the full parser with its own reader accepts and the tail parser with its own does not. |

## Left out

- Cryptography: canonical JSON (section 3.2 of RFC 8785), Ed25519 (section 5.1 of RFC 8032), scrypt and passphrases are assumed; a digest remembers what was hashed and a signature who signed what.
- Field-set, version, hexadecimal and timestamp-syntax checks on ledger events and checkpoints: the values are typed, so ill-formed ones cannot be written down; two base64 texts of one key are one value.
- Uniqueness of fingerprints, enrollment nonces and blob paths in `authority_keys`: only the primary key and the one-active-row index are modelled.
- Reads before a ceremony's write (reconciliation, the active row, the chain, the bundle) see one state; approval's reconciliation and its transaction are one step; enrollment, bootstrap, pairing request, finalization and restore on a fresh target are one step.
- Terminal prompts, clocks, random identifiers and generated keys: inputs of the functions and methods.
- Bootstrap, pairing request and restore are modelled on values only, not as methods that update tables in place.
- Recovery enrollment's publication journal, signed export and backup manifests, and the transport export ceremony.
- CeremonyInvariant: is about ceremonies one after another; interleaved ones are the subject of `HoldKeptExactly`. The crash points between publishing a key file and committing are in `KeyPublication`, which does not repeat the ledger.
- EnrolledRunsAreCoherent: likewise for ceremonies one after another.
- HeldUntilAdjudicated: likewise; with interleaved ones, an adjudication that read before the block was lifted is covered by `HoldKeptExactly`.
- KeyDirectory.Reconcile: whether the rows agree with the signed ledger is an input; the agreement itself is part of `OpenReconciledKey`.
- OwnershipExactly: valid owner records and owners on one host; remote owners and the recovery of an invalid lock rest on age alone and have no exclusion to prove.
- VerifyBundle: the digests of the ledger and of the encrypted key inside a bundle file, and its canonical form, are not modelled.
- NoLoss: says "represented", not "in the store", because content deduplication answers for a second event with the same wording (`SecondCopyIsLost`).
- CompileAppliesEverything: the clock readings of one compile are one value.
- Quarantine receipts are a set of source paths; their retention, symbolic links, permissions and directory syncs are not modelled.
- An event URN is identified with its last component, and normalised wording with its digest.
- PurgeSucceedsExactly: the purge's approval token and the checks of its confirmation and data root are not modelled; a foreign key is checked once, on the tables after all deletions.
- PurgeKeepsReferences: consumed-input rows, file removal and residue scans are not modelled.
- ImportOfExport: row validators, JSON-LD term expansion, the graph view and manifest signatures are not modelled; unique indexes, row checks and the generation trigger's arithmetic are any functions, with the generation row of `meta` held apart from its other rows.
- Floating-point and boolean cells: no exported column holds one.
- OrderDoesNotMatter: lexical scoring, rendering and day buckets are inputs; UTF-8 byte order of identities is their code point order.
- The per-partition listing of selected identities in a retrieval result.
- TailRefinesFull: the JSON reading of one line, up to its message member, is any function of its text, and the reading of the file itself (bounds, identity checks) is an input.
- Domain selection, ingest rulings, projections, feedback detection, hooks, backup, migrations and release tooling.
