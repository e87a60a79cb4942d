# Verification of the Signal protocol library

A Dafny model of the protocol logic of the library, with proofs. `dafny verify dfyconfig.toml`
checks all of it.

The cryptography is symbolic (`Keys.dfy`): key pairs have ids, a Diffie-Hellman agreement is an
unordered pair of ids, HKDF and HMAC are free constructors, a ciphertext opens only with the key
it was sealed with, and a tag or signature verifies only for the key and input it was made with.
Everything around the cryptography is what is modelled.

**Sessions.** `Ratchet.dfy` says on values what one ratchet operation does: filling and pruning
message keys, closing chains, the two halves of a ratchet step, eviction, encryption, decryption.
`Chains.dfy`, `SessionEntry.dfy` and `SessionRecord.dfy` have the same operations on objects that
change in place, with the loops of the source, each proved to compute its function of values.
`X3dh.dfy` is the handshake. `Protocol.dfy` puts two parties on a network that delivers in any
order, drops, repeats, redirects and makes up messages, short of making up tags. Runs are described
by ratchet epochs: epoch 0 is the responder's signed prekey, the odd epochs are the initiator's
ratchet keys and the even ones the responder's ("The Double Ratchet Algorithm", sections 3.2 to
3.5). `Epochs.dfy`, `EpochLemmas.dfy`, `Soundness.dfy`, `Preservation.dfy` and `Delivery.dfy` prove
the invariant of all runs; `Theorems.dfy`, `Completeness.dfy` and `Eviction.dfy` draw the
conclusions. `RatchetLaws.dfy` writes messages and steps out in the primitives. `SessionTable.dfy` is the
record with its open, closed and evicted sessions, `SessionTimes.dfy` what its times mean, and
`FirstMessage.dfy` goes from one party's first message to the other's record.

**Key buffers.** In these modules keys are values. In the source they are buffers that fields refer
to, and that are overwritten with zeros when they are replaced or removed. `Buffers.dfy`,
`BufferSessions.dfy` and `BufferRecord.dfy` have the operations once more on references into one
heap, where two fields could refer to one buffer, and prove that they never do, that the sessions
read as they would if keys were values, and which buffers of a derivation stay unwiped.

**Groups.** `SenderKeys.dfy` is the hash ratchet of one sender key and the record of five,
`SenderKeyRecord.dfy` the objects, `GroupMessages.dfy` the messages, and `GroupProtocol.dfy` the
runs of an owner and a receiver; several receivers do not meet.

**Storage.** `StorageContents.dfy` says what the operations of a store mean, and `Stores.dfy` has the
two stores, each on its own fields; `StorageLaws.dfy` says what can be read after any operations.
`StorageSnapshot.dfy` is the saved form, over `SessionForms.dfy`
and `SenderKeyForms.dfy`, the serialized records, and `Texts.dfy` and `Objects.dfy`, which have
base64, decimal property names and objects.
`FileSystem.dfy` has the file operations, each of which may throw or be the last one before a
crash; `FileStorage.dfy` opens and saves; `FileProtocol.dfy` has several processes on one file.
`PreKeyIds.dfy` generates a range of prekeys. `PreKeyPool.dfy` has any number of pool managers in
any number of processes on one store; `PreKeyRanges.dfy` proves when ids are distinct and
`PreKeyPublication.dfy` what is published, and `PreKeyFiles.dfy` shows that the files are such a
store. `PreKeyBundle.dfy` is the search for a candidate.

**Job queue and wire format.** `QueueJob.dfy` interleaves enqueues with running jobs.
`Wire.dfy`, `WireMessages.dfy` and `Messages.dfy` are the Protocol Buffers encoding and the frames.

Where the code and a document differ the model follows the code. "The Double Ratchet Algorithm"
counts the messages of the previous sending chain (PN); the code sends the index of the last one
and fills inclusively up to it (`src/session-cipher.ts:461`, `src/session-cipher.ts:470`), and sends
0 where no chain has been used yet (`src/session-builder.ts:217`).

Some properties hold under a condition only.

**Opening messages.** `Completeness.OpensExactlyWhen` and `GroupProtocol.OpensExactlyWhen` give the
exact condition for a message to open.

**Records and stores.** `SessionTable.EvictsTheOldest` gives the condition for the corrupt-record
error, and `StorageContents.SignedPreKeyLoadableWhen` for a stored signed prekey to be loadable:
pruning looks at ids only, so storing an id that was retired long ago removes it at once.
`StorageSnapshots.ReloadExactlyWhen` gives it for contents to survive saving: a record under the id
`__proto__` sets the prototype of the object that it is assigned to (`src/file-storage.ts:758-766`)
and is not saved, and an empty key reads as a missing one. The two stores differ in one point: the
file store tells its listeners of a removed prekey also if it had none (`src/file-storage.ts:1082`),
the store in memory only if it had (`src/memory-storage.ts:169`).

**Files.** `FileProtocol.LatestIsFound` gives the condition for an opening without backups to find the
store, with `OpeningWithoutBackupStartsOver` as the input that fails otherwise; runs leave such
openings out. Runs start with no file, or with one that is at revision 1 or later or has an older
format, and any backup beside it. `FileProtocol.OneChainExactlyWhen` shows that a file may be started
from exactly then: a file in the current format without a revision is taken to be at revision 0
(`src/file-storage.ts:540`), and `RevisionZeroLosesUpdate` is the run that goes wrong.

**Prekey ids.** A pool manager reads the next id and reserves its range in two steps
(`src/prekey-pool.ts:113`, `src/prekey-pool.ts:118`), and only calls of one manager wait for each
other. So two managers of one store generate the same ids when their steps interleave
(`TwoManagersCollide`), and then overwrite published prekeys and publish an id twice
(`TwoManagersOverwrite`, `TwoManagersPublishTwice`). `PreKeyRanges.DistinctExactlyWhen` gives the
condition for distinct ids in runs in which every reading has led to a saved reservation. A reading
that fails does no harm by itself, but does when it overlaps (`FailedReadingRepeats`).
`RepeatsExactlyWhen` and `PublishesTwiceExactlyWhen` give the condition for one reading to be safe,
whatever has failed before and whatever comes of it.

## Model

| member | source | states |
|---|---|---|
| X3dh.InitSession | src/session-builder.ts:150-242 | Per role, on the arguments: the four or five blocks of the shared secret in their order, the master key from them, and every field of the session; the initiator has made its first step; the illegal argument combinations throw |
| X3dh.HandshakeAgrees | src/session-builder.ts:244-269 | With or without a one-time prekey both roles reach one root key, and the chain the responder derives on its first ratchet step is the initiator's first sending chain, turned round |
| X3dh.MasterKeyInjective | src/session-builder.ts:176-206 | Equal master keys mean equal identity, base key and prekeys, so a false claim about the handshake gives other keys |
| Theorems.RunInv | src/session-cipher.ts:148-503 | The invariant of all runs: both sessions follow one history of ratchet epochs, whatever the network delivers, drops, repeats or makes up |
| Theorems.Agreement | src/session-cipher.ts:360-416 | Whatever a party opens was sealed by its peer, under the message key of that epoch and counter and with the same MAC input |
| Theorems.AtMostOnce | src/session-cipher.ts:390-397 | No (ratchet key, counter) yields a plaintext twice in the life of a session, not even after its chain is closed or evicted |
| Theorems.EpochsAgree | src/session-cipher.ts:453-503 | The parties are always exactly one epoch apart; the later root is one step from the earlier, and the open receiving chain is an earlier point of the peer's sending chain |
| Theorems.SessionsWellShaped | src/session-record.ts:100-146 | Every stored session: one sending chain at the own ratchet key with no cached keys; otherwise receiving chains, at most 5, each with at most 2000 cached keys not above its counter; the newest remote chain is there and open |
| Theorems.SendingNeverFails | src/session-cipher.ts:168-184 | A party with a session can always encrypt: the missing and wrong-direction chain errors cannot be reached |
| Theorems.NeverOverwrites | src/session-record.ts:100-108 | No packet, honest or made up, leads to the overwrite error |
| Completeness.OpensExactlyWhen | src/session-cipher.ts:429-481 | A packet that was sent opens, now, late or again, if and only if its key is cached, or its chain reaches it within 2000 steps and is open, or it starts the next epoch and the previous chain can be filled up to the index it names |
| Completeness.CachedUnlessOpened | src/session-cipher.ts:418-451 | A key that was not used is still there unless it is 2000 or more behind |
| Completeness.DeliveredHoweverLate | src/session-cipher.ts:429-481 | While no chain carries more than 2000 messages, a message that was sent and not opened opens whenever it arrives, unless five newer chains of its sender have replaced its chain |
| Completeness.SentOnce | src/session-cipher.ts:185-204 | A sealed message has one place in the history: epoch, number and plaintext are determined by it |
| Soundness.Authentic | src/session-cipher.ts:399-409 | A tag that verifies for a message key derived from the history was made by the peer for that message |
| Soundness.AcceptedOnChain | src/session-cipher.ts:379-411 | What opens on a chain at hand was sent by the peer in the epoch of that chain |
| Soundness.AcceptedOnStep | src/session-cipher.ts:453-481 | What opens by a ratchet step was sent by the peer in the next epoch |
| Eviction.EvictedIsRejected | src/session-cipher.ts:379-409 | A late message of an evicted chain is taken for the start of a new epoch and rejected, for a bad MAC if and only if the step can be made (the previous chain can be filled up to the index it names, and its counter is below 2000), for being too far ahead otherwise, and nothing changes |
| Preservation.SendKeepsInv | src/session-cipher.ts:148-240 | Encrypting keeps the invariant and extends the sending epoch by one honest message |
| DeliveryLemmas.DeliverKeepsInv | src/session-cipher.ts:269-358 | Receiving keeps the invariant; a rejected packet changes nothing |
| DeliveryLemmas.ClaimIsTrue | src/session-cipher.ts:297-339 | A session that an envelope starts, at either party, opens a message only at the responder and only if the envelope told the true handshake |
| EpochLemmas.StepKeepsShape | src/session-cipher.ts:453-481 | A ratchet step takes a session of one epoch to one two epochs on: chains, order, roots and counters |
| EpochLemmas.FillReceiving | src/session-cipher.ts:429-451 | Filling a receiving chain keeps its keys those of the peer's chain, and reaches only keys not used before |
| RatchetLaws.SentIs | src/session-cipher.ts:184-203 | Which of the three keys derived from the next message key seals the message and which makes its tag, the order of the identities under the tag, the numbers sent, and when there is an envelope |
| RatchetLaws.SentLeaves | src/session-cipher.ts:183-190 | The sending chain goes one step on and the message key is not kept |
| RatchetLaws.NotSentWhen | src/session-cipher.ts:168-182 | The errors of encrypt on a session without a usable sending chain |
| RatchetLaws.OpensWhat | src/session-cipher.ts:396-413 | A message key opens exactly what was sealed with the keys derived from it and tagged by the remote identity for ours |
| RatchetLaws.ReceivedIs | src/session-cipher.ts:379-415 | On a receiving chain: the next message, a late one, a used or unknown key and more than 2000 ahead, with the session that each leaves |
| RatchetLaws.StepIs | src/session-cipher.ts:453-503 | A ratchet step written out: both derivations with the root that each starts from, what becomes of every chain and field |
| RatchetLaws.StepFails | src/session-cipher.ts:458-464 | It fails as the fill of the previous chain does |
| Ratchet.NewestKeepsTheGreatest | src/session-cipher.ts:418-427 | Pruning keeps exactly the 2000 greatest counters, or all if there are fewer |
| Ratchet.FillIsFilled | src/session-cipher.ts:429-451 | A fill that succeeds ends at the target with the iterated KDF as chain key, the target's key among the cached, and every missing key used before or 2000 back |
| IntSets.SortedPosition | src/session-cipher.ts:418-427 | In the ascending key list of an object with integer keys, position and number of greater keys determine each other |
| IntSets.DropLowest | src/session-cipher.ts:418-427 | Deleting the first keys of the ascending list leaves the greatest |
| Chains.ChainState.FillMessageKeys | src/session-cipher.ts:429-451 | The loop computes the closed form: all or nothing, with the chain untouched when it throws |
| Chains.ChainState.Prune | src/session-cipher.ts:418-427 | The pruning loop keeps the 2000 greatest counters and nothing else |
| Chains.ChainState.Take | src/session-cipher.ts:390-397 | The key leaves the chain when it is handed out |
| Entries.SessionEntry.CalculateRatchet | src/session-cipher.ts:483-503 | Computes the half step on the object, or fails with the object as it was |
| Entries.SessionEntry.ClosePrevious | src/session-cipher.ts:458-464 | Fills the previous remote chain up to the last index sent on it, then closes it |
| Entries.SessionEntry.RetireSending | src/session-cipher.ts:468-472 | The last index sent becomes previousCounter and the old sending chain goes |
| Entries.SessionEntry.MaybeStepRatchet | src/session-cipher.ts:453-481 | Computes the full step of the value model on the object |
| Entries.SessionEntry.RemoveOldReceiverChains | src/session-record.ts:131-146 | Deletes exactly the oldest receiving chains beyond the limit, in insertion order |
| Entries.SessionEntry.DeleteChain | src/session-record.ts:115-129 | The chain is wiped and leaves the table, and no other chain changes |
| Entries.SessionEntry.DoDecrypt | src/session-cipher.ts:379-416 | Computes the value model's decryption on the object, with the same errors |
| Entries.SessionEntry.Encrypt | src/session-cipher.ts:168-238 | Computes the value model's encryption on the object; only the sending chain changes |
| Entries.SessionEntry.Copy | src/session-record.ts:166-251 | The copy that a message is tried on is the same session in objects of its own |
| SessionForms.CopyIsReload | src/session-record.ts:166-251 | That copy is what deserialize makes of what serialize writes, chains in their order and closed chains included, whatever bytes the keys have |
| Entries.SessionEntry.WipeKeyMaterial | src/session-record.ts:154-164 | No key of the session is left |
| KeyBuffers.FillMessageKeys | src/session-cipher.ts:429-451 | On key buffers, with each new key in a buffer of its own and the old chain key wiped: the same fill, no other buffer written, none of the chain's buffers left unwiped when given up |
| KeyBuffers.Prune | src/session-cipher.ts:418-427 | The pruned message keys are zero, the newest 2000 still readable |
| SessionBuffers.CalculateRatchet | src/session-cipher.ts:483-503 | Root and chain key are derived from the live private key into new buffers, shared secret and old root are wiped; only if the chain exists already two keys stay behind |
| SessionBuffers.MaybeStepRatchet | src/session-cipher.ts:453-481 | The step on buffers computes the value model's step, keeps the session's buffers pairwise distinct, writes to no buffer of anybody else, and lets go of the old private key |
| SessionBuffers.DecryptOnChain | src/session-cipher.ts:384-415 | The message key is wiped; of the keys derived from it three stay in memory if and only if the tag or the ciphertext is wrong |
| SessionBuffers.Encrypt | src/session-cipher.ts:168-202 | Encryption on buffers computes the value model's packet and leaves no key of the message behind |
| SessionBuffers.CopyEntry | src/session-record.ts:166-251 | A copy reads the same and shares no buffer with anything that was there |
| SessionBuffers.WipeKeyMaterial | src/session-record.ts:154-164 | Every buffer of the session is zero, and no other buffer changes |
| RecordBuffers.TryCandidate | src/session-cipher.ts:249-263 | A copy is tried; when it fails it is wiped, and the session and all other buffers are as they were |
| RecordBuffers.InitIncoming | src/session-builder.ts:170-242 | The responder's session in new buffers, the signed prekey copied; which two buffers of the derivation are not wiped |
| RecordBuffers.InitOutgoing | src/session-builder.ts:170-269 | The initiator's session in new buffers; which four buffers are not wiped |
| RecordBuffers.BuffersAreValues | src/session-cipher.ts:242-358 | Over every sequence of sends, receipts, handshakes and evictions: no two sessions, and no session and the storage, share a key buffer, every stored key is intact, and the sessions read exactly as they would if keys were values |
| RecordBuffers.NewRecordIsSound | src/session-cipher.ts:315-318 | A new record, on a storage with the right keys, is where those sequences may start |
| RecordBuffers.ReceiveIsTried | src/session-cipher.ts:269-295 | What receipt does to the sessions there is what the record object is proved to do |
| RecordBuffers.SharedPreKeyIsLost | src/session-builder.ts:213-215 | The same handshake without the copy of the signed prekey, followed by the first ratchet step, leaves zeros in the storage's key |
| Records.DecryptWithSessions | src/session-cipher.ts:242-267 | The first session that opens the message, tried on copies; when none does, every session is as it was |
| Records.TriedMeans | src/session-cipher.ts:242-293 | What comes of a message that is tried on the sessions: none opens it; the first that does has an untrusted identity, and nothing changes; or that session alone moves on |
| Records.SessionRecord.DecryptWhisperMessage | src/session-cipher.ts:269-295 | In getSessions order the first session that opens the message moves on, if its identity is trusted, and its old keys are wiped; all others, and the whole record on failure or refusal, stay as they are |
| Records.SessionRecord.InitIncoming | src/session-builder.ts:95-147 | The checks in their order (trust, own base key, both prekey lookups) and their errors, with the record unchanged; otherwise the session of the base key is found, or is set up as the handshake says and opened, with the open one closed. Which key pairs that handshake has is in HandshakeIsClaimed and OpenFirst |
| FirstMessages.InitOutgoing | src/session-builder.ts:32-93 | A bundle whose signed prekey its identity has not signed, or whose identity is not trusted, is refused and changes nothing; otherwise the initiator's session of that handshake, naming the prekeys, is the open one, and what is too old has made room |
| FirstMessages.RefusedExactlyWhen | src/session-builder.ts:98-119 | For each error of the handshake the exact condition, and that a message of a known session needs no prekeys |
| FirstMessages.HandshakeIsClaimed | src/session-builder.ts:107-140 | The responder takes both prekeys from the storage, by the ids of the message, and its handshake is the one that the runs of two parties speak of |
| FirstMessages.FirstMessageOpens | src/session-cipher.ts:297-358 | The packet that encrypt makes of a new outgoing session opens in the responder's new session, which takes over the initiator's root |
| FirstMessages.OpenFirst | src/session-cipher.ts:315-358 | So does the receiving of that packet by a record, with or without a one-time prekey: exactly the plaintext and the id of the one-time prekey come back, the session at the base key has the initiator's root and identity, and every other session stays |
| Records.SessionRecord.DecryptPreKeyMessage | src/session-cipher.ts:297-358 | A first or repeated prekey message is decrypted on a copy of its session, which takes that session's place; every other session stays, also when it fails; the id returned is the prekey that a new session has used up |
| Records.SessionRecord.GetOpenSession | src/session-record.ts:401-409 | The first open session in insertion order, or none |
| Records.SessionRecord.SetSession | src/session-record.ts:411-413 | Replaces in place or appends, and touches no other session |
| Records.SessionRecord.CloseOpen | src/session-record.ts:423-429 | Closes the open session and changes no key |
| Records.SessionRecord.Start | src/session-builder.ts:79-90 | A new session enters with the open one closed first |
| Records.SessionRecord.RemoveOldSessions | src/session-record.ts:439-461 | The eviction loop computes the value model; sessions that stay keep their contents |
| Records.SessionRecord.RemoveStaleSessions | src/session-record.ts:463-472 | The loop computes the value model, whose condition is StaleExactlyWhen; sessions that stay keep their contents |
| SessionTable.EvictsTheOldest | src/session-record.ts:439-461 | The corrupt-record error is thrown if and only if more than 40 sessions are open; otherwise 40, or all, stay, and each evicted session was closed before every closed one that stays, earlier entries first on ties |
| SessionTable.ByUseSorts | src/session-record.ts:415-421 | getSessions is a permutation, most recently used first, ties in record order |
| SessionTable.RecordsStayStored | src/session-cipher.ts:135-142 | Over every sequence of handshakes, messages and closings, with any clock: at most one open session, at most 40 stored, and the corrupt-record error never thrown |
| SessionTable.HandshakeIsCurrent | src/session-builder.ts:79-91 | After either handshake the new session is the open one in the stored record |
| SessionTimes.StaleExactlyWhen | src/session-record.ts:463-472 | A session goes for its age if and only if it is closed and was last used, or if never used created, before the cutoff |
| SessionTimes.StaleKeepsOrder | src/session-record.ts:463-472 | The sessions that stay keep their order |
| SessionTimes.StoredExactlyWhen | src/session-cipher.ts:135-142 | What storing keeps of the sessions that are not evicted, for every age limit |
| SessionTimes.OpenedIsStored | src/session-cipher.ts:285-293 | After any calls: a session that has just opened a message is in the stored record, with the time of the message |
| SessionTimes.HandshakeRecords | src/session-builder.ts:75-91 | What a handshake writes down: the new session open, created and used now, and ours or theirs; the one that was open closed now; all others as they were |
| SessionTimes.OtherCallsRecord | src/session-cipher.ts:285-293 | What every other call writes down |
| SessionTimes.ClosedFirstGoesFirst | src/session-record.ts:423-461 | Over calls: of two sessions closed by later handshakes, the one that was closed first is evicted first, with the times of those handshakes |
| SenderKeys.KeyOfIteration | src/group-cipher.ts:95-117 | The key returned for iteration i is key i of the KDF chain, has not been handed out before, and the state goes on following the chain with its skipped keys strictly rising, below the iteration and at most 2000 |
| SenderKeys.HandedOutExactlyWhen | src/group-cipher.ts:95-117 | A key is handed out if and only if it is cached or at most 2000 ahead; that misses only used keys and those more than 2000 back |
| SenderKeys.NewestFollows | src/sender-key-state.ts:113-122 | What push and shift drop is the lowest key, more than 2000 back |
| SenderKeys.AddStateKeeps | src/sender-key-record.ts:23-40 | No key id twice, at most 5 states, the new one last, nothing kept of an older state with the same id |
| SenderKeys.AddStateDrops | src/sender-key-record.ts:37-39 | Another state goes only when the record is full, and then the first |
| SenderKeyRecords.SenderKeyState.AddSenderMessageKey | src/sender-key-state.ts:113-122 | Appends and keeps the newest 2000 |
| SenderKeyRecords.SenderKeyState.RemoveSenderMessageKey | src/sender-key-state.ts:124-138 | Removes and returns exactly the key of the iteration, or nothing |
| SenderKeyRecords.SenderKeyState.SkipTo | src/group-cipher.ts:110-113 | The loop puts by every key on the way |
| SenderKeyRecords.SenderKeyState.GetSenderKey | src/group-cipher.ts:95-117 | Computes the closed form; a failure leaves the state as it was |
| SenderKeyRecords.SenderKeyRecord.AddSenderKeyState | src/sender-key-record.ts:23-40 | Computes the value model on the record |
| SenderKeyRecords.SenderKeyRecord.SetSenderKeyState | src/sender-key-record.ts:42-51 | The record holds the new state alone |
| SenderKeyRecords.EncryptGroup | src/group-cipher.ts:26-64 | Encrypts on the latest state with the key of its own iteration |
| SenderKeyRecords.DecryptGroup | src/group-cipher.ts:66-93 | Decrypts on the state that the message names, after its signature verifies |
| SenderKeyRecords.CreateGroup | src/group-session-builder.ts:45-73 | A record that has a state stays as it is, an empty one gets the new state; the distribution message has the fields of the latest state |
| SenderKeyRecords.RotateGroup | src/group-session-builder.ts:75-100 | The record is replaced by one new state at iteration 0, whose key and public signing key the distribution message has |
| SenderKeyRecords.ProcessGroup | src/group-session-builder.ts:16-43 | The receiver's state starts at the iteration and chain key of the distribution message, whose keys must have 32 and 33 bytes |
| GroupProtocol.RunKeepsInv | src/group-cipher.ts:26-117 | The invariant of every run of an owner and a receiver, with any delivery order, repetition and forgery by others |
| GroupProtocol.GroupAgreement | src/group-cipher.ts:66-93 | What the receiver opens under a number is what the owner sent under that number |
| GroupProtocol.OpenedAtMostOnce | src/group-cipher.ts:98-104 | Until a key id is processed again, each of its iterations is opened at most once |
| GroupProtocol.ConsecutiveIterations | src/group-cipher.ts:43-62 | The owner can send once there is a session, and each message takes the next iteration and the key of that number |
| GroupProtocol.ReceiverFollows | src/sender-key-record.ts:15-40 | Every state of the receiver's record follows the chain of its key id, after any run |
| GroupProtocol.OpensExactlyWhen | src/group-cipher.ts:95-117 | A sent message opens if and only if its iteration is not a wrapped one for this receiver and its key is cached or at most 2000 ahead |
| GroupProtocol.CreateKeepsSession | src/group-session-builder.ts:49-71 | Over all runs: create on a running session changes no key, and what it returns is for the next message, under the key id that this is sent under |
| GroupProtocol.BeginsAnew | src/group-session-builder.ts:49-96 | The first create and every rotate begin a chain of their own |
| GroupProtocol.NewcomerOpens | src/group-session-builder.ts:16-43 | Over all runs: who processes the latest distribution message opens the next message that is sent |
| GroupMessages.SentIs | src/group-cipher.ts:33-57 | encrypt uses the last state; how the message is sealed and what is signed; the chain goes one iteration on |
| GroupMessages.OpensWhat | src/group-cipher.ts:84-85 | A message key opens exactly what was sealed with the keys derived from it |
| GroupMessages.NotSentWhen | src/group-cipher.ts:28-41 | The two errors of encrypt, each with its exact condition |
| GroupMessages.RefusedWhen | src/group-cipher.ts:73-82 | decrypt refuses a message without a state of its key id, and exactly those that the key of that state has not signed, before it looks at the chain |
| JobQueue.Executor.Continue | src/queue-job.ts:15-32 | From one await to the next: the next job, the next stretch after the splice, or the end |
| JobQueue.Buckets.QueueJob | src/queue-job.ts:37-58 | Appends to the active queue, or starts an executor |
| JobQueue.Buckets.JobSettles | src/queue-job.ts:18-34 | Goes on after a job, or removes the bucket |
| JobQueue.ContinuesWith | src/queue-job.ts:15-36 | When the executor goes on to the next job, when it cuts the settled ones off and counts again up to 500, and when it ends |
| JobQueue.OneAtATimeInOrder | src/queue-job.ts:12-35 | For every interleaving the jobs of a bucket settle once each in enqueue order, one at a time, and the bucket is in the map exactly while a job has not settled |
| JobQueue.NothingLost | src/queue-job.ts:26-34 | As many settlements as jobs are missing settle them all, whatever the outcomes, and then the bucket is gone: neither the splice nor the cleanup loses one |
| JobQueue.BucketsIndependent | src/queue-job.ts:9-34 | An event of one bucket leaves every other as it is |
| Texts.Base64Reads | src/session-record.ts:166-251 | Bytes written as base64 are read back, with and without padding |
| Texts.Names | src/file-storage.ts:718-736 | Property names of integers are decimal |
| Texts.Vectors | src/session-record.ts:166-251 | The test vectors of section 10 of RFC 4648 |
| Objects.FromObjectInverts | src/file-storage.ts:718-736 | A Map with integer keys comes back from the object with decimal names that it is saved as |
| SessionForms.RecordReads | src/session-record.ts:360-384 | A session record comes back from its serialized form, sessions and chains in their order, if and only if no chain key is without bytes |
| SessionForms.UnversionedReads | src/session-record.ts:306-334 | A record of before the versions is read with its registration id given to the sessions that have none |
| SessionForms.WrittenAs | src/session-record.ts:166-251 | What is written of a record and its sessions, field by field |
| SessionForms.ChainWrittenAs | src/session-record.ts:253-274 | What is written of a chain |
| SessionForms.ReadExactlyWhen | src/session-record.ts:306-372 | Which versions of a record and of its sessions are read, and the error for others |
| SessionForms.BuildSessions | src/session-record.ts:366-372 | The loop of deserialize, which throws for the first entry of an unknown version |
| SessionForms.BuildChainForms | src/session-record.ts:253-274 | The loop of _serializeChains keeps the chains in their order |
| SessionForms.BuildChains | src/session-record.ts:276-297 | The loop of _deserializeChains likewise |
| SenderKeyForms.BuildStates | src/sender-key-record.ts:57-65 | The loop of deserialize, which throws for the first state of an unknown form |
| SenderKeyForms.RecordReads | src/sender-key-record.ts:53-65 | A sender key record comes back from its serialized form if and only if no private key is without bytes |
| SenderKeyForms.WrittenAs | src/sender-key-state.ts:140-156 | What is written of a sender key state, field by field |
| SenderKeyForms.ReadExactlyWhen | src/sender-key-state.ts:6-30 | A record is refused exactly when some bytes in it are in no known form |
| SenderKeyForms.FormsRead | src/sender-key-state.ts:6-30 | However the bytes of a state are written (base64, Buffer, list of numbers, wrapped base64), it is read as the same state |
| StorageSnapshots.ReloadIs | src/file-storage.ts:522-783 | For all contents: saving and reloading is refused if and only if an id, key or time is out of range, and what else it leaves of them |
| StorageSnapshots.ReloadExactlyWhen | src/file-storage.ts:714-783 | The contents come back if and only if everything is in range, each published id has a stored prekey, no key in a record is without bytes and no record is stored under __proto__ |
| StorageSnapshots.OpensWhenInRange | src/file-storage.ts:522-580 | The ranges and lengths, field by field, within which contents can be saved and opened again, and outside of which they cannot |
| StorageSnapshots.OpensAs | src/file-storage.ts:714-783 | What they are then, field by field |
| StorageSnapshots.ReloadedLikeMemory | src/file-storage.ts:714-783 | After any operations in range, saving and reloading gives exactly the contents of a store that was never saved |
| StorageSnapshots.ReloadAnywhere | src/memory-storage.ts:61-282 | Reloading at any point and going on equals going on without reloading |
| StorageSnapshots.ApplyKeepsInRange | src/file-storage.ts:522-580 | Every operation keeps the contents loadable and the published ids among the stored |
| StorageLaws.SessionReads | src/memory-storage.ts:66-68 | After any operations: a session is the record stored last under its id, unless an identity that it belongs to was removed since or saved with another key; every other id is as it was |
| StorageLaws.SenderKeyReads | src/memory-storage.ts:70-90 | Likewise for sender keys, unless the key or its group was removed |
| StorageLaws.IdentityReads | src/memory-storage.ts:92-122 | The key of an identity is the one saved last, or the first that was asked for when there was none and the policy is not strict, unless it was removed |
| StorageLaws.PreKeyReads | src/memory-storage.ts:158-173 | A prekey is the pair stored last under its id, unless removed |
| StorageLaws.ReservationReads | src/memory-storage.ts:185-198 | A prekey is reserved if it was reserved while stored, and neither released nor removed since |
| StorageLaws.SignedPairReads | src/memory-storage.ts:234-262 | A signed prekey is the pair stored last under its id, unless it was removed or found retired for the grace period |
| StorageLaws.RetirementReads | src/memory-storage.ts:240-262 | A signed prekey is retired by the next with another id, until it is removed or expires |
| StorageLaws.LatestReads | src/memory-storage.ts:245-247 | The latest signed prekey is the record stored last, even if its pair was removed |
| StorageLaws.NextIdReads | src/memory-storage.ts:272-278 | The next prekey id is the one set last |
| StorageLaws.Answers | src/memory-storage.ts:92-122 | What the operations that return a boolean answer, after any others |
| Stores.MemorySignalStorage.Do | src/memory-storage.ts:61-282 | The store in memory, on its own fields with its loops, does what each operation means, and tells its listeners; what the operations mean for each entry is in StorageLaws |
| Stores.FileSignalFields.Do | src/file-storage.ts:970-1187 | The memory part of the file store likewise; it tells of a removed prekey even if it had none |
| Stores.FileSignalFields.ToSnapshot | src/file-storage.ts:757-783 | The loops of toSnapshot build the saved form |
| Stores.FileSignalFields.Load | src/file-storage.ts:714-755 | Validation and the loops of applySnapshot: the contents of the saved form, or no store |
| Stores.StoresAgree | src/file-storage.ts:714-783 | The two stores, given the same operations, have the same contents in the end and give the same answers, also when the file store is saved and loaded anywhere in between |
| Stores.NewStoresAgree | src/memory-storage.ts:47-59 | So do two new stores with one identity, after any operations in range |
| StorageContents.ReservedUntilReleased | src/file-storage.ts:1095-1124 | A reservation succeeds exactly for a stored, unpublished prekey, excludes another until it is released, and releasing leaves no trace |
| StorageContents.RemovedIsGone | src/memory-storage.ts:166-191 | A consumed prekey is neither stored nor published nor reservable, and no other id changes |
| StorageContents.ChangedIdentityDropsSessions | src/memory-storage.ts:106-156 | A changed identity key is stored, answers true, and takes exactly the sessions of its identifier with it |
| StorageContents.SignedPreKeyLoadableWhen | src/memory-storage.ts:234-262 | A newly stored signed prekey can be loaded if and only if its id has not been retired for the grace period; the one it replaces stays loadable |
| FileStorage.Restore | src/file-storage.ts:656-685 | Recovery moves the backup into the place of a missing or corrupt main file; stopped at any point, the files still hold the snapshot |
| FileStorage.FindState | src/file-storage.ts:646-686 | What is loaded from main or backup, when opening refuses, and when it finds nothing |
| FileStorage.ReadsExactlyWhen | src/file-storage.ts:646-686 | In terms of the files: a whole main file is loaded, or refused for its key, whatever the backup holds; the backup stands in only for one that is missing or corrupt |
| FileStorage.CurrentWhen | src/file-storage.ts:803-827 | In terms of the files: when the revision check passes |
| FileStorage.RotatedExcludes | src/file-storage.ts:935-954 | After a save under a new key another key opens nothing, not even the backup, and the new key opens what was saved |
| FileStorage.FileSignalStorage.Create | src/file-storage.ts:634-712 | Opening, with recovery, a first save for a new store and a save for a legacy one, under any fate of the file operations; when none of them fails it is refused only for what the files hold |
| FileStorage.FileSignalStorage.AssertRevisionCurrent | src/file-storage.ts:803-827 | Passes exactly when the main file can be read and has the revision of this process, or is missing at revision 0 |
| FileStorage.FileSignalStorage.SaveUnlocked | src/file-storage.ts:844-885 | A save that returns has committed, one that throws has not, and a crash between any two file operations leaves the old snapshot or the new; when nothing fails it returns, and when one operation throws the main file is put back |
| FileStorage.FileSignalStorage.Save | src/file-storage.ts:829-842 | Nothing to do, a conflict with the files untouched, or the outcome of the save, which returns when no file operation fails |
| FileStorage.FileSignalStorage.RotateEncryptionKey | src/file-storage.ts:935-954 | The check uses the old key, the snapshot gets the new one, and the old one comes back when the save throws |
| FileStorage.FileSignalStorage.ReservePreKey | src/file-storage.ts:1095-1109 | Refused for ids that are missing or published; otherwise saved at once, and taken back when the save throws |
| FileStorage.FileSignalStorage.ReleasePreKey | src/file-storage.ts:1111-1124 | Likewise for releases |
| FileStorage.FileSignalStorage.Perform | src/file-storage.ts:970-1083 | The other operations change the memory and either save at once or leave it to a later save |
| FileProtocol.CommitsFormOneChain | src/file-storage.ts:803-885 | Over all runs of several processes with crashes anywhere, the committed snapshots have revisions n, n+1, n+2 and so on, each built on the one before |
| FileProtocol.CurrentExactlyWhen | src/file-storage.ts:803-827 | The revision check passes exactly for a process that has the latest commit, while the main file is whole and in its place |
| FileProtocol.StaleSaveConflicts | src/file-storage.ts:829-842 | A save from a stale base raises a conflict and leaves the files unchanged |
| FileProtocol.SaveBuildsOnLatest | src/file-storage.ts:829-885 | A save that returns has put its data on top of the latest commit, which its process had; one that throws has committed nothing |
| FileProtocol.LatestIsFound | src/file-storage.ts:646-712 | After any run, opening with backups finds the latest commit; opening without finds it exactly when the main file is whole and in its place |
| FileProtocol.CrashSafety | src/file-storage.ts:844-885 | One save seen from the next opening: the old snapshot or the new, the new if it returned, the old if it threw |
| FileProtocol.OpeningWithoutBackupStartsOver | src/file-storage.ts:646-711 | The input that shows why the condition is needed: opening without backups while the main file is moved aside makes a new identity over an existing store |
| FileProtocol.RevisionZeroLosesUpdate | src/file-storage.ts:538-541 | The run from a file in the current format at revision 0: one of two processes saves and crashes while it saves again, and the other one, still at revision 0, takes the main file that is moved aside for one that was never there and overwrites the commit |
| FileProtocol.OneChainExactlyWhen | src/file-storage.ts:803-885 | For every starting file, with any backup: all its runs have one chain of commits if and only if it is at revision 1 or later or of an older format |
| PreKeyIds.WrapIsCircular | src/keyhelper.ts:10-12 | With the truncating remainder of JavaScript, ids wrap from 1 to 0xffffff from either side |
| PreKeyIds.WrapAdds | src/prekey-pool.ts:118-120 | Wrapping the reserved start and stepping on is wrapping the position |
| PreKeyIds.WrapInjective | src/keyhelper.ts:10-12 | Positions less than 0xffffff apart have different ids |
| PreKeyIds.Batch.Fill | src/keyhelper.ts:157 | A worker fills the slot it took, which nobody filled before, and no other |
| PreKeyIds.Batch.TakeSlot | src/keyhelper.ts:153-156 | Every slot is handed to one worker |
| PreKeyIds.GeneratePreKeysBatch | src/keyhelper.ts:134-163 | For every schedule of the workers, slot i holds the id of start + i, and a count of 0 is refused |
| PreKeyRanges.DistinctExactlyWhen | src/prekey-pool.ts:99-128 | Over all runs of several processes with several pool managers each: within one wrap, and if no replenishment has failed or is still to reserve, the generated ids are distinct if and only if no manager of a process that has the latest snapshot has read the next id while another of it had read it and not yet reserved |
| PreKeyRanges.IdsDistinct | src/prekey-pool.ts:112-128 | Whatever fails, crashes and reloads: ids are in 1 to 0xffffff and pairwise distinct within one wrap, unless readings overlapped |
| PreKeyRanges.OneManagerEach | src/prekey-pool.ts:99-110 | One manager per process never overlaps: the promise it keeps while replenishing is what guards its window |
| PreKeyRanges.TwoManagersCollide | src/prekey-pool.ts:112-118 | The run in which two managers of one store both read before either reserves, and generate the same id though nothing fails |
| PreKeyRanges.RepeatsExactlyWhen | src/prekey-pool.ts:99-128 | From any point of a run without overlap, whatever has failed: a reading can, without another reading and within one wrap, lead to an id generated twice if and only if its process has the latest snapshot and another manager of the process is reading |
| PreKeyRanges.FailedReadingRepeats | src/file-storage.ts:1211-1215 | The run in which the second of two overlapping reservations fails to save and leaves its number in memory, behind what the first one reserved, so that the next reading generates an id again |
| PreKeyRanges.RunPositioned | src/prekey-pool.ts:112-128 | The invariant behind it: positions of the latest snapshot, of every process and of every range still being stored |
| PreKeyPublications.PublishedOnceUnlessReleased | src/prekey-pool.ts:137-185 | Across processes, crashes and reloads, from any starting store: no id is published twice unless it was released in between, within one wrap and without overlapping readings |
| PreKeyPublications.PublishesTwiceExactlyWhen | src/prekey-pool.ts:99-128 | The same for publications: a reading can lead to an id published twice without a release in between if and only if its process has the latest snapshot and another manager of the process is reading |
| PreKeyPublications.TwoManagersOverwrite | src/prekey-pool.ts:122-124 | Where a collision ends: the second manager stores its key pair over one whose public key has been published |
| PreKeyPublications.TwoManagersPublishTwice | src/prekey-pool.ts:168-173 | And when the first prekey is consumed before that, the id is published a second time, though nobody has released it |
| PreKeyPublications.PublishedAreStored | src/file-storage.ts:714-783 | Every published id has its key pair, in the latest snapshot and in every running process, after any run |
| PreKeyFiles.SavesFacts | src/file-storage.ts:829-842 | Only a process with the latest commit can commit, it commits its own data, and then nobody else has the latest |
| PreKeyFiles.RunMatches | src/file-storage.ts:803-885 | Over every run, with files that crash anywhere, the store that the pools assume is what the files are |
| PreKeyFiles.PublishedOnDisk | src/file-storage.ts:757-783 | Every published id on disk has its key pair on disk |
| PreKeyFiles.DistinctOnFiles | src/prekey-pool.ts:99-128 | The exact condition for distinct ids, on files |
| PreKeyBundles.PreKeyPoolManager.Reserve | src/file-storage.ts:1095-1109 | The step of this call in the history of the store: a reservation where the id is available, else nothing |
| PreKeyBundles.PreKeyPoolManager.TryCandidate | src/prekey-pool.ts:168-173 | One candidate: its bundle carries the public key that was stored when it was built, and the last thing that has happened to the store is that this call, and no other, reserved its id |
| PreKeyBundles.PreKeyPoolManager.TryCandidates | src/prekey-pool.ts:163-178 | One round: without a bundle every candidate of it was tried, and taken by others when it was |
| PreKeyBundles.PreKeyPoolManager.CreateBundle | src/prekey-pool.ts:160-185 | A bundle comes with this call's reservation and no other, whatever happens at the awaits; an error means that nothing was reserved and that each prekey available after the replenishment was taken meanwhile; undisturbed it is the lowest available id, or else the lowest unpublished one of the replenishment, and an error only if there is none |
| PreKeyBundles.ReservationIsPublication | src/prekey-pool.ts:171-173 | That reservation is the publication event of the pool runs, and is one exactly when reservePreKey answers true |
| Wire.ReadsUint32 | src/whisper-text-protocol.ts:39-51 | Every uint32 that is written is read back, with the bytes behind it left over |
| Wire.ReadsDelimited | src/whisper-text-protocol.ts:42-49 | Likewise for byte strings |
| Wire.SkipsForeign | src/whisper-text-protocol.ts:76-78 | An unknown field of any wire type, nested groups included, is skipped exactly |
| Wire.DecodesAll | src/whisper-text-protocol.ts:57-82 | Fields written in any order, with unknown ones in between, are found exactly, the last of a number winning |
| Wire.AnyOrderDecodes | src/whisper-text-protocol.ts:57-82 | Any permutation of a message's fields, with unknown fields interleaved, decodes to the message |
| Wire.CutExactlyWhen | src/whisper-text-protocol.ts:57-82 | A message cut short is refused unless the cut is between two fields, and then it is the message of the fields before it |
| Wire.ReadsLowBits | src/whisper-text-protocol.ts:62-64 | Of a number of up to ten digits the low 32 bits are read |
| Wire.LongVarintRefused | src/whisper-text-protocol.ts:62-64 | A number of more than ten digits is refused |
| Wire.BadWireTypeRefused | src/whisper-text-protocol.ts:76-78 | An unknown field of a wire type that there is not is refused |
| WireMessages.Writer.PutUint32 | src/whisper-text-protocol.ts:44-47 | The writer appends the varint |
| WireMessages.Writer.PutBytes | src/whisper-text-protocol.ts:42-49 | The writer appends length and content |
| WireMessages.Encode | src/whisper-text-protocol.ts:39-51 | The encoder writes the fields one after the other |
| WireMessages.Reader.GetItem | src/whisper-text-protocol.ts:62-79 | One turn of the decode loop on the reader position |
| WireMessages.DecodeFields | src/whisper-text-protocol.ts:57-82 | The decode loop computes the decoding function |
| Messages.WhisperRoundTrip | src/whisper-text-protocol.ts:39-82 | Exactly the fields set come back |
| Messages.WhisperAnyOrder | src/whisper-text-protocol.ts:57-82 | Also from permuted fields with unknown ones in between |
| Messages.PreKeyRoundTrip | src/whisper-text-protocol.ts:198-254 | Exactly the fields set come back; an absent prekey id or registration id stays absent |
| Messages.PreKeyAnyOrder | src/whisper-text-protocol.ts:223-254 | Also from permuted fields with unknown ones in between |
| Messages.SenderKeyRoundTrip | src/group-proto.ts:36-66 | The sender key message comes back, empty ciphertext included |
| Messages.SenderKeyAnyOrder | src/group-proto.ts:44-66 | Also from permuted fields with unknown ones in between |
| Messages.DistributionRoundTrip | src/group-proto.ts:86-125 | The distribution message comes back, empty keys included |
| Messages.DistributionAnyOrder | src/group-proto.ts:95-125 | Also from permuted fields with unknown ones in between |
| Messages.TagsAsWritten | src/whisper-text-protocol.ts:42-49 | The tags of the fields are the numbers that the encoders write, one byte each |
| Messages.WhisperLayout | src/whisper-text-protocol.ts:39-51 | The bytes of a message: each field that is set behind its tag, in the order of the encoder |
| Messages.PreKeyLayout | src/whisper-text-protocol.ts:198-216 | Likewise |
| Messages.SenderKeyLayout | src/group-proto.ts:36-42 | Likewise; an empty ciphertext is not written |
| Messages.DistributionLayout | src/group-proto.ts:86-93 | Likewise; empty keys are not written |
| Messages.SignedParses | src/sender-key-message.ts:24-69 | Version, body and 64-byte signature parse back to the same parts, and the signed part is version and body |
| Messages.ParsedIsWhole | src/sender-key-message.ts:24-43 | Nothing of a message lies outside the parsed parts but the low half of the version byte |
| Messages.SenderKeyMessageParsesBack | src/sender-key-message.ts:15-69 | Built and parsed, a sender key message has the same fields, version and signature |
| Messages.WhisperParsesBack | src/session-cipher.ts:366-376 | A framed whisper message parses back to body and 8-byte tag; one without any field is too short |
| Messages.WhisperReceived | src/session-cipher.ts:360-377 | A framed message comes out as it was sent if and only if its key has 33 bytes and its ciphertext is a positive number of AES blocks; without any field it is too short, and otherwise its fields are refused |
| Messages.ReceivedExactlyWhen | src/session-cipher.ts:360-377 | The same for any bytes with a good version: what stands between version byte and tag is decoded, and which fields pass |
| Messages.TaggedExactlyWhen | src/session-cipher.ts:366-374 | Buffers of 10 bytes or more pass if and only if the high half of the version byte is 3 or more and the low half 3 or less; shorter ones are too short |
| Messages.PreKeyExactlyWhen | src/session-cipher.ts:299-306 | Likewise for prekey messages |
| Messages.PreKeyReceived | src/prekey-bundle-validator.ts:67-92 | For each refusal of a prekey message the exact condition on its fields: registration id, missing fields, lengths and ranges; otherwise it comes out as it was sent |
| Messages.SignedExactlyWhen | src/sender-key-message.ts:24-43 | A sender key message is longer than its 64-byte signature, and its parts are what lies before and in it |
| Messages.PreKeyParsesBack | src/session-cipher.ts:297-320 | A framed prekey message that is not too short passes the version check and comes back |

## Left out

- The inside of X25519, Ed25519, AES, HMAC and HKDF, timing-safe comparison and secrecy: library calls, and not the point of these proofs. The 8 bytes of a tag that are sent stand for the whole tag.
- Collisions of randomly generated ids and keys: generated keys and sender key ids are new.
- Simultaneous initiation, where both parties send first messages: each run of `Protocol.dfy` has one initiator. An envelope to it is refused for its own base key, and starts another session otherwise, which opens nothing that the network has (`DeliveryLemmas.ClaimIsTrue`).
- A second handshake in the runs of `Protocol.dfy`: they follow one session. What several sessions do to each other is in `SessionRecord.dfy` and `SessionTable.dfy`, which do not speak about the network.
- The responder's lookup of prekeys and the trust decisions in the runs of `Protocol.dfy`: an envelope stands for key pairs that are found and an identity that is trusted. Both are in `SessionRecord.dfy`.
- DeliveryLemmas.ClaimIsTrue: does not speak about tags that an outsider computes under its own identity and keys, because the network of `Protocol.dfy` has no third party with a session of its own; such an envelope starts another session, which those runs do not follow.
- Entries.SessionEntry.DoDecrypt: starts from the fields of a message; the length, version and field checks before are in `Messages.ReceiveWhisper`.
- RecordBuffers.BuffersAreValues: the storage hands out its own buffers and the record object stays, the harder case; a storage that copies adds buffers that nobody wipes. Text copies of keys that serializing makes are strings, which cannot be wiped.
- Key buffers of sender keys: only the keys derived for one message are wiped there (`src/group-cipher.ts:58-59`, `src/group-cipher.ts:87-88`), and nothing else refers to them.
- Registration ids and logging in the session modules, and the text that JSON.stringify and JSON.parse make of values.
- deleteAllSessions, which empties the record, and which nothing in the library calls.
- Stale lock detection, lock timeouts and opening with `lock: false`: openings and saves in `FileProtocol.dfy` run under exclusion from start to end or crash.
- fsync, file modes and the names of temporary files: a sync cannot fail, and there is one temporary file.
- Debounce timers: a debounced save is a save at any later time.
- External damage to the main file: partial files come only from interrupted copies. Recovery from a file that somebody else has damaged would go back to the backup.
- Encryption at rest: a file is a snapshot tagged with its key, or a part of one.
- Property names other than a sign and digits that Number would take for a number: `Texts.ParseDecimal` takes them for none.
- Stores.MemorySignalStorage: reads, lists and copies of single items, which change nothing, and callbacks that throw, which are caught.
- PreKeyPublications.PublishedOnceUnlessReleased: is about runs without overlapping readings and within one wrap of ids; what overlapping ones can come to is in `PublishesTwiceExactlyWhen` and `TwoManagersPublishTwice`.
- PreKeyRanges.DistinctExactlyWhen: is exact for runs in which every reading has come to a saved reservation; `RepeatsExactlyWhen` needs no such condition.
- createBundle with a given prekey id, bundles without reservation, signed prekey rotation, status and automatic maintenance.
- JobQueue: termination of the jobs themselves; a job that awaits a later one of its own bucket never settles.
- SenderKeyRecords.EncryptGroup: loading and storing are left to the caller, so a missing record is the empty one, with the same outcome.
- Wire.ReadVarint: the reader of the protobuf library is not part of this model; varints are at most ten bytes long, as the published format says.
- The four decode loops differ in their tables only, and are one loop over a table here. `KeyExchangeMessage`, `fromObject`, `toObject` and `verify` are not used by the sessions.
