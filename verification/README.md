# Miranda: a verified model of its codecs, handshakes, relay and client state

Miranda lets a browser or a terminal reach machines behind a blind relay. This project
models the parts of it whose correctness is hard to see from the code, and proves what
they promise. One file per component:

| file | component |
|---|---|
| Wrappers.dfy | option, result, byte, digest and map sizes, shared by all |
| Positional.dfy | numbers in a base, shared by the codecs |
| Base58.dfy | the in-place base conversion of the Base58 codec |
| Bip39.dfy | entropy to recovery phrase and back |
| Signing.dfy | canonical texts of grants, bindings and challenges |
| Noise.dfy, NoiseKK.dfy, NoiseNNpsk0.dfy | the two hand-written Noise handshakes and the transport after them |
| RelayRevocations.dfy | the relay's revocation map, its versioned file and the rollback |
| PairRooms.dfy | the pairing rendezvous, its timer race, bridges and byte budget |
| Broker.dfy | the relay's live agents, attached browsers and revocations |
| Limiters.dfy | the request limiter, the proof store and their shared eviction |
| Tombstones.dfy, Prewarm.dfy | the client's tombstone store and the pre-attach cache |
| IdentityStore.dfy | the owner identity across keychain and owner.json |
| Registry.dfy | merging, filtering and resolving machines |
| Multiplexer.dfy, DetachFilter.dfy | focus, and the typed bytes behind a prefix key |
| GrantStore.dfy | the agent's guest grants, tombstones and control handlers |
| Reconnect.dfy | the Go and JavaScript reconnect loops |

`dafny verify dfyconfig.toml` checks all of it.

How it is modelled:

- Code that updates fields, arrays or maps is a class or a method with a loop, proved
  against a function on values; what the code promises is then proved of that function.
- Concurrency is a state machine with one step per lock region, and a result speaks of every
  sequence of steps. Steps of unboundedly many requests interleave freely.
- Cryptography is symbolic: Diffie-Hellman commutes, hashes, key derivation and sealed boxes
  are injective constructors. Signature checks and the BIP-39 hash are arbitrary functions.
  Clocks, random draws and failures of the file system or the keychain are inputs.
- The handshakes follow sections 5, 7.5, 9 and 12.3 of the Noise Protocol Framework,
  revision 34, as the JavaScript code implements them.

Where the code does not meet a promise at its face value, the model keeps the code, gives an
input, and proves exactly when the promise holds:

- Two overlapping posts for one slot, the first with a failed write: the rollback of the first
  removes the slot under the second, which is then answered 204 with the slot neither on disk
  nor in memory (OverlapCanLoseAnAcknowledgement; RollbackExact gives the condition for the
  step and KeptExactly for whole runs).
- The durable mark of a slot is never cleared. A slot that reached the disk in another post's
  snapshot, was rolled back and dropped from the next file keeps it, so a duplicate of its next
  post is answered 204 while the slot is not on disk (StaleMarkCanLoseAnAcknowledgement;
  DuplicateExact gives the condition).
- The same overlap can push the revocation map past its capacity, and the next start refuses the
  file (OverlapCanOutgrowTheCap; CapExactly gives the condition).
- A revoke-grant for a gid that is not stored is acknowledged without a tombstone, so the grant
  is valid if it arrives later (RevokeBeforeAddIsForgotten; RevokeBarsExactly).
- The attach challenge is ambiguous exactly for machine ids that contain a line feed
  (AttachChallengeShifts; AttachChallengeNeedsCleanMachine).
- The JavaScript nonce counter stops at 2^53, so nonces repeat from there (NonceReuseExact).
- The detach filter drops bytes typed before the gesture when the read buffer is too short for
  them (ShortReadLoses; DeliveredExactly).
- A doubled prefix does not come through when the prefix is itself a command key (the two
  DoublingExact lemmas); the control bytes the CLI accepts as prefixes are not.
- Two overlapping rewrites of the client's tombstone file lose one tombstone, and the cache
  timestamp still moves (OverlapLosesTombstone; LossExactly gives the condition).
- The comment on DirectoryStaleCeiling bounds the age of the revocation set by 60 s. The code
  reads the clock after recording the answer, so the bound is 60 s plus the recording time
  (RecordingTimeIsNotCounted; WarmUpRestsOnAnswer).
- Tombstoning the gid "revoked" deletes the tombstone file; the handlers' gid shape excludes it
  (TombstonesKept; HandlersKeepTombstones).
- An owner.json that exists but cannot be read is replaced by a fresh identity
  (UnreadableFileIsReplaced).
- The request limiter admits at most 2·limit − 1 requests in any window, one fewer than twice
  the limit, and reaches that (FewerThanTwiceTheLimit; BoundIsReached). Once there are more keys
  than the table holds, eviction forgets counts and there is no bound (AdmitsAnyNumber; BoundExact).

## Model

| member | source | states |
|---|---|---|
| Base58.EncodeBufferSuffices | go/internal/base58/base58.go:24-57 | n bytes always fit in n·138/100 + 1 base-58 digits, for every n |
| Base58.DecodeBufferSuffices | go/internal/base58/base58.go:61-91 | n base-58 digits always fit in n·733/1000 + 1 bytes, for every n |
| Base58.RebaseInverse | go/internal/base58/base58.go:24-91 | changing base with leading zeros kept is undone by changing back, in both directions |
| Base58.Absorb | go/internal/base58/base58.go:34-41 | one carry pass over the buffer makes its number value·base + digit, moves the watermark and never indexes below 0 |
| Base58.FillSymbols | go/internal/base58/base58.go:25-47 | after the passes the buffer holds base-58 digits whose number is that of the input bytes |
| Base58.Encode | go/internal/base58/base58.go:24-57 | the loop returns the independently defined encoding, and only characters of the alphabet |
| Base58.Decode | go/internal/base58/base58.go:61-91 | the loop returns the independently defined decoding, or the first character outside the alphabet; it succeeds exactly on strings of digits and letters other than 0, O, I and l |
| Base58.DecodeAfterEncode | go/internal/base58/base58.go:24-91 | decoding an encoding gives back every byte string |
| Base58.EncodeAfterDecode | go/internal/base58/base58.go:24-91 | encoding a decoding gives back every string over the alphabet |
| Base58.AlphabetIs | go/internal/base58/base58.go:8-9 | a character is in the alphabet if and only if it is an ASCII digit or letter other than 0, O, I and l |
| Base58.EncodingMeaning | go/internal/base58/base58.go:24-57 | an encoding has only such characters, one leading 1 per leading zero byte and no more, and the positional values of its characters in alphabet order write the number of the bytes |
| Base58.DecodingMeaning | go/internal/base58/base58.go:61-91 | a decoding has one leading zero byte per leading 1 and no more, and its bytes write the number the characters do |
| Bip39.PackOfUnpack | go/internal/bip39/bip39.go:22-37 | cutting concatenated w-bit codes gives back the numbers |
| Bip39.UnpackOfPack | go/internal/bip39/bip39.go:62-78 | concatenating the codes of the cut numbers gives back the bits |
| Bip39.FieldsOfJoin | go/internal/bip39/bip39.go:38-55 | splitting a phrase joined by single spaces gives back its words |
| Bip39.EntropyToMnemonic | go/internal/bip39/bip39.go:13-39 | the shift-and-or loop renders entropy followed by its checksum bits, eleven bits per word; other lengths are refused |
| Bip39.MnemonicToEntropy | go/internal/bip39/bip39.go:52-92 | the loop returns the entropy of a legal phrase, or the bad count, the first unknown word or the checksum mismatch |
| Bip39.EntropyAfterMnemonic | go/internal/bip39/bip39.go:13-92 | for every legal entropy, word list and hash, reading the rendered phrase returns the entropy |
| Bip39.MnemonicAfterEntropy | go/internal/bip39/bip39.go:13-92 | an accepted phrase has exactly the words that rendering the returned entropy gives |
| Bip39.PhraseMeaning | go/internal/bip39/bip39.go:13-39 | word by word and bit by bit: bit b of the number of word w is bit 11·w + b of the entropy followed by its hash, most significant bit of each byte first |
| Bip39.RefusalReasons | go/internal/bip39/bip39.go:52-92 | a phrase is refused for its count exactly outside 12, 15, 18, 21 and 24, then for its first unknown word, then for its checksum |
| Signing.DecimalInjective | go/internal/identity/grant.go:103-115 | two integers with the same decimal text are equal |
| Signing.DecimalMeaning | go/internal/identity/grant.go:103-115 | the decimal text of a number is digits that write it, without a leading zero, and a minus sign before those of a negative one |
| Signing.HexMeaning | go/internal/identity/auth.go:44-47 | two lower-case hexadecimal digits per byte, high half first |
| Signing.RenderInjective | go/internal/identity/grant.go:97-122 | fields free of their terminator can be read back from the concatenation |
| Signing.GrantCanonicalInjective | go/internal/identity/grant.go:59-122 | two valid grants with equal canonical texts are equal in every field |
| Signing.GrantCanonicalText | go/internal/identity/grant.go:97-122 | the signing text of a valid grant, character by character |
| Signing.Acceptance | go/internal/identity/grant.go:59-90 | a grant is accepted if and only if it is of version 1, its window is open for at most a day and five minutes, and each of its texts is well formed |
| Signing.MintedWindow | go/internal/identity/grant.go:146-175 | a minted grant is valid exactly from five minutes before minting to the end of its ttl, and minting never fails because of the window |
| Signing.MintExact | go/internal/identity/grant.go:146-175 | minting succeeds exactly for a ttl above zero and up to a day, well-formed fields and a clock past 301 s; the grant names the given owner, machine and guest, and scope main and mode ro unless others were asked for |
| Signing.BindingCanonicalInjective | go/internal/identity/binding.go:41-81 | two valid bindings with equal canonical texts are equal in every field |
| Signing.BindingCanonicalText | go/internal/identity/binding.go:64-81 | the signing text of a valid binding, character by character |
| Signing.MessagesSeparate | go/internal/identity/auth.go:15-27 | grant, binding and auth messages never coincide |
| Signing.SignedTexts | go/internal/identity/auth.go:15-55 | the six signed texts, domains and line feeds included |
| Signing.ChallengesSeparate | go/internal/identity/auth.go:44-55 | attach, registration and revocation challenges never coincide |
| Signing.AttachChallengeExact | go/internal/identity/auth.go:44-47 | two attach challenges are equal exactly when their digests and their joined session and machine texts are |
| Signing.AttachChallengeInjective | go/internal/identity/auth.go:44-47 | with machine ids free of line feeds the challenge determines session, machine and digest |
| Signing.AttachChallengeNeedsCleanMachine | go/internal/identity/auth.go:44-47 | an attach can be taken for another one with a clean machine id if and only if its own machine id holds a line feed |
| Signing.AttachChallengeShifts | go/internal/identity/auth.go:44-47 | every line feed in a machine id gives another session and machine with the same challenge |
| Signing.RegistrationChallengeInjective | go/internal/identity/auth.go:53-55 | commitments of equal length: the challenge determines machine and commitment |
| Signing.RevocationChallengeInjective | go/internal/identity/revocation.go:25-27 | the challenge determines machine and timestamp |
| Noise.NonceInjective | web/src/noise/noise-kk.js:33-37 | different reachable counters have different nonce bytes |
| Noise.NonceLayout | web/src/noise/noise-kk.js:33-37 | four zero bytes, then byte i of the counter is n / 256^i modulo 256 |
| Noise.CipherState.EncryptWithAd | web/src/noise/noise-kk.js:48-53 | without a key the text passes through, with one it is sealed under the current nonce and the counter moves |
| Noise.CipherState.DecryptWithAd | web/src/noise/noise-kk.js:54-59 | opens exactly what was sealed under this key, nonce and data; a rejection leaves the state alone |
| Noise.OpenAfterSeal | web/src/noise/noise-kk.js:39-60 | equal cipher states: opening a sealed text returns it and the states stay equal |
| Noise.RejectionKeepsState | web/src/noise/noise-kk.js:54-59 | a rejected ciphertext does not move the counter |
| Noise.SymmetricState.MixKey | web/src/noise/noise-kk.js:71-75 | the first output of the derivation becomes the chaining key and the second the key of a fresh cipher, as FirstMessageIs pins down |
| Noise.SymmetricState.MixKeyAndHash | web/src/pairing/nnpsk0.js:99-104 | the three-output derivation: chaining key, hash input and cipher key |
| Noise.SymmetricState.EncryptAndHash | web/src/noise/noise-kk.js:79-83 | seals under the transcript hash and absorbs the ciphertext |
| Noise.SymmetricState.DecryptAndHash | web/src/noise/noise-kk.js:84-88 | opens under the transcript hash and absorbs the ciphertext; a rejection leaves the hash |
| Noise.SymmetricState.Split | web/src/noise/noise-kk.js:89-96 | two independent cipher states from the final chaining key |
| Noise.TransportDelivers | web/src/noise/noise-kk.js:202-209 | any interleaving of sends, in-order deliveries and rejected garbage: each side has received a prefix of what was sent, the rest is in flight, the next genuine message opens |
| Noise.ReplayIsRejected | web/src/noise/noise-kk.js:39-60 | up to 2^53 messages, arriving in any order and any number of times: what is received is a prefix of what was sent, and of everything ever sent exactly the next message opens |
| Noise.NonceReuseExact | web/src/noise/noise-kk.js:48-59 | two messages of one direction share a nonce exactly when the earlier one is past 2^53 messages |
| NoiseKK.HandshakeKK.WriteMessage | web/src/noise/noise-kk.js:155-169 | the token loop produces the message and state of the value-level handshake |
| NoiseKK.HandshakeKK.ReadMessage | web/src/noise/noise-kk.js:171-185 | the token loop reads a message as the value-level handshake does, the rejection included |
| NoiseKK.HandshakeKK.Finish | web/src/noise/noise-kk.js:187-200 | after the second message the split keys go to the initiator and the responder crossed |
| NoiseKK.HandshakeKK.Encrypt | web/src/noise/noise-kk.js:202-205 | seals with the send cipher only after the handshake |
| NoiseKK.HandshakeKK.Decrypt | web/src/noise/noise-kk.js:206-209 | opens with the receive cipher; a rejection leaves it |
| NoiseKK.HonestRunAgrees | web/src/noise/noise-kk.js:99-209 | all keys and payloads: both payloads arrive, and hash, chaining key and crossed transport keys agree |
| NoiseKK.FirstMessageIs | web/src/noise/noise-kk.js:99-169 | the first message as a term: the ephemeral, and the payload sealed at nonce 0 under the second output of the derivation from es then ss, over prologue, both static keys in order and the ephemeral |
| NoiseKK.SecondMessageIs | web/src/noise/noise-kk.js:155-200 | the second message likewise after ee and se, and the two transport keys: first output for the initiator to send, second for the responder |
| NoiseKK.FirstMessageAuthenticates | web/src/noise/noise-kk.js:155-185 | the first message is accepted if and only if each side holds the other's static key |
| NoiseKK.AcceptanceMeansAgreement | web/src/noise/noise-kk.js:171-200 | an initiator that accepts a responder's message is in full agreement with that very session, whatever it had seen |
| NoiseKK.SessionDelivers | web/src/noise/noise-kk.js:39-209 | handshake and transport together: every interleaving delivers a prefix of what was sent |
| NoiseKK.RejectionSpoilsResponder | web/src/noise/noise-kk.js:171-185 | a rejected message leaves its tokens mixed in: after any rejected messages a responder refuses the genuine first one |
| NoiseKK.RejectionSpoilsInitiator | web/src/noise/noise-kk.js:171-185 | and an initiator refuses the genuine second one |
| NoiseNNpsk0.HandshakeNNpsk0.WriteMessage | web/src/pairing/nnpsk0.js:170-187 | the token loop, psk and the extra key mix on e included, equals the value-level handshake |
| NoiseNNpsk0.HandshakeNNpsk0.ReadMessage | web/src/pairing/nnpsk0.js:189-206 | reading equals the value-level handshake, the rejection included |
| NoiseNNpsk0.HonestRunAgrees | web/src/pairing/nnpsk0.js:125-227 | same psk: both payloads arrive, the channel bindings are equal, the transport keys cross |
| NoiseNNpsk0.FirstMessageIs | web/src/pairing/nnpsk0.js:125-187 | the first message as a term: psk mixed first, then the ephemeral into hash and chaining key, the payload sealed at nonce 0 |
| NoiseNNpsk0.SecondMessageIs | web/src/pairing/nnpsk0.js:170-221 | the second message likewise after ee, and the two transport keys |
| NoiseNNpsk0.FirstReadNeedsSamePsk | web/src/pairing/nnpsk0.js:170-206 | the first read succeeds if and only if the psks are equal, and then returns the payload |
| NoiseNNpsk0.BindingIdentifiesSession | web/src/pairing/nnpsk0.js:223-227 | two responders with equal channel bindings had the same psk, ephemerals and payloads |
| NoiseNNpsk0.BindingTiesInitiatorToResponder | web/src/pairing/nnpsk0.js:223-303 | what the pairing compares: an initiator and a responder with equal bindings, whatever each was sent, share psk, both ephemerals and both payloads |
| NoiseNNpsk0.BindingIdentifiesInitiator | web/src/pairing/nnpsk0.js:223-227 | two initiators with equal bindings had the same session |
| NoiseNNpsk0.AcceptanceMeansAgreement | web/src/pairing/nnpsk0.js:189-221 | an initiator that accepts a responder's message shares its psk, binding, payload and keys |
| NoiseNNpsk0.RejectionSpoilsResponder | web/src/pairing/nnpsk0.js:189-206 | after any rejected messages a responder refuses the genuine first one |
| NoiseNNpsk0.RejectionSpoilsInitiator | web/src/pairing/nnpsk0.js:189-206 | after any rejected messages an initiator refuses the genuine second one |
| RelayRevocations.FailureFreeDurability | go/internal/signal/revocations.go:122-206 | every interleaving without a failed write: newer snapshots are slot supersets, the file never loses a slot, every 204 is on disk |
| RelayRevocations.AcknowledgedNeverLost | go/internal/signal/revocations.go:122-222 | with write failures and restarts too, a 204 stays on disk and in memory in every clean run: a rollback that deletes its slot finds it unacknowledged and no post for it still being saved, and a duplicate answered on the durable mark finds its slot on disk and in every snapshot still to be written |
| RelayRevocations.KeptExactly | go/internal/signal/revocations.go:122-222 | every 204 is on disk and in memory in every state of a run and after whatever write could come next, if and only if every step of the run is clean |
| RelayRevocations.RollbackExact | go/internal/signal/revocations.go:214-222 | a rollback that deletes its slot keeps every 204 in memory and on disk, through whatever write comes next, if and only if the slot is unacknowledged and no post for it is still being saved; posts that already failed do not matter |
| RelayRevocations.DuplicateExact | go/internal/signal/revocations.go:124-135 | answering a duplicate keeps every 204 on disk at once if and only if its slot is on disk or not marked durable, and on disk and in memory through whatever write comes next if and only if the slot is also in every snapshot still to be written |
| RelayRevocations.QuietDuplicateIsClean | go/internal/signal/revocations.go:124-135 | after a clean run in which deleting rollbacks met no other post for their slot, a duplicate that meets no other post for its slot is clean |
| RelayRevocations.OverlapCanLoseAnAcknowledgement | go/internal/signal/revocations.go:122-222 | the run in which a 204 is neither on disk nor in memory |
| RelayRevocations.StaleMarkCanLoseAnAcknowledgement | go/internal/signal/revocations.go:124-222 | the run in which a stale durable mark gives a duplicate a 204 while its slot is not on disk, and a failed write then takes it from memory |
| RelayRevocations.LonelyRunsStayLoadable | go/internal/signal/revocations.go:26-65 | as long as deleting rollbacks meet no other post for their slot, memory, file and snapshots never exceed the capacity, so a start always accepts the file |
| RelayRevocations.FailureFreeRunsStayLoadable | go/internal/signal/revocations.go:26-65 | the same for every run without a failed write |
| RelayRevocations.CapExact | go/internal/signal/revocations.go:136-222 | a step breaks the capacity if and only if it is the rollback of a failed post that puts its earlier record back into a full memory without that slot |
| RelayRevocations.CapExactly | go/internal/signal/revocations.go:26-222 | a run keeps memory, file and pending snapshots within the capacity if and only if it has no such rollback |
| RelayRevocations.OverfullReachesDisk | go/internal/signal/revocations.go:136-206 | from a memory past the capacity, saving any replaced record gives a file a start refuses |
| RelayRevocations.OverlapCanOutgrowTheCap | go/internal/signal/revocations.go:136-222 | the run in which a rollback restores a slot past the capacity, and the next file is one a start refuses |
| RelayRevocations.WholePost | go/internal/signal/revocations.go:103-162 | one post on its own is answered 204 for a duplicate, 503 for a new slot at the cap, and otherwise 204 or 500 as the write goes; 204 means the record is in the file, anything else leaves memory and file as they were |
| RelayRevocations.SequentialPostsAgree | go/internal/signal/revocations.go:103-222 | any non-overlapping posts with any write failures: memory and file agree in between |
| RelayRevocations.CollectedHolds | go/internal/signal/revocations.go:46-51 | loading a list revokes exactly the slots it mentions, each with its last record |
| RelayRevocations.Server.LoadRevocations | go/internal/signal/revocations.go:26-65 | accepts the file exactly when its version, size and signatures are right; then exactly the slots it mentions are revoked, each with its last record, all marked durable |
| RelayRevocations.Server.PostRevocation | go/internal/signal/revocations.go:122-162 | the first lock region: the exact condition of each answer, or a new version whose snapshot is the new map |
| RelayRevocations.Server.PersistRevocations | go/internal/signal/revocations.go:186-206 | answers 204 exactly when the version is stale or the write works; a good write puts the snapshot on disk and marks its slots durable, a failed one leaves file and memory |
| RelayRevocations.Server.RollbackRevocation | go/internal/signal/revocations.go:214-222 | restores the record the post replaced, or removes the slot |
| PairRooms.EveryConnectionAccountedFor | go/internal/signal/pair.go:60-146 | every interleaving: an admitted connection is refused, timed out, waiting, or in exactly one same-room pair with exactly one driver |
| PairRooms.NobodyIsOrphaned | go/internal/signal/pair.go:60-146 | a claimant racing the timer always has its waiter, the partner send never blocks, done closes at most once and exactly when the bridge is over |
| PairRooms.ArrivalsMeet | go/internal/signal/pair.go:60-127 | from any reachable state with a waiter in the room and a bridge to spare, a second arrival and its handover end with the first driving a bridge to it |
| PairRooms.EveryPairFinishes | go/internal/signal/pair.go:60-146 | whatever happened so far, the remaining steps of its two handlers finish any claimed pair: done closed once, driver finished, the other released |
| PairRooms.TimerFrees | go/internal/signal/pair.go:78-92 | a timer on a waiting room times its waiter out and frees the room; on a claimed one it only makes the waiter drain |
| PairRooms.CapsHold | go/internal/signal/pair.go:35-92 | waiting rooms and active bridges stay within their caps and the counter equals the bridges |
| PairRooms.BudgetHolds | go/internal/signal/pair.go:148-166 | both directions together never forward more than the budget, whatever the interleaving |
| PairRooms.FramesGoThrough | go/internal/signal/pair.go:148-166 | frames within the read limit and what is left of the budget are all forwarded whole |
| PairRooms.FrameOverBudgetEnds | go/internal/signal/pair.go:148-166 | a frame past the read limit or the budget is not forwarded and ends its direction |
| PairRooms.Rooms.Rendezvous | go/internal/signal/pair.go:60-92 | an arrival in a waiting room claims its waiter and takes the entry; it is refused exactly when its room is not waiting and the cap is reached; otherwise it waits |
| PairRooms.Rooms.TimerFired | go/internal/signal/pair.go:78-92 | the timer removes exactly its own waiting entry, else it must take the partner |
| PairRooms.Rooms.BeginBridge | go/internal/signal/pair.go:35-43 | counts a bridge exactly when the cap allows |
| PairRooms.Rooms.EndBridge | go/internal/signal/pair.go:45-51 | takes back one counted bridge |
| Broker.LiveMapIsSound | go/internal/signal/server.go:546-651 | reachable states: no slot both revoked and live, the map within its cap, an entry is the last connection registered for its slot |
| Broker.EntryChangesOnlyFor | go/internal/signal/server.go:546-651 | an entry leaves only by its own exit or a revocation and changes only to a new registration |
| Broker.NewEntryIsProven | go/internal/signal/server.go:546-580 | an entry that is new or has changed was registered with a right proof, for a slot that was not revoked, with room for it |
| Broker.ProvenRegistrationEnters | go/internal/signal/server.go:546-580 | and every such registration enters, with a fresh connection |
| Broker.RevokedStaysOut | go/internal/signal/revocations.go:122-222 | after a revocation no registration brings the slot back until the revocation is rolled back |
| Broker.SignallingGoesThrough | go/internal/signal/server.go:599-825 | from any reachable state with a live agent and a session to spare, the lookup, binding and offer of a new browser reach that agent and its answer reaches the browser |
| Broker.AnswersStayHome | go/internal/signal/server.go:617-825 | an answer reaches only a browser bound on the connection that sent it; offers stay on the machine asked for |
| Broker.ClosedConnectionsStayUnbound | go/internal/signal/server.go:214-261 | after done is closed no further session is bound on the connection; one bound between clearing and closing may remain |
| Broker.TeardownCompletes | go/internal/signal/server.go:247-261 | a torn-down connection ends with nothing bound and done closed |
| Broker.SessionsStayWithinCap | go/internal/signal/server.go:214-227 | a connection never holds more sessions than allowed |
| Broker.Server.RegisterAgent | go/internal/signal/server.go:546-580 | each rejection exactly for its reason: revoked, wrong proof, no room for a new slot; otherwise the entry is this connection and the previous one is returned |
| Broker.Server.AgentExits | go/internal/signal/server.go:599-615 | an exit removes the entry exactly if it is still this connection's |
| Broker.Server.RevokeSlot | go/internal/signal/revocations.go:122-147 | revoking drops the live entry in the same lock region |
| Broker.AgentConn.Bind | go/internal/signal/server.go:214-227 | refuses exactly when the connection is done or full, and says which; otherwise binds the session |
| Broker.AgentConn.Unbind | go/internal/signal/server.go:229-233 | removes one session, as the state machine's unbind does |
| Broker.AgentConn.BeginTeardown | go/internal/signal/server.go:247-261 | collects and clears the sessions before done closes |
| Lru.FindOldest | go/internal/signal/ratelimit.go:85-96 | whatever the iteration order, the scan returns a least recently touched key |
| Lru.OldestIsUnique | go/internal/signal/proofstore.go:81-93 | with logical-clock stamps that key is the only one |
| RateLimit.TableStaysBounded | go/internal/signal/ratelimit.go:51-96 | after any requests the table is within its bound and its stamps are distinct |
| RateLimit.FewerThanTwiceTheLimit | go/internal/signal/ratelimit.go:51-83 | nondecreasing time, no more keys on limited paths than the table holds: any interval one window long admits at most 2·limit − 1 per key |
| RateLimit.WindowAdmitsTheLimit | go/internal/signal/ratelimit.go:51-83 | while a window lasts its start does not move, refused requests included, and exactly the first requests up to the limit are admitted |
| RateLimit.WindowReopens | go/internal/signal/ratelimit.go:51-83 | a window just opened admits exactly limit requests, and the first request at its end or later opens the next |
| RateLimit.BoundIsReached | go/internal/signal/ratelimit.go:51-83 | for every limit there are requests that reach the bound |
| RateLimit.BoundExact | go/internal/signal/ratelimit.go:51-96 | that bound holds over all requests for a set of limited keys if and only if the table can hold the whole set |
| RateLimit.AdmitsAnyNumber | go/internal/signal/ratelimit.go:64-96 | with one limited key more than the table holds, requests that get a key admitted any number of times at one instant |
| RateLimit.RequestLimiter.Allows | go/internal/signal/ratelimit.go:51-83 | the decision and the table of the specification: a limited key is refused exactly inside its window with the limit used up, and then its window stays |
| RateLimit.RequestLimiter.EvictLRU | go/internal/signal/ratelimit.go:85-96 | removes exactly the least recently touched entry |
| ProofStore.StoreStaysBounded | go/internal/signal/proofstore.go:49-93 | at most max proofs after any operations, with distinct stamps |
| ProofStore.ProofKeptOrLeastRecent | go/internal/signal/proofstore.go:49-93 | a learned proof is never replaced and is dropped only as the least recently touched one of a full store |
| ProofStore.FirstProofRules | go/internal/signal/proofstore.go:49-76 | as long as its slot stays in the store the first proof is accepted and every other refused, whatever else is offered or learned |
| ProofStore.TrustOnFirstUse | go/internal/signal/proofstore.go:49-76 | a new slot is open; once a proof of 1 to 512 bytes is learned only that one is accepted, as long as the store has room for every slot it is taught |
| ProofStore.Store.Check | go/internal/signal/proofstore.go:49-57 | accepts an unknown slot or the learned proof, and touches it |
| ProofStore.Store.Learn | go/internal/signal/proofstore.go:64-76 | keeps the first proof of a slot, evicting one when full |
| Tombstones.RecordedSpec | go/internal/client/revocations.go:56-109 | the rewritten file is readable and sorted, holds the new record, every old slot, and the other slots' records unchanged |
| Tombstones.SortSpec | go/internal/client/revocations.go:76-81 | sorting keeps exactly the records and orders them by owner and machine |
| Tombstones.LocalStore.ListRevocations | go/internal/client/revocations.go:32-53 | no file is an empty list; one undecodable or unverifiable record makes the list an error |
| Tombstones.LocalStore.RecordRevocation | go/internal/client/revocations.go:56-109 | succeeds exactly when the record and the store verify and the rename works; otherwise the file is untouched |
| Prewarm.LossExactly | go/internal/client/revocations.go:56-109 | over every interleaving, a run loses a tombstone if and only if some rename is overtaken: since its read another rename brought a slot that was not there and is not its own |
| Prewarm.LockedIsLossless | go/internal/client/revocations.go:56-109 | if every read of the store finds no other rewrite midway, as a lock would ensure, nothing is ever lost |
| Prewarm.UninterruptedRewriteKeeps | go/internal/client/revocations.go:56-109 | a rewrite during which nobody else renames is harmless, whatever else happens in between |
| Prewarm.LoneFetchRecords | go/internal/client/prewarm.go:480-501 | a fetch nobody interrupts records every slot of its answer, loses none, moves the timestamp and reports success, whatever others are pending |
| Prewarm.RunKeepsInv | go/internal/client/prewarm.go:480-501 | every stage of every fetch in such a run: what is recorded, stamped, finished or cached is covered by the store |
| Prewarm.CrashStatesCovered | go/internal/client/prewarm.go:480-501 | every state of every run without an overtaken rename, crashes and failures anywhere: the store has only grown, and a cache timestamp stands for a verified answer complete by then, all of whose slots are in the store |
| Prewarm.WarmUpRestsOnAnswer | go/internal/client/prewarm.go:274-430 | a warm-up served from the cache rests on an answer under 60 s plus the recording time old; one served by the relay on an answer that came in after it started; that answer is in the store at the join |
| Prewarm.RecordingTimeIsNotCounted | go/internal/client/prewarm.go:480-501 | for every positive recording time a warm-up is served from the cache with an answer 60 s old or older |
| Prewarm.OverlapLosesTombstone | go/internal/client/revocations.go:56-109 | two overlapping rewrites: the first slot is gone while its fetch moves the timestamp |
| Prewarm.ChosenCredentialsAreAlive | go/internal/client/prewarm.go:372-389 | cached TURN credentials with a known expiry are never chosen after it; the warm-up fails only when the relay failed and nothing cached was alive |
| Prewarm.PlansByAge | go/internal/client/prewarm.go:153-197 | fresh and stale by age in nanoseconds: 30 s and 60 s for directory answers, two minutes before and up to the expiry for credentials |
| Prewarm.DialedServers | go/internal/client/prewarm.go:372-389 | the servers dialed: TURN when there are some, STUN when the relay has none, nothing only without an answer |
| Prewarm.RegistryChoice | go/internal/client/prewarm.go:337-370 | a cached registry older than the ceiling is only a fallback for a failed relay, and a reply that is in is used except over a fresh cache |
| Prewarm.RevocationChoice | go/internal/client/prewarm.go:391-422 | the source of the tombstones by age and outcome, in both directions |
| Prewarm.WarmUp.Join | go/internal/client/prewarm.go:336-422 | the three joins of Run give the registry, TURN and revocation choices of the specification |
| Prewarm.StateDir.FetchRevocations | go/internal/client/prewarm.go:480-501 | success exactly when every record could be stored; only then the timestamp moves; no failure loses a slot |
| IdentityStore.SaveIsOldOrNew | go/internal/client/store.go:263-366 | every state of a save with any faults: the old file over untouched entries, or the new file over its entry with at most the replaced one missing |
| IdentityStore.SaveSwitchesOnce | go/internal/client/store.go:263-366 | the file changes at most once |
| IdentityStore.SaveOutcome | go/internal/client/store.go:263-366 | an error before the rename restores everything when the cleanup delete works; success has the new file and no stray entry |
| IdentityStore.SaveSucceedsExactly | go/internal/client/store.go:263-366 | a save succeeds if and only if there is a root, nothing fails before the rename, and a replaced entry can be deleted |
| IdentityStore.LoadReadsStoredRoot | go/internal/client/store.go:130-151 | with a reference in the file, loading succeeds exactly when the keychain answers, returns the stored root and changes nothing |
| IdentityStore.LoadSucceedsExactly | go/internal/client/store.go:124-184 | without faults loading fails exactly on a file it can read but not use, and returns the recoverable root or a fresh one |
| IdentityStore.CleanLoadPersists | go/internal/client/store.go:152-184 | without faults creating and migrating end with the root in the keychain, a file that names it, and no plaintext |
| IdentityStore.CleanRekeyReplaces | go/internal/client/store.go:233-259 | without faults a rotation installs the fresh root and deletes the entry of the old one |
| IdentityStore.CleanImportReplaces | go/internal/cli/identity_cmds.go:108-117 | without faults an import over a stored identity installs the given root and deletes the entry of the old one |
| IdentityStore.MigrationKeepsRoot | go/internal/client/store.go:124-184 | migrating plaintext: in every crash state the same root is recoverable |
| IdentityStore.UnreadableFileIsReplaced | go/internal/client/store.go:130-134 | an unreadable owner.json: the root is replaced unless the save stops before the rename; old entries stay |
| IdentityStore.EveryCrashStateIsSafe | go/internal/client/store.go:124-366 | any sequence of load, create, migrate, import and rotate, each with any faults and cut off anywhere: owner.json never names a missing or foreign entry |
| IdentityStore.PerformIsGood | go/internal/cli/identity_cmds.go:108-117 | every state of one operation, import included, is safe and holds the old root or one the operation was given |
| IdentityStore.Identity.Derive | go/internal/client/store.go:191-229 | a new root retires the reference, scrubs the legacy fields and sets the derived public id |
| IdentityStore.Stores.SaveIdentity | go/internal/client/store.go:263-366 | passes through exactly the states of the specification and moves the identity along |
| IdentityStore.Stores.LoadOrCreate | go/internal/client/store.go:124-184 | load, migrate or create, state by state |
| IdentityStore.Stores.Rotate | go/internal/client/store.go:233-259 | rotation, state by state; unreadable metadata is refused |
| Registry.MergeMembers | go/internal/client/registry.go:162-201 | a merged row is exactly the row of a non-empty known id |
| Registry.FoldedClosedForm | go/internal/client/registry.go:174-195 | a row in closed form: last non-empty host key and signal url of the registry, newest name unless the local one is newer |
| Registry.MergeIdempotent | go/internal/client/registry.go:162-201 | merging the same registry again changes nothing |
| Registry.RevocationCommutesWithMerge | go/internal/client/revocations.go:112-126 | filtering the merge is merging the filtered lists, order included |
| Registry.MergedName | go/internal/client/registry.go:188-192 | the merged name is the registry's newest unless the local one is strictly newer, and then it is the local one |
| Registry.DevicesAgreeOnName | go/internal/client/registry.go:155-161 | two devices without a newer local name show the same name |
| Registry.RegistryPinsHostKey | go/internal/client/registry.go:155-187 | a local pin never overrides a host key the registry carries |
| Registry.FieldsFromRegistry | go/internal/client/registry.go:174-195 | by position: host key and signal url come from the last registry record that has one, the name from the newest named one unless a pin is strictly newer |
| Registry.FieldsFromPin | go/internal/client/registry.go:162-195 | owner, and whatever the registry does not say, come from the last pin of the machine |
| Registry.RowsByAppearance | go/internal/client/registry.go:162-201 | rows stand in the order in which their machines first appear, pins before discoveries |
| Registry.MergeMachines | go/internal/client/registry.go:162-201 | the loops with map and order slice compute the merge |
| Registry.FilterRevoked | go/internal/client/revocations.go:112-126 | a machine is kept if and only if no tombstone of this owner names it; order kept |
| Registry.ResolveMachine | go/internal/client/registry.go:206-220 | the first merged row of that name with the registry's host key; new exactly when no local pin has the name |
| Multiplexer.FocusStaysLive | go/internal/client/mux.go:189-281 | every interleaving of switches, deaths and the two halves of 'n': the focused session is live exactly when some session is, and a mux without live sessions has quit or is about to |
| Multiplexer.NextLive | go/internal/client/mux.go:272-281 | the nearest live session cyclically, -1 exactly when none is left |
| Multiplexer.NearestIsUnique | go/internal/client/mux.go:272-281 | only one session is the nearest |
| Multiplexer.EndKeepsFocus | go/internal/client/mux.go:241-270 | a death keeps the focus live, and another session's death does not move it |
| Multiplexer.StepsAchieve | go/internal/client/mux.go:189-281 | a switch focuses its live session, n the nearest live one, a death of the focused session the nearest live one left, and the last death quits |
| Multiplexer.StopCovers | go/internal/client/mux.go:138-180 | where the read loop stops, everything typed before the quit key has been sent |
| Multiplexer.CuttingDoesNotMatter | go/internal/client/mux.go:138-208 | two ways of cutting the same input: same quit, same state without one, one output a prefix of the other with one |
| Multiplexer.DoubledDelivers | go/internal/client/mux.go:149-165 | with every prefix doubled the focused session receives exactly the original bytes |
| Multiplexer.KeysDo | go/internal/client/mux.go:138-208 | after the prefix a digit selects the session of that number, n the nearest live one, q quits, the prefix is typed and anything else swallowed; other keys are typed |
| Multiplexer.DoublingExact | go/internal/client/mux.go:189-208 | doubling delivers the original bytes if and only if the prefix is not a command key that occurs in them |
| Multiplexer.Mux.NextLiveLocked | go/internal/client/mux.go:273-281 | the loop returns the nearest live session or -1 |
| Multiplexer.Mux.SwitchTo | go/internal/client/mux.go:212-224 | no-op for a missing, dead or focused session, else focus and repaint |
| Multiplexer.Mux.OnSessionEnd | go/internal/client/mux.go:241-270 | death and refocus in one lock region, then quit when none is left |
| Multiplexer.Mux.HandleRead | go/internal/client/mux.go:138-180 | batching into runs delivers what feeding single bytes would |
| Multiplexer.Mux.ReadStdin | go/internal/client/mux.go:138-180 | consumes whole reads up to the first that leaves the mux quit |
| DetachFilter.ReadConserves | go/internal/cli/overview.go:548-595 | a read hands out the front of what is owed and keeps the rest |
| DetachFilter.DeliveredExactly | go/internal/cli/overview.go:548-595 | reads to EOF return a prefix of the reference parse, detach exactly on the gesture, and miss nothing if and only if the detaching read had room |
| DetachFilter.EnoughReadsEnd | go/internal/cli/overview.go:548-595 | reads with room for a byte reach EOF within one more than the bytes to hand out |
| DetachFilter.KeysDo | go/internal/cli/overview.go:566-592 | after the prefix d and q leave, the prefix is sent once, anything else is sent together with the prefix |
| DetachFilter.CuttingDoesNotMatter | go/internal/cli/overview.go:548-595 | the same bytes in any chunks and reads at least as large give the same output |
| DetachFilter.ShortReadLoses | go/internal/cli/overview.go:566-582 | a one-byte read that meets the gesture after two bytes loses one |
| DetachFilter.DoublingExact | go/internal/cli/overview.go:566-592 | doubling delivers the original bytes without detaching if and only if the prefix is not a gesture key that occurs in them |
| DetachFilter.Reader.ReadInto | go/internal/cli/overview.go:548-595 | the loop returns the reference result and calls detach once, in the read that meets the gesture |
| GrantStore.Find | go/internal/agent/grantstore.go:67-97 | nothing is found exactly when no listed file qualifies, and what is found comes from a qualifying file |
| GrantStore.SweepInvisible | go/internal/agent/grantstore.go:102-122 | a sweep at t never changes what a query at t or later finds, nor one up to the skew earlier |
| GrantStore.TombstonesKept | go/internal/agent/grantstore.go:41-60 | an operation forgets tombstones if and only if it tombstones "revoked" while there are some |
| GrantStore.TombstoneIsFinal | go/internal/agent/grantstore.go:41-97 | a tombstoned gid is not found again after any adds, tombstones and sweeps |
| GrantStore.HandlersKeepTombstones | go/internal/agent/guest.go:255-288 | no sequence of control requests forgets a tombstone |
| GrantStore.StoreStaysSound | go/internal/agent/grants.go:52-93 | the store only holds verified grants for this machine, each under its own gid |
| GrantStore.AdmittedWasGranted | go/internal/agent/grantstore.go:67-97 | over all requests from an empty store: the grant an offer is admitted on names that guest, owner and machine, is signed and inside its window, was sent by its owner, and that owner has not asked to revoke it since |
| GrantStore.GrantedIsAdmitted | go/internal/agent/grants.go:52-93 | a well-formed signed grant sent by its owner admits its guest throughout its window, whatever requests follow that do not revoke, replace or sweep it |
| GrantStore.RevokeIsFinal | go/internal/agent/guest.go:255-304 | a stored grant that its owner revoked is never found again by any query |
| GrantStore.RevokeBarsExactly | go/internal/agent/guest.go:255-288 | an acknowledged revoke bars the gid if and only if it names a stored grant of this owner for this machine, or the gid was barred before |
| GrantStore.ForeignRevokeChangesNothing | go/internal/agent/guest.go:267-275 | a revoke by anyone but the owner of the stored grant changes nothing |
| GrantStore.RevokeBeforeAddIsForgotten | go/internal/agent/guest.go:267-275 | a revoke that arrives before its grant is acknowledged, and the grant is found when it arrives |
| GrantStore.AcceptedIsUsable | go/internal/agent/grants.go:52-93 | an accepted grant whose window has opened admits its guest at once unless tombstoned |
| GrantStore.GrantDir.AddRecord | go/internal/agent/grants.go:37-46 | writes the file of the gid exactly when the grant is well formed |
| GrantStore.GrantDir.TombstoneGrant | go/internal/agent/grantstore.go:41-60 | adds the gid to the tombstones, then removes its file |
| GrantStore.GrantDir.FindValidGuestGrant | go/internal/agent/grantstore.go:67-97 | the loop returns the first qualifying grant of the listing, which names the asking guest, owner and machine, is not tombstoned and covers now |
| GrantStore.GrantDir.SweepExpiredGrants | go/internal/agent/grantstore.go:102-122 | the loop removes exactly the garbage and the grants past their end and the skew |
| GrantStore.GrantDir.HandleAddGrant | go/internal/agent/grants.go:52-93 | acknowledged exactly when size, signature, owner, machine and clock are acceptable |
| GrantStore.GrantDir.HandleRevokeGrant | go/internal/agent/guest.go:255-288 | acknowledged for every well-shaped gid; tombstones only this owner's grant for this machine |
| Reconnect.ReconnectLoop | go/internal/client/reconnect.go:92-190 | gives up exactly on completing the first maxFailures attempts in a row that failed to dial or were up for less than minHealthy; the k-th failure in a row sleeps the k-th delay and a healthy drop not at all; every dial is cleaned up once |
| Reconnect.DialAndRun | go/internal/client/reconnect.go:126-176 | a dial that succeeded is cleaned up on every way out; cancelled, hard error or neither exactly as the attempt went |
| Reconnect.DelayIsCappedDoubling | go/internal/client/reconnect.go:94-124 | the k-th failure in a row sleeps min(cap, base·2^(k−1)), or base when that is past the cap |
| Reconnect.DefaultsFillIn | go/internal/client/reconnect.go:55-67 | a policy left at zero means 1 s, 15 s, 7 failures and 5 s; fields that are set are kept |
| Reconnect.RunSession | web/src/net/reconnect.js:30-71 | parks exactly on completing the first maxAttempts attempts in a row that were rejected, never connected or dropped early, or after the first attempt when maxAttempts is not positive; stops when told to, during a connection or a sleep; each backoff gets the current run length |
| Reconnect.RunWithRetries | web/src/net/reconnect.js:38-71 | after a park a retry starts clean: every park completes the first run of failures since the park before, and without a positive maxAttempts every attempt parks |
| Reconnect.RunBothLoops | web/src/net/reconnect.js:30-71 | both loops on attempts of equal health and equal limits: both give up, at the same attempt and with the same count, or neither does |

## Left out

- WebSocket, HTTP, WebRTC, terminal and tmux calls: foreign effects; only the state steps around them are modelled.
- The flynn/noise library behind the Go side of the handshakes: not part of this model, which follows the JavaScript implementations.
- User interface, overview rendering, CLI text, doctor and self-update.
- Ed25519, X25519, ChaCha20-Poly1305, SHA-256 and HKDF internals: symbolic here.
- JSON, base64 and URL handling: records are read and written as values; the SDP digest of the attach challenge and the commitment are inputs.
- web/src/wallet and web/src/registry.js: near-copies of Go code already modelled.
- Frames, disconnect grace, name sanitisers, proof derivation and the flap counter: easy members.
- The pairing drivers startInitiator and runResponder beyond the order of their messages: JSON claims and the final signature are not modelled.
- Fairness of the scheduler: progress is proved as what the remaining steps achieve when they are taken, from every reachable state. What happens to live guests when a grant is revoked is not modelled.
- Several processes using one identity or one grant directory at once: operations there are sequential.
- A relay without a revocations file: the persistence model assumes one is configured.
- RelayRevocations.AcknowledgedNeverLost: speaks of clean runs; after a step that is not clean a 204 is lost at once or can be lost by the next write, as KeptExactly says.
- RelayRevocations.Server.PersistRevocations: the order of records inside the file is not stated, since it is loaded into a map.
- RateLimit.RequestLimiter.Allows: the key is the pair of path and address, not their joined text.
- PairRooms.BudgetHolds: the shared byte counter is unbounded here, 64-bit in the program.
- Reconnect.ReconnectLoop: durations are unbounded integers, so an overflow of the doubled backoff is not modelled; notifications are left out.
- Reconnect.RunSession: state callbacks are left out.
- Multiplexer.Mux.ReadStdin: no session dies while input is read; deaths interleave in the focus machine. The two resize frames of a repaint are one item, and the screen output is left out.
- Multiplexer.FocusStaysLive: the resize loop and the forwarding of output are left out.
- Prewarm.WarmUp.Join: the joins receive what the fetches delivered; goroutines, timeouts and RefreshRegistry are not modelled.
- Prewarm.WarmUpRestsOnAnswer: assumes a clock that does not run backwards and one cache scope.
- Prewarm.CrashStatesCovered: speaks of runs without an overtaken rename; the program takes no lock that would rule one out, and OverlapLosesTombstone is such a run.
- Tombstones.LocalStore.RecordRevocation: the library sort is an insertion sort here, and ids are numbers with their order.
- IdentityStore.Stores.SaveIdentity: the steps before the rename share one fault, since they share one cleanup; device id and binding are left out, and a keychain call that fails changes nothing.
- GrantStore.GrantDir.TombstoneGrant: assumes the file system does not fail and the tombstone file is readable.
- GrantStore.GrantDir.HandleRevokeGrant: dropping live sessions is left out.
