# Session-reset reconciliation, certificate validation and the fallback cipher

A Dafny model of three pieces of the Loki fork of Signal's metadata kit:

- **`LokiSessionCipher`** (`LokiService` module, with the session record in
  `SessionRecords`). It wraps every inbound decrypt. First it snapshots the
  peer device's current session state. A pre-key message on a fresh record is
  sent to the reset coordinator's friend-request verification. Then the
  ratchet (`super.decrypt`) runs. After a successful decrypt, the reconciler
  looks at the reset status and at whether the epoch (`aliceBaseKey`) changed.
  It then does one of four things: restore the old state from the archive,
  prune the record to the new state, prune it to the old state, or nothing.
  The record is a class with `current: Option<SessionState>` and an ordered
  `archive`. The store is a class mapping (recipient id, device id) to record
  values. In the model each `LoadSession` gives a new record object, and
  `StoreSession` writes its value back. Whether the store hands out shared
  objects is not visible (see "## Left out"). A ghost event log in the cipher records, in order:
  the verification call, the ratchet call, the reconciler's store write and
  each posted notification (name and recipient id).
  `DecryptSpec` states a whole call as a function. `LokiSessionCipher.Decrypt`
  is proved to match it, and the lemmas prove the properties in the table below about it.
- **`SMKCertificateDefaultValidator`** (`CertificateValidation` module). These
  are pure accept/reject rules. The validator's only state is the trust root
  it is built with (`Validator` is an immutable datatype), so validation is a
  function of its inputs.
- **`FallBackSessionCipher`** (`FallbackCipher` module). It strips the `"05"`
  key-type prefix, derives `recipientPubKey` and `symmetricKey` lazily, once,
  and returns nil from `encrypt`/`decrypt` instead of throwing. Ghost counters
  tied to the two caches by `Valid()` show each initialiser runs at most once.

Foreign collaborators are values passed in. These are the reset coordinator
(`SessionResetCoordinator`), the ratchet's behaviour on one call
(`RatchetOutcome`: it throws, or it returns a plaintext after storing an
arbitrary record), protobuf serialisation plus Ed25519 (`SignatureScheme`),
and hex decoding, Curve25519 and the AEAD (`FallbackPrimitives`). The random
bytes that `DiffieHellman.encrypt` draws are an explicit `randomness`
parameter. The protocol context is an opaque handle that is passed through.

`promoteState` belongs to AxolotlKit, and where it files the displaced state
is not part of this model. `PromoteState` picks an arbitrary archive position
and reports it as the ghost out-parameter `archivedAt`. Every lemma about
restoring holds for every position.

Two behaviours of the code are worth stating outright:
- On `requestReceived` with a changed epoch, the old state is promoted even
  when no archived entry matches (LokiServiceCipher.swift:105-118). No restore
  is skipped.
- Pruning with no post-decrypt state installs a new empty `SessionState()`
  (LokiServiceCipher.swift:99).

Session states are modelled as values. So on `requestReceived` with an
unchanged epoch, the stored current state becomes the pre-decrypt snapshot.
This drops the ratchet's update of that same epoch. Whether AxolotlKit shares
state objects between the two loads, which would hide this, is not part of
this model.

## Model

| member | source | states |
|---|---|---|
| `LokiService.LokiSessionCipher.Decrypt` | SignalMetadataKit/Loki/LokiServiceCipher.swift:38-53 | the returned result, the event log and the stored record are exactly those of `DecryptSpec` for the stored record before the call |
| `LokiService.LokiSessionCipher.GetCurrentState` | SignalMetadataKit/Loki/LokiServiceCipher.swift:55-58 | nil for a fresh stored record, otherwise its current state |
| `LokiService.LokiSessionCipher.HandleSessionReset` | SignalMetadataKit/Loki/LokiServiceCipher.swift:60-89 | applies the action `ChooseAction` selects to the stored record (no write for no action) and logs its store write and notification |
| `LokiService.LokiSessionCipher.NotifySessionAdopted` | SignalMetadataKit/Loki/LokiServiceCipher.swift:91-93 | posts one `LKSessionAddopted` notification carrying the recipient id |
| `LokiService.LokiSessionCipher.DeleteAllSessions` | SignalMetadataKit/Loki/LokiServiceCipher.swift:95-103 | stores a record with an empty archive and the given state (or a new empty state) as current |
| `LokiService.LokiSessionCipher.RestoreSession` | SignalMetadataKit/Loki/LokiServiceCipher.swift:105-118 | the reverse scan removes the last archived entry with the state's base key, then the state is promoted and the record stored |
| `LokiService.LokiSessionCipher.RatchetDecrypt` | SignalMetadataKit/Loki/LokiServiceCipher.swift:48 | the ratchet either throws with the store untouched or returns its plaintext having stored its new record |
| `LokiService.LokiSessionCipher.constructor` | SignalMetadataKit/Loki/LokiServiceCipher.swift:15-22 | the public initialiser keeps the given coordinator, store and peer |
| `LokiService.LokiSessionCipher.WithoutReset` | SignalMetadataKit/Loki/LokiServiceCipher.swift:29-36 | the overriding initialiser has no coordinator |
| `LokiService.ChooseActionSpec` | SignalMetadataKit/Loki/LokiServiceCipher.swift:60-89 | no action without a prior state or with status none; restore (of the prior state) iff requestReceived and the epoch changed; prune iff requestSent and changed (to the new state) or requestReceived and unchanged (to the prior state); otherwise nothing |
| `LokiService.VerificationOnlyForFreshPrekey` | SignalMetadataKit/Loki/LokiServiceCipher.swift:40-45 | verification is invoked iff the record was fresh, the message is a pre-key message and a coordinator exists |
| `LokiService.VerificationFailureAborts` | SignalMetadataKit/Loki/LokiServiceCipher.swift:43-48 | a failing verification's error is returned; the ratchet is not called, the record is unchanged, nothing is posted |
| `LokiService.RatchetFailurePropagates` | SignalMetadataKit/Loki/LokiServiceCipher.swift:48-52 | once verification has passed, the ratchet's own error is the call's error, unchanged; no reconciler write, no notification, record unchanged |
| `LokiService.PlaintextIsRatchets` | SignalMetadataKit/Loki/LokiServiceCipher.swift:48-52 | the call succeeds iff verification passed and the ratchet decrypted, and returns exactly the ratchet's plaintext |
| `LokiService.QuietWithoutPriorStateOrReset` | SignalMetadataKit/Loki/LokiServiceCipher.swift:60-67 | with no prior state, or status none, the record is the ratchet's and the reconciler neither writes nor posts |
| `LokiService.NoCoordinatorIsBareRatchet` | SignalMetadataKit/Loki/LokiServiceCipher.swift:38-67 | without a coordinator the status defaults to none: no verification, no reconciliation, the ratchet's result and record |
| `LokiService.RestoreOnStaleSession` | SignalMetadataKit/Loki/LokiServiceCipher.swift:72-118 | requestReceived with a changed or absent epoch: the prior state is current again, the archive is the ratchet's minus its last entry with that key, with the ratchet's state filed among the rest in order; one write, no notification, even with no archived match |
| `LokiService.ReconcileKeepsBaseKeysDistinct` | SignalMetadataKit/Loki/LokiServiceCipher.swift:60-118 | if the ratchet left at most one state per base key across current and archive, the record stored after reconciling has that property too; the reverse scan removes the restored state's archived copy before promotion |
| `LokiService.AdoptNewEpoch` | SignalMetadataKit/Loki/LokiServiceCipher.swift:77-81 | requestSent with a changed epoch: the record holds only the new state (or a new empty state), one write, then exactly one notification for the peer |
| `LokiService.AdoptSameEpoch` | SignalMetadataKit/Loki/LokiServiceCipher.swift:83-87 | requestReceived with the same epoch: the record holds only the pre-decrypt state, one write, then exactly one notification |
| `LokiService.WaitOnSameEpoch` | SignalMetadataKit/Loki/LokiServiceCipher.swift:83-88 | requestSent with the same epoch: the record is the ratchet's, no write, no notification |
| `LokiService.AtMostOneWriteAndOnePost` | SignalMetadataKit/Loki/LokiServiceCipher.swift:60-103 | every call makes at most one reconciler write and posts at most one notification, the session-adopted one for this peer, only after that write |
| `SessionRecords.LastIndexOf` | SignalMetadataKit/Loki/LokiServiceCipher.swift:108-112 | the found index holds the key and no later entry does; none found means no entry holds it |
| `SessionRecords.RemoveLastMatchingAt` | SignalMetadataKit/Loki/LokiServiceCipher.swift:108-112 | when the last match is at index i, the scan removes exactly entry i and keeps the rest in order |
| `SessionRecords.RemoveLastMatchingAbsent` | SignalMetadataKit/Loki/LokiServiceCipher.swift:108-112 | with no match, the scan leaves the archive unchanged |
| `SessionRecords.RemoveLastMatchingSpec` | SignalMetadataKit/Loki/LokiServiceCipher.swift:108-112 | the scan removes only the highest-index entry with the key, if any, keeping everything else in order |
| `SessionRecords.RemoveLastMatchingRemovesAtMostOne` | SignalMetadataKit/Loki/LokiServiceCipher.swift:108-112 | at most one entry is removed, one is removed iff some entry matches, and every non-matching entry survives |
| `SessionRecords.PromoteAtSpec` | SignalMetadataKit/Loki/LokiServiceCipher.swift:115 | promotion makes the argument current and inserts the old current state into the archive, the other entries keeping their order |
| `SessionRecords.RemoveLastMatchingKeepsDistinct` | SignalMetadataKit/Loki/LokiServiceCipher.swift:108-112 | on an archive with distinct base keys, the scan leaves no entry with the key, keeps the rest distinct and adds nothing |
| `SessionRecords.PromoteAtKeepsDistinct` | SignalMetadataKit/Loki/LokiServiceCipher.swift:115 | promoting a state whose base key is neither current nor archived keeps the base keys distinct |
| `SessionRecords.SessionRecord.PromoteState` | SignalMetadataKit/Loki/LokiServiceCipher.swift:115 | the record becomes `PromoteAt` of its old value at the reported position |
| `SessionRecords.SessionRecord.SetState` | SignalMetadataKit/Loki/LokiServiceCipher.swift:100 | the given state becomes current; the archive is untouched |
| `SessionRecords.SessionRecord.RemovePreviousSessionStates` | SignalMetadataKit/Loki/LokiServiceCipher.swift:97 | the archive is emptied; the current state is untouched |
| `SessionRecords.SessionStore.LoadSession` | SignalMetadataKit/Loki/LokiServiceCipher.swift:56 | a new record object holding the stored value, or a fresh record |
| `SessionRecords.SessionStore.StoreSession` | SignalMetadataKit/Loki/LokiServiceCipher.swift:102 | only the given address's record value changes |
| `CertificateValidation.ValidateSender` | SignalMetadataKit/SignalMetadataKit/src/SMKCertificateValidator.swift:40-46 | rejected with "Missing field." iff the recipient id is empty or the device id is 0 |
| `CertificateValidation.SenderValidationIgnoresTime` | SignalMetadataKit/SignalMetadataKit/src/SMKCertificateValidator.swift:40-46 | the verdict does not depend on the validation time |
| `CertificateValidation.ValidateServerWith` | SignalMetadataKit/SignalMetadataKit/src/SMKCertificateValidator.swift:50-67 | accepted iff serialisation succeeds, the signature over it verifies under the trust root, and the key id is not revoked |
| `CertificateValidation.ValidateServer` | SignalMetadataKit/SignalMetadataKit/src/SMKCertificateValidator.swift:26-67 | with the built-in empty revocation set: accepted iff the signature over the serialised (keyId, key) verifies under the trust root |
| `CertificateValidation.BadSignatureRejected` | SignalMetadataKit/SignalMetadataKit/src/SMKCertificateValidator.swift:55-61 | a signature that does not verify fails with the signature-verification error |
| `CertificateValidation.SignatureCheckedBeforeRevocation` | SignalMetadataKit/SignalMetadataKit/src/SMKCertificateValidator.swift:55-66 | a revoked certificate is reported as revoked iff its signature verified; otherwise the earlier error wins |
| `CertificateValidation.RevocationDecidesSignedCertificates` | SignalMetadataKit/SignalMetadataKit/src/SMKCertificateValidator.swift:62-66 | a correctly signed certificate fails with "Revoked certificate." iff its key id is revoked, and passes otherwise |
| `CertificateValidation.NothingRevokedByDefault` | SignalMetadataKit/SignalMetadataKit/src/SMKCertificateValidator.swift:26 | with the built-in set no certificate is reported revoked |
| `CertificateValidation.PrimitiveErrorsPropagate` | SignalMetadataKit/SignalMetadataKit/src/SMKCertificateValidator.swift:51-57 | an error thrown by serialisation or by the signature primitive reaches the caller unchanged |
| `FallbackCipher.NormalizedPublicKeyHexSpec` | SessionMetadataKit/SignalMetadataKit/src/Loki/FallbackSessionCipher.swift:11-18 | a 66-character key starting with "05" loses exactly those two characters, leaving 64; every other string is unchanged |
| `FallbackCipher.NoPrivateKeyUnavailable` | SessionMetadataKit/SignalMetadataKit/src/Loki/FallbackSessionCipher.swift:20-23 | without a private key the symmetric key, `encrypt` and `decrypt` are all nil |
| `FallbackCipher.FailedAgreementUnavailable` | SessionMetadataKit/SignalMetadataKit/src/Loki/FallbackSessionCipher.swift:22 | when key agreement throws the symmetric key, `encrypt` and `decrypt` are all nil |
| `FallbackCipher.AvailableOperationsPassThrough` | SessionMetadataKit/SignalMetadataKit/src/Loki/FallbackSessionCipher.swift:31-49 | with a symmetric key, `encrypt`/`decrypt` return the primitive's result unchanged, nil exactly when it throws |
| `FallbackCipher.FallBackSessionCipher.constructor` | SessionMetadataKit/SignalMetadataKit/src/Loki/FallbackSessionCipher.swift:25-29 | keeps the key string and optional private key; nothing derived yet |
| `FallbackCipher.FallBackSessionCipher.GetRecipientPubKey` | SessionMetadataKit/SignalMetadataKit/src/Loki/FallbackSessionCipher.swift:11-18 | returns the hex-decoded normalised key, computed on first use and cached; a call with the cache already filled derives nothing again; neither derivation counter ever goes down, so no cache is cleared |
| `FallbackCipher.FallBackSessionCipher.GetSymmetricKey` | SessionMetadataKit/SignalMetadataKit/src/Loki/FallbackSessionCipher.swift:20-23 | returns the agreed key or nil, computed on first use and cached (even when nil); a call with the cache already filled derives neither key again; no public-key derivation without a private key; neither derivation counter ever goes down, so no cache is cleared |
| `FallbackCipher.FallBackSessionCipher.Encrypt` | SessionMetadataKit/SignalMetadataKit/src/Loki/FallbackSessionCipher.swift:31-39 | returns `EncryptResult`: nil without a symmetric key or when the primitive throws, else its ciphertext; the symmetric key is cached afterwards and no derivation counter goes down |
| `FallbackCipher.FallBackSessionCipher.Decrypt` | SessionMetadataKit/SignalMetadataKit/src/Loki/FallbackSessionCipher.swift:41-49 | returns `DecryptResult`: nil without a symmetric key or when the primitive throws, else its plaintext; the symmetric key is cached afterwards and no derivation counter goes down |

## Left out

- The ratchet itself (message keys, chains, pre-key consumption) is not modelled. One call's behaviour is the arbitrary `RatchetOutcome` parameter.
- `RatchetDecrypt`: a ratchet that throws is assumed to store nothing, so after a ratchet error the stored record is the one from before the call. Whatever AxolotlKit may write before throwing is not modelled.
- AxolotlKit's `SessionRecord` internals are not part of this model: where `promoteState` files the displaced state (an arbitrary position here) and its trimming of the archive to a maximum length (not modelled).
- The `isFresh` flag is modelled as "no current state". AxolotlKit keeps it as a separate flag.
- Aliasing between the state objects of separate loads is not modelled, since session states are values.
- `NotificationCenter` is replaced by the ghost event log. `Logger` and `print` output are not modelled.
- The unavailable convenience initialiser is not modelled, because it cannot be called.
- The protocol context is an opaque handle. The caller's per-peer serialisation of decrypts (a concurrency concern) is not modelled.
- Protobuf serialisation, Ed25519, `Data(hex:)`, Curve25519 and the AEAD are foreign and are only parameters. Their byte layouts are not modelled.
- Because those primitives are not visible, the fallback cipher's encrypt/decrypt round trip and the freshness of its random initialisation bytes are not stated. The unused `ivSize` constant is kept only as a field.
- Swift's `String.count` counts grapheme clusters. Here a key string is a sequence of characters, which is the same thing for hex text.
- The raw values of `CipherMessageType` (1, 3, 101) are kept in `CipherMessageType.Code`. Only `Prekey` changes behaviour.
