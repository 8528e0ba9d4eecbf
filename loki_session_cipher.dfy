/** LokiSessionCipher: the session-reset reconciler that wraps every inbound
    decrypt. It snapshots the current session state, gates first-contact
    pre-key messages through the reset coordinator, delegates to the ratchet,
    and then restores, prunes or leaves the session record according to the
    reset status and whether the epoch (`aliceBaseKey`) changed. */
module LokiService {
  import opened Common
  import opened SessionRecords

  /** `CipherMessageType`; `Code` gives the raw values of the wire enum. */
  datatype CipherMessageType = Whisper | Prekey | LokiFriendRequest {
    function Code(): nat {
      match this
      case Whisper => 1
      case Prekey => 3
      case LokiFriendRequest => 101
    }
  }

  /** An inbound message: its type and its serialised bytes. */
  datatype CipherMessage = CipherMessage(cipherMessageType: CipherMessageType, serialized: Bytes)

  /** `SessionResetStatus`: `.none`, `.requestReceived`, `.requestSent`. */
  datatype SessionResetStatus = NoReset | RequestReceived | RequestSent

  /** The caller's transaction handle, passed through unchanged. */
  datatype ProtocolContext = ProtocolContext(handle: nat)

  /** `SessionResetProtocol`: the two operations the coordinator supplies. */
  datatype SessionResetCoordinator = SessionResetCoordinator(
    verifyFriendRequestAcceptPreKey: (string, CipherMessage, ProtocolContext) -> Outcome<ThrownError>,
    getSessionResetStatus: (string, ProtocolContext) -> SessionResetStatus)

  /** What the underlying ratchet (`super.decrypt`) does on one call: it throws,
      or it returns a plaintext having stored an arbitrary new record value. */
  datatype RatchetOutcome =
    | RatchetThrew(error: ThrownError)
    | RatchetDecrypted(plaintext: Bytes, record: RecordValue)

  const SessionAdoptedNotification: string := "LKSessionAddopted"
  const ContactPubKeyField: string := "LKContactPubKeyField"

  /** A posted notification: its name and the `userInfo` entry under
      `ContactPubKeyField`. */
  datatype Notification = Notification(name: string, contactPubKey: string)

  function SessionAdopted(recipientId: string): Notification {
    Notification(SessionAdoptedNotification, recipientId)
  }

  /** The observable steps of one decrypt call, in order. */
  datatype Event =
    | FriendRequestVerified
    | RatchetInvoked
    | ReconcilerStored
    | Posted(notification: Notification)

  /** The corrective step the reconciler takes after a successful decrypt. */
  datatype ResetAction =
    | NoAction
    | RestorePrevious(state: SessionState)
    | PruneTo(keep: Option<SessionState>)

  /** The reset status the reconciler reads; `.none` without a coordinator. */
  function StatusFor(reset: Option<SessionResetCoordinator>, recipientId: string, ctx: ProtocolContext): SessionResetStatus
  {
    match reset
    case None => NoReset
    case Some(c) => c.getSessionResetStatus(recipientId, ctx)
  }

  /** The branch selection of `handleSessionReset`, from the state before the
      decrypt, the reset status and the state after the decrypt. */
  function ChooseAction(previous: Option<SessionState>, status: SessionResetStatus, after: Option<SessionState>): ResetAction
  {
    if previous.None? || status == NoReset then NoAction
    else if after.None? || after.value.aliceBaseKey != previous.value.aliceBaseKey then
      if status == RequestReceived then RestorePrevious(previous.value)
      else PruneTo(after)
    else if status == RequestReceived then PruneTo(previous)
    else NoAction
  }

  /** The reconciler acts only when there was a state before the decrypt and a
      reset is in progress; it restores only on `requestReceived` with a changed
      epoch, and then it restores exactly the pre-decrypt state. */
  lemma ChooseActionSpec(previous: Option<SessionState>, status: SessionResetStatus, after: Option<SessionState>)
    ensures var a := ChooseAction(previous, status, after);
      var changed := previous.Some? && (after.None? || after.value.aliceBaseKey != previous.value.aliceBaseKey);
      && (a != NoAction ==> previous.Some? && status != NoReset)
      && (a.RestorePrevious? <==> changed && status == RequestReceived)
      && (a.RestorePrevious? ==> a.state == previous.value)
      && (a.PruneTo? <==> (changed && status == RequestSent) || (previous.Some? && !changed && status == RequestReceived))
      && (a.PruneTo? ==> a.keep == if changed then after else previous)
      && (a == NoAction <==> previous.None? || status == NoReset || (!changed && status == RequestSent))
  {
  }

  /** The record value the reconciler stores for an action, starting from the
      value the ratchet left; `archivedAt` is where `promoteState` files the
      state it displaces. */
  function ApplyAction(rec: RecordValue, action: ResetAction, archivedAt: nat): RecordValue
  {
    match action
    case NoAction => rec
    case RestorePrevious(s) =>
      PromoteAt(RecordValue(rec.current, RemoveLastMatching(rec.archive, s.aliceBaseKey)), s, archivedAt)
    case PruneTo(keep) => RecordValue(Some(keep.GetOr(EmptyState())), [])
  }

  /** The events the reconciler adds for an action: a store write, then (for
      an adoption) the notification. */
  function ActionEvents(action: ResetAction, recipientId: string): seq<Event>
  {
    match action
    case NoAction => []
    case RestorePrevious(_) => [ReconcilerStored]
    case PruneTo(_) => [ReconcilerStored, Posted(SessionAdopted(recipientId))]
  }

  /** The outcome of one `decrypt` call: what it returns, the record value then
      stored for the peer device, and the events in order. */
  datatype DecryptRun = DecryptRun(result: Result<Bytes, ThrownError>, record: RecordValue, events: seq<Event>)

  /** Whether `decrypt` asks the coordinator to verify the message. */
  predicate VerifiesFriendRequest(reset: Option<SessionResetCoordinator>, before: RecordValue, message: CipherMessage)
  {
    before.current.None? && message.cipherMessageType == Prekey && reset.Some?
  }

  /** Whether the friend-request gate lets the message through: it was not
      consulted, or it did not throw. */
  predicate VerificationPasses(reset: Option<SessionResetCoordinator>, recipientId: string, message: CipherMessage,
                               ctx: ProtocolContext, before: RecordValue)
  {
    !VerifiesFriendRequest(reset, before, message) || reset.value.verifyFriendRequestAcceptPreKey(recipientId, message, ctx).Pass?
  }

  /** One `decrypt` call end to end, from the stored record value `before`. */
  function DecryptSpec(reset: Option<SessionResetCoordinator>, recipientId: string, message: CipherMessage,
                       ctx: ProtocolContext, before: RecordValue, ratchet: RatchetOutcome, archivedAt: nat): DecryptRun
  {
    var verifies := VerifiesFriendRequest(reset, before, message);
    var verdict := if verifies then reset.value.verifyFriendRequestAcceptPreKey(recipientId, message, ctx) else Pass;
    var checked := if verifies then [FriendRequestVerified] else [];
    if verdict.Fail? then DecryptRun(Failure(verdict.error), before, checked)
    else
      match ratchet
      case RatchetThrew(e) => DecryptRun(Failure(e), before, checked + [RatchetInvoked])
      case RatchetDecrypted(plaintext, after) =>
        var action := ChooseAction(before.current, StatusFor(reset, recipientId, ctx), after.current);
        DecryptRun(Success(plaintext), ApplyAction(after, action, archivedAt),
                   checked + [RatchetInvoked] + ActionEvents(action, recipientId))
  }

  /** Friend-request verification runs exactly when the record was fresh
      before the decrypt, the message is a pre-key message and a coordinator
      is configured. */
  lemma VerificationOnlyForFreshPrekey(reset: Option<SessionResetCoordinator>, recipientId: string, message: CipherMessage,
                                       ctx: ProtocolContext, before: RecordValue, ratchet: RatchetOutcome, archivedAt: nat)
    ensures var run := DecryptSpec(reset, recipientId, message, ctx, before, ratchet, archivedAt);
      && (FriendRequestVerified in run.events <==> VerifiesFriendRequest(reset, before, message))
      && (FriendRequestVerified in run.events ==> before.current.None? && message.cipherMessageType == Prekey)
  {
    var run := DecryptSpec(reset, recipientId, message, ctx, before, ratchet, archivedAt);
    if !VerifiesFriendRequest(reset, before, message) {
      if ratchet.RatchetDecrypted? {
        var action := ChooseAction(before.current, StatusFor(reset, recipientId, ctx), ratchet.record.current);
        assert run.events == [RatchetInvoked] + ActionEvents(action, recipientId);
      }
    }
  }

  /** A failed verification is passed on unchanged; the ratchet is never
      called, the record is not written and nothing is posted. */
  lemma VerificationFailureAborts(reset: Option<SessionResetCoordinator>, recipientId: string, message: CipherMessage,
                                  ctx: ProtocolContext, before: RecordValue, ratchet: RatchetOutcome, archivedAt: nat)
    requires VerifiesFriendRequest(reset, before, message)
    requires reset.value.verifyFriendRequestAcceptPreKey(recipientId, message, ctx).Fail?
    ensures var run := DecryptSpec(reset, recipientId, message, ctx, before, ratchet, archivedAt);
      && run.result == Failure(reset.value.verifyFriendRequestAcceptPreKey(recipientId, message, ctx).error)
      && run.record == before
      && run.events == [FriendRequestVerified]
  {
  }

  /** Once verification has passed, the ratchet's own error is what the call
      throws, and no reconciliation runs. */
  lemma RatchetFailurePropagates(reset: Option<SessionResetCoordinator>, recipientId: string, message: CipherMessage,
                                 ctx: ProtocolContext, before: RecordValue, e: ThrownError, archivedAt: nat)
    requires VerificationPasses(reset, recipientId, message, ctx, before)
    ensures var run := DecryptSpec(reset, recipientId, message, ctx, before, RatchetThrew(e), archivedAt);
      && run.result == Failure(e)
      && run.record == before
      && ReconcilerStored !in run.events
      && forall n :: Posted(n) !in run.events
  {
  }

  /** `decrypt` succeeds exactly when verification (if any) passed and the
      ratchet decrypted, and then returns the ratchet's plaintext unchanged. */
  lemma PlaintextIsRatchets(reset: Option<SessionResetCoordinator>, recipientId: string, message: CipherMessage,
                            ctx: ProtocolContext, before: RecordValue, ratchet: RatchetOutcome, archivedAt: nat)
    ensures var run := DecryptSpec(reset, recipientId, message, ctx, before, ratchet, archivedAt);
      && (run.result.Success? <==> VerificationPasses(reset, recipientId, message, ctx, before) && ratchet.RatchetDecrypted?)
      && (run.result.Success? ==> run.result.value == ratchet.plaintext)
  {
  }

  /** With no state before the decrypt, or no reset in progress, the record is
      what the ratchet left and the reconciler neither writes nor posts. */
  lemma QuietWithoutPriorStateOrReset(reset: Option<SessionResetCoordinator>, recipientId: string, message: CipherMessage,
                                      ctx: ProtocolContext, before: RecordValue, plaintext: Bytes, after: RecordValue, archivedAt: nat)
    requires VerificationPasses(reset, recipientId, message, ctx, before)
    requires before.current.None? || StatusFor(reset, recipientId, ctx) == NoReset
    ensures var run := DecryptSpec(reset, recipientId, message, ctx, before, RatchetDecrypted(plaintext, after), archivedAt);
      && run.record == after
      && ReconcilerStored !in run.events
      && forall n :: Posted(n) !in run.events
  {
  }

  /** Without a coordinator the cipher is the bare ratchet: no verification,
      no reconciliation, the ratchet's result and record unchanged. */
  lemma NoCoordinatorIsBareRatchet(recipientId: string, message: CipherMessage, ctx: ProtocolContext,
                                   before: RecordValue, ratchet: RatchetOutcome, archivedAt: nat)
    ensures var run := DecryptSpec(None, recipientId, message, ctx, before, ratchet, archivedAt);
      && run.events == [RatchetInvoked]
      && run.result == (match ratchet case RatchetThrew(e) => Failure(e) case RatchetDecrypted(p, _) => Success(p))
      && run.record == (match ratchet case RatchetThrew(_) => before case RatchetDecrypted(_, r) => r)
  {
  }

  /** `requestReceived` and the epoch changed (or the state vanished): the
      pre-decrypt state is current again; the archive is the ratchet's archive
      minus at most its last entry with that base key, with the state the
      ratchet made current filed among the rest, whose order is kept. One store
      write, no notification; this happens whether or not an archived match was
      found. */
  lemma RestoreOnStaleSession(reset: Option<SessionResetCoordinator>, recipientId: string, message: CipherMessage,
                              ctx: ProtocolContext, before: RecordValue, plaintext: Bytes, after: RecordValue, archivedAt: nat)
    requires before.current.Some? && StatusFor(reset, recipientId, ctx) == RequestReceived
    requires after.current.None? || after.current.value.aliceBaseKey != before.current.value.aliceBaseKey
    ensures var run := DecryptSpec(reset, recipientId, message, ctx, before, RatchetDecrypted(plaintext, after), archivedAt);
      var previous := before.current.value;
      var kept := RemoveLastMatching(after.archive, previous.aliceBaseKey);
      && run.result == Success(plaintext)
      && run.record.current == Some(previous)
      && (after.current.None? ==> run.record.archive == kept)
      && (after.current.Some? ==> InsertedInto(run.record.archive, kept, after.current.value))
      && run.events == [RatchetInvoked, ReconcilerStored]
  {
    var previous := before.current.value;
    var kept := RemoveLastMatching(after.archive, previous.aliceBaseKey);
    assert ChooseAction(before.current, RequestReceived, after.current) == RestorePrevious(previous);
    if after.current.Some? {
      var i := if archivedAt <= |kept| then archivedAt else |kept|;
      var run := DecryptSpec(reset, recipientId, message, ctx, before, RatchetDecrypted(plaintext, after), archivedAt);
      assert run.record == ApplyAction(after, RestorePrevious(previous), archivedAt);
      assert run.record.archive == kept[..i] + [after.current.value] + kept[i..];
    }
  }

  /** The reconciler keeps the record invariant: if the ratchet left at most
      one state per base key, so does the record stored after reconciling.
      The reverse scan drops the archived copy of the restored state before it
      is promoted, which is what keeps its key unique. */
  lemma ReconcileKeepsBaseKeysDistinct(reset: Option<SessionResetCoordinator>, recipientId: string, message: CipherMessage,
                                       ctx: ProtocolContext, before: RecordValue, plaintext: Bytes, after: RecordValue, archivedAt: nat)
    requires VerificationPasses(reset, recipientId, message, ctx, before)
    requires DistinctKeys(after)
    ensures DistinctKeys(DecryptSpec(reset, recipientId, message, ctx, before, RatchetDecrypted(plaintext, after), archivedAt).record)
  {
    var action := ChooseAction(before.current, StatusFor(reset, recipientId, ctx), after.current);
    match action
    case NoAction =>
    case PruneTo(_) =>
    case RestorePrevious(s) =>
      var kept := RemoveLastMatching(after.archive, s.aliceBaseKey);
      RemoveLastMatchingKeepsDistinct(after.archive, s.aliceBaseKey);
      if after.current.Some? {
        forall j | 0 <= j < |kept|
          ensures kept[j].aliceBaseKey != after.current.value.aliceBaseKey
        {
          assert kept[j] in after.archive;
        }
      }
      PromoteAtKeepsDistinct(RecordValue(after.current, kept), s, archivedAt);
  }

  /** `requestSent` and the epoch changed: our reset went through. The record
      holds only the ratchet's new state (or a new empty state), and exactly
      one session-adopted notification for the peer follows the one write. */
  lemma AdoptNewEpoch(reset: Option<SessionResetCoordinator>, recipientId: string, message: CipherMessage,
                      ctx: ProtocolContext, before: RecordValue, plaintext: Bytes, after: RecordValue, archivedAt: nat)
    requires before.current.Some? && StatusFor(reset, recipientId, ctx) == RequestSent
    requires after.current.None? || after.current.value.aliceBaseKey != before.current.value.aliceBaseKey
    ensures var run := DecryptSpec(reset, recipientId, message, ctx, before, RatchetDecrypted(plaintext, after), archivedAt);
      && run.result == Success(plaintext)
      && run.record == RecordValue(Some(after.current.GetOr(EmptyState())), [])
      && run.events == [RatchetInvoked, ReconcilerStored, Posted(Notification(SessionAdoptedNotification, recipientId))]
  {
  }

  /** `requestReceived` and the epoch unchanged: the peer answered on the
      session we hold. The record holds only the pre-decrypt state, and exactly
      one session-adopted notification follows the one write. */
  lemma AdoptSameEpoch(reset: Option<SessionResetCoordinator>, recipientId: string, message: CipherMessage,
                       ctx: ProtocolContext, before: RecordValue, plaintext: Bytes, after: RecordValue, archivedAt: nat)
    requires before.current.Some? && StatusFor(reset, recipientId, ctx) == RequestReceived
    requires after.current.Some? && after.current.value.aliceBaseKey == before.current.value.aliceBaseKey
    ensures var run := DecryptSpec(reset, recipientId, message, ctx, before, RatchetDecrypted(plaintext, after), archivedAt);
      && run.result == Success(plaintext)
      && run.record == RecordValue(before.current, [])
      && run.events == [RatchetInvoked, ReconcilerStored, Posted(Notification(SessionAdoptedNotification, recipientId))]
  {
  }

  /** `requestSent` and the epoch unchanged: still waiting; nothing is written
      beyond the ratchet's own update and nothing is posted. */
  lemma WaitOnSameEpoch(reset: Option<SessionResetCoordinator>, recipientId: string, message: CipherMessage,
                        ctx: ProtocolContext, before: RecordValue, plaintext: Bytes, after: RecordValue, archivedAt: nat)
    requires before.current.Some? && StatusFor(reset, recipientId, ctx) == RequestSent
    requires after.current.Some? && after.current.value.aliceBaseKey == before.current.value.aliceBaseKey
    ensures var run := DecryptSpec(reset, recipientId, message, ctx, before, RatchetDecrypted(plaintext, after), archivedAt);
      && run.result == Success(plaintext)
      && run.record == after
      && run.events == [RatchetInvoked]
  {
  }

  /** At most one reconciler write and at most one notification in a log,
      every notification being the session-adopted one for `recipientId`, and
      a notification only after a write. */
  ghost predicate AtMostOneWriteAndOnePostIn(events: seq<Event>, recipientId: string)
  {
    && multiset(events)[ReconcilerStored] <= 1
    && multiset(events)[Posted(SessionAdopted(recipientId))] <= 1
    && (forall n :: Posted(n) in events ==> n == SessionAdopted(recipientId))
    && (forall i :: 0 <= i < |events| && events[i].Posted? ==> ReconcilerStored in events[..i])
  }

  /** A log of verification and ratchet events followed by nothing, a write,
      or a write and then the session-adopted notification is within the bound. */
  lemma QuietPrefixWithinBound(prefix: seq<Event>, suffix: seq<Event>, recipientId: string)
    requires forall e :: e in prefix ==> e == FriendRequestVerified || e == RatchetInvoked
    requires suffix == [] || suffix == [ReconcilerStored] || suffix == [ReconcilerStored, Posted(SessionAdopted(recipientId))]
    ensures AtMostOneWriteAndOnePostIn(prefix + suffix, recipientId)
  {
    var events := prefix + suffix;
    assert multiset(events) == multiset(prefix) + multiset(suffix);
    assert ReconcilerStored !in prefix && Posted(SessionAdopted(recipientId)) !in prefix;
    forall n | Posted(n) in events
      ensures n == SessionAdopted(recipientId)
    {
      assert Posted(n) !in prefix;
    }
    forall i | 0 <= i < |prefix|
      ensures !events[i].Posted?
    {
      assert events[i] == prefix[i] && prefix[i] in prefix;
    }
    forall i | 0 <= i < |events| && events[i].Posted?
      ensures ReconcilerStored in events[..i]
    {
      assert events[..i][|prefix|] == ReconcilerStored;
    }
  }

  /** Every decrypt call makes at most one reconciler write and posts at most
      one notification, always the session-adopted one for this peer and only
      after that write. */
  lemma AtMostOneWriteAndOnePost(reset: Option<SessionResetCoordinator>, recipientId: string, message: CipherMessage,
                                 ctx: ProtocolContext, before: RecordValue, ratchet: RatchetOutcome, archivedAt: nat)
    ensures AtMostOneWriteAndOnePostIn(DecryptSpec(reset, recipientId, message, ctx, before, ratchet, archivedAt).events, recipientId)
  {
    var run := DecryptSpec(reset, recipientId, message, ctx, before, ratchet, archivedAt);
    var checked := if VerifiesFriendRequest(reset, before, message) then [FriendRequestVerified] else [];
    var ran := checked + [RatchetInvoked];
    assert forall e :: e in ran ==> e == FriendRequestVerified || e == RatchetInvoked;
    if !VerificationPasses(reset, recipientId, message, ctx, before) {
      assert run.events == checked + [];
      QuietPrefixWithinBound(checked, [], recipientId);
    } else if ratchet.RatchetThrew? {
      assert run.events == ran + [];
      QuietPrefixWithinBound(ran, [], recipientId);
    } else {
      var action := ChooseAction(before.current, StatusFor(reset, recipientId, ctx), ratchet.record.current);
      var tail := ActionEvents(action, recipientId);
      assert run.events == ran + tail;
      QuietPrefixWithinBound(ran, tail, recipientId);
    }
  }

  /** The class itself: the coordinator (absent when built by the non-public
      initialiser), the store, and the peer device it decrypts for. */
  class LokiSessionCipher {
    const sessionReset: Option<SessionResetCoordinator>
    const sessionStore: SessionStore
    const recipientId: string
    const deviceId: int32
    /** Everything observable this cipher has done, oldest first. */
    ghost var events: seq<Event>

    /** The store key of the peer device this cipher serves. */
    function Peer(): Address
    {
      Address(recipientId, deviceId)
    }

    /** The public initialiser, with a reset coordinator. */
    constructor (sessionReset: SessionResetCoordinator, sessionStore: SessionStore, recipientId: string, deviceId: int32)
      ensures this.sessionReset == Some(sessionReset) && this.sessionStore == sessionStore
      ensures this.recipientId == recipientId && this.deviceId == deviceId && events == []
    {
      this.sessionReset := Some(sessionReset);
      this.sessionStore := sessionStore;
      this.recipientId := recipientId;
      this.deviceId := deviceId;
      events := [];
    }

    /** The overriding initialiser, with no reset coordinator. */
    constructor WithoutReset(sessionStore: SessionStore, recipientId: string, deviceId: int32)
      ensures sessionReset == None && this.sessionStore == sessionStore
      ensures this.recipientId == recipientId && this.deviceId == deviceId && events == []
    {
      this.sessionReset := None;
      this.sessionStore := sessionStore;
      this.recipientId := recipientId;
      this.deviceId := deviceId;
      events := [];
    }

    /** `getCurrentState`: nil for a fresh record, else its current state. */
    method GetCurrentState(ctx: ProtocolContext) returns (s: Option<SessionState>)
      ensures s == sessionStore.Stored(Peer()).current
    {
      var record := sessionStore.LoadSession(Peer());
      s := if record.IsFresh() then None else record.current;
    }

    /** `super.decrypt`: the ratchet, whose behaviour on this call is `ratchet`. */
    method RatchetDecrypt(message: CipherMessage, ctx: ProtocolContext, ratchet: RatchetOutcome)
      returns (r: Result<Bytes, ThrownError>)
      modifies this, sessionStore
      ensures events == old(events) + [RatchetInvoked]
      ensures ratchet.RatchetThrew? ==> r == Failure(ratchet.error) && sessionStore.records == old(sessionStore.records)
      ensures ratchet.RatchetDecrypted? ==>
        r == Success(ratchet.plaintext) && sessionStore.records == old(sessionStore.records)[Peer() := ratchet.record]
    {
      events := events + [RatchetInvoked];
      match ratchet
      case RatchetThrew(e) =>
        r := Failure(e);
      case RatchetDecrypted(plaintext, after) =>
        var record := new SessionRecord(after);
        sessionStore.StoreSession(Peer(), record);
        r := Success(plaintext);
    }

    /** `decrypt`. `archivedAt` reports where `promoteState` filed the state it
        displaced, if the reconciler restored a session. */
    method Decrypt(message: CipherMessage, ctx: ProtocolContext, ratchet: RatchetOutcome)
      returns (r: Result<Bytes, ThrownError>, ghost archivedAt: nat)
      modifies this, sessionStore
      ensures var run := DecryptSpec(sessionReset, recipientId, message, ctx, old(sessionStore.Stored(Peer())), ratchet, archivedAt);
        && r == run.result
        && events == old(events) + run.events
        && sessionStore.records == if r.Success? then old(sessionStore.records)[Peer() := run.record] else old(sessionStore.records)
    {
      archivedAt := 0;
      ghost var before := sessionStore.Stored(Peer());
      var currentState := GetCurrentState(ctx);
      if currentState.None? && message.cipherMessageType == Prekey {
        if sessionReset.Some? {
          events := events + [FriendRequestVerified];
          var verdict := sessionReset.value.verifyFriendRequestAcceptPreKey(recipientId, message, ctx);
          if verdict.Fail? {
            return Failure(verdict.error), archivedAt;
          }
        }
      }
      var plainText := RatchetDecrypt(message, ctx, ratchet);
      if plainText.Failure? {
        return plainText, archivedAt;
      }
      archivedAt := HandleSessionReset(message, currentState, ctx);
      r := plainText;
    }

    /** `handleSessionReset`: runs after a successful ratchet decrypt, with the
        pre-decrypt state `previousState`. */
    method HandleSessionReset(message: CipherMessage, previousState: Option<SessionState>, ctx: ProtocolContext)
      returns (ghost archivedAt: nat)
      modifies this, sessionStore
      ensures var action := ChooseAction(previousState, StatusFor(sessionReset, recipientId, ctx), old(sessionStore.Stored(Peer())).current);
        && events == old(events) + ActionEvents(action, recipientId)
        && sessionStore.records ==
             if action == NoAction then old(sessionStore.records)
             else old(sessionStore.records)[Peer() := ApplyAction(old(sessionStore.Stored(Peer())), action, archivedAt)]
    {
      archivedAt := 0;
      if previousState.None? {
        return;
      }
      var sessionResetStatus := if sessionReset.Some? then sessionReset.value.getSessionResetStatus(recipientId, ctx) else NoReset;
      if sessionResetStatus == NoReset {
        return;
      }
      var currentState := GetCurrentState(ctx);
      if currentState.None? || currentState.value.aliceBaseKey != previousState.value.aliceBaseKey {
        if sessionResetStatus == RequestReceived {
          archivedAt := RestoreSession(previousState.value, ctx);
        } else {
          DeleteAllSessions(currentState, ctx);
          NotifySessionAdopted();
        }
      } else if sessionResetStatus == RequestReceived {
        DeleteAllSessions(previousState, ctx);
        NotifySessionAdopted();
      }
    }

    /** `notifySessionAdopted`: posts the notification carrying `recipientId`. */
    method NotifySessionAdopted()
      modifies this
      ensures events == old(events) + [Posted(SessionAdopted(recipientId))]
    {
      events := events + [Posted(Notification(SessionAdoptedNotification, recipientId))];
    }

    /** `deleteAllSessions(except:)`: empties the archive, makes `state` (or a
        new empty state) current, and stores the record. */
    method DeleteAllSessions(state: Option<SessionState>, ctx: ProtocolContext)
      modifies this, sessionStore
      ensures events == old(events) + [ReconcilerStored]
      ensures sessionStore.records == old(sessionStore.records)[Peer() := RecordValue(Some(state.GetOr(EmptyState())), [])]
    {
      var record := sessionStore.LoadSession(Peer());
      record.RemovePreviousSessionStates();
      var newState := state.GetOr(EmptyState());
      record.SetState(newState);
      sessionStore.StoreSession(Peer(), record);
      events := events + [ReconcilerStored];
    }

    /** `restoreSession`: scanning the archive from its end, removes the first
        entry with `state`'s base key, then promotes `state` and stores the record. */
    method RestoreSession(state: SessionState, ctx: ProtocolContext) returns (ghost archivedAt: nat)
      modifies this, sessionStore
      ensures events == old(events) + [ReconcilerStored]
      ensures sessionStore.records == old(sessionStore.records)[Peer() :=
        ApplyAction(old(sessionStore.Stored(Peer())), RestorePrevious(state), archivedAt)]
    {
      var record := sessionStore.LoadSession(Peer());
      ghost var loaded := record.archive;
      ghost var removed := false;
      var index := |record.archive|;
      while index > 0
        invariant 0 <= index <= |loaded|
        invariant record.archive == loaded
        invariant forall j :: index <= j < |loaded| ==> loaded[j].aliceBaseKey != state.aliceBaseKey
      {
        index := index - 1;
        if record.archive[index].aliceBaseKey == state.aliceBaseKey {
          record.archive := record.archive[..index] + record.archive[index + 1..];
          RemoveLastMatchingAt(loaded, state.aliceBaseKey, index);
          removed := true;
          break;
        }
      }
      if !removed {
        RemoveLastMatchingAbsent(loaded, state.aliceBaseKey);
      }
      archivedAt := record.PromoteState(state);
      sessionStore.StoreSession(Peer(), record);
      events := events + [ReconcilerStored];
    }
  }
}
