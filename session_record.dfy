/** The per-peer session record and the session store, as far as the
    reconciler in LokiSessionCipher uses them: one current session state plus
    an ordered archive of earlier states, loaded from and stored back into a
    store keyed by (recipient id, device id). */
module SessionRecords {
  import opened Common

  /** One negotiated session epoch. `aliceBaseKey` tells two epochs apart;
      `ratchetState` stands for everything else the ratchet owns in it. */
  datatype SessionState = SessionState(aliceBaseKey: Bytes, ratchetState: Bytes)

  /** A newly allocated `SessionState()`: no base key and no ratchet data yet. */
  function EmptyState(): SessionState {
    SessionState([], [])
  }

  /** The contents of a session record. `current == None` is a fresh record
      (`isFresh()`); `archive` is `previousSessionStates`. */
  datatype RecordValue = RecordValue(current: Option<SessionState>, archive: seq<SessionState>)

  /** What `loadSession` yields for a peer with no stored record. */
  function FreshRecord(): RecordValue {
    RecordValue(None, [])
  }

  /** The highest index of the archive whose entry has base key `key`. */
  function LastIndexOf(archive: seq<SessionState>, key: Bytes): (r: Option<nat>)
    ensures r.Some? ==> r.value < |archive| && archive[r.value].aliceBaseKey == key
    ensures r.Some? ==> forall j :: r.value < j < |archive| ==> archive[j].aliceBaseKey != key
    ensures r.None? ==> forall j :: 0 <= j < |archive| ==> archive[j].aliceBaseKey != key
  {
    if |archive| == 0 then None
    else if archive[|archive| - 1].aliceBaseKey == key then Some(|archive| - 1)
    else LastIndexOf(archive[..|archive| - 1], key)
  }

  /** The archive after the reverse scan of `restoreSession`: walking from the
      end, the first entry with base key `key` is dropped and the scan stops. */
  function RemoveLastMatching(archive: seq<SessionState>, key: Bytes): seq<SessionState>
  {
    if |archive| == 0 then []
    else if archive[|archive| - 1].aliceBaseKey == key then archive[..|archive| - 1]
    else RemoveLastMatching(archive[..|archive| - 1], key) + [archive[|archive| - 1]]
  }

  /** When the scan finds its match at index `i` (nothing after `i` matches),
      exactly that entry is removed and the rest keep their order. */
  lemma {:induction false} RemoveLastMatchingAt(archive: seq<SessionState>, key: Bytes, i: nat)
    requires i < |archive| && archive[i].aliceBaseKey == key
    requires forall j :: i < j < |archive| ==> archive[j].aliceBaseKey != key
    ensures RemoveLastMatching(archive, key) == archive[..i] + archive[i + 1..]
  {
    var n := |archive|;
    if i < n - 1 {
      var front := archive[..n - 1];
      RemoveLastMatchingAt(front, key, i);
      assert front[..i] + front[i + 1..] + [archive[n - 1]] == archive[..i] + archive[i + 1..];
    }
  }

  /** When no entry has base key `key`, the scan leaves the archive as it was. */
  lemma {:induction false} RemoveLastMatchingAbsent(archive: seq<SessionState>, key: Bytes)
    requires forall j :: 0 <= j < |archive| ==> archive[j].aliceBaseKey != key
    ensures RemoveLastMatching(archive, key) == archive
  {
    if |archive| > 0 {
      RemoveLastMatchingAbsent(archive[..|archive| - 1], key);
    }
  }

  /** The scan removes at most one entry, and it is the highest-index entry
      with the key; everything before and after it keeps its relative order. */
  lemma RemoveLastMatchingSpec(archive: seq<SessionState>, key: Bytes)
    ensures match LastIndexOf(archive, key)
      case None => RemoveLastMatching(archive, key) == archive
      case Some(i) =>
        && (forall j :: i < j < |archive| ==> archive[j].aliceBaseKey != key)
        && RemoveLastMatching(archive, key) == archive[..i] + archive[i + 1..]
  {
    match LastIndexOf(archive, key)
    case None => RemoveLastMatchingAbsent(archive, key);
    case Some(i) => RemoveLastMatchingAt(archive, key, i);
  }

  /** At most one entry disappears, and only one carrying the key. */
  lemma RemoveLastMatchingRemovesAtMostOne(archive: seq<SessionState>, key: Bytes)
    ensures var r := RemoveLastMatching(archive, key);
      && (|r| == |archive| || |r| == |archive| - 1)
      && (|r| == |archive| - 1 <==> exists j :: 0 <= j < |archive| && archive[j].aliceBaseKey == key)
      && forall s :: s in archive && s.aliceBaseKey != key ==> s in r
  {
    RemoveLastMatchingSpec(archive, key);
    match LastIndexOf(archive, key)
    case None =>
    case Some(i) =>
      forall s | s in archive && s.aliceBaseKey != key
        ensures s in RemoveLastMatching(archive, key)
      {
        var j :| 0 <= j < |archive| && archive[j] == s;
        if j < i {
          assert s == (archive[..i] + archive[i + 1..])[j];
        } else {
          assert s == (archive[..i] + archive[i + 1..])[j - 1];
        }
      }
  }

  /** `promoteState(state)`: `state` becomes current and the old current state,
      if any, joins the archive at position `k` (clamped to the archive's end).
      Where AxolotlKit files it is not part of this model, so every lemma about
      it holds for every `k`. */
  function PromoteAt(rec: RecordValue, state: SessionState, k: nat): RecordValue
  {
    match rec.current
    case None => RecordValue(Some(state), rec.archive)
    case Some(c) =>
      var i := if k <= |rec.archive| then k else |rec.archive|;
      RecordValue(Some(state), rec.archive[..i] + [c] + rec.archive[i..])
  }

  /** `archive` is `rest` with `s` inserted at some position, the entries of
      `rest` keeping their order. */
  ghost predicate InsertedInto(archive: seq<SessionState>, rest: seq<SessionState>, s: SessionState)
  {
    exists i :: 0 <= i <= |rest| && archive == rest[..i] + [s] + rest[i..]
  }

  /** After promotion the argument is current; the archive is the old archive
      with the old current state inserted, untouched entries keeping their order. */
  lemma PromoteAtSpec(rec: RecordValue, state: SessionState, k: nat)
    ensures var r := PromoteAt(rec, state, k);
      && r.current == Some(state)
      && (rec.current.None? ==> r.archive == rec.archive)
      && (rec.current.Some? ==>
            InsertedInto(r.archive, rec.archive, rec.current.value))
      && multiset(r.archive) == multiset(rec.archive) + (if rec.current.Some? then multiset{rec.current.value} else multiset{})
  {
    match rec.current
    case None =>
    case Some(c) =>
      var i := if k <= |rec.archive| then k else |rec.archive|;
      assert rec.archive == rec.archive[..i] + rec.archive[i..];
  }

  /** No two archived states share a base key. */
  ghost predicate ArchiveKeysDistinct(archive: seq<SessionState>)
  {
    forall i, j :: 0 <= i < j < |archive| ==> archive[i].aliceBaseKey != archive[j].aliceBaseKey
  }

  /** The record invariant the reconciler keeps: at most one state per base
      key across the current state and the archive. */
  ghost predicate DistinctKeys(r: RecordValue)
  {
    && ArchiveKeysDistinct(r.archive)
    && (r.current.Some? ==> forall i :: 0 <= i < |r.archive| ==> r.archive[i].aliceBaseKey != r.current.value.aliceBaseKey)
  }

  /** On an archive with distinct keys the scan leaves no entry with `key`,
      keeps the rest distinct, and adds nothing. */
  lemma RemoveLastMatchingKeepsDistinct(archive: seq<SessionState>, key: Bytes)
    requires ArchiveKeysDistinct(archive)
    ensures var r := RemoveLastMatching(archive, key);
      && ArchiveKeysDistinct(r)
      && (forall j :: 0 <= j < |r| ==> r[j].aliceBaseKey != key)
      && (forall s :: s in r ==> s in archive)
  {
    RemoveLastMatchingSpec(archive, key);
    match LastIndexOf(archive, key)
    case None =>
    case Some(i) =>
      var r := archive[..i] + archive[i + 1..];
      assert forall j :: 0 <= j < |r| ==> r[j] == archive[if j < i then j else j + 1];
  }

  /** Promoting a state whose key is neither current nor archived keeps the
      keys distinct. */
  lemma PromoteAtKeepsDistinct(rec: RecordValue, state: SessionState, k: nat)
    requires DistinctKeys(rec)
    requires rec.current.Some? ==> rec.current.value.aliceBaseKey != state.aliceBaseKey
    requires forall j :: 0 <= j < |rec.archive| ==> rec.archive[j].aliceBaseKey != state.aliceBaseKey
    ensures DistinctKeys(PromoteAt(rec, state, k))
  {
    match rec.current
    case None =>
    case Some(c) =>
      var i := if k <= |rec.archive| then k else |rec.archive|;
      var a := rec.archive[..i] + [c] + rec.archive[i..];
      assert forall j :: 0 <= j < |a| ==> a[j] == if j < i then rec.archive[j] else if j == i then c else rec.archive[j - 1];
  }

  /** A session record object, updated in place by the reconciler. */
  class SessionRecord {
    var current: Option<SessionState>
    var archive: seq<SessionState>

    function Value(): RecordValue
      reads this
    {
      RecordValue(current, archive)
    }

    /** An in-memory copy of a stored record value. */
    constructor (v: RecordValue)
      ensures Value() == v
    {
      current := v.current;
      archive := v.archive;
    }

    /** `isFresh()`: the record holds no session yet. */
    predicate IsFresh()
      reads this
    {
      current.None?
    }

    /** `promoteState`; `archivedAt` is where the old current state was filed. */
    method PromoteState(state: SessionState) returns (ghost archivedAt: nat)
      modifies this
      ensures Value() == PromoteAt(old(Value()), state, archivedAt)
    {
      var k: nat :| k <= |archive|;
      archivedAt := k;
      if current.Some? {
        archive := archive[..k] + [current.value] + archive[k..];
      }
      current := Some(state);
    }

    /** `setState`: replaces the current state, archive untouched. */
    method SetState(state: SessionState)
      modifies this
      ensures current == Some(state) && archive == old(archive)
    {
      current := Some(state);
    }

    /** `removePreviousSessionStates`: empties the archive. */
    method RemovePreviousSessionStates()
      modifies this
      ensures archive == [] && current == old(current)
    {
      archive := [];
    }
  }

  /** The key under which the store keeps one peer device's record. */
  datatype Address = Address(recipientId: string, deviceId: int32)

  /** The persistent session store, one record value per address. */
  class SessionStore {
    var records: map<Address, RecordValue>

    constructor (records: map<Address, RecordValue>)
      ensures this.records == records
    {
      this.records := records;
    }

    /** The record value `loadSession` reads for `a`. */
    function Stored(a: Address): RecordValue
      reads this
    {
      if a in records then records[a] else FreshRecord()
    }

    /** `loadSession`: a new record object holding the stored value, or a
        fresh record when none is stored. */
    method LoadSession(a: Address) returns (r: SessionRecord)
      ensures fresh(r) && r.Value() == Stored(a)
    {
      r := new SessionRecord(Stored(a));
    }

    /** `storeSession`: records the object's current value under `a`. */
    method StoreSession(a: Address, r: SessionRecord)
      modifies this
      ensures records == old(records)[a := r.Value()]
    {
      records := records[a := r.Value()];
    }
  }
}
