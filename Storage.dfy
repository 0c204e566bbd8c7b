/** The record store (lib/storage.ts). The browser's localStorage is a key-to-value map
    held by a `Store` object; JSON encoding is the identity, so each key holds a value of
    the shape that JSON.parse would give back. */
module Storage {
  import opened Types
  import opened SeqUtil

  const UserKey: string := "reaction-app-user"
  const RecordsKey: string := "reaction-app-records"
  const SessionKey: string := "reaction-app-session"

  /** A stored value: the JSON blob of a user, of the records array, or of a session. */
  datatype Blob = UserBlob(user: User) | RecordsBlob(records: seq<Record>) | SessionBlob(session: Session)

  /** Each of the three keys holds a value of its own kind. */
  predicate WellFormed(m: map<string, Blob>)
  {
    && (UserKey in m ==> m[UserKey].UserBlob?)
    && (RecordsKey in m ==> m[RecordsKey].RecordsBlob?)
    && (SessionKey in m ==> m[SessionKey].SessionBlob?)
  }

  /** What getUser reads: the stored user, or none. */
  function StoredUser(m: map<string, Blob>): (u: Option<User>)
    requires WellFormed(m)
    ensures u.Some? <==> UserKey in m
  {
    if UserKey in m then Some(m[UserKey].user) else None
  }

  /** What getRecords reads: the stored array, or [] when the key is absent. */
  function StoredRecords(m: map<string, Blob>): (rs: seq<Record>)
    requires WellFormed(m)
    ensures RecordsKey !in m ==> rs == []
  {
    if RecordsKey in m then m[RecordsKey].records else []
  }

  function StoredSession(m: map<string, Blob>): (s: Option<Session>)
    requires WellFormed(m)
    ensures s.Some? <==> SessionKey in m
  {
    if SessionKey in m then Some(m[SessionKey].session) else None
  }

  const DefaultSessionId: string := "ota-city-2025"
  const DefaultSessionName: string := "島根県大田市 × 日本体育大学 特別講座"

  /** The session written on first read; `today` is the date part of the current ISO timestamp. */
  function DefaultSession(today: string): Session
  {
    Session(DefaultSessionId, DefaultSessionName, today)
  }

  /** The session getCurrentSession returns from a store in state m. */
  function CurrentSession(m: map<string, Blob>, today: string): (s: Session)
    requires WellFormed(m)
    ensures SessionKey in m ==> s == m[SessionKey].session
    ensures SessionKey !in m ==> s == DefaultSession(today)
  {
    match StoredSession(m)
    case Some(stored) => stored
    case None => DefaultSession(today)
  }

  /** The store after getCurrentSession: the session key now holds the returned session. */
  function AfterSessionRead(m: map<string, Blob>, today: string): (m': map<string, Blob>)
    requires WellFormed(m)
    ensures WellFormed(m')
    ensures SessionKey in m ==> m' == m
    ensures SessionKey !in m ==> m' == m[SessionKey := SessionBlob(DefaultSession(today))]
  {
    if SessionKey in m then m else m[SessionKey := SessionBlob(DefaultSession(today))]
  }

  /** A later getCurrentSession with no setSession in between returns the same session,
      whatever the date is by then. */
  lemma SessionReadIsStable(m: map<string, Blob>, today: string, later: string)
    requires WellFormed(m)
    ensures CurrentSession(AfterSessionRead(m, today), later) == CurrentSession(m, today)
    ensures AfterSessionRead(AfterSessionRead(m, today), later) == AfterSessionRead(m, today)
  {
  }

  /** The record addRecord builds: the given fields plus a fresh id and timestamp. */
  function WithIdentity(fields: NewRecord, id: string, createdAt: string): (r: Record)
    ensures r.id == id && r.createdAt == createdAt
  {
    Record(id, fields.userId, fields.userName, fields.mode, fields.reactionTime,
           fields.accuracy, fields.score, fields.sleepHours, createdAt)
  }

  /** The fields a caller of addRecord supplied, recovered from a stored record. */
  function CallerFields(r: Record): NewRecord
  {
    NewRecord(r.userId, r.userName, r.mode, r.reactionTime, r.accuracy, r.score, r.sleepHours)
  }

  /** addRecord keeps every field it was given. */
  lemma WithIdentityKeepsFields(fields: NewRecord, id: string, createdAt: string)
    ensures CallerFields(WithIdentity(fields, id, createdAt)) == fields
  {
  }

  /** The store after addRecord: the records array gains r at its end, nothing else changes. */
  function AfterAddRecord(m: map<string, Blob>, r: Record): (m': map<string, Blob>)
    requires WellFormed(m)
    ensures WellFormed(m')
    ensures StoredRecords(m') == StoredRecords(m) + [r]
    ensures StoredUser(m') == StoredUser(m) && StoredSession(m') == StoredSession(m)
    ensures forall k :: k in m && k != RecordsKey ==> k in m' && m'[k] == m[k]
    ensures m'.Keys == m.Keys + {RecordsKey}
  {
    m[RecordsKey := RecordsBlob(StoredRecords(m) + [r])]
  }

  /** The store after a game's finishGame: addRecord runs only when the page built a record. */
  function AfterMaybeAdd(m: map<string, Blob>, fields: Option<NewRecord>, id: string, createdAt: string): (m': map<string, Blob>)
    requires WellFormed(m)
    ensures WellFormed(m')
    ensures fields.None? ==> m' == m
    ensures fields.Some? ==> StoredRecords(m') == StoredRecords(m) + [WithIdentity(fields.value, id, createdAt)]
    ensures StoredUser(m') == StoredUser(m) && StoredSession(m') == StoredSession(m)
  {
    match fields
    case None => m
    case Some(f) => AfterAddRecord(m, WithIdentity(f, id, createdAt))
  }

  /** The literal names a record's mode has in the stored JSON. */
  function ModeName(mode: ModeType): string
  {
    match mode
    case Simple => "simple"
    case Color => "color"
    case Sprint => "sprint"
    case Dual => "dual"
  }

  lemma ModeNameInjective(a: ModeType, b: ModeType)
    ensures ModeName(a) == ModeName(b) <==> a == b
  {
  }

  function RecordsOfUser(records: seq<Record>, userId: string): (rs: seq<Record>)
    ensures forall r :: r in rs <==> r in records && r.userId == userId
  {
    Filter(records, (r: Record) => r.userId == userId)
  }

  /** getRecordsByMode compares the mode with an arbitrary string. */
  function RecordsOfModeName(records: seq<Record>, mode: string): (rs: seq<Record>)
    ensures forall r :: r in rs <==> r in records && ModeName(r.mode) == mode
  {
    Filter(records, (r: Record) => ModeName(r.mode) == mode)
  }

  function RecordsOfMode(records: seq<Record>, mode: ModeType): (rs: seq<Record>)
    ensures forall r :: r in rs <==> r in records && r.mode == mode
  {
    Filter(records, (r: Record) => r.mode == mode)
  }

  /** Looking a mode up by its name and by its value gives the same list; a string that is
      no mode's name matches nothing. */
  lemma {:induction false} ModeNameFilterAgrees(records: seq<Record>, mode: ModeType)
    ensures RecordsOfModeName(records, ModeName(mode)) == RecordsOfMode(records, mode)
  {
    if |records| > 0 {
      ModeNameInjective(records[0].mode, mode);
      ModeNameFilterAgrees(records[1..], mode);
    }
  }

  /** Adding a record extends each user's list by that record exactly when it is theirs. */
  lemma RecordsOfUserAfterAdd(records: seq<Record>, r: Record, userId: string)
    ensures RecordsOfUser(records + [r], userId) ==
              RecordsOfUser(records, userId) + (if r.userId == userId then [r] else [])
  {
    FilterConcat(records, [r], (x: Record) => x.userId == userId);
    FilterSingleton(r, (x: Record) => x.userId == userId);
  }

  class Store {
    var items: map<string, Blob>

    ghost predicate Valid()
      reads this
    {
      WellFormed(items)
    }

    constructor (initial: map<string, Blob>)
      requires WellFormed(initial)
      ensures Valid() && items == initial
    {
      items := initial;
    }

    method GetUser() returns (user: Option<User>)
      requires Valid()
      ensures user == StoredUser(items)
    {
      if UserKey in items {
        user := Some(items[UserKey].user);
      } else {
        user := None;
      }
    }

    method SaveUser(user: User)
      requires Valid()
      modifies this
      ensures Valid()
      ensures items == old(items)[UserKey := UserBlob(user)]
      ensures StoredUser(items) == Some(user)
      ensures StoredRecords(items) == old(StoredRecords(items)) && StoredSession(items) == old(StoredSession(items))
    {
      items := items[UserKey := UserBlob(user)];
    }

    method ClearUser()
      requires Valid()
      modifies this
      ensures Valid()
      ensures items == old(items) - {UserKey}
      ensures StoredUser(items) == None
      ensures StoredRecords(items) == old(StoredRecords(items)) && StoredSession(items) == old(StoredSession(items))
    {
      items := items - {UserKey};
    }

    method GetRecords() returns (records: seq<Record>)
      requires Valid()
      ensures records == StoredRecords(items)
    {
      if RecordsKey in items {
        records := items[RecordsKey].records;
      } else {
        records := [];
      }
    }

    /** `id` and `createdAt` stand for the generated id and the current ISO timestamp. */
    method AddRecord(fields: NewRecord, id: string, createdAt: string) returns (r: Record)
      requires Valid()
      modifies this
      ensures Valid()
      ensures r == WithIdentity(fields, id, createdAt)
      ensures items == AfterAddRecord(old(items), r)
      ensures StoredRecords(items) == old(StoredRecords(items)) + [r]
      ensures StoredUser(items) == old(StoredUser(items)) && StoredSession(items) == old(StoredSession(items))
    {
      r := WithIdentity(fields, id, createdAt);
      var records := GetRecords();
      records := records + [r];
      items := items[RecordsKey := RecordsBlob(records)];
    }

    method GetRecordsByUser(userId: string) returns (records: seq<Record>)
      requires Valid()
      ensures records == RecordsOfUser(StoredRecords(items), userId)
    {
      var all := GetRecords();
      records := Filter(all, (r: Record) => r.userId == userId);
    }

    method GetRecordsByMode(mode: string) returns (records: seq<Record>)
      requires Valid()
      ensures records == RecordsOfModeName(StoredRecords(items), mode)
    {
      var all := GetRecords();
      records := Filter(all, (r: Record) => ModeName(r.mode) == mode);
    }

    method GetRecordsByModeType(mode: ModeType) returns (records: seq<Record>)
      requires Valid()
      ensures records == RecordsOfMode(StoredRecords(items), mode)
    {
      var all := GetRecords();
      records := Filter(all, (r: Record) => r.mode == mode);
    }

    method GetCurrentSession(today: string) returns (session: Session)
      requires Valid()
      modifies this
      ensures Valid()
      ensures session == CurrentSession(old(items), today)
      ensures items == AfterSessionRead(old(items), today)
      ensures StoredSession(items) == Some(session)
    {
      if SessionKey in items {
        session := items[SessionKey].session;
        return;
      }
      session := DefaultSession(today);
      items := items[SessionKey := SessionBlob(session)];
    }

    method SetSession(session: Session)
      requires Valid()
      modifies this
      ensures Valid()
      ensures items == old(items)[SessionKey := SessionBlob(session)]
      ensures CurrentSession(items, "") == session
      ensures StoredUser(items) == old(StoredUser(items)) && StoredRecords(items) == old(StoredRecords(items))
    {
      items := items[SessionKey := SessionBlob(session)];
    }
  }

  /** saveUser then getUser returns the user; clearUser then getUser returns none. */
  method UserRoundTrip(store: Store, user: User)
    requires store.Valid()
    modifies store
    ensures store.Valid() && store.items == old(store.items) - {UserKey}
  {
    store.SaveUser(user);
    var back := store.GetUser();
    assert back == Some(user);
    store.ClearUser();
    back := store.GetUser();
    assert back == None;
  }

  /** Two session reads with no setSession between them agree; setSession then a read gives
      the set session back. */
  method SessionRoundTrip(store: Store, today: string, later: string, other: Session)
    requires store.Valid()
    modifies store
    ensures store.Valid() && StoredSession(store.items) == Some(other)
  {
    var first := store.GetCurrentSession(today);
    var second := store.GetCurrentSession(later);
    assert second == first;
    store.SetSession(other);
    var third := store.GetCurrentSession(later);
    assert third == other;
  }
}
