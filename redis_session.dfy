/** The Redis-backed session store (`RedisSessionManager`). Redis itself is a
    value: hashes by key, an absolute expiry time per key, the server clock
    and whether the server answers at all. A key whose expiry time has come
    is gone for every command, as Redis reports it. */
module RedisSession {
  import opened Text
  import opened Json

  /** A Redis hash: field name to string value. */
  type Hash = map<string, string>

  const SessionPrefix: string := "session:"
  const LockPrefix: string := "lock:session:"
  const HistoryField: string := "conversation_history"
  const DefaultTtl: int := 3600

  function SessionKey(sid: string): string { SessionPrefix + sid }

  function LockKey(sid: string): string { LockPrefix + sid }

  datatype Redis = Redis(hashes: map<string, Hash>, expiry: map<string, int>, clock: int, up: bool)

  /** The key exists for Redis: it holds a non-empty hash and has not expired. */
  predicate Live(r: Redis, key: string) {
    key in r.hashes && r.hashes[key] != map[] && (key !in r.expiry || r.clock < r.expiry[key])
  }

  // ---------------------------------------------------------------- Redis commands

  /** HSET key with a mapping: merges the fields into the hash, creating it
      (without an expiry) when the key does not exist. */
  function HSet(r: Redis, key: string, fields: Hash): Redis {
    if Live(r, key) then r.(hashes := r.hashes[key := r.hashes[key] + fields])
    else r.(hashes := r.hashes[key := fields], expiry := r.expiry - {key})
  }

  /** DEL key. */
  function Del(r: Redis, key: string): Redis {
    r.(hashes := r.hashes - {key}, expiry := r.expiry - {key})
  }

  /** EXPIRE key ttl: a missing key is left alone, a positive ttl sets the
      expiry time, a ttl of zero or less deletes the key at once. */
  function Expire(r: Redis, key: string, ttl: int): Redis {
    if !Live(r, key) then r
    else if ttl > 0 then r.(expiry := r.expiry[key := r.clock + ttl])
    else Del(r, key)
  }

  /** HGETALL key: the empty mapping when the key does not exist. */
  function HGetAll(r: Redis, key: string): Hash {
    if Live(r, key) then r.hashes[key] else map[]
  }

  // ---------------------------------------------------------------- sessions

  /** What `get_session` returns: the stored fields, and the decoded history
      when the hash has a history field (`None` here when it has none). */
  datatype Session = Session(fields: Hash, history: Option<History>)

  /** A stored history, or the empty history when it does not decode. */
  function StoredHistory(text: string): History {
    Decode(text).GetOr([])
  }

  function SessionOf(data: Hash): Session {
    Session(data - {HistoryField},
            if HistoryField in data then Some(StoredHistory(data[HistoryField])) else None)
  }

  /** `get_session`: `None` when the server does not answer or the key holds no
      fields; otherwise the fields with the history decoded, and an empty
      history when the stored one fails to decode. */
  function Lookup(r: Redis, sid: string): (s: Option<Session>)
    ensures s.Some? <==> r.up && Live(r, SessionKey(sid))
    ensures s.Some? ==> s.value.fields == r.hashes[SessionKey(sid)] - {HistoryField}
    ensures (s.Some? && HistoryField in r.hashes[SessionKey(sid)] &&
             Decode(r.hashes[SessionKey(sid)][HistoryField]).None?) ==> s.value.history == Some([])
  {
    if !r.up then None
    else
      var data := HGetAll(r, SessionKey(sid));
      if data == map[] then None else Some(SessionOf(data))
  }

  /** The history a session would be appended to: the decoded one, or empty. */
  function HistoryOf(s: Session): History {
    s.history.GetOr([])
  }

  /** The values `update_session` accepts, by Python type. */
  datatype UpdateValue =
    | Str(s: string)
    | Int(i: int)
    | Bool(b: bool)
    | NoneValue
    | ListValue(items: History)
    | DictValue(entries: Message)

  /** Lists and dicts are JSON-encoded, everything else goes through `str()`. */
  function Serialize(v: UpdateValue): string {
    match v
    case Str(s) => s
    case Int(i) => IntToString(i)
    case Bool(b) => if b then "True" else "False"
    case NoneValue => "None"
    case ListValue(items) => Encode(items)
    case DictValue(entries) => EncodeObject(entries)
  }

  function SerializeAll(updates: map<string, UpdateValue>): Hash {
    map k | k in updates :: Serialize(updates[k])
  }

  // ---------------------------------------------------------------- state changes

  /** The server after `create_session` succeeded. */
  function Created(r: Redis, ttl: int, sid: string, data: Hash): Redis {
    Expire(HSet(r, SessionKey(sid), data[HistoryField := Encode([])]), SessionKey(sid), ttl)
  }

  /** The server after `update_session` succeeded with already serialized fields. */
  function Updated(r: Redis, ttl: int, sid: string, fields: Hash): Redis {
    Expire(HSet(r, SessionKey(sid), fields), SessionKey(sid), ttl)
  }

  /** The server after `add_message`, taken as one atomic step. */
  function Appended(r: Redis, ttl: int, sid: string, m: Message): Redis {
    match Lookup(r, sid)
    case None => r
    case Some(s) =>
      Expire(HSet(r, SessionKey(sid), map[HistoryField := Encode(HistoryOf(s) + [m])]), SessionKey(sid), ttl)
  }

  /** The server after `delete_session`. */
  function Deleted(r: Redis, sid: string): Redis {
    Del(r, SessionKey(sid))
  }

  /** Several `add_message` calls in a row. */
  function AppendedAll(r: Redis, ttl: int, sid: string, ms: seq<Message>): Redis
    decreases |ms|
  {
    if |ms| == 0 then r else AppendedAll(Appended(r, ttl, sid, ms[0]), ttl, sid, ms[1..])
  }

  /** The keys `scan_iter("session:*")` visits. */
  function ScannedKeys(r: Redis): set<string> {
    set k | k in r.hashes && Live(r, k) && StartsWith(k, SessionPrefix)
  }

  /** The session id of a scanned key: the key without its prefix. */
  function SidOf(key: string): string
    requires StartsWith(key, SessionPrefix)
  {
    key[|SessionPrefix|..]
  }

  function ScannedSids(keys: set<string>): set<string> {
    set k | k in keys && StartsWith(k, SessionPrefix) :: SidOf(k)
  }

  /** The sessions read back for the ids of some scanned keys. */
  function SessionsOf(r: Redis, keys: set<string>): map<string, Session> {
    map sid | sid in ScannedSids(keys) && Lookup(r, sid).Some? :: Lookup(r, sid).value
  }

  /** `get_all_sessions`: every scanned id whose session can be read. */
  function AllSessions(r: Redis): map<string, Session> {
    if !r.up then map[] else SessionsOf(r, ScannedKeys(r))
  }

  /** The id as the source derives it: `key.replace("session:", "")`. */
  function SidAsWritten(key: string): string {
    RemoveAll(key, SessionPrefix)
  }

  function AllSessionsAsWritten(r: Redis): map<string, Session> {
    if !r.up then map[]
    else
      var sids := set k | k in ScannedKeys(r) :: SidAsWritten(k);
      map sid | sid in sids && Lookup(r, sid).Some? :: Lookup(r, sid).value
  }

  // ---------------------------------------------------------------- the manager

  datatype StoreError = ConnectionError | EmptyMapping

  datatype Outcome = Pass | Fail(error: StoreError)

  class SessionManager {
    var redis: Redis
    const ttl: int

    constructor (redis: Redis, ttl: int := DefaultTtl)
      ensures this.redis == redis && this.ttl == ttl
    {
      this.redis := redis;
      this.ttl := ttl;
    }

    /** Stores the fields with an empty history and sets the expiry; an
        existing record is merged into, not rejected. */
    method CreateSession(sid: string, data: Hash) returns (result: Outcome)
      modifies this
      ensures result == if old(redis).up then Pass else Fail(ConnectionError)
      ensures redis == if old(redis).up then Created(old(redis), ttl, sid, data) else old(redis)
    {
      if !redis.up {
        return Fail(ConnectionError);
      }
      var key := SessionKey(sid);
      redis := HSet(redis, key, data[HistoryField := Encode([])]);
      redis := Expire(redis, key, ttl);
      return Pass;
    }

    method GetSession(sid: string) returns (s: Option<Session>)
      ensures s == Lookup(redis, sid)
    {
      if !redis.up {
        return None;
      }
      var data := HGetAll(redis, SessionKey(sid));
      if data == map[] {
        return None;
      }
      var history: Option<History> := None;
      if HistoryField in data {
        var decoded := Decode(data[HistoryField]);
        history := if decoded.Some? then decoded else Some([]);
      }
      return Some(Session(data - {HistoryField}, history));
    }

    /** Serializes every value, merges the result into the record (creating
        it if absent) and refreshes the expiry. */
    method UpdateSession(sid: string, updates: map<string, UpdateValue>) returns (result: Outcome)
      modifies this
      ensures result == if |updates| == 0 then Fail(EmptyMapping)
                        else if !old(redis).up then Fail(ConnectionError)
                        else Pass
      ensures redis == if result.Pass? then Updated(old(redis), ttl, sid, SerializeAll(updates)) else old(redis)
    {
      var serialized: Hash := map[];
      var pending := updates.Keys;
      while pending != {}
        invariant pending <= updates.Keys
        invariant serialized == map k | k in updates.Keys - pending :: Serialize(updates[k])
        decreases pending
      {
        var k :| k in pending;
        serialized := serialized[k := Serialize(updates[k])];
        pending := pending - {k};
      }
      assert updates.Keys - pending == updates.Keys;
      assert serialized == SerializeAll(updates);
      assert serialized.Keys == updates.Keys;
      if |serialized| == 0 {
        return Fail(EmptyMapping);
      }
      if !redis.up {
        return Fail(ConnectionError);
      }
      var key := SessionKey(sid);
      redis := HSet(redis, key, serialized);
      redis := Expire(redis, key, ttl);
      return Pass;
    }

    /** Read, append, write back, refresh the expiry; nothing happens when the
        session is missing. */
    method AddMessage(sid: string, m: Message) returns (result: Outcome)
      modifies this
      ensures result == if old(redis).up then Pass else Fail(ConnectionError)
      ensures redis == if old(redis).up then Appended(old(redis), ttl, sid, m) else old(redis)
    {
      if !redis.up {
        return Fail(ConnectionError);
      }
      var session := GetSession(sid);
      if session.None? {
        return Pass;
      }
      var history := HistoryOf(session.value) + [m];
      var key := SessionKey(sid);
      redis := HSet(redis, key, map[HistoryField := Encode(history)]);
      redis := Expire(redis, key, ttl);
      return Pass;
    }

    /** Never fails: a store error is swallowed. */
    method DeleteSession(sid: string)
      modifies this
      ensures redis == if old(redis).up then Deleted(old(redis), sid) else old(redis)
    {
      if redis.up {
        redis := Del(redis, SessionKey(sid));
      }
    }

    method SessionExists(sid: string) returns (b: bool)
      ensures b <==> redis.up && Live(redis, SessionKey(sid))
    {
      b := redis.up && Live(redis, SessionKey(sid));
    }

    /** Scans the `session:` keys and keeps every id whose session reads back. */
    method GetAllSessions() returns (sessions: map<string, Session>)
      ensures sessions == AllSessions(redis)
      ensures forall sid :: sid in sessions ==> Lookup(redis, sid) == Some(sessions[sid])
    {
      sessions := map[];
      if !redis.up {
        return;
      }
      var keys := ScannedKeys(redis);
      var pending := keys;
      assert keys - pending == {};
      while pending != {}
        invariant pending <= keys
        invariant sessions == SessionsOf(redis, keys - pending)
        decreases pending
      {
        var key :| key in pending;
        var sid := SidOf(key);
        var session := GetSession(sid);
        SessionsOfAdd(redis, keys - pending, key);
        assert keys - (pending - {key}) == (keys - pending) + {key};
        if session.Some? {
          sessions := sessions[sid := session.value];
        }
        pending := pending - {key};
      }
      assert keys - pending == keys;
    }
  }

  lemma ScannedSidsAdd(done: set<string>, key: string)
    requires StartsWith(key, SessionPrefix)
    ensures ScannedSids(done + {key}) == ScannedSids(done) + {SidOf(key)}
  {
  }

  /** One more scanned key adds its session, when it reads back. */
  lemma SessionsOfAdd(r: Redis, done: set<string>, key: string)
    requires StartsWith(key, SessionPrefix)
    ensures var sid := SidOf(key);
      SessionsOf(r, done + {key}) ==
        if Lookup(r, sid).Some? then SessionsOf(r, done)[sid := Lookup(r, sid).value] else SessionsOf(r, done)
  {
    ScannedSidsAdd(done, key);
  }

  // ---------------------------------------------------------------- properties

  lemma SessionKeyInjective(a: string, b: string)
    requires SessionKey(a) == SessionKey(b)
    ensures a == b
  {
    assert a == SessionKey(a)[|SessionPrefix|..];
    assert b == SessionKey(b)[|SessionPrefix|..];
  }

  /** HSET of a non-empty mapping followed by EXPIRE with a positive ttl: the
      key is live, holds the old fields merged with the new, and expires
      `ttl` seconds from now. */
  lemma Refreshed(r: Redis, key: string, fields: Hash, ttl: int)
    requires fields != map[] && ttl > 0
    ensures var r2 := Expire(HSet(r, key, fields), key, ttl);
      && Live(r2, key)
      && r2.hashes[key] == HGetAll(r, key) + fields
      && r2.expiry[key] == r.clock + ttl
      && r2.up == r.up && r2.clock == r.clock
  {
    var r1 := HSet(r, key, fields);
    var k0 :| k0 in fields;
    assert k0 in r1.hashes[key];
    assert Live(r1, key);
  }

  /** `create_session` then `get_session`: the supplied fields merged over the
      old ones, and an empty history. A ttl of zero or less deletes the record. */
  lemma CreateThenGet(r: Redis, ttl: int, sid: string, data: Hash)
    requires r.up
    ensures ttl > 0 ==> (Lookup(Created(r, ttl, sid, data), sid) ==
      Some(Session((HGetAll(r, SessionKey(sid)) - {HistoryField}) + (data - {HistoryField}), Some([]))))
    ensures ttl > 0 ==> Created(r, ttl, sid, data).expiry[SessionKey(sid)] == r.clock + ttl
    ensures ttl <= 0 ==> Lookup(Created(r, ttl, sid, data), sid).None?
  {
    var key := SessionKey(sid);
    var stored := data[HistoryField := Encode([])];
    if ttl > 0 {
      var merged := HGetAll(r, key) + stored;
      var after := Created(r, ttl, sid, data);
      assert Live(after, key) && after.hashes[key] == merged && after.expiry[key] == r.clock + ttl by {
        assert HistoryField in stored;
        Refreshed(r, key, stored, ttl);
      }
      assert Lookup(after, sid) == Some(SessionOf(merged));
      assert SessionOf(merged) ==
        Session((HGetAll(r, key) - {HistoryField}) + (data - {HistoryField}), Some([])) by {
        DecodeEncode([]);
        MergeStored(HGetAll(r, key), data, HistoryField, Encode([]));
      }
    }
  }

  /** Writing a hash with one field overridden over another hash. */
  lemma MergeStored(a: Hash, data: Hash, f: string, v: string)
    ensures (a + data[f := v])[f] == v
    ensures (a + data[f := v]) - {f} == (a - {f}) + (data - {f})
  {
  }

  /** Fields already in the record and absent from `data` survive a second
      `create_session`, and the history is reset. */
  lemma CreateOverExisting(r: Redis, ttl: int, sid: string, data: Hash, field: string)
    requires r.up && ttl > 0
    requires Lookup(r, sid).Some? && field in Lookup(r, sid).value.fields && field !in data
    ensures Lookup(Created(r, ttl, sid, data), sid).Some?
    ensures Lookup(Created(r, ttl, sid, data), sid).value.fields[field] == Lookup(r, sid).value.fields[field]
    ensures Lookup(Created(r, ttl, sid, data), sid).value.history == Some([])
  {
    CreateThenGet(r, ttl, sid, data);
  }

  /** `update_session` creates an absent record, stores every value serialized,
      keeps the fields it does not name and refreshes the expiry. */
  lemma UpdateThenGet(r: Redis, ttl: int, sid: string, updates: map<string, UpdateValue>)
    requires r.up && ttl > 0 && updates != map[]
    ensures Lookup(Updated(r, ttl, sid, SerializeAll(updates)), sid).Some?
    ensures forall k :: k in updates && k != HistoryField ==>
      Lookup(Updated(r, ttl, sid, SerializeAll(updates)), sid).value.fields[k] == Serialize(updates[k])
    ensures forall k :: k in HGetAll(r, SessionKey(sid)) && k !in updates && k != HistoryField ==>
      Lookup(Updated(r, ttl, sid, SerializeAll(updates)), sid).value.fields[k] == HGetAll(r, SessionKey(sid))[k]
    ensures HistoryField in updates && updates[HistoryField].ListValue? ==>
      Lookup(Updated(r, ttl, sid, SerializeAll(updates)), sid).value.history == Some(updates[HistoryField].items)
    ensures Updated(r, ttl, sid, SerializeAll(updates)).expiry[SessionKey(sid)] == r.clock + ttl
  {
    var key := SessionKey(sid);
    var fields := SerializeAll(updates);
    var k0 :| k0 in updates;
    assert k0 in fields;
    Refreshed(r, key, fields, ttl);
    var merged := HGetAll(r, key) + fields;
    var after := Updated(r, ttl, sid, fields);
    assert after.hashes[key] == merged;
    var s := SessionOf(merged);
    assert Lookup(after, sid) == Some(s);
    forall k | k in updates && k != HistoryField
      ensures s.fields[k] == Serialize(updates[k])
    {
      assert k in fields;
    }
    forall k | k in HGetAll(r, key) && k !in updates && k != HistoryField
      ensures s.fields[k] == HGetAll(r, key)[k]
    {
      assert k !in fields;
    }
    if HistoryField in updates && updates[HistoryField].ListValue? {
      assert merged[HistoryField] == Encode(updates[HistoryField].items);
      DecodeEncode(updates[HistoryField].items);
    }
  }

  /** Writing one field over a hash leaves the other fields as they were. */
  lemma MergeOne(a: Hash, f: string, v: string)
    ensures (a + map[f := v])[f] == v
    ensures (a + map[f := v]) - {f} == a - {f}
  {
  }

  /** `add_message` on a live session with a positive ttl. */
  lemma AppendedLive(r: Redis, ttl: int, sid: string, m: Message)
    requires r.up && ttl > 0 && Lookup(r, sid).Some?
    ensures Lookup(Appended(r, ttl, sid, m), sid) ==
      Some(Session(Lookup(r, sid).value.fields, Some(HistoryOf(Lookup(r, sid).value) + [m])))
    ensures Appended(r, ttl, sid, m).expiry[SessionKey(sid)] == r.clock + ttl
  {
    var key := SessionKey(sid);
    var s := Lookup(r, sid).value;
    var h := HistoryOf(s) + [m];
    var written := map[HistoryField := Encode(h)];
    var merged := r.hashes[key] + written;
    var after := Appended(r, ttl, sid, m);
    assert after == Expire(HSet(r, key, written), key, ttl);
    assert Live(after, key) && after.hashes[key] == merged && after.expiry[key] == r.clock + ttl by {
      assert HistoryField in written;
      Refreshed(r, key, written, ttl);
    }
    assert Lookup(after, sid) == Some(SessionOf(merged));
    assert SessionOf(merged) == Session(s.fields, Some(h)) by {
      DecodeEncode(h);
      MergeOne(r.hashes[key], HistoryField, Encode(h));
    }
  }

  /** `add_message` on a live session appends to its history and changes no
      other field; on a missing session it changes nothing. */
  lemma AppendThenGet(r: Redis, ttl: int, sid: string, m: Message)
    requires r.up
    ensures Lookup(r, sid).None? ==> Appended(r, ttl, sid, m) == r
    ensures Lookup(r, sid).Some? && ttl > 0 ==>
      (Lookup(Appended(r, ttl, sid, m), sid) ==
        Some(Session(Lookup(r, sid).value.fields, Some(HistoryOf(Lookup(r, sid).value) + [m]))))
    ensures Lookup(r, sid).Some? && ttl > 0 ==>
      Appended(r, ttl, sid, m).expiry[SessionKey(sid)] == r.clock + ttl
  {
    if Lookup(r, sid).Some? && ttl > 0 {
      AppendedLive(r, ttl, sid, m);
    }
  }

  /** Appends one after another lose nothing: the history grows by exactly the
      messages appended, in order. */
  lemma {:induction false} AppendsAccumulate(r: Redis, ttl: int, sid: string, ms: seq<Message>)
    requires r.up && ttl > 0 && Lookup(r, sid).Some?
    ensures Lookup(AppendedAll(r, ttl, sid, ms), sid).Some?
    ensures Lookup(AppendedAll(r, ttl, sid, ms), sid).value.fields == Lookup(r, sid).value.fields
    ensures HistoryOf(Lookup(AppendedAll(r, ttl, sid, ms), sid).value) == HistoryOf(Lookup(r, sid).value) + ms
    decreases |ms|
  {
    var s0 := Lookup(r, sid).value;
    if |ms| == 0 {
      assert AppendedAll(r, ttl, sid, ms) == r;
      assert HistoryOf(s0) + ms == HistoryOf(s0);
    } else {
      var r1 := Appended(r, ttl, sid, ms[0]);
      AppendThenGet(r, ttl, sid, ms[0]);
      var s1 := Lookup(r1, sid).value;
      assert s1.fields == s0.fields && HistoryOf(s1) == HistoryOf(s0) + [ms[0]];
      var rEnd := AppendedAll(r1, ttl, sid, ms[1..]);
      assert AppendedAll(r, ttl, sid, ms) == rEnd;
      AppendsAccumulate(r1, ttl, sid, ms[1..]);
      var sEnd := Lookup(rEnd, sid).value;
      assert sEnd.fields == s1.fields;
      assert HistoryOf(sEnd) == HistoryOf(s1) + ms[1..];
      SnocThenRest(HistoryOf(s0), ms);
    }
  }

  lemma SnocThenRest<T>(a: seq<T>, ms: seq<T>)
    requires |ms| > 0
    ensures a + [ms[0]] + ms[1..] == a + ms
  {
    assert ms == [ms[0]] + ms[1..];
  }

  /** HSET on one key leaves every other key as it was. */
  lemma HSetOther(r: Redis, key: string, other: string, fields: Hash)
    requires other != key
    ensures Live(HSet(r, key, fields), other) == Live(r, other)
    ensures Live(r, other) ==> HSet(r, key, fields).hashes[other] == r.hashes[other]
    ensures HSet(r, key, fields).up == r.up
  {
  }

  /** EXPIRE on one key leaves every other key as it was. */
  lemma ExpireOther(r: Redis, key: string, other: string, ttl: int)
    requires other != key
    ensures Live(Expire(r, key, ttl), other) == Live(r, other)
    ensures Live(r, other) ==> Expire(r, key, ttl).hashes[other] == r.hashes[other]
    ensures Expire(r, key, ttl).up == r.up
  {
  }

  /** DEL on one key leaves every other key as it was. */
  lemma DelOther(r: Redis, key: string, other: string)
    requires other != key
    ensures Live(Del(r, key), other) == Live(r, other)
    ensures Live(r, other) ==> Del(r, key).hashes[other] == r.hashes[other]
    ensures Del(r, key).up == r.up
  {
  }

  /** HSET followed by EXPIRE on one key leaves every other key as it was. */
  lemma OtherKeyUntouched(r: Redis, key: string, other: string, fields: Hash, ttl: int)
    requires other != key
    ensures Live(Expire(HSet(r, key, fields), key, ttl), other) == Live(r, other)
    ensures Live(r, other) ==> Expire(HSet(r, key, fields), key, ttl).hashes[other] == r.hashes[other]
    ensures Expire(HSet(r, key, fields), key, ttl).up == r.up
  {
    HSetOther(r, key, other, fields);
    ExpireOther(HSet(r, key, fields), key, other, ttl);
  }

  /** A server that agrees on one session key, and answers alike, looks the
      session up alike. */
  lemma SameLookup(r: Redis, r2: Redis, sid: string)
    requires r2.up == r.up && Live(r2, SessionKey(sid)) == Live(r, SessionKey(sid))
    requires Live(r, SessionKey(sid)) ==> r2.hashes[SessionKey(sid)] == r.hashes[SessionKey(sid)]
    ensures Lookup(r2, sid) == Lookup(r, sid)
  {
  }

  /** Operations on one session leave every other session as it was. */
  lemma OthersUntouched(r: Redis, ttl: int, sid: string, other: string, data: Hash, m: Message)
    requires other != sid
    ensures Lookup(Created(r, ttl, sid, data), other) == Lookup(r, other)
    ensures Lookup(Updated(r, ttl, sid, data), other) == Lookup(r, other)
    ensures Lookup(Appended(r, ttl, sid, m), other) == Lookup(r, other)
    ensures Lookup(Deleted(r, sid), other) == Lookup(r, other)
  {
    var key, okey := SessionKey(sid), SessionKey(other);
    assert key != okey by {
      if key == okey {
        SessionKeyInjective(sid, other);
      }
    }
    assert Lookup(Created(r, ttl, sid, data), other) == Lookup(r, other) by {
      OtherKeyUntouched(r, key, okey, data[HistoryField := Encode([])], ttl);
      SameLookup(r, Created(r, ttl, sid, data), other);
    }
    assert Lookup(Updated(r, ttl, sid, data), other) == Lookup(r, other) by {
      OtherKeyUntouched(r, key, okey, data, ttl);
      SameLookup(r, Updated(r, ttl, sid, data), other);
    }
    assert Lookup(Appended(r, ttl, sid, m), other) == Lookup(r, other) by {
      if Lookup(r, sid).Some? {
        OtherKeyUntouched(r, key, okey, map[HistoryField := Encode(HistoryOf(Lookup(r, sid).value) + [m])], ttl);
        SameLookup(r, Appended(r, ttl, sid, m), other);
      }
    }
    assert Lookup(Deleted(r, sid), other) == Lookup(r, other) by {
      DelOther(r, key, okey);
      SameLookup(r, Deleted(r, sid), other);
    }
  }

  /** After `delete_session` the session is gone for `get_session` and
      `session_exists`, and a second delete changes nothing. */
  lemma DeleteThenGet(r: Redis, sid: string)
    ensures Lookup(Deleted(r, sid), sid).None?
    ensures !Live(Deleted(r, sid), SessionKey(sid))
    ensures Deleted(Deleted(r, sid), sid) == Deleted(r, sid)
  {
    var r1 := Deleted(r, sid);
    assert r1.hashes - {SessionKey(sid)} == r1.hashes;
    assert r1.expiry - {SessionKey(sid)} == r1.expiry;
  }

  /** A session nobody touches for `ttl` seconds after its creation is gone. */
  lemma ExpiresAfterTtl(r: Redis, ttl: int, sid: string, data: Hash, later: int)
    requires r.up && ttl > 0 && later >= r.clock + ttl
    ensures Lookup(Created(r, ttl, sid, data), sid).Some?
    ensures Lookup(Created(r, ttl, sid, data).(clock := later), sid).None?
  {
    CreateThenGet(r, ttl, sid, data);
  }

  /** The scan reports a session id exactly when `get_session` finds it. */
  lemma AllSessionsExact(r: Redis, sid: string)
    ensures sid in AllSessions(r) <==> Lookup(r, sid).Some?
    ensures sid in AllSessions(r) ==> AllSessions(r)[sid] == Lookup(r, sid).value
  {
    if Lookup(r, sid).Some? {
      var key := SessionKey(sid);
      assert StartsWith(key, SessionPrefix);
      assert key in ScannedKeys(r);
      assert SidOf(key) == sid;
      assert sid in ScannedSids(ScannedKeys(r));
    }
  }

  /** Lock keys never match `session:*`, so writing one changes no scan result. */
  lemma LockKeysInvisible(r: Redis, sid: string, h: Hash)
    ensures AllSessions(r.(hashes := r.hashes[LockKey(sid) := h])) == AllSessions(r)
  {
    var r1 := r.(hashes := r.hashes[LockKey(sid) := h]);
    assert !StartsWith(LockKey(sid), SessionPrefix) by {
      assert LockKey(sid)[0] == 'l';
    }
    forall other: string
      ensures Lookup(r1, other) == Lookup(r, other)
    {
      assert SessionKey(other)[0] == 's';
      assert SessionKey(other) != LockKey(sid);
    }
    assert ScannedKeys(r1) == ScannedKeys(r);
    SessionsOfSame(r, r1, ScannedKeys(r));
  }

  /** Servers that look every session up alike read back the same sessions. */
  lemma SessionsOfSame(r: Redis, r1: Redis, keys: set<string>)
    requires forall sid :: Lookup(r1, sid) == Lookup(r, sid)
    ensures SessionsOf(r1, keys) == SessionsOf(r, keys)
  {
  }

  /** As written, a session whose id itself contains `session:` is missing from
      `get_all_sessions`, although `get_session` finds it. */
  lemma AllSessionsAsWrittenMisses()
    ensures var r := Redis(map["session:session:x" := map["to" := "1"]], map[], 0, true);
      Lookup(r, "session:x").Some? && "session:x" !in AllSessionsAsWritten(r)
  {
    var r := Redis(map["session:session:x" := map["to" := "1"]], map[], 0, true);
    assert SessionKey("session:x") == "session:session:x";
    assert "to" in r.hashes["session:session:x"];
    assert Live(r, "session:session:x");
    assert StartsWith("session:session:x", SessionPrefix);
    assert ScannedKeys(r) == {"session:session:x"};
    assert StartsWith("session:x", SessionPrefix);
    assert !StartsWith("x", SessionPrefix);
    assert RemoveAll("x", SessionPrefix) == "x";
    assert RemoveAll("session:x", SessionPrefix) == "x";
    assert SidAsWritten("session:session:x") == "x";
  }
}
