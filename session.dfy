/**
 * Session start and keep-alive (routes/session.py). `/connect` runs after
 * the bearer token has created a session entry: it checks the body, records
 * the `saveInteractions` choice, allocates the next numeric conversation
 * directory and makes it the active one. `/keepalive` refreshes the
 * caller's entry after the usual session check.
 */
module Session {
  import opened Wrappers
  import opened Text
  import opened Init
  import opened Auth
  import opened Conversation

  /** `int(d.name)` for every directory `d` whose name is all digits. */
  function NumericIds(entries: Listing): set<nat>
  {
    set n | n in entries && entries[n].Dir? && IsDigitName(n) :: DigitValue(n)
  }

  predicate IsMax(m: nat, s: set<nat>)
  {
    m in s && forall x :: x in s ==> x <= m
  }

  lemma {:induction false} MaxExists(s: set<nat>)
    requires s != {}
    ensures exists m :: IsMax(m, s)
  {
    var x :| x in s;
    if s != {x} {
      MaxExists(s - {x});
      var y :| IsMax(y, s - {x});
      var m := if x < y then y else x;
      forall z | z in s
        ensures z <= m
      {
        if z != x {
          assert z in s - {x};
        }
      }
      assert IsMax(m, s);
    } else {
      assert IsMax(x, s);
    }
  }

  /** `max(existing)` */
  function Max(s: set<nat>): (m: nat)
    requires s != {}
    ensures m in s && forall x :: x in s ==> x <= m
  {
    MaxExists(s);
    var m :| IsMax(m, s);
    m
  }

  /** `max(existing) + 1 if existing else 0` */
  function NextId(entries: Listing): (id: nat)
    ensures forall n :: n in NumericIds(entries) ==> n < id
    ensures id == 0 || id - 1 in NumericIds(entries)
  {
    var existing := NumericIds(entries);
    if existing == {} then 0 else Max(existing) + 1
  }

  /**
   * The allocated name is the decimal form of the new id, so it names no
   * existing conversation directory: only a stray non-directory entry can
   * stand in its way.
   */
  lemma {:induction false} NewNameIsNoDirectory(entries: Listing)
    ensures var name := DecimalString(NextId(entries));
      IsDigitName(name) && (name !in entries || !entries[name].Dir?)
  {
    var id := NextId(entries);
    var name := DecimalString(id);
    DecimalRoundTrip(id);
    assert forall n :: n in entries && entries[n].Dir? && IsDigitName(n) ==> DigitValue(n) in NumericIds(entries);
  }

  /**
   * Allocation is monotonic: once the directory for id `k` exists, the next
   * allocation yields `k + 1`.
   */
  lemma {:induction false} NextIdAfterCreate(entries: Listing)
    requires DecimalString(NextId(entries)) !in entries
    ensures NextId(entries[DecimalString(NextId(entries)) := Dir({})]) == NextId(entries) + 1
  {
    var id := NextId(entries);
    var name := DecimalString(id);
    var after := entries[name := Dir({})];
    DecimalRoundTrip(id);
    assert NumericIds(after) == NumericIds(entries) + {id} by {
      assert forall n :: n in after && n != name ==> n in entries && after[n] == entries[n];
      assert DigitValue(name) == id;
    }
    assert id in NumericIds(after);
  }

  /** An empty sessions directory gets `0`, then `1`. */
  lemma FirstAllocations()
    ensures NextId(map[]) == 0
    ensures NextId(map["0" := Dir({})]) == 1
  {
    var empty: Listing := map[];
    assert NumericIds(empty) == {};
    assert DecimalString(0) == "0";
    NextIdAfterCreate(empty);
  }

  /** The parsed request body of `/connect`. */
  datatype Body = Malformed | NotAnObject | JsonObject(saveInteractions: Option<bool>)

  /** 400 for the body; `mkdir` raising `FileExistsError` for the new directory. */
  datatype ConnectError = BadRequest | DirectoryExists

  datatype Connected = Connected(sessionId: string, sessionDirectory: SessionDir)

  /** `body.get("saveInteractions", False)` */
  function SaveFlag(body: Body): bool
    requires body.JsonObject?
  {
    if body.saveInteractions.Some? then body.saveInteractions.value else false
  }

  /** The session table after `/connect` stores the flag in the caller's entry, if it still exists. */
  function WithSaveFlag(sessions: map<string, SessionRecord>, sid: string, save: bool)
    : (r: map<string, SessionRecord>)
    ensures r.Keys == sessions.Keys
    ensures forall t :: t in r && t != sid ==> r[t] == sessions[t]
    ensures sid in r ==>
      (r[sid].saveInteractions == Some(save)
       && r[sid].username == sessions[sid].username && r[sid].lastSeen == sessions[sid].lastSeen)
  {
    if sid in sessions then sessions[sid := sessions[sid].(saveInteractions := Some(save))]
    else sessions
  }

  /** The sessions directory of `username`, empty when `mkdir(parents=True)` has to create it. */
  function SessionsOf(users: map<string, Listing>, username: string): Listing
  {
    if username in users then users[username] else map[]
  }

  /**
   * `connect`, given the `(session_id, username)` that token verification
   * produced: a body that is not a JSON object yields 400 before anything
   * changes; otherwise the flag is copied into `ModelState` and the caller's
   * entry, the sessions directory is created if needed, the next numeric
   * directory is created and becomes the active conversation.
   */
  method Connect(st: ModelState, table: SessionTable, tree: SessionTree,
                 sessionId: string, username: string, body: Body)
    returns (r: Result<Connected, ConnectError>)
    modifies st, table, tree
    ensures !body.JsonObject? ==>
      r == Err(BadRequest) && unchanged(st) && unchanged(table) && unchanged(tree)
    ensures body.JsonObject? ==>
      && st.saveInteractions == SaveFlag(body)
      && table.sessions == WithSaveFlag(old(table.sessions), sessionId, SaveFlag(body))
      && st.modelReady == old(st.modelReady) && st.sessionActive == old(st.sessionActive)
      && st.sessionIds == old(st.sessionIds) && st.engineConfig == old(st.engineConfig)
      && st.eosTokenId == old(st.eosTokenId) && st.responseLength == old(st.responseLength)
    ensures body.JsonObject? ==>
      var entries := SessionsOf(old(tree.users), username);
      var name := DecimalString(NextId(entries));
      if name in entries then
        && r == Err(DirectoryExists)
        && tree.users == old(tree.users)[username := entries]
        && st.sessionDir == old(st.sessionDir)
      else
        && r == Ok(Connected(sessionId, SessionDir(username, name)))
        && tree.users == old(tree.users)[username := entries[name := Dir({})]]
        && st.sessionDir == Some(SessionDir(username, name))
  {
    if !body.JsonObject? {
      return Err(BadRequest);
    }
    var save := SaveFlag(body);
    st.saveInteractions := save;
    if sessionId in table.sessions {
      table.sessions := table.sessions[sessionId := table.sessions[sessionId].(saveInteractions := Some(save))];
    }
    var entries := SessionsOf(tree.users, username);
    tree.users := tree.users[username := entries];
    var name := DecimalString(NextId(entries));
    if name in entries {
      return Err(DirectoryExists);
    }
    tree.users := tree.users[username := entries[name := Dir({})]];
    st.sessionDir := Some(SessionDir(username, name));
    return Ok(Connected(sessionId, SessionDir(username, name)));
  }

  /** The caller's entry with `last_seen` set to `now`; every other entry unchanged. */
  function Refreshed(sessions: map<string, SessionRecord>, token: string, now: int)
    : (r: map<string, SessionRecord>)
    requires token in sessions
    ensures r.Keys == sessions.Keys
    ensures forall t :: t in r && t != token ==> r[t] == sessions[t]
    ensures r[token].lastSeen == now && r[token].username == sessions[token].username
      && r[token].saveInteractions == sessions[token].saveInteractions
  {
    sessions[token := sessions[token].(lastSeen := now)]
  }

  /**
   * `keepalive`: the session check first (which may reject or expire the
   * caller), then only the caller's entry gets `last_seen = now`.
   */
  method Keepalive(table: SessionTable, header: Option<string>, now: int)
    returns (r: Result<(), AuthError>)
    modifies table
    ensures var (check, after) := CheckSession(old(table.sessions), header, now);
      && (check.Err? ==> r == Err(check.error) && table.sessions == after)
      && (check.Ok? ==> r == Ok(()) && header.Some? && header.value in old(table.sessions)
                        && table.sessions == Refreshed(old(table.sessions), header.value, now))
  {
    CheckSessionSpec(table.sessions, header, now);
    var check := table.RequireSession(header, now);
    if check.Err? {
      return Err(check.error);
    }
    var token := header.value;
    table.sessions := table.sessions[token := table.sessions[token].(lastSeen := now)];
    return Ok(());
  }

  /** A refreshed entry passes the session check for two more minutes. */
  lemma RefreshedIsValid(sessions: map<string, SessionRecord>, token: string, now: int, later: int)
    requires token != "" && token in sessions
    requires now <= later <= now + SESSION_TIMEOUT
    ensures CheckSession(Refreshed(sessions, token, now), Some(token), later).0.Ok?
  {
  }
}
