/**
 * Client authentication (auth.py): the trusted public keys loaded at start
 * up, the in-memory table of active sessions, session creation on a token
 * that one of the keys verifies, and the per-request session check with its
 * idle expiry. Signature checking is an argument `verifies(pem, token)`;
 * the clock is an integer number of microseconds.
 */
module Auth {
  import opened Wrappers
  import opened Text

  /** `SESSION_TIMEOUT = timedelta(minutes=2)`, in microseconds. */
  const SESSION_TIMEOUT: int := 2 * 60 * 1000000

  const PEM_PREFIX: string := "-----BEGIN PUBLIC KEY-----"

  /** One entry of `ACTIVE_SESSIONS`; `saveInteractions` is absent until `/connect` sets it. */
  datatype SessionRecord = SessionRecord(username: string, lastSeen: int, saveInteractions: Option<bool>)

  /** The causes of the 401 responses. */
  datatype AuthError = MissingToken | InvalidToken | SessionExpired | NoMatchingKey

  /** The `RuntimeError`s of `load_public_keys`. */
  datatype KeyLoadError =
    | MissingConfigFile
    | MissingKeyDirectory
    | MissingKeyFile(username: string)
    | NotPemFormat(username: string)

  // ---------------------------------------------------------------------------
  // Trusted keys, kept in a Python dict: username -> PEM text, in insertion order

  type KeyDict = seq<(string, string)>

  function DictKeys(d: KeyDict): set<string>
  {
    if d == [] then {} else {d[0].0} + DictKeys(d[1..])
  }

  /** No username occurs twice. */
  predicate UniqueKeys(d: KeyDict) {
    d == [] || (d[0].0 !in DictKeys(d[1..]) && UniqueKeys(d[1..]))
  }

  /** A username is a key of the dict exactly when some entry carries it. */
  lemma {:induction false} DictKeysIndex(d: KeyDict)
    ensures forall k :: k in DictKeys(d) <==> exists i :: 0 <= i < |d| && d[i].0 == k
  {
    if d != [] {
      DictKeysIndex(d[1..]);
      forall k | k in DictKeys(d) ensures exists i :: 0 <= i < |d| && d[i].0 == k {
        if k != d[0].0 {
          assert k in DictKeys(d[1..]);
          var i :| 0 <= i < |d[1..]| && d[1..][i].0 == k;
          assert d[i + 1].0 == k;
        }
      }
      forall k, i | 0 <= i < |d| && d[i].0 == k ensures k in DictKeys(d) {
        if i > 0 {
          assert d[1..][i - 1].0 == k;
        }
      }
    }
  }

  /**
   * `d[k] = v`: a key already present keeps its position and takes the new
   * value; a new key goes to the end.
   */
  function DictSet(d: KeyDict, k: string, v: string): (r: KeyDict)
    ensures DictKeys(r) == DictKeys(d) + {k}
    ensures UniqueKeys(d) ==> UniqueKeys(r)
    ensures forall p :: p in r ==> p == (k, v) || p in d
    ensures (k, v) in r
  {
    if d == [] then [(k, v)]
    else if d[0].0 == k then
      var r := [(k, v)] + d[1..];
      assert r[1..] == d[1..];
      r
    else
      var rest := DictSet(d[1..], k, v);
      var r := [d[0]] + rest;
      assert r[1..] == rest;
      r
  }

  /** A new key is appended at the end. */
  lemma {:induction false} DictSetAppends(d: KeyDict, k: string, v: string)
    requires k !in DictKeys(d)
    ensures DictSet(d, k, v) == d + [(k, v)]
  {
    if d != [] {
      DictSetAppends(d[1..], k, v);
      assert d == [d[0]] + d[1..];
    }
  }

  /** A key already present keeps the position of its first entry, which takes the new value. */
  lemma {:induction false} DictSetReplaces(d: KeyDict, k: string, v: string, i: nat)
    requires i < |d| && d[i].0 == k
    requires forall j :: 0 <= j < i ==> d[j].0 != k
    ensures DictSet(d, k, v) == d[i := (k, v)]
  {
    if i > 0 {
      var tail := d[1..];
      assert d[0].0 != k;
      assert DictSet(d, k, v) == [d[0]] + DictSet(tail, k, v);
      assert tail[i - 1] == d[i];
      forall j | 0 <= j < i - 1 ensures tail[j].0 != k {
        assert tail[j] == d[j + 1];
      }
      DictSetReplaces(tail, k, v, i - 1);
      var t := tail[i - 1 := (k, v)];
      forall m | 0 <= m < |d| ensures ([d[0]] + t)[m] == d[i := (k, v)][m] {
        if m > 0 {
          assert ([d[0]] + t)[m] == t[m - 1];
        }
      }
      assert [d[0]] + t == d[i := (k, v)];
    } else {
      assert d[0 := (k, v)] == [(k, v)] + d[1..];
    }
  }

  /** In a dict without repeated keys, the key set holds only the new value. */
  lemma DictSetOverwrites(d: KeyDict, k: string, v: string)
    requires UniqueKeys(d)
    ensures forall p :: p in DictSet(d, k, v) && p.0 == k ==> p == (k, v)
  {
    if d != [] && d[0].0 == k {
      DictKeysIndex(d[1..]);
      assert DictSet(d, k, v) == [(k, v)] + d[1..];
    } else if d != [] {
      DictSetOverwrites(d[1..], k, v);
      assert DictSet(d, k, v) == [d[0]] + DictSet(d[1..], k, v);
    }
  }

  /**
   * The loop of `load_public_keys` over the configured `(username, key file)`
   * pairs, with the key files' texts given as a map from file name to text.
   */
  function LoadKeys(acc: KeyDict, clients: seq<(string, string)>, files: map<string, string>)
    : (r: Result<KeyDict, KeyLoadError>)
    ensures r.Ok? ==> DictKeys(r.value) == DictKeys(acc) + DictKeys(clients)
    ensures r.Err? ==> (r.error.MissingKeyFile? || r.error.NotPemFormat?)
                       && r.error.username in DictKeys(clients)
    decreases |clients|
  {
    if clients == [] then Ok(acc)
    else
      var (username, keyFile) := clients[0];
      if keyFile !in files then Err(MissingKeyFile(username))
      else
        var pem := Strip(files[keyFile]);
        if !StartsWith(pem, PEM_PREFIX) then Err(NotPemFormat(username))
        else LoadKeys(DictSet(acc, username, pem), clients[1..], files)
  }

  /** The key file of client `c` exists and its stripped text is a PEM public key. */
  predicate GoodClient(c: (string, string), files: map<string, string>) {
    c.1 in files && StartsWith(Strip(files[c.1]), PEM_PREFIX)
  }

  /**
   * Loading succeeds exactly when every client's key file exists and is in
   * PEM form; then each configured username has exactly one entry, and every
   * stored key starts with the PEM header.
   */
  lemma {:induction false} LoadKeysSound(acc: KeyDict, clients: seq<(string, string)>,
                                        files: map<string, string>)
    requires UniqueKeys(acc)
    requires forall p :: p in acc ==> StartsWith(p.1, PEM_PREFIX)
    decreases |clients|
    ensures LoadKeys(acc, clients, files).Ok?
        <==> forall i :: 0 <= i < |clients| ==> GoodClient(clients[i], files)
    ensures LoadKeys(acc, clients, files).Ok? ==>
      var keys := LoadKeys(acc, clients, files).value;
      && UniqueKeys(keys)
      && DictKeys(keys) == DictKeys(acc) + DictKeys(clients)
      && forall p :: p in keys ==> StartsWith(p.1, PEM_PREFIX)
  {
    if clients != [] {
      var (username, keyFile) := clients[0];
      assert forall i :: 1 <= i < |clients| ==> clients[i] == clients[1..][i - 1];
      if GoodClient(clients[0], files) {
        var next := DictSet(acc, username, Strip(files[keyFile]));
        LoadKeysSound(next, clients[1..], files);
        assert DictKeys(clients) == {username} + DictKeys(clients[1..]);
      }
    }
  }

  /** Entry `j` is the last configured entry for its username. */
  predicate LastEntryFor(clients: seq<(string, string)>, j: int) {
    0 <= j < |clients| && forall l :: j < l < |clients| ==> clients[l].0 != clients[j].0
  }

  /**
   * What each loaded user maps to: the stripped text of the key file named
   * by that user's last configured entry (a later entry overwrites an
   * earlier one), or, for a user no entry names, what was already there.
   */
  lemma {:induction false} LoadKeysValues(acc: KeyDict, clients: seq<(string, string)>,
                                         files: map<string, string>)
    requires UniqueKeys(acc)
    requires LoadKeys(acc, clients, files).Ok?
    ensures forall p :: p in LoadKeys(acc, clients, files).value ==>
      || (p in acc && p.0 !in DictKeys(clients))
      || exists j :: && LastEntryFor(clients, j) && clients[j].0 == p.0
                     && clients[j].1 in files && p.1 == Strip(files[clients[j].1])
    decreases |clients|
  {
    if clients != [] {
      var (username, keyFile) := clients[0];
      var next := DictSet(acc, username, Strip(files[keyFile]));
      DictSetOverwrites(acc, username, Strip(files[keyFile]));
      LoadKeysValues(next, clients[1..], files);
      DictKeysIndex(clients[1..]);
      var keys := LoadKeys(acc, clients, files).value;
      assert keys == LoadKeys(next, clients[1..], files).value;
      forall p | p in keys
        ensures || (p in acc && p.0 !in DictKeys(clients))
                || exists j :: && LastEntryFor(clients, j) && clients[j].0 == p.0
                               && clients[j].1 in files && p.1 == Strip(files[clients[j].1])
      {
        if j' :| && LastEntryFor(clients[1..], j') && clients[1..][j'].0 == p.0
                 && clients[1..][j'].1 in files && p.1 == Strip(files[clients[1..][j'].1]) {
          assert forall l :: j' + 1 < l < |clients| ==> clients[l] == clients[1..][l - 1];
          assert LastEntryFor(clients, j' + 1) && clients[j' + 1] == clients[1..][j'];
        } else {
          assert p in next && p.0 !in DictKeys(clients[1..]);
          if p.0 == username {
            assert p == (username, Strip(files[keyFile]));
            assert forall l :: 0 < l < |clients| ==> clients[l] == clients[1..][l - 1];
            assert LastEntryFor(clients, 0);
          } else {
            assert p in acc;
          }
        }
      }
    }
  }

  /**
   * `load_public_keys`: the configuration file and the key directory must
   * exist; each configured client's key file must exist and, once stripped,
   * start with the PEM public-key header; the first client that fails stops
   * the load.
   */
  method LoadPublicKeys(configExists: bool, keysDirExists: bool,
                        clients: seq<(string, string)>, files: map<string, string>)
    returns (r: Result<KeyDict, KeyLoadError>)
    ensures !configExists ==> r == Err(MissingConfigFile)
    ensures configExists && !keysDirExists ==> r == Err(MissingKeyDirectory)
    ensures configExists && keysDirExists ==> r == LoadKeys([], clients, files)
  {
    if !configExists {
      return Err(MissingConfigFile);
    }
    if !keysDirExists {
      return Err(MissingKeyDirectory);
    }
    var keys: KeyDict := [];
    var k := 0;
    while k < |clients|
      invariant 0 <= k <= |clients|
      invariant LoadKeys(keys, clients[k..], files) == LoadKeys([], clients, files)
    {
      assert clients[k..][0] == clients[k] && clients[k..][1..] == clients[k + 1..];
      var (username, keyFile) := clients[k];
      if keyFile !in files {
        return Err(MissingKeyFile(username));
      }
      var pem := Strip(files[keyFile]);
      if !StartsWith(pem, PEM_PREFIX) {
        return Err(NotPemFormat(username));
      }
      keys := DictSet(keys, username, pem);
      k := k + 1;
    }
    assert clients[k..] == [];
    return Ok(keys);
  }

  // ---------------------------------------------------------------------------
  // Session creation and checking

  /** The position of the first key, in dict order, whose PEM verifies `token`. */
  function FirstVerifying(keys: KeyDict, token: string, verifies: (string, string) -> bool,
                          from: nat): (r: Option<nat>)
    requires from <= |keys|
    ensures r.Some? ==> from <= r.value < |keys| && verifies(keys[r.value].1, token)
    ensures r.Some? ==> forall j :: from <= j < r.value ==> !verifies(keys[j].1, token)
    ensures r.None? <==> forall j :: from <= j < |keys| ==> !verifies(keys[j].1, token)
    decreases |keys| - from
  {
    if from == |keys| then None
    else if verifies(keys[from].1, token) then Some(from)
    else FirstVerifying(keys, token, verifies, from + 1)
  }

  /**
   * `require_session` as a function of the session map, the
   * `X-Session-Token` header and the clock: the result and the new map.
   */
  function CheckSession(sessions: map<string, SessionRecord>, header: Option<string>, now: int)
    : (res: (Result<SessionRecord, AuthError>, map<string, SessionRecord>))
    ensures res.1.Keys <= sessions.Keys
    ensures res.0.Ok? ==> && header.Some? && header.value in sessions
                          && res.0.value == sessions[header.value] && res.1 == sessions
    ensures res.1 != sessions ==> res.0 == Err(SessionExpired)
  {
    if header.None? || header.value == "" then (Err(MissingToken), sessions)
    else if header.value !in sessions then (Err(InvalidToken), sessions)
    else if now - sessions[header.value].lastSeen > SESSION_TIMEOUT then
      (Err(SessionExpired), sessions - {header.value})
    else (Ok(sessions[header.value]), sessions)
  }

  /**
   * The check succeeds exactly for a present token whose entry was seen at
   * most two minutes ago (exactly two minutes still counts), returns that
   * entry unrefreshed and leaves the map alone; its only change to the map is
   * dropping the caller's expired entry.
   */
  lemma CheckSessionSpec(sessions: map<string, SessionRecord>, header: Option<string>, now: int)
    ensures var (r, after) := CheckSession(sessions, header, now);
      && (r.Ok? <==> header.Some? && header.value != "" && header.value in sessions
                     && now - sessions[header.value].lastSeen <= SESSION_TIMEOUT)
      && (r.Ok? ==> r.value == sessions[header.value] && after == sessions)
      && (header.None? || header == Some("") ==> r == Err(MissingToken) && after == sessions)
      && ((header.Some? && header.value != "" && header.value !in sessions)
            ==> r == Err(InvalidToken) && after == sessions)
      && (r == Err(SessionExpired) ==> after.Keys == sessions.Keys - {header.value})
      && after.Keys <= sessions.Keys
      && forall t :: t in after ==> after[t] == sessions[t]
  {
  }

  /** An entry exactly `SESSION_TIMEOUT` old is still accepted; one microsecond later it is not. */
  lemma TimeoutBoundary(sessions: map<string, SessionRecord>, token: string)
    requires token != "" && token in sessions
    ensures CheckSession(sessions, Some(token), sessions[token].lastSeen + SESSION_TIMEOUT).0
         == Ok(sessions[token])
    ensures CheckSession(sessions, Some(token), sessions[token].lastSeen + SESSION_TIMEOUT + 1)
         == (Err(SessionExpired), sessions - {token})
  {
  }

  /** `ACTIVE_SESSIONS`: session id -> record. */
  class SessionTable {
    var sessions: map<string, SessionRecord>

    constructor ()
      ensures sessions == map[]
    {
      sessions := map[];
    }

    /** `require_session` */
    method RequireSession(header: Option<string>, now: int) returns (r: Result<SessionRecord, AuthError>)
      modifies this
      ensures (r, sessions) == CheckSession(old(sessions), header, now)
    {
      if header.None? || header.value == "" {
        return Err(MissingToken);
      }
      var token := header.value;
      if token !in sessions {
        return Err(InvalidToken);
      }
      var session := sessions[token];
      if now - session.lastSeen > SESSION_TIMEOUT {
        sessions := sessions - {token};
        return Err(SessionExpired);
      }
      return Ok(session);
    }

    /**
     * `verify_jwt_and_create_session`: the first trusted key (in dict order)
     * that verifies the bearer token wins, and one entry for its username,
     * seen `now`, is stored under the new session id; when no key verifies,
     * nothing is stored.
     */
    method VerifyAndCreate(token: string, keys: KeyDict, verifies: (string, string) -> bool,
                           newId: string, now: int)
      returns (r: Result<(string, string), AuthError>)
      modifies this
      ensures FirstVerifying(keys, token, verifies, 0).None? ==>
        r == Err(NoMatchingKey) && sessions == old(sessions)
      ensures FirstVerifying(keys, token, verifies, 0).Some? ==>
        var username := keys[FirstVerifying(keys, token, verifies, 0).value].0;
        && r == Ok((newId, username))
        && sessions == old(sessions)[newId := SessionRecord(username, now, None)]
    {
      var k := 0;
      while k < |keys|
        invariant 0 <= k <= |keys|
        invariant FirstVerifying(keys, token, verifies, k) == FirstVerifying(keys, token, verifies, 0)
        invariant sessions == old(sessions)
      {
        var (username, pem) := keys[k];
        if verifies(pem, token) {
          sessions := sessions[newId := SessionRecord(username, now, None)];
          return Ok((newId, username));
        }
        k := k + 1;
      }
      return Err(NoMatchingKey);
    }
  }

  /** A fresh session id adds exactly one entry. */
  lemma CreateAddsOne(sessions: map<string, SessionRecord>, newId: string, rec: SessionRecord)
    requires newId !in sessions
    ensures |sessions[newId := rec]| == |sessions| + 1
    ensures (sessions[newId := rec]).Keys == sessions.Keys + {newId}
  {
  }
}
