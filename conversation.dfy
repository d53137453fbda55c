/**
 * The per-user conversation directories (routes/conversation.py): every
 * user owns `users/{username}/sessions/`, whose entries are conversation
 * directories (and possibly stray files). One directory, `ModelState`'s
 * `session_dir`, is the active conversation; it cannot be deleted, renamed
 * or erased. The HTTP status of each handler is returned as an integer.
 */
module Conversation {
  import opened Wrappers
  import opened Text
  import opened Init

  /** An entry of a sessions directory: a conversation directory with its files, or anything else. */
  datatype Entry = Dir(files: set<string>) | NonDir

  type Listing = map<string, Entry>

  const OK: int := 200
  const FORBIDDEN: int := 403
  const NOT_FOUND: int := 404
  const CONFLICT: int := 409

  /**
   * The directory tree under the single `users/` root: a username is a key
   * exactly when `users/{username}/sessions` exists.
   */
  class SessionTree {
    var users: map<string, Listing>

    constructor ()
      ensures users == map[]
    {
      users := map[];
    }
  }

  /** `users/{username}/sessions/{name}` exists and is a directory. */
  predicate IsConversation(users: map<string, Listing>, username: string, name: string) {
    username in users && name in users[username] && users[username][name].Dir?
  }

  predicate IsActive(active: Option<SessionDir>, username: string, name: string) {
    active == Some(SessionDir(username, name))
  }

  /** What `eraseHistory` removes: a digit-named directory that is not the active one. */
  predicate Erasable(entries: Listing, active: Option<SessionDir>, username: string, name: string)
    requires name in entries
  {
    entries[name].Dir? && IsDigitName(name) && !IsActive(active, username, name)
  }

  function ErasableNames(entries: Listing, active: Option<SessionDir>, username: string): set<string>
  {
    set n | n in entries && Erasable(entries, active, username, n)
  }

  /** The entries `eraseHistory` leaves in place. */
  function Survivors(entries: Listing, active: Option<SessionDir>, username: string): Listing
  {
    map n | n in entries && !Erasable(entries, active, username, n) :: entries[n]
  }

  /**
   * After erasing, the active directory is still there, every entry that is
   * not a digit-named directory is there unchanged, and every digit-named
   * directory left is the active one.
   */
  lemma SurvivorsSpec(entries: Listing, active: Option<SessionDir>, username: string)
    ensures var kept := Survivors(entries, active, username);
      && (forall n :: n in entries && IsActive(active, username, n) ==> n in kept && kept[n] == entries[n])
      && (forall n :: n in entries && !(entries[n].Dir? && IsDigitName(n)) ==> n in kept && kept[n] == entries[n])
      && (forall n :: n in kept && kept[n].Dir? && IsDigitName(n) ==> IsActive(active, username, n))
      && kept.Keys == entries.Keys - ErasableNames(entries, active, username)
  {
  }

  /**
   * `erase_conversation_history`: 404 when the user has no sessions
   * directory; otherwise every digit-named directory except the active one is
   * removed, in directory order, and the count reported is the number removed.
   */
  method EraseConversationHistory(st: ModelState, tree: SessionTree, username: string)
    returns (status: int, deleted: nat)
    modifies tree
    ensures username !in old(tree.users) ==>
      status == NOT_FOUND && deleted == 0 && tree.users == old(tree.users)
    ensures username in old(tree.users) ==>
      var entries := old(tree.users)[username];
      && status == OK
      && tree.users == old(tree.users)[username := Survivors(entries, st.sessionDir, username)]
      && deleted == |ErasableNames(entries, st.sessionDir, username)|
  {
    if username !in tree.users {
      return NOT_FOUND, 0;
    }
    var entries := tree.users[username];
    var active := st.sessionDir;
    ghost var before := tree.users;
    var todo := entries.Keys;
    var current := entries;
    ghost var gone: set<string> := {};
    deleted := 0;
    while todo != {}
      invariant todo <= entries.Keys
      invariant tree.users == before[username := current]
      invariant forall n :: n in current <==> n in entries && (n in todo || !Erasable(entries, active, username, n))
      invariant forall n :: n in current ==> current[n] == entries[n]
      invariant gone !! current.Keys && gone + current.Keys == entries.Keys
      invariant deleted == |gone|
      decreases todo
    {
      var name :| name in todo;
      if entries[name].Dir? && IsDigitName(name) {
        if active == Some(SessionDir(username, name)) {
          todo := todo - {name};
          continue;  // the active conversation is kept
        }
        gone := gone + {name};
        current := current - {name};
        tree.users := tree.users[username := current];
        deleted := deleted + 1;
      }
      todo := todo - {name};
    }
    assert current == Survivors(entries, active, username);
    ErasedAreErasable(entries, active, username);
    return OK, deleted;
  }

  lemma ErasedAreErasable(entries: Listing, active: Option<SessionDir>, username: string)
    ensures entries.Keys - Survivors(entries, active, username).Keys == ErasableNames(entries, active, username)
  {
  }

  /** Sorted in strictly increasing order (so without repeats). */
  predicate StrictlySorted(names: seq<string>) {
    forall i, j :: 0 <= i < j < |names| ==> LexLess(names[i], names[j])
  }

  /**
   * `list_conversations`: 404 without a sessions directory; otherwise the
   * names of all its directories in ascending string order. The filter
   * `isdigit() or name` admits every non-empty name, so renamed
   * conversations are listed too.
   */
  method ListConversations(tree: SessionTree, username: string)
    returns (r: Result<seq<string>, int>)
    ensures username !in tree.users ==> r == Err(NOT_FOUND)
    ensures username in tree.users ==> r.Ok?
    ensures r.Ok? ==> StrictlySorted(r.value)
    ensures r.Ok? ==> forall n :: n in r.value <==> IsConversation(tree.users, username, n)
  {
    if username !in tree.users {
      return Err(NOT_FOUND);
    }
    var entries := tree.users[username];
    var remaining := set n | n in entries && entries[n].Dir?;
    var names: seq<string> := [];
    while remaining != {}
      invariant StrictlySorted(names)
      invariant forall n :: n in names || n in remaining <==> n in entries && entries[n].Dir?
      invariant forall n :: n in names ==> n !in remaining
      invariant forall i, n :: 0 <= i < |names| && n in remaining ==> LexLess(names[i], n)
      decreases remaining
    {
      ghost var least0 := LexMinimum(remaining);
      var least :| least in remaining && forall o :: o in remaining ==> !LexLess(o, least);
      forall n | n in remaining - {least} ensures LexLess(least, n) {
        LexTotal(least, n);
      }
      names := names + [least];
      remaining := remaining - {least};
    }
    return Ok(names);
  }

  /**
   * `load_conversation`: 404 when the directory does not exist; otherwise it
   * becomes the active one. The directories themselves are never touched.
   */
  method LoadConversation(st: ModelState, tree: SessionTree, username: string, name: string)
    returns (status: int)
    modifies st
    ensures !IsConversation(tree.users, username, name) ==> status == NOT_FOUND && unchanged(st)
    ensures IsConversation(tree.users, username, name) ==>
      && status == OK
      && st.sessionDir == Some(SessionDir(username, name))
      && st.modelReady == old(st.modelReady) && st.sessionActive == old(st.sessionActive)
      && st.sessionIds == old(st.sessionIds) && st.saveInteractions == old(st.saveInteractions)
      && st.engineConfig == old(st.engineConfig) && st.eosTokenId == old(st.eosTokenId)
      && st.responseLength == old(st.responseLength)
  {
    if !(username in tree.users && name in tree.users[username] && tree.users[username][name].Dir?) {
      return NOT_FOUND;
    }
    st.sessionDir := Some(SessionDir(username, name));
    return OK;
  }

  /**
   * `delete_conversation`: 404 for a missing directory, then 403 for the
   * active one; otherwise exactly that directory is removed.
   */
  method DeleteConversation(st: ModelState, tree: SessionTree, username: string, name: string)
    returns (status: int)
    modifies tree
    ensures !IsConversation(old(tree.users), username, name) ==>
      status == NOT_FOUND && tree.users == old(tree.users)
    ensures IsConversation(old(tree.users), username, name) && IsActive(st.sessionDir, username, name) ==>
      status == FORBIDDEN && tree.users == old(tree.users)
    ensures IsConversation(old(tree.users), username, name) && !IsActive(st.sessionDir, username, name) ==>
      status == OK && tree.users == old(tree.users)[username := old(tree.users)[username] - {name}]
  {
    if !(username in tree.users && name in tree.users[username] && tree.users[username][name].Dir?) {
      return NOT_FOUND;
    }
    if st.sessionDir == Some(SessionDir(username, name)) {
      return FORBIDDEN;
    }
    tree.users := tree.users[username := tree.users[username] - {name}];
    return OK;
  }

  /**
   * `rename_conversation`: 404 when `old` is not a directory, then 403 when
   * it is the active one, then 409 when anything named `new` exists;
   * otherwise `old` disappears and `new` holds its contents.
   */
  method RenameConversation(st: ModelState, tree: SessionTree, username: string,
                            oldName: string, newName: string)
    returns (status: int)
    modifies tree
    ensures !IsConversation(old(tree.users), username, oldName) ==>
      status == NOT_FOUND && tree.users == old(tree.users)
    ensures IsConversation(old(tree.users), username, oldName) && IsActive(st.sessionDir, username, oldName) ==>
      status == FORBIDDEN && tree.users == old(tree.users)
    ensures IsConversation(old(tree.users), username, oldName) && !IsActive(st.sessionDir, username, oldName)
            && newName in old(tree.users)[username] ==>
      status == CONFLICT && tree.users == old(tree.users)
    ensures IsConversation(old(tree.users), username, oldName) && !IsActive(st.sessionDir, username, oldName)
            && newName !in old(tree.users)[username] ==>
      var entries := old(tree.users)[username];
      status == OK && tree.users == old(tree.users)[username := (entries - {oldName})[newName := entries[oldName]]]
  {
    if !(username in tree.users && oldName in tree.users[username] && tree.users[username][oldName].Dir?) {
      return NOT_FOUND;
    }
    if st.sessionDir == Some(SessionDir(username, oldName)) {
      return FORBIDDEN;
    }
    var entries := tree.users[username];
    if newName in entries {
      return CONFLICT;
    }
    tree.users := tree.users[username := (entries - {oldName})[newName := entries[oldName]]];
    return OK;
  }

  /**
   * A successful rename moves one conversation: the new name holds the old
   * contents, the old name is gone, every other entry is as before, and the
   * number of entries is the same.
   */
  lemma RenameMovesOne(entries: Listing, oldName: string, newName: string)
    requires oldName in entries && newName !in entries
    ensures var after := (entries - {oldName})[newName := entries[oldName]];
      && oldName !in after && after[newName] == entries[oldName]
      && (forall n :: n in entries && n != oldName ==> n in after && after[n] == entries[n])
      && after.Keys == entries.Keys - {oldName} + {newName}
      && |after| == |entries|
  {
    var after := (entries - {oldName})[newName := entries[oldName]];
    assert after.Keys == entries.Keys - {oldName} + {newName};
    assert |entries.Keys - {oldName}| == |entries| - 1;
  }

  /** The active conversation survives every handler that removes or renames. */
  lemma ActiveIsProtected(entries: Listing, active: Option<SessionDir>, username: string, name: string)
    requires IsActive(active, username, name) && name in entries
    ensures name in Survivors(entries, active, username)
    ensures !Erasable(entries, active, username, name)
  {
  }
}
