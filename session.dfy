/**
 * The in-memory session store `SESSIONS` as a value: a map from session id to the ordered
 * history of conversation turns, and the pure transition of `get_or_create_session`.
 * The class that owns the store and updates it in place is `Service.SessionStore`.
 */
module Session {
  import opened Wrappers

  datatype Role = System | User | Assistant

  /** One `{"role": ..., "content": ...}` message. */
  datatype Turn = Turn(role: Role, content: string)

  /** `SESSIONS`, with each `{"history": [...]}` entry reduced to its history list. */
  type Store = map<string, seq<Turn>>

  /** Python truthiness of an optional session id: present and non-empty. */
  predicate Supplied(sessionId: Option<string>)
  {
    sessionId.Some? && sessionId.value != ""
  }

  /** The supplied id names a session already in the store. */
  predicate Known(store: Store, sessionId: Option<string>)
  {
    Supplied(sessionId) && sessionId.value in store
  }

  /** The id handed back by `get_or_create_session`, and the store after the call. */
  datatype Resolution = Resolution(id: string, store: Store)

  /**
   * `get_or_create_session(session_id)`, with `freshId` standing for `str(uuid.uuid4())`:
   * a known id is returned and nothing changes; otherwise the supplied non-empty id, or else
   * the fresh one, is (re)bound to an empty history.
   */
  function Resolve(store: Store, sessionId: Option<string>, freshId: string): (r: Resolution)
    ensures r.id in r.store && r.store.Keys == store.Keys + {r.id}
    ensures freshId != "" ==> r.id != ""
  {
    if Known(store, sessionId) then Resolution(sessionId.value, store)
    else
      var id := if Supplied(sessionId) then sessionId.value else freshId;
      Resolution(id, store[id := []])
  }

  /** `SESSIONS.get(session_id, {}).get("history", [])`: empty for an absent or unknown id. */
  function HistoryOf(store: Store, sessionId: Option<string>): (h: seq<Turn>)
    ensures sessionId.None? ==> h == []
    ensures sessionId.Some? && sessionId.value !in store ==> h == []
  {
    if sessionId.Some? && sessionId.value in store then store[sessionId.value] else []
  }

  /** A history that holds nothing but assistant turns. */
  predicate AssistantOnly(h: seq<Turn>)
  {
    forall k :: 0 <= k < |h| ==> h[k].role == Assistant
  }

  /**
   * What every reachable store satisfies: the empty string is never a session id (an empty
   * supplied id is replaced by a fresh one), and histories hold only the assistant turns that
   * `lesson_step` appends (the user notes sent to the model are never stored).
   */
  predicate StoreInvariant(store: Store)
  {
    "" !in store && forall id :: id in store ==> AssistantOnly(store[id])
  }

  /**
   * With a fresh non-empty id, resolving returns a non-empty id that is in the new store, a
   * known id comes back unchanged with the store untouched, an unknown id (supplied or fresh)
   * gets an empty history, and no existing history is lost or altered.
   */
  lemma ResolveSpec(store: Store, sessionId: Option<string>, freshId: string)
    requires freshId != "" && freshId !in store
    ensures var r := Resolve(store, sessionId, freshId);
      && r.id != ""
      && r.id in r.store
      && r.store.Keys == store.Keys + {r.id}
      && (Known(store, sessionId) ==> r.id == sessionId.value && r.store == store)
      && (!Known(store, sessionId) ==>
            && r.id == (if Supplied(sessionId) then sessionId.value else freshId)
            && r.id !in store
            && r.store[r.id] == [])
      && (forall id :: id in store ==> id in r.store && r.store[id] == store[id])
  {
  }

  /** Resolving the id just handed back is a no-op: same id, same store, whatever fresh id is offered. */
  lemma ResolveIdempotent(store: Store, sessionId: Option<string>, freshId: string, otherFreshId: string)
    requires freshId != ""
    ensures var r := Resolve(store, sessionId, freshId);
      Resolve(r.store, Some(r.id), otherFreshId) == r
  {
  }

  /** Resolving keeps the store invariant. */
  lemma ResolveKeepsInvariant(store: Store, sessionId: Option<string>, freshId: string)
    requires StoreInvariant(store) && freshId != ""
    ensures StoreInvariant(Resolve(store, sessionId, freshId).store)
  {
  }

  /**
   * Without the freshness of the uuid the code would reset a live session: an absent id
   * rebinds `freshId` to an empty history even when it already had one.
   */
  lemma ResolveResetsReusedFreshId(store: Store, freshId: string)
    requires freshId in store && store[freshId] != []
    ensures var r := Resolve(store, None, freshId);
      r.id == freshId && r.store[freshId] == [] != store[freshId]
  {
  }
}
