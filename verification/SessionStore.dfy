/** The versioned append: optimistic locking between the in-memory handles of stored sessions. */
module SessionStore {
  import opened StateScopes
  import opened Wrappers

  /** `delta` is the event's state delta as splitState sorts it. */
  datatype Event = Event(id: string, partial: bool, delta: Scopes)

  /** `isolated` marks a child agent's event, which AppendTranscriptEvent stores. */
  datatype StoredEvent = StoredEvent(event: Event, isolated: bool)

  datatype Row = Row(state: State, version: int, events: seq<StoredEvent>)

  /** One application and user: the scoped state their sessions share, and the session rows. */
  datatype Database = Database(app: State, user: State, rows: map<string, Row>)

  /** An in-memory session. `loaded` is false between the two reads of Get. */
  datatype Handle = Handle(id: string, events: seq<StoredEvent>, version: int, loaded: bool)

  datatype AppendError = NoSuchSession | ChangedConcurrently | DuplicateEvent

  predicate EventStored(row: Row, id: string) {
    exists i :: 0 <= i < |row.events| && row.events[i].event.id == id
  }

  /** AppendEvent as a relation of the stored session and the caller's handle. */
  function Refusal(db: Database, h: Handle, event: Event): Option<AppendError> {
    if h.id !in db.rows then Some(NoSuchSession)
    else if db.rows[h.id].version != h.version then Some(ChangedConcurrently)
    else if EventStored(db.rows[h.id], event.id) then Some(DuplicateEvent)
    else None
  }

  function Committed(db: Database, h: Handle, event: Event): Database
    requires Refusal(db, h, event) == None
  {
    var delta := event.delta;
    var row := db.rows[h.id];
    Database(
      db.app + delta.app,
      db.user + delta.user,
      db.rows[h.id := Row(row.state + delta.session, row.version + 1, row.events + [StoredEvent(event, false)])])
  }

  function Advanced(db: Database, h: Handle, event: Event): Handle
    requires Refusal(db, h, event) == None
  {
    h.(events := h.events + [StoredEvent(event, false)], version := h.version + 1)
  }

  /** A scope has taken over the entries of a delta that carry its prefix, without it, and kept all others. */
  ghost predicate TookUnder(before: State, after: State, delta: State, prefix: string) {
    forall key: string ::
      && (key in after <==> prefix + key in delta || key in before)
      && (key in after ==> after[key] == if prefix + key in delta then delta[prefix + key] else before[key])
  }

  ghost predicate TookRest(before: State, after: State, delta: State, p: Prefixes) {
    forall key ::
      && (key in after <==> (key in delta && SessionKey(p, key)) || key in before)
      && (key in after ==> after[key] == if key in delta && SessionKey(p, key) then delta[key] else before[key])
  }

  /** The event is stored once, as the session's own, with its number counted and its delta in the three scopes. */
  ghost predicate Stored(before: Database, after: Database, h: Handle, eventID: string, delta: State) {
    && h.id in before.rows && h.id in after.rows
    && TookUnder(before.app, after.app, delta, ADK.app) && TookUnder(before.user, after.user, delta, ADK.user)
    && TookRest(before.rows[h.id].state, after.rows[h.id].state, delta, ADK)
    && after.rows[h.id].version == before.rows[h.id].version + 1
    && |after.rows[h.id].events| == |before.rows[h.id].events| + 1
    && after.rows[h.id].events[..|before.rows[h.id].events|] == before.rows[h.id].events
    && after.rows[h.id].events[|before.rows[h.id].events|].event.id == eventID
    && !after.rows[h.id].events[|before.rows[h.id].events|].isolated
    && after.rows - {h.id} == before.rows - {h.id}
  }

  /** The handle's session is there at the handle's version, and no event of it has the id. */
  predicate Accepts(db: Database, h: Handle, eventID: string) {
    && h.id in db.rows && db.rows[h.id].version == h.version
    && forall i :: 0 <= i < |db.rows[h.id].events| ==> db.rows[h.id].events[i].event.id != eventID
  }

  lemma CommittedIsStored(db: Database, h: Handle, event: Event, delta: State)
    requires Refusal(db, h, event) == None && event.delta == ScopesOf(ADK, delta)
    requires HoldsUnder(event.delta.app, delta, ADK.app) && HoldsUnder(event.delta.user, delta, ADK.user)
    requires HoldsRest(event.delta.session, delta, ADK)
    ensures Stored(db, Committed(db, h, event), h, event.id, delta)
  {
  }

  /** One user's part of the database; a method stands for a transaction. */
  class Store {
    var app: State
    var user: State
    var rows: map<string, Row>

    ghost function View(): Database
      reads this
    {
      Database(app, user, rows)
    }
  }

  class PersistedSession {
    const id: string
    var state: State
    var events: seq<StoredEvent>
    var version: int
    var loaded: bool

    ghost function View(): Handle
      reads this
    {
      Handle(id, events, version, loaded)
    }

    method AppendEvent(store: Store, eventID: string, partial: bool, stateDelta: State) returns (error: Option<AppendError>)
      modifies this, store
      ensures partial ==> error == None && store.View() == old(store.View()) && View() == old(View())
      ensures var event := Event(eventID, partial, ScopesOf(ADK, stateDelta));
        !partial ==>
          && error == Refusal(old(store.View()), old(View()), event)
          && (error == None ==>
            && store.View() == Committed(old(store.View()), old(View()), event)
            && View() == Advanced(old(store.View()), old(View()), event)
            && state == Merged(ADK, Scopes(store.app, store.user, store.rows[id].state)))
      ensures !partial ==> (error == None <==> Accepts(old(store.View()), old(View()), eventID))
      ensures !partial && error == None ==> Stored(old(store.View()), store.View(), old(View()), eventID, stateDelta)
      ensures !partial && error == None ==>
        version == old(version) + 1 && events == old(events) + [store.rows[id].events[|store.rows[id].events| - 1]]
      ensures error.Some? ==> store.View() == old(store.View()) && View() == old(View()) && state == old(state)
    {
      if partial {
        return None;
      }
      var appDelta, userDelta, sessionDelta := SplitState(ADK, stateDelta);
      if id !in store.rows {
        return Some(NoSuchSession);
      }
      var row := store.rows[id];
      if row.version != version {
        return Some(ChangedConcurrently);
      }
      if EventStored(row, eventID) {
        return Some(DuplicateEvent);
      }
      var event := Event(eventID, partial, Scopes(appDelta, userDelta, sessionDelta));
      CommittedIsStored(store.View(), View(), event, stateDelta);
      Commit(store, event);
      state := Merged(ADK, Scopes(store.app, store.user, store.rows[id].state));
      error := None;
    }

    /** The writes of the transaction and, after it, of the handle. */
    method Commit(store: Store, event: Event)
      requires Refusal(store.View(), View(), event) == None
      modifies this, store
      ensures store.View() == Committed(old(store.View()), old(View()), event)
      ensures View() == Advanced(old(store.View()), old(View()), event)
    {
      var row := store.rows[id];
      var stored := StoredEvent(event, false);
      store.app, store.user := store.app + event.delta.app, store.user + event.delta.user;
      store.rows := store.rows[id := Row(row.state + event.delta.session, row.version + 1, row.events + [stored])];
      events := events + [stored];
      version := version + 1;
    }
  }

  // ---------------------------------------------------------------- many handles

  /** `initial` and `deltas` remember what sessions were created with and every delta committed, oldest first. */
  datatype World = World(db: Database, handles: seq<Handle>, initial: map<string, State>, deltas: seq<Scopes>)

  const EMPTY: World := World(Database(map[], map[], map[]), [], map[], [])

  datatype Step =
    | Create(id: string, initial: Scopes)
    | ReadRow(id: string)
    | ReadEvents(handle: nat)
    | Append(handle: nat, event: Event)
    | AppendTranscript(id: string, event: Event)

  /** `Create` reuses no ID and a handle is used once both reads of Get are done. */
  predicate Enabled(w: World, step: Step) {
    match step
    case Create(id, _) => id !in w.db.rows
    case ReadRow(id) => id in w.db.rows
    case ReadEvents(i) => i < |w.handles| && !w.handles[i].loaded && w.handles[i].id in w.db.rows
    case Append(i, event) => i < |w.handles| && w.handles[i].loaded && !event.partial
    case AppendTranscript(id, event) => id in w.db.rows && !event.partial && !EventStored(w.db.rows[id], event.id)
  }

  function Next(w: World, step: Step): World
    requires Enabled(w, step)
  {
    match step
    case Create(id, scopes) =>
      World(
        Database(w.db.app + scopes.app, w.db.user + scopes.user, w.db.rows[id := Row(scopes.session, 0, [])]),
        w.handles, w.initial[id := scopes.session], w.deltas + [scopes])
    case ReadRow(id) =>
      var row := w.db.rows[id];
      w.(handles := w.handles + [Handle(id, [], row.version, false)])
    case ReadEvents(i) =>
      var h := w.handles[i];
      w.(handles := w.handles[i := h.(events := w.db.rows[h.id].events, loaded := true)])
    case Append(i, event) =>
      var h := w.handles[i];
      if Refusal(w.db, h, event) == None
      then World(
        Committed(w.db, h, event), w.handles[i := Advanced(w.db, h, event)], w.initial, w.deltas + [event.delta])
      else w
    case AppendTranscript(id, event) =>
      var row := w.db.rows[id];
      w.(db := w.db.(rows := w.db.rows[id := row.(events := row.events + [StoredEvent(event, true)])]))
  }

  ghost predicate Reaches(w: World, steps: seq<Step>, w': World)
    decreases |steps|
  {
    if steps == [] then w == w'
    else Enabled(w, steps[0]) && Reaches(Next(w, steps[0]), steps[1..], w')
  }

  /** The coordinator's own events. */
  function Own(events: seq<StoredEvent>): seq<Event> {
    if events == [] then []
    else
      var last := events[|events| - 1];
      var before := Own(events[..|events| - 1]);
      if last.isolated then before else before + [last.event]
  }

  lemma OwnSnoc(events: seq<StoredEvent>, e: StoredEvent)
    ensures Own(events + [e]) == if e.isolated then Own(events) else Own(events) + [e.event]
  {
  }

  function SessionState(initial: State, commits: seq<Event>): State {
    if commits == [] then initial
    else SessionState(initial, commits[..|commits| - 1]) + commits[|commits| - 1].delta.session
  }

  lemma SessionStateSnoc(initial: State, commits: seq<Event>, event: Event)
    ensures SessionState(initial, commits + [event]) == SessionState(initial, commits) + event.delta.session
  {
  }

  /** No update is lost: a row is its initial state with every own event's delta applied in order. */
  ghost predicate RowIsFold(row: Row, initial: State) {
    row.version == |Own(row.events)| && row.state == SessionState(initial, Own(row.events))
  }

  function SharedState(deltas: seq<Scopes>): Scopes {
    if deltas == [] then Scopes(map[], map[], map[])
    else
      var before, last := SharedState(deltas[..|deltas| - 1]), deltas[|deltas| - 1];
      Scopes(before.app + last.app, before.user + last.user, map[])
  }

  lemma SharedStateSnoc(deltas: seq<Scopes>, delta: Scopes)
    ensures SharedState(deltas + [delta]) ==
      Scopes(SharedState(deltas).app + delta.app, SharedState(deltas).user + delta.user, map[])
  {
  }

  ghost predicate SharedIsFold(w: World) {
    w.db.app == SharedState(w.deltas).app && w.db.user == SharedState(w.deltas).user
  }

  ghost predicate RowSound(w: World, id: string) {
    id in w.db.rows && id in w.initial && RowIsFold(w.db.rows[id], w.initial[id])
  }

  /** A handle holds a piece of the row's own events, up to its version at least. */
  ghost predicate HandleSound(db: Database, h: Handle) {
    && h.id in db.rows
    && 0 <= h.version <= db.rows[h.id].version
    && (h.loaded ==>
      && h.version <= |Own(h.events)| <= |Own(db.rows[h.id].events)|
      && Own(h.events) == Own(db.rows[h.id].events)[..|Own(h.events)|])
  }

  ghost predicate Sound(w: World) {
    && SharedIsFold(w)
    && (forall id :: id in w.db.rows ==> RowSound(w, id))
    && (forall i :: 0 <= i < |w.handles| ==> HandleSound(w.db, w.handles[i]))
  }

  lemma RowsStayAhead(db: Database, db': Database, h: Handle)
    requires HandleSound(db, h) && h.id in db'.rows
    requires db'.rows[h.id].version >= db.rows[h.id].version
    requires Own(db.rows[h.id].events) <= Own(db'.rows[h.id].events)
    ensures HandleSound(db', h)
  {
  }

  lemma StepKeepsSound(w: World, step: Step)
    requires Sound(w) && Enabled(w, step)
    ensures Sound(Next(w, step))
  {
    match step
    case Create(id, initial) =>
      CreateKeepsSound(w, id, initial);
    case ReadRow(id) =>
      assert RowSound(w, id);
    case ReadEvents(i) =>
      var h := w.handles[i];
      assert HandleSound(w.db, h) && RowSound(w, h.id);
      var own := Own(w.db.rows[h.id].events);
      assert own[..|own|] == own;
    case Append(i, event) =>
      if Refusal(w.db, w.handles[i], event) == None {
        AppendKeepsSound(w, i, event);
      }
    case AppendTranscript(id, event) =>
      TranscriptKeepsSound(w, id, event);
  }

  lemma CreateKeepsSound(w: World, id: string, initial: Scopes)
    requires Sound(w) && Enabled(w, Create(id, initial))
    ensures Sound(Next(w, Create(id, initial)))
  {
    var w' := Next(w, Create(id, initial));
    assert Own([]) == [] && SessionState(initial.session, []) == initial.session;
    SharedStateSnoc(w.deltas, initial);
    forall other | other in w'.db.rows
      ensures RowSound(w', other)
    {
      assert other != id ==> RowSound(w, other);
    }
    forall i | 0 <= i < |w.handles|
      ensures HandleSound(w'.db, w.handles[i])
    {
      assert HandleSound(w.db, w.handles[i]);
    }
  }

  lemma TranscriptKeepsSound(w: World, id: string, event: Event)
    requires Sound(w) && Enabled(w, AppendTranscript(id, event))
    ensures Sound(Next(w, AppendTranscript(id, event)))
  {
    var w' := Next(w, AppendTranscript(id, event));
    var row := w.db.rows[id];
    OwnSnoc(row.events, StoredEvent(event, true));
    forall other | other in w'.db.rows
      ensures RowSound(w', other)
    {
      assert RowSound(w, other);
    }
    forall i | 0 <= i < |w.handles|
      ensures HandleSound(w'.db, w.handles[i])
    {
      assert HandleSound(w.db, w.handles[i]);
      RowsStayAhead(w.db, w'.db, w.handles[i]);
    }
  }

  /** The version check passes only for a handle that has seen every own event of the session. */
  lemma AcceptedHandleIsCurrent(w: World, i: nat, event: Event)
    requires Sound(w) && Enabled(w, Append(i, event)) && Refusal(w.db, w.handles[i], event) == None
    ensures Own(w.handles[i].events) == Own(w.db.rows[w.handles[i].id].events)
  {
  }

  lemma AppendKeepsFold(db: Database, h: Handle, event: Event, initial: State)
    requires Refusal(db, h, event) == None && RowIsFold(db.rows[h.id], initial)
    ensures RowIsFold(Committed(db, h, event).rows[h.id], initial)
    ensures Own(Committed(db, h, event).rows[h.id].events) == Own(db.rows[h.id].events) + [event]
  {
    var row := db.rows[h.id];
    OwnSnoc(row.events, StoredEvent(event, false));
    SessionStateSnoc(initial, Own(row.events), event);
  }

  lemma AppendKeepsSound(w: World, i: nat, event: Event)
    requires Sound(w) && Enabled(w, Append(i, event)) && Refusal(w.db, w.handles[i], event) == None
    ensures Sound(Next(w, Append(i, event)))
  {
    var h := w.handles[i];
    var w' := Next(w, Append(i, event));
    AcceptedHandleIsCurrent(w, i, event);
    OwnSnoc(h.events, StoredEvent(event, false));
    assert RowSound(w, h.id);
    AppendKeepsFold(w.db, h, event, w.initial[h.id]);
    SharedStateSnoc(w.deltas, event.delta);
    forall other | other in w'.db.rows
      ensures RowSound(w', other)
    {
      assert RowSound(w, other);
    }
    var own := Own(w'.db.rows[h.id].events);
    assert own[..|own|] == own;
    forall k | 0 <= k < |w.handles|
      ensures HandleSound(w'.db, w'.handles[k])
    {
      assert HandleSound(w.db, w.handles[k]);
      if k != i {
        RowsStayAhead(w.db, w'.db, w.handles[k]);
      }
    }
  }

  lemma {:induction false} RunKeepsSound(w: World, steps: seq<Step>, w': World)
    requires Sound(w) && Reaches(w, steps, w')
    ensures Sound(w')
    decreases |steps|
  {
    if steps != [] {
      StepKeepsSound(w, steps[0]);
      RunKeepsSound(Next(w, steps[0]), steps[1..], w');
    }
  }

  /**
   Over any interleaving of handles on an empty database: no committed delta is lost, and an append goes
   through only on a handle whose own events are exactly those committed so far.
   */
  lemma AppendsAreSerial(steps: seq<Step>, w: World, i: nat, event: Event)
    requires Reaches(EMPTY, steps, w)
    ensures SharedIsFold(w) && forall id :: id in w.db.rows ==> RowSound(w, id)
    ensures Enabled(w, Append(i, event)) && Refusal(w.db, w.handles[i], event) == None ==>
      && Own(w.handles[i].events) == Own(w.db.rows[w.handles[i].id].events)
      && Own(Next(w, Append(i, event)).handles[i].events) == Own(w.handles[i].events) + [event]
  {
    RunKeepsSound(EMPTY, steps, w);
    if Enabled(w, Append(i, event)) && Refusal(w.db, w.handles[i], event) == None {
      AcceptedHandleIsCurrent(w, i, event);
      OwnSnoc(w.handles[i].events, StoredEvent(event, false));
    }
  }

  /** Of two handles opened at the same version only the first to append succeeds. */
  lemma SecondWriterIsRefused(db: Database, a: Handle, b: Handle, first: Event, second: Event)
    requires a.id == b.id && a.version == b.version && Refusal(db, a, first) == None
    ensures Refusal(Committed(db, a, first), b, second) == Some(ChangedConcurrently)
    ensures Refusal(Committed(db, a, first), Advanced(db, a, first), second) in {None, Some(DuplicateEvent)}
  {
  }
}
