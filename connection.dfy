/**
 * The client side of the connection (ConnectionManager in communication.ts):
 * how a message that arrives on the socket is screened -- the wrong
 * socket, a manager that is no longer the current one, JSON that does not
 * parse, a timestamp that is not later than the last one -- and what an
 * admitted message does to the manager and to the riders of the race.
 */
module Connections {
  import opened Common
  import opened Riders
  import opened Races
  import opened Messages

  /** An S2CFinishUpdate payload, kept as it arrived; the manager only stores it. */
  datatype FinishUpdate = FinishUpdate(raw: string)

  /** The payload of an S2CBasicMessage, by message type. */
  datatype Payload =
    | ClientChat(fromId: int, chat: string)
    | NameUpdate(entries: seq<NameEntry>)
    | PositionUpdate(clients: seq<PositionUpdateUser>)
    | ImageUpdate(id: int, imageBase64: string)
    | ServerError
    | ConnectionResponse
    | FinishResults(results: FinishUpdate)
    | Unhandled   // a message type the client's switch has no case for

  /** S2CBasicMessage once parsed. */
  datatype BasicMessage = BasicMessage(timeStamp: JsNumber, raceState: RaceStateUpdate, payload: Payload)

  /** What `_onMsgReceived` did with a message. */
  datatype Outcome =
    | StaleSocketClosed          // it came from another socket, which is closed
    | NotCurrentManager          // this manager is no longer the singleton
    | Thrown(error: string)      // the data did not parse
    | Bounced                    // its timestamp is not later than the last, or not finite
    | Dispatched(count: nat)     // handled; _onNetworkUpdateComplete is told `count`
    | Disconnected               // no race or no user provider: socket closed, race dropped

  /** A notifyNewClient call: a rider the user provider does not know, with the image on file for it. */
  datatype NewClient = NewClient(client: PositionUpdateUser, image: Option<string>)

  // ---------------------------------------------------------------------
  // Timestamp screening

  /**
   * The timestamp a message is admitted with: none when it is not later
   * than the last one seen (NaN compares false with everything, and falls
   * to the finiteness test) or when it is not finite.
   */
  function Admitted(lastTimeStamp: real, timeStamp: JsNumber): (r: Option<real>)
    ensures r.Some? <==> timeStamp.Finite? && timeStamp.v > lastTimeStamp
    ensures r.Some? ==> r.value == timeStamp.v
  {
    if JsLessOrEqual(timeStamp, lastTimeStamp) then None
    else if !IsFinite(timeStamp) then None
    else Some(timeStamp.v)
  }

  /** The timestamps admitted, in order, from a stream of messages, the last seen starting at `last`. */
  function AdmittedStamps(last: real, stamps: seq<JsNumber>): seq<real>
    decreases |stamps|
  {
    if stamps == [] then []
    else
      match Admitted(last, stamps[0])
      case Some(t) => [t] + AdmittedStamps(t, stamps[1..])
      case None => AdmittedStamps(last, stamps[1..])
  }

  /** The timestamps a manager accepts strictly increase, all after the one it started from. */
  lemma {:induction false} AdmittedIncrease(last: real, stamps: seq<JsNumber>)
    decreases |stamps|
    ensures forall i :: 0 <= i < |AdmittedStamps(last, stamps)| ==> AdmittedStamps(last, stamps)[i] > last
    ensures forall i, j :: 0 <= i < j < |AdmittedStamps(last, stamps)| ==>
              AdmittedStamps(last, stamps)[i] < AdmittedStamps(last, stamps)[j]
  {
    if stamps != [] {
      match Admitted(last, stamps[0])
      case Some(t) =>
        AdmittedIncrease(t, stamps[1..]);
        var rest := AdmittedStamps(t, stamps[1..]);
        assert AdmittedStamps(last, stamps) == [t] + rest;
        assert forall i :: 1 <= i < |[t] + rest| ==> ([t] + rest)[i] == rest[i - 1];
      case None =>
        AdmittedIncrease(last, stamps[1..]);
    }
  }

  // ---------------------------------------------------------------------
  // The manager's own state

  /** The fields of a ConnectionManager that `_onMsgReceived` reads and writes. */
  datatype ManagerState = ManagerState(
    lastWebsocket: Option<nat>,
    raceState: Option<RaceState>,
    hasUserProvider: bool,
    lastServerRaceState: Option<RaceStateUpdate>,
    raceResults: Option<FinishUpdate>,
    lastTimeStamp: real,
    imageSources: map<int, string>,
    networkUpdates: nat)

  datatype Reception = Reception(state: ManagerState, outcome: Outcome)

  /** What the manager's own fields become when an admitted payload is dispatched. */
  function PayloadStored(st: ManagerState, payload: Payload): ManagerState
  {
    match payload
    case ImageUpdate(id, image) => st.(imageSources := st.imageSources[id := image])
    case FinishResults(results) => st.(raceResults := Some(results))
    case _ => st
  }

  /**
   * `_onMsgReceived` on the manager's own fields. `event` is the parsed
   * message, or None when JSON.parse throws; `isCurrentManager` says whether
   * this manager is still ConnectionManager._this.
   */
  function Received(st: ManagerState, fromWs: nat, isCurrentManager: bool, event: Option<BasicMessage>): (r: Reception)
    ensures r.outcome.StaleSocketClosed? <==> st.lastWebsocket != Some(fromWs)
    ensures (r.outcome.Dispatched? || r.outcome.Disconnected?)
            <==> st.lastWebsocket == Some(fromWs) && isCurrentManager && event.Some?
                 && Admitted(st.lastTimeStamp, event.value.timeStamp).Some?
    ensures !r.outcome.Dispatched? && !r.outcome.Disconnected? ==> r.state == st
    ensures r.outcome.Dispatched? || r.outcome.Disconnected? ==>
      r.state.lastTimeStamp > st.lastTimeStamp && r.state.lastTimeStamp == event.value.timeStamp.v
      && r.state.lastServerRaceState == Some(event.value.raceState)
      && r.state.lastWebsocket == st.lastWebsocket
    ensures r.outcome.Dispatched? <==>
      (r.outcome.Dispatched? || r.outcome.Disconnected?) && st.raceState.Some? && st.hasUserProvider
    ensures r.outcome.Dispatched? ==>
      r.outcome.count == st.networkUpdates && r.state.networkUpdates == st.networkUpdates + 1
      && r.state.raceState == st.raceState
      && r.state.imageSources == PayloadStored(st, event.value.payload).imageSources
      && r.state.raceResults == PayloadStored(st, event.value.payload).raceResults
    ensures r.outcome.Disconnected? ==>
      r.state.raceState.None? && r.state.networkUpdates == st.networkUpdates
      && r.state.imageSources == st.imageSources && r.state.raceResults == st.raceResults
  {
    if st.lastWebsocket != Some(fromWs) then Reception(st, StaleSocketClosed)
    else if !isCurrentManager then Reception(st, NotCurrentManager)
    else if event.None? then Reception(st, Thrown("Invalid message received"))
    else
      var bm := event.value;
      match Admitted(st.lastTimeStamp, bm.timeStamp)
      case None => Reception(st, Bounced)
      case Some(ts) =>
        var seen := st.(lastTimeStamp := ts, lastServerRaceState := Some(bm.raceState));
        if seen.raceState.Some? && seen.hasUserProvider then
          Reception(PayloadStored(seen, bm.payload).(networkUpdates := st.networkUpdates + 1),
                    Dispatched(st.networkUpdates))
        else
          Reception(seen.(raceState := None), Disconnected)
  }

  /** A message that is not admitted leaves the manager exactly as it was, so dropping it is idempotent. */
  lemma {:induction false} RejectedChangesNothing(st: ManagerState, fromWs: nat, isCurrentManager: bool, event: Option<BasicMessage>)
    requires !Received(st, fromWs, isCurrentManager, event).outcome.Dispatched?
    requires !Received(st, fromWs, isCurrentManager, event).outcome.Disconnected?
    ensures Received(Received(st, fromWs, isCurrentManager, event).state, fromWs, isCurrentManager, event)
            == Received(st, fromWs, isCurrentManager, event)
  {
  }

  /** The same message delivered twice is bounced the second time: it cannot be applied twice. */
  lemma {:induction false} ReplayBounced(st: ManagerState, fromWs: nat, event: Option<BasicMessage>)
    requires Received(st, fromWs, true, event).outcome.Dispatched?
    ensures Received(Received(st, fromWs, true, event).state, fromWs, true, event).outcome == Bounced
  {
  }

  // ---------------------------------------------------------------------
  // Handicap raises from a name update

  /** A row of a name update raises the local rider: its id, a finite handicap, above the current one. */
  predicate Raises(e: NameEntry, localId: int, handicap: real)
  {
    e.id == localId && e.handicap.Finite? && e.handicap.v > handicap
  }

  /** The local rider's handicap after the rows of a name update, taken in order. */
  function BumpedHandicap(handicap: real, localId: int, entries: seq<NameEntry>): real
  {
    if entries == [] then handicap
    else
      var h := BumpedHandicap(handicap, localId, entries[..|entries| - 1]);
      if Raises(entries[|entries| - 1], localId, h) then entries[|entries| - 1].handicap.v else h
  }

  /** The values the local rider's handicap is raised to, in order: one _onLocalHandicapChange call each. */
  function HandicapRaises(handicap: real, localId: int, entries: seq<NameEntry>): seq<real>
  {
    if entries == [] then []
    else
      var h := BumpedHandicap(handicap, localId, entries[..|entries| - 1]);
      HandicapRaises(handicap, localId, entries[..|entries| - 1])
      + if Raises(entries[|entries| - 1], localId, h) then [entries[|entries| - 1].handicap.v] else []
  }

  /**
   * The server can only raise the local handicap: the result is the
   * larger of the starting handicap and every finite handicap the update
   * carries for the rider, and it is one of those values.
   */
  lemma {:induction false} BumpedHandicapIsMax(handicap: real, localId: int, entries: seq<NameEntry>)
    ensures BumpedHandicap(handicap, localId, entries) >= handicap
    ensures forall i :: 0 <= i < |entries| && entries[i].id == localId && entries[i].handicap.Finite? ==>
              BumpedHandicap(handicap, localId, entries) >= entries[i].handicap.v
    ensures BumpedHandicap(handicap, localId, entries) == handicap
            || exists i :: 0 <= i < |entries| && entries[i].id == localId && entries[i].handicap.Finite?
                           && BumpedHandicap(handicap, localId, entries) == entries[i].handicap.v
  {
    if entries != [] {
      var prefix := entries[..|entries| - 1];
      BumpedHandicapIsMax(handicap, localId, prefix);
      assert forall i :: 0 <= i < |prefix| ==> prefix[i] == entries[i];
    }
  }

  /** Every raise lies above the starting handicap and at most the final one, which is the last raise. */
  lemma {:induction false} RaisesBounded(handicap: real, localId: int, entries: seq<NameEntry>)
    ensures var r := HandicapRaises(handicap, localId, entries);
      (forall i :: 0 <= i < |r| ==> handicap < r[i] <= BumpedHandicap(handicap, localId, entries))
      && (r == [] <==> BumpedHandicap(handicap, localId, entries) == handicap)
      && (r != [] ==> r[|r| - 1] == BumpedHandicap(handicap, localId, entries))
  {
    if entries != [] {
      var prefix := entries[..|entries| - 1];
      RaisesBounded(handicap, localId, prefix);
      var h := BumpedHandicap(handicap, localId, prefix);
      var rp := HandicapRaises(handicap, localId, prefix);
      var last := entries[|entries| - 1];
      if Raises(last, localId, h) {
        assert HandicapRaises(handicap, localId, entries) == rp + [last.handicap.v];
        assert BumpedHandicap(handicap, localId, entries) == last.handicap.v > h;
      } else {
        assert HandicapRaises(handicap, localId, entries) == rp;
        assert BumpedHandicap(handicap, localId, entries) == h;
      }
    }
  }

  /** Each raise goes strictly higher than the one before. */
  lemma {:induction false} RaisesIncrease(handicap: real, localId: int, entries: seq<NameEntry>)
    ensures var r := HandicapRaises(handicap, localId, entries);
      forall i, j :: 0 <= i < j < |r| ==> r[i] < r[j]
  {
    if entries != [] {
      var prefix := entries[..|entries| - 1];
      RaisesIncrease(handicap, localId, prefix);
      RaisesBounded(handicap, localId, prefix);
      var h := BumpedHandicap(handicap, localId, prefix);
      var rp := HandicapRaises(handicap, localId, prefix);
      var last := entries[|entries| - 1];
      if Raises(last, localId, h) {
        assert HandicapRaises(handicap, localId, entries) == rp + [last.handicap.v];
      } else {
        assert HandicapRaises(handicap, localId, entries) == rp;
      }
    }
  }

  /** A rider's state once the name update's raises are applied, when it is the local rider. */
  function Bumped(st: UserState, isLocal: bool, localId: int, entries: seq<NameEntry>): UserState
  {
    if isLocal then st.(handicap := BumpedHandicap(st.handicap, localId, entries)) else st
  }

  // ---------------------------------------------------------------------
  // Riders the user provider does not know

  /** `imageSources.get(id) || null`: no image, and an empty one, both become null. */
  function ImageFor(images: map<int, string>, id: int): (r: Option<string>)
    ensures r.Some? <==> id in images && images[id] != ""
    ensures r.Some? ==> r.value == images[id]
  {
    if id in images && images[id] != "" then Some(images[id]) else None
  }

  /** The notifyNewClient calls of a position update: one per row whose id no rider has, in order. */
  function NewClientsFor(clients: seq<PositionUpdateUser>, ids: seq<int>, images: map<int, string>): (r: seq<NewClient>)
    ensures forall n :: n in r ==> n.client in clients && n.client.id !in ids && n.image == ImageFor(images, n.client.id)
    ensures forall c :: c in clients && c.id !in ids ==> NewClient(c, ImageFor(images, c.id)) in r
  {
    if clients == [] then []
    else
      var c := clients[|clients| - 1];
      var prefix := clients[..|clients| - 1];
      assert clients == prefix + [c];
      NewClientsFor(prefix, ids, images) + if c.id !in ids then [NewClient(c, ImageFor(images, c.id))] else []
  }

  // ---------------------------------------------------------------------
  // The manager

  class ConnectionManager {
    var lastWebsocket: Option<nat>
    var raceState: Option<RaceState>
    var hasUserProvider: bool
    var gameId: string
    var lastServerRaceState: Option<RaceStateUpdate>
    var raceResults: Option<FinishUpdate>
    var lastTimeStamp: real
    var imageSources: map<int, string>
    var networkUpdates: nat

    function State(): ManagerState
      reads this
    {
      ManagerState(lastWebsocket, raceState, hasUserProvider, lastServerRaceState, raceResults,
                   lastTimeStamp, imageSources, networkUpdates)
    }

    /** A manager before it connects: no socket, no race, timestamps from 0. */
    constructor()
      ensures State() == ManagerState(None, None, false, None, None, 0.0, map[], 0) && gameId == ""
    {
      lastWebsocket, raceState, hasUserProvider, gameId := None, None, false, "";
      lastServerRaceState, raceResults, lastTimeStamp, imageSources, networkUpdates := None, None, 0.0, map[], 0;
    }

    /** What a completed connect records: the socket, the user provider, the race and its game. */
    method Connected(ws: nat, race: RaceState, forGame: string)
      modifies this
      ensures State() == old(State()).(lastWebsocket := Some(ws), raceState := Some(race), hasUserProvider := true)
      ensures gameId == forGame
    {
      lastWebsocket := Some(ws);
      hasUserProvider := true;
      raceState := Some(race);
      gameId := forGame;
    }

    /**
     * _onMsgReceived. `users` is the user provider's roster at the time the
     * message arrives. Besides the manager's fields (Received), an admitted
     * message's payload is delivered to the riders (Delivered); a message
     * that is not dispatched leaves the riders alone.
     */
    method OnMsgReceived(fromWs: nat, isCurrentManager: bool, event: Option<BasicMessage>, tmNow: int, users: seq<User>)
      returns (outcome: Outcome, handicapChanges: seq<real>, newClients: seq<NewClient>)
      requires Roster(users)
      modifies this, users, Recs(users)
      ensures State() == Received(old(State()), fromWs, isCurrentManager, event).state
      ensures outcome == Received(old(State()), fromWs, isCurrentManager, event).outcome
      ensures gameId == old(gameId)
      ensures outcome.Dispatched? ==>
        Delivered(old(SnapshotOf(users)), tmNow, event.value.payload, old(imageSources), users, handicapChanges, newClients)
      ensures !outcome.Dispatched? ==> Untouched(old(SnapshotOf(users)), users, handicapChanges, newClients)
    {
      var r := Received(State(), fromWs, isCurrentManager, event);
      ghost var before := SnapshotOf(users);
      var race, images := raceState, imageSources;
      Store(r.state);
      assert SnapshotOf(users) == before;
      outcome := r.outcome;
      handicapChanges, newClients := [], [];
      if r.outcome.Dispatched? {
        handicapChanges, newClients := Deliver(race.value, tmNow, event.value.payload, users, images, before);
      }
    }

    /** Writes the manager's fields. */
    method Store(st: ManagerState)
      modifies this
      ensures State() == st && gameId == old(gameId)
    {
      lastWebsocket, raceState, hasUserProvider, lastServerRaceState := st.lastWebsocket, st.raceState,
        st.hasUserProvider, st.lastServerRaceState;
      raceResults, lastTimeStamp, imageSources, networkUpdates := st.raceResults, st.lastTimeStamp,
        st.imageSources, st.networkUpdates;
    }

    /**
     * The switch on the message type, as far as the riders are concerned:
     * a name update and a position update go to their handlers; chat and
     * images touch no rider state of the model, and the other types only
     * log or are stored by the manager.
     */
    static method Deliver(race: RaceState, tmNow: int, payload: Payload, users: seq<User>, images: map<int, string>,
                          ghost before: Snapshot)
      returns (handicapChanges: seq<real>, newClients: seq<NewClient>)
      requires Roster(users) && before == SnapshotOf(users)
      modifies users, Recs(users)
      ensures Delivered(before, tmNow, payload, images, users, handicapChanges, newClients)
    {
      handicapChanges, newClients := [], [];
      match payload
      case NameUpdate(entries) =>
        handicapChanges := HandleNameUpdate(race, tmNow, entries, users, before);
      case PositionUpdate(clients) =>
        newClients := HandlePositionUpdate(race, tmNow, clients, users, images, before);
      case _ =>
    }

    /**
     * The S2CNameUpdate case: raise the local rider's handicap row by row,
     * then let the race absorb every row, which may set it again.
     */
    static method HandleNameUpdate(race: RaceState, tmNow: int, entries: seq<NameEntry>, users: seq<User>,
                                   ghost before: Snapshot)
      returns (handicapChanges: seq<real>)
      requires Roster(users) && before == SnapshotOf(users)
      modifies users
      ensures Named(before, tmNow, entries, users, handicapChanges, [])
    {
      var local := LocalUser(users);
      handicapChanges := BumpRoster(local, entries, users, before);
      AbsorbBumped(race, tmNow, entries, users, before);
    }

    /** The raises of a name update, applied to the local rider of the roster if there is one. */
    static method BumpRoster(local: Option<User>, entries: seq<NameEntry>, users: seq<User>, ghost before: Snapshot)
      returns (handicapChanges: seq<real>)
      requires Roster(users) && before == SnapshotOf(users) && local == LocalUser(users)
      modifies users
      ensures Raised(before, entries, handicapChanges) && RecorderStates(users) == before.recorders && Ids(users) == before.ids
      ensures forall k :: 0 <= k < |users| ==> users[k].State() == BumpedAt(before, k, entries)
    {
      if local.Some? {
        handicapChanges := BumpRider(local.value, entries, users, before);
      } else {
        handicapChanges := [];
        NoLocalBumped(before, entries);
      }
    }

    /** The raises applied to the local rider, rider `at` of the roster. */
    static method BumpRider(local: User, entries: seq<NameEntry>, users: seq<User>, ghost before: Snapshot)
      returns (handicapChanges: seq<real>)
      requires Roster(users) && before == SnapshotOf(users) && LocalUser(users) == Some(local)
      modifies local
      ensures Raised(before, entries, handicapChanges) && RecorderStates(users) == before.recorders && Ids(users) == before.ids
      ensures forall k :: 0 <= k < |users| ==> users[k].State() == BumpedAt(before, k, entries)
    {
      ghost var at := LocalIndex(local, users, before);
      label start:
      handicapChanges := BumpLocalHandicap(local, entries);
      RosterApart(users);
      forall k | 0 <= k < |users|
        ensures users[k].State() == BumpedAt(before, k, entries)
      {
        LocalUnique(before.states, at, k);
        if k != at {
          assert users[k] != users[at];
        }
      }
      forall k | 0 <= k < |before.ids| && LocalAt(before.states, k)
        ensures handicapChanges == HandicapRaises(before.states[k].handicap, before.ids[k], entries)
      {
        LocalUnique(before.states, at, k);
      }
      RecordersKept@start(users);
    }

    /** absorbNameUpdate on a roster whose local rider has taken the raises. */
    static method AbsorbBumped(race: RaceState, tmNow: int, entries: seq<NameEntry>, users: seq<User>, ghost before: Snapshot)
      requires Roster(users) && Fits(before, users) && before.ids == Ids(users)
      requires RecorderStates(users) == before.recorders
      requires forall k :: 0 <= k < |users| ==> users[k].State() == BumpedAt(before, k, entries)
      modifies users
      ensures RecorderStates(users) == before.recorders
      ensures forall k :: 0 <= k < |users| ==>
        users[k].State() == NamesAbsorbed(BumpedAt(before, k, entries), tmNow, NameRowsFor(before.ids, k, entries))
    {
      label start:
      race.AbsorbNameUpdate(tmNow, entries, users);
      RecordersKept@start(users);
    }

    /** The loop over the rows of a name update that raises the local rider's handicap. */
    static method BumpLocalHandicap(local: User, entries: seq<NameEntry>) returns (raises: seq<real>)
      modifies local
      ensures local.State() == old(local.State()).(handicap := BumpedHandicap(old(local.handicap), local.rec.id, entries))
      ensures raises == HandicapRaises(old(local.handicap), local.rec.id, entries)
    {
      ghost var h0 := local.handicap;
      raises := [];
      var c := 0;
      while c < |entries|
        invariant 0 <= c <= |entries|
        invariant local.State() == old(local.State()).(handicap := BumpedHandicap(h0, local.rec.id, entries[..c]))
        invariant raises == HandicapRaises(h0, local.rec.id, entries[..c])
      {
        var e := entries[c];
        assert entries[..c + 1][..c] == entries[..c];
        if e.id == local.rec.id && IsFinite(e.handicap) && e.handicap.v > local.handicap {
          local.SetHandicap(e.handicap.v, ServerRehandicap);
          raises := raises + [e.handicap.v];
        }
        c := c + 1;
      }
      assert entries[..|entries|] == entries;
    }

    /** The S2CPositionUpdate case: report the unknown riders, then let the race absorb every row. */
    static method HandlePositionUpdate(race: RaceState, tmNow: int, clients: seq<PositionUpdateUser>, users: seq<User>,
                                       images: map<int, string>, ghost before: Snapshot)
      returns (newClients: seq<NewClient>)
      requires Roster(users) && before == SnapshotOf(users)
      modifies users, Recs(users)
      ensures Positioned(before, tmNow, clients, images, users, [], newClients)
    {
      newClients := NewClientsFor(clients, Ids(users), images);
      race.AbsorbPositionUpdate(tmNow, clients, users);
    }
  }

  // ---------------------------------------------------------------------
  // What a dispatched payload does to the riders

  /** The recorders' states, and so the riders' ids, depend on the recorders alone. */
  twostate lemma {:induction false} RecordersKept(users: seq<User>)
    requires forall k :: 0 <= k < |users| ==> unchanged(users[k].rec)
    ensures RecorderStates(users) == old(RecorderStates(users)) && Ids(users) == old(Ids(users))
  {
    if users != [] {
      RecordersKept(users[..|users| - 1]);
    }
  }

  /** The roster as a message finds it: the riders' states, their recorders' states and their ids. */
  datatype Snapshot = Snapshot(states: seq<UserState>, recorders: seq<RecorderState>, ids: seq<int>)

  function SnapshotOf(users: seq<User>): (r: Snapshot)
    reads users, Recs(users)
    ensures Fits(r, users)
  {
    Snapshot(States(users), RecorderStates(users), Ids(users))
  }

  /** Rider k is the local rider: the first with the Local flag, the one LocalUser picks. */
  predicate LocalAt(states: seq<UserState>, k: nat)
  {
    k < |states| && HasFlag(states[k].typeFlags, Local)
    && forall j :: 0 <= j < k ==> !HasFlag(states[j].typeFlags, Local)
  }

  predicate Fits(before: Snapshot, users: seq<User>)
  {
    |before.states| == |users| && |before.recorders| == |users| && |before.ids| == |users|
  }

  /** There is one local rider at most. */
  lemma {:induction false} LocalUnique(states: seq<UserState>, at: nat, k: nat)
    requires LocalAt(states, at)
    ensures LocalAt(states, k) <==> k == at
  {
  }

  /** Rider k's state once the raises are applied, which only the local rider takes. */
  function BumpedAt(before: Snapshot, k: nat, entries: seq<NameEntry>): UserState
    requires k < |before.states| && k < |before.ids|
  {
    Bumped(before.states[k], LocalAt(before.states, k), before.ids[k], entries)
  }

  /** The _onLocalHandicapChange calls: the raises of the local rider, none without one. */
  /** The local rider getLocalUser finds sits at a LocalAt index of the snapshot. */
  lemma LocalIndex(local: User, users: seq<User>, before: Snapshot) returns (at: nat)
    requires before == SnapshotOf(users) && LocalUser(users) == Some(local)
    ensures at < |users| && users[at] == local && LocalAt(before.states, at)
  {
    at :| 0 <= at < |users| && users[at] == local && HasFlag(users[at].typeFlags, Local)
          && forall j :: 0 <= j < at ==> !HasFlag(users[j].typeFlags, Local);
  }

  /** Without a local rider, a name update bumps no handicap and raises nothing. */
  lemma NoLocalBumped(before: Snapshot, entries: seq<NameEntry>)
    requires |before.ids| == |before.states|
    requires forall k :: 0 <= k < |before.states| ==> !HasFlag(before.states[k].typeFlags, Local)
    ensures forall k :: 0 <= k < |before.states| ==> BumpedAt(before, k, entries) == before.states[k]
    ensures Raised(before, entries, [])
  {
  }

  predicate Raised(before: Snapshot, entries: seq<NameEntry>, handicapChanges: seq<real>)
  {
    ((forall k :: 0 <= k < |before.states| ==> !HasFlag(before.states[k].typeFlags, Local)) ==> handicapChanges == [])
    && forall k :: 0 <= k < |before.ids| && LocalAt(before.states, k) ==>
         handicapChanges == HandicapRaises(before.states[k].handicap, before.ids[k], entries)
  }

  /** Nothing reported and no rider or recorder changed. */
  predicate Untouched(before: Snapshot, users: seq<User>, handicapChanges: seq<real>, newClients: seq<NewClient>)
    reads users, Recs(users)
  {
    handicapChanges == [] && newClients == []
    && States(users) == before.states && RecorderStates(users) == before.recorders
  }

  /** The riders after a dispatched payload, by message type. */
  predicate Delivered(before: Snapshot, tmNow: int, payload: Payload, images: map<int, string>, users: seq<User>,
                      handicapChanges: seq<real>, newClients: seq<NewClient>)
    reads users, Recs(users)
  {
    match payload
    case NameUpdate(entries) => Named(before, tmNow, entries, users, handicapChanges, newClients)
    case PositionUpdate(clients) => Positioned(before, tmNow, clients, images, users, handicapChanges, newClients)
    case _ => Untouched(before, users, handicapChanges, newClients)
  }

  /**
   * The riders after a name update: each has absorbed the rows meant for it
   * (absorbNameUpdate) on top of the raises, which only the local rider
   * takes; the recorders are untouched.
   */
  predicate Named(before: Snapshot, tmNow: int, entries: seq<NameEntry>, users: seq<User>,
                  handicapChanges: seq<real>, newClients: seq<NewClient>)
    reads users, Recs(users)
  {
    Fits(before, users)
    && newClients == [] && Raised(before, entries, handicapChanges)
    && RecorderStates(users) == before.recorders
    && forall k :: 0 <= k < |users| ==>
         users[k].State() == NamesAbsorbed(BumpedAt(before, k, entries), tmNow, NameRowsFor(before.ids, k, entries))
  }

  /** The riders after a position update: each has absorbed the rows meant for it (absorbPositionUpdate). */
  predicate Positioned(before: Snapshot, tmNow: int, clients: seq<PositionUpdateUser>, images: map<int, string>,
                       users: seq<User>, handicapChanges: seq<real>, newClients: seq<NewClient>)
    reads users, Recs(users)
  {
    Fits(before, users)
    && handicapChanges == [] && newClients == NewClientsFor(clients, before.ids, images)
    && forall k :: 0 <= k < |users| ==>
         var mine := RowsFor(before.ids, k, clients);
         users[k].State() == PositionsAbsorbed(before.states[k], tmNow, mine)
         && users[k].rec.State()
            == RecordersAbsorbed(before.recorders[k], HasFlag(before.states[k].typeFlags, Local), tmNow, mine)
  }
}
