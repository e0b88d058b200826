/**
 * RaceState.ts: one race on one course. Each tick advances every rider on
 * the roster and remembers the last time a human was still riding; the
 * finish predicates compare positions with the course length; server
 * updates are routed to the rider with the matching id.
 *
 * The UserProvider is an interface; the model passes the roster it returns
 * from getUsers(tmNow) as a parameter, and getUser(id) is the first rider
 * on that roster with the id, as ServerUserProvider.getUser finds it.
 */
module Races {
  import opened Common
  import opened RideMaps
  import opened Riders

  /**
   * A roster as the providers keep it: distinct riders, each with its own
   * data recorder and draftee cycle. It is stated rider by rider as the
   * list grows; RosterApart gives it pair by pair.
   */
  predicate Roster(users: seq<User>)
  {
    users == [] || (Roster(users[..|users| - 1]) && Newcomer(users[..|users| - 1], users[|users| - 1]))
  }

  /** u, its recorder and its draftee cycle are none of the riders', recorders' or cycles of `users`. */
  predicate Newcomer(users: seq<User>, u: User)
  {
    forall i :: 0 <= i < |users| ==> users[i] != u && users[i].rec != u.rec && users[i].draft != u.draft
  }

  /** Riders, recorders and draftee cycles distinct pair by pair. */
  predicate Apart(users: seq<User>)
  {
    forall i, j :: 0 <= i < |users| && 0 <= j < |users| && i != j ==>
      users[i] != users[j] && users[i].rec != users[j].rec && users[i].draft != users[j].draft
  }

  /** A roster is exactly a list whose riders, recorders and cycles are pairwise apart. */
  lemma {:induction false} RosterApart(users: seq<User>)
    ensures Roster(users) <==> Apart(users)
    decreases |users|
  {
    if users != [] {
      var n := |users| - 1;
      var front := users[..n];
      RosterApart(front);
      assert forall k :: 0 <= k < n ==> front[k] == users[k];
      if Apart(users) {
        assert Apart(front);
        assert Newcomer(front, users[n]);
      }
      if Roster(users) {
        assert Apart(front) && Newcomer(front, users[n]);
        forall i, j | 0 <= i < |users| && 0 <= j < |users| && i != j
          ensures users[i] != users[j] && users[i].rec != users[j].rec && users[i].draft != users[j].draft
        {
          if i < n && j < n {
            assert front[i] == users[i] && front[j] == users[j];
          } else if i < n {
            assert front[i] == users[i];
          } else {
            assert front[j] == users[j];
          }
        }
      }
    }
  }

  /** Every rider can be ticked on this course. */
  predicate Rideable(users: seq<User>, course: RideMap)
    reads users
  {
    forall k :: 0 <= k < |users| ==>
      users[k].massKg > 0.0 && (course.transform == HandicapNormalised ==> users[k].handicap != 0.0)
  }

  predicate Human(u: User)
    reads u
  {
    !HasFlag(u.typeFlags, Ai)
  }

  /** Some human among the first upTo riders of the roster has no finish time. */
  predicate HumanStillRiding(users: seq<User>, upTo: nat)
    requires upTo <= |users|
    reads users, Recs(users)
  {
    upTo > 0 && (HumanStillRiding(users, upTo - 1) || (Human(users[upTo - 1]) && !users[upTo - 1].rec.IsFinished()))
  }

  /** isAllHumansFinished: every human is at or past the end of the course (by distance, not finish time). */
  predicate AllHumansFinished(users: seq<User>, length: real)
    reads users
  {
    users == [] || (AllHumansFinished(users[..|users| - 1], length)
                    && (Human(users[|users| - 1]) ==> users[|users| - 1].position >= length))
  }

  /** isAllRacersFinished: every rider, AI included, is at or past the end. */
  predicate AllRacersFinished(users: seq<User>, length: real)
    reads users
  {
    users == [] || (AllRacersFinished(users[..|users| - 1], length) && users[|users| - 1].position >= length)
  }

  /** isAnyHumansFinished: some human is at or past the end. */
  predicate AnyHumansFinished(users: seq<User>, length: real)
    reads users
  {
    exists k :: 0 <= k < |users| && Human(users[k]) && users[k].position >= length
  }

  /**
   * The finish tests rider by rider: all humans finished is every human at
   * or past the end, all racers finished every rider; the latter implies the
   * former, on an empty roster both hold and no human has finished, and when
   * there is a human and all of them finished, some human has.
   */
  lemma {:induction false} FinishPredicates(users: seq<User>, length: real)
    ensures AllHumansFinished(users, length) <==>
            forall k :: 0 <= k < |users| && Human(users[k]) ==> users[k].position >= length
    ensures AllRacersFinished(users, length) <==> forall k :: 0 <= k < |users| ==> users[k].position >= length
    ensures AllRacersFinished(users, length) ==> AllHumansFinished(users, length)
    ensures users == [] ==> AllRacersFinished(users, length) && !AnyHumansFinished(users, length)
    ensures AllHumansFinished(users, length) && (exists k :: 0 <= k < |users| && Human(users[k]))
            ==> AnyHumansFinished(users, length)
  {
    if users != [] {
      var n := |users| - 1;
      var front := users[..n];
      FinishPredicates(front, length);
      assert forall k :: 0 <= k < n ==> front[k] == users[k];
      if AllHumansFinished(users, length) && (exists k :: 0 <= k < |users| && Human(users[k])) {
        if !Human(users[n]) {
          var k :| 0 <= k < |users| && Human(users[k]);
          assert front[k] == users[k];
        }
      }
    }
  }

  /** What one physics tick guarantees a rider, in terms of its state before and after. */
  predicate Ticked(before: UserState, after: UserState, tmNow: int, length: real)
  {
    after.lastT == Seconds(tmNow)
    && after.typeFlags == before.typeFlags && after.handicap == before.handicap
    && (TickAdmitted(Seconds(tmNow) - before.lastT) ==> after.speed >= 0.5 && after.position <= length)
    && (!TickAdmitted(Seconds(tmNow) - before.lastT) ==> after == before.(lastT := Seconds(tmNow)))
  }

  /** The riders' states, in roster order. */
  function States(users: seq<User>): (r: seq<UserState>)
    reads users
    ensures |r| == |users| && forall k :: 0 <= k < |users| ==> r[k] == users[k].State()
  {
    if users == [] then [] else States(users[..|users| - 1]) + [users[|users| - 1].State()]
  }

  /** The riders' data recorders' states, in roster order. */
  function RecorderStates(users: seq<User>): (r: seq<RecorderState>)
    reads Recs(users)
    ensures |r| == |users| && forall k :: 0 <= k < |users| ==> r[k] == users[k].rec.State()
  {
    if users == [] then [] else RecorderStates(users[..|users| - 1]) + [users[|users| - 1].rec.State()]
  }

  /** A data recorder as its rider's tick leaves it: the finish time is tmNow when the rider crossed the line. */
  function CrossedAt(r: RecorderState, before: UserState, after: UserState, tmNow: int, length: real): RecorderState
  {
    r.(tmFinish := FinishAfter(r.tmFinish, before.position, after.position, length, tmNow))
  }

  /** Every rider went through one physics tick. */
  predicate AllTicked(before: seq<UserState>, after: seq<UserState>, tmNow: int, length: real)
  {
    |before| == |after| && forall k :: 0 <= k < |before| ==> Ticked(before[k], after[k], tmNow, length)
  }

  /** What the draft search of another rider reads of a rider, from its state. */
  function StateView(st: UserState): RiderView
  {
    RiderView(st.position, st.speed)
  }

  /**
   * The roster as rider i's physics tick sees it: the riders before it in
   * roster order have already ticked, the others not yet.
   */
  function TurnViews(before: seq<UserState>, after: seq<UserState>, i: nat): (r: seq<RiderView>)
    requires |before| == |after|
    ensures |r| == |before|
    ensures forall k :: 0 <= k < |r| ==> r[k] == StateView(if k < i then after[k] else before[k])
  {
    seq(|before|, k requires 0 <= k < |before| => StateView(if k < i then after[k] else before[k]))
  }

  /**
   * One physics tick, from state `before` to state `after`: physicsTick
   * with the last power reading `power`, against the riders as `views`
   * shows them, behind the leader the search picks there, whose draftee
   * count was `count`.
   */
  ghost predicate TickedAs(before: UserState, after: UserState, tmNow: int, course: RideMap, power: real,
                           views: seq<RiderView>, users: seq<User>, count: nat, slopeFactor: real -> real, massKg: real)
  {
    massKg > 0.0 && (course.transform == HandicapNormalised ==> before.handicap != 0.0)
    && (forall s :: slopeFactor(s) >= 0.0) && |views| == |users|
    && after == AfterTick(before, tmNow, course, power, views,
                          LeaderOf(Nearest(before.position, views), users), count, slopeFactor, massKg)
  }

  /** Rider k's turn of tick: one physics tick against the roster as TurnViews shows it. */
  ghost predicate TookTurn(users: seq<User>, before: seq<UserState>, after: seq<UserState>, powers: seq<real>,
                           k: nat, count: nat, tmNow: int, course: RideMap, slopeFactor: real -> real)
    requires |before| == |users| && |after| == |users| && |powers| == |users| && k < |users|
  {
    TickedAs(before[k], after[k], tmNow, course, powers[k], TurnViews(before, after, k), users, count, slopeFactor,
             users[k].massKg)
  }

  /** The first n riders took their turns, with the leaders' draftee counts `counts`. */
  ghost predicate TurnsUpTo(users: seq<User>, before: seq<UserState>, after: seq<UserState>, powers: seq<real>,
                            counts: seq<nat>, n: nat, tmNow: int, course: RideMap, slopeFactor: real -> real)
  {
    |before| == |users| && |after| == |users| && |powers| == |users| && |counts| == n && n <= |users|
    && forall k :: 0 <= k < n ==> TookTurn(users, before, after, powers, k, counts[k], tmNow, course, slopeFactor)
  }

  /**
   * tick's loop over the roster: one physics tick per rider, in roster
   * order, each against the riders as the earlier ticks left them.
   */
  ghost predicate TickedInOrder(users: seq<User>, before: seq<UserState>, after: seq<UserState>, powers: seq<real>,
                                tmNow: int, course: RideMap, slopeFactor: real -> real)
  {
    exists counts: seq<nat> :: TurnsUpTo(users, before, after, powers, counts, |users|, tmNow, course, slopeFactor)
  }

  /** Ticking in order is in particular one physics tick per rider. */
  lemma {:induction false} InOrderTicked(users: seq<User>, before: seq<UserState>, after: seq<UserState>, powers: seq<real>,
                      tmNow: int, course: RideMap, slopeFactor: real -> real)
    requires TickedInOrder(users, before, after, powers, tmNow, course, slopeFactor)
    ensures AllTicked(before, after, tmNow, course.length)
  {
    var counts :| TurnsUpTo(users, before, after, powers, counts, |users|, tmNow, course, slopeFactor);
    forall k | 0 <= k < |before|
      ensures Ticked(before[k], after[k], tmNow, course.length)
    {
      assert TookTurn(users, before, after, powers, k, counts[k], tmNow, course, slopeFactor);
    }
  }

  /** Rider i's tick, against the roster as the earlier ticks left it, extends the turns taken by one. */
  lemma {:induction false} TurnStep(users: seq<User>, before: seq<UserState>, cur: seq<UserState>, powers: seq<real>, counts: seq<nat>,
                 i: nat, x: UserState, count: nat, tmNow: int, course: RideMap, slopeFactor: real -> real)
    requires TurnsUpTo(users, before, cur, powers, counts, i, tmNow, course, slopeFactor) && i < |users|
    requires TickedAs(before[i], x, tmNow, course, powers[i], TurnViews(before, cur, i), users, count, slopeFactor,
                      users[i].massKg)
    ensures TurnsUpTo(users, before, cur[i := x], powers, counts + [count], i + 1, tmNow, course, slopeFactor)
  {
    var next := cur[i := x];
    forall k | 0 <= k < i
      ensures TookTurn(users, before, next, powers, k, (counts + [count])[k], tmNow, course, slopeFactor)
    {
      assert TurnViews(before, next, k) == TurnViews(before, cur, k);
      assert TookTurn(users, before, cur, powers, k, counts[k], tmNow, course, slopeFactor);
    }
    assert TurnViews(before, next, i) == TurnViews(before, cur, i);
  }

  /** The riders' last power readings, in roster order. */
  function Powers(users: seq<User>): (r: seq<real>)
    reads Recs(users)
    ensures |r| == |users| && forall k :: 0 <= k < |users| ==> r[k] == users[k].rec.lastPower
  {
    if users == [] then [] else Powers(users[..|users| - 1]) + [users[|users| - 1].rec.lastPower]
  }

  /** getLocalUser: the first rider carrying the Local flag, if any. */
  function LocalUser(users: seq<User>): (r: Option<User>)
    reads users
    ensures r.None? <==> forall k :: 0 <= k < |users| ==> !HasFlag(users[k].typeFlags, Local)
    ensures r.Some? ==> exists k :: 0 <= k < |users| && users[k] == r.value && HasFlag(users[k].typeFlags, Local)
                                    && forall j :: 0 <= j < k ==> !HasFlag(users[j].typeFlags, Local)
  {
    if users == [] then None
    else if HasFlag(users[0].typeFlags, Local) then Some(users[0])
    else
      var r := LocalUser(users[1..]);
      assert forall k :: 1 <= k < |users| ==> users[1..][k - 1] == users[k];
      r
  }

  /** Under the source's assertion that exactly one rider is local, getLocalUser returns that rider. */
  lemma {:induction false} TheLocalUser(users: seq<User>, k: nat)
    requires k < |users| && HasFlag(users[k].typeFlags, Local)
    requires forall j :: 0 <= j < |users| && HasFlag(users[j].typeFlags, Local) ==> j == k
    ensures LocalUser(users) == Some(users[k])
  {
  }

  /** The data recorders of a roster, rider by rider. */
  function Recs(users: seq<User>): (r: seq<DataRecorder>)
    ensures |r| == |users| && forall k :: 0 <= k < |users| ==> r[k] == users[k].rec
  {
    if users == [] then [] else Recs(users[..|users| - 1]) + [users[|users| - 1].rec]
  }

  /** The draftee cycles of a roster, rider by rider. */
  function Drafts(users: seq<User>): (r: seq<DraftCycle>)
    ensures |r| == |users| && forall k :: 0 <= k < |users| ==> r[k] == users[k].draft
  {
    if users == [] then [] else Drafts(users[..|users| - 1]) + [users[|users| - 1].draft]
  }

  /** The rider ids of a roster. */
  function Ids(users: seq<User>): (r: seq<int>)
    reads Recs(users)
    ensures |r| == |users| && forall k :: 0 <= k < |users| ==> r[k] == users[k].rec.id
  {
    if users == [] then [] else Ids(users[..|users| - 1]) + [users[|users| - 1].rec.id]
  }

  /** The rider at k is the one getUser finds for its id: no earlier rider has the same id. */
  predicate FirstWithId(ids: seq<int>, k: nat)
    requires k < |ids|
  {
    forall j :: 0 <= j < k ==> ids[j] != ids[k]
  }

  /** One row of an S2CNameUpdate: the four parallel arrays read at one index. */
  datatype NameEntry = NameEntry(id: int, name: string, userType: bv32, handicap: JsNumber)

  function NamesFor(entries: seq<NameEntry>, id: int): (r: seq<NameEntry>)
    ensures forall e :: e in r ==> e in entries && e.id == id
  {
    if entries == [] then []
    else NamesFor(entries[..|entries| - 1], id)
         + (if entries[|entries| - 1].id == id then [entries[|entries| - 1]] else [])
  }

  function UpdatesFor(clients: seq<PositionUpdateUser>, id: int): (r: seq<PositionUpdateUser>)
    ensures forall c :: c in r ==> c in clients && c.id == id
  {
    if clients == [] then []
    else UpdatesFor(clients[..|clients| - 1], id)
         + (if clients[|clients| - 1].id == id then [clients[|clients| - 1]] else [])
  }

  /** The position rows the rider at k takes: those with its id, when getUser finds it for that id. */
  function RowsFor(ids: seq<int>, k: nat, clients: seq<PositionUpdateUser>): seq<PositionUpdateUser>
    requires k < |ids|
  {
    if FirstWithId(ids, k) then UpdatesFor(clients, ids[k]) else []
  }

  /** The name rows the rider at k takes. */
  function NameRowsFor(ids: seq<int>, k: nat, entries: seq<NameEntry>): seq<NameEntry>
    requires k < |ids|
  {
    if FirstWithId(ids, k) then NamesFor(entries, ids[k]) else []
  }

  /** A rider's state after absorbing, in order, the name rows meant for it. */
  function NamesAbsorbed(st: UserState, tmNow: int, entries: seq<NameEntry>): UserState
  {
    if entries == [] then st
    else
      var e := entries[|entries| - 1];
      NameAbsorbed(NamesAbsorbed(st, tmNow, entries[..|entries| - 1]), tmNow, e.name, e.userType, e.handicap)
  }

  /** A rider's state after absorbing, in order, the position rows meant for it. */
  function PositionsAbsorbed(st: UserState, tmNow: int, clients: seq<PositionUpdateUser>): (r: UserState)
    ensures clients != [] ==> r.position == clients[|clients| - 1].distance && r.speed == clients[|clients| - 1].speed
    ensures clients == [] ==> r == st
  {
    if clients == [] then st
    else PositionAbsorbed(PositionsAbsorbed(st, tmNow, clients[..|clients| - 1]), tmNow, clients[|clients| - 1])
  }

  /** A recorder's state after the same rows. */
  function RecordersAbsorbed(rs: RecorderState, local: bool, tmNow: int, clients: seq<PositionUpdateUser>): (r: RecorderState)
    ensures r.id == rs.id && r.tmFinish == rs.tmFinish
    ensures clients != [] ==> r.tmLastPacket == tmNow
    ensures clients == [] ==> r == rs
  {
    if clients == [] then rs
    else RecorderAbsorbed(RecordersAbsorbed(rs, local, tmNow, clients[..|clients| - 1]), local, tmNow, clients[|clients| - 1])
  }

  lemma {:induction false} NamesForStep(entries: seq<NameEntry>, i: nat, id: int)
    requires i < |entries|
    ensures NamesFor(entries[..i + 1], id) == NamesFor(entries[..i], id) + (if entries[i].id == id then [entries[i]] else [])
  {
    assert entries[..i + 1][..i] == entries[..i];
  }

  lemma {:induction false} UpdatesForStep(clients: seq<PositionUpdateUser>, i: nat, id: int)
    requires i < |clients|
    ensures UpdatesFor(clients[..i + 1], id) == UpdatesFor(clients[..i], id) + (if clients[i].id == id then [clients[i]] else [])
  {
    assert clients[..i + 1][..i] == clients[..i];
  }

  lemma {:induction false} NamesAbsorbedStep(st: UserState, tmNow: int, entries: seq<NameEntry>, e: NameEntry)
    ensures NamesAbsorbed(st, tmNow, entries + [e]) == NameAbsorbed(NamesAbsorbed(st, tmNow, entries), tmNow, e.name, e.userType, e.handicap)
  {
    assert (entries + [e])[..|entries|] == entries;
  }

  lemma {:induction false} PositionsAbsorbedStep(st: UserState, rs: RecorderState, local: bool, tmNow: int,
                              clients: seq<PositionUpdateUser>, c: PositionUpdateUser)
    ensures PositionsAbsorbed(st, tmNow, clients + [c]) == PositionAbsorbed(PositionsAbsorbed(st, tmNow, clients), tmNow, c)
    ensures RecordersAbsorbed(rs, local, tmNow, clients + [c])
            == RecorderAbsorbed(RecordersAbsorbed(rs, local, tmNow, clients), local, tmNow, c)
  {
    assert (clients + [c])[..|clients|] == clients;
  }

  /** Absorbing row c of an update after rows 0..c-1 is absorbing rows 0..c, for the rider at roster index k. */
  lemma {:induction false} NameRowStep(st: UserState, tmNow: int, ids: seq<int>, k: nat, entries: seq<NameEntry>, c: nat)
    requires k < |ids| && c < |entries|
    ensures var row := if FirstWithId(ids, k) && ids[k] == entries[c].id then [entries[c]] else [];
      NamesAbsorbed(NamesAbsorbed(st, tmNow, NameRowsFor(ids, k, entries[..c])), tmNow, row)
      == NamesAbsorbed(st, tmNow, NameRowsFor(ids, k, entries[..c + 1]))
  {
    NamesForStep(entries, c, ids[k]);
    var row := if FirstWithId(ids, k) && ids[k] == entries[c].id then [entries[c]] else [];
    assert NameRowsFor(ids, k, entries[..c + 1]) == NameRowsFor(ids, k, entries[..c]) + row;
    NamesAbsorbedAppend(st, tmNow, NameRowsFor(ids, k, entries[..c]), row);
  }

  lemma {:induction false} NamesAbsorbedAppend(st: UserState, tmNow: int, entries: seq<NameEntry>, row: seq<NameEntry>)
    requires |row| <= 1
    ensures NamesAbsorbed(NamesAbsorbed(st, tmNow, entries), tmNow, row) == NamesAbsorbed(st, tmNow, entries + row)
  {
    if row == [] {
      assert entries + row == entries;
    } else {
      NamesAbsorbedStep(st, tmNow, entries, row[0]);
      NamesAbsorbedStep(NamesAbsorbed(st, tmNow, entries), tmNow, [], row[0]);
      assert [] + [row[0]] == row;
    }
  }

  lemma {:induction false} PositionsAbsorbedAppend(st: UserState, rs: RecorderState, local: bool, tmNow: int,
                                clients: seq<PositionUpdateUser>, row: seq<PositionUpdateUser>)
    requires |row| <= 1
    ensures PositionsAbsorbed(PositionsAbsorbed(st, tmNow, clients), tmNow, row) == PositionsAbsorbed(st, tmNow, clients + row)
    ensures RecordersAbsorbed(RecordersAbsorbed(rs, local, tmNow, clients), local, tmNow, row)
            == RecordersAbsorbed(rs, local, tmNow, clients + row)
  {
    if row == [] {
      assert clients + row == clients;
    } else {
      PositionsAbsorbedStep(st, rs, local, tmNow, clients, row[0]);
      PositionsAbsorbedStep(PositionsAbsorbed(st, tmNow, clients), RecordersAbsorbed(rs, local, tmNow, clients),
                            local, tmNow, [], row[0]);
      assert [] + [row[0]] == row;
    }
  }

  /**
   * getUser over the roster: the index of the first rider with the id, or
   * None (the source's null) when there is none.
   */
  method FindUser(users: seq<User>, id: int) returns (r: Option<nat>)
    ensures r.Some? ==> r.value < |users| && users[r.value].rec.id == id
                        && forall j :: 0 <= j < r.value ==> users[j].rec.id != id
    ensures r.None? ==> forall j :: 0 <= j < |users| ==> users[j].rec.id != id
  {
    var k := 0;
    while k < |users|
      invariant 0 <= k <= |users|
      invariant forall j :: 0 <= j < k ==> users[j].rec.id != id
    {
      if users[k].rec.id == id {
        return Some(k);
      }
      k := k + 1;
    }
    return None;
  }

  class RaceState {
    const course: RideMap
    const gameId: string
    var tmUnfinishedHuman: int
    var stopped: bool

    /** The clock reading the source takes at construction is `tmNow`. */
    constructor(course: RideMap, gameId: string, tmNow: int)
      ensures this.course == course && this.gameId == gameId
      ensures tmUnfinishedHuman == tmNow && !stopped
    {
      this.course := course;
      this.gameId := gameId;
      tmUnfinishedHuman := tmNow;
      stopped := false;
    }

    method Stop()
      modifies this
      ensures stopped && tmUnfinishedHuman == old(tmUnfinishedHuman)
    {
      stopped := true;
    }

    /** getSecondsSinceLastNonFinishedHuman: never negative, whatever the clock says. */
    function SecondsSinceLastNonFinishedHuman(tmNow: int): (r: real)
      reads this
      ensures r >= 0.0
      ensures tmNow >= tmUnfinishedHuman ==> r == Seconds(tmNow - tmUnfinishedHuman)
    {
      Max(0.0, Seconds(tmNow - tmUnfinishedHuman))
    }

    /**
     * tick: nothing once stopped. Otherwise every rider is ticked in roster
     * order against the whole roster (so later riders see the earlier ones
     * already moved), and the clock of the last unfinished human moves to
     * tmNow if some human has no finish time after its own tick.
     */
    method Tick(tmNow: int, users: seq<User>, slopeFactor: real -> real)
      returns (ghost before: seq<UserState>, ghost after: seq<UserState>, ghost powers: seq<real>)
      requires Roster(users) && Rideable(users, course)
      requires forall s :: slopeFactor(s) >= 0.0
      modifies this, users, Recs(users), Drafts(users)
      ensures |before| == |users| && |after| == |users| && |powers| == |users|
      ensures forall k :: 0 <= k < |users| ==>
        before[k] == old(users[k].State()) && after[k] == users[k].State()
        && powers[k] == old(users[k].rec.lastPower) && powers[k] == users[k].rec.lastPower
      ensures stopped == old(stopped)
      ensures old(stopped) ==> tmUnfinishedHuman == old(tmUnfinishedHuman)
                               && forall k :: 0 <= k < |users| ==> users[k].State() == old(users[k].State())
      ensures !old(stopped) ==>
        tmUnfinishedHuman == if HumanStillRiding(users, |users|) then tmNow else old(tmUnfinishedHuman)
      ensures !old(stopped) ==> TickedInOrder(users, before, after, powers, tmNow, course, slopeFactor)
      ensures !old(stopped) ==> forall k :: 0 <= k < |users| ==>
        Ticked(old(users[k].State()), users[k].State(), tmNow, course.length)
      ensures forall k :: 0 <= k < |users| ==>
        users[k].rec.State() == CrossedAt(old(users[k].rec.State()), before[k], after[k], tmNow, course.length)
      ensures forall r :: r in Recs(users) ==> r.id == old(r.id)
    {
      if stopped {
        before, powers := States(users), Powers(users);
        after := before;
        return;
      }
      var stamp;
      stamp, before, after, powers := TickRiders(tmNow, course, users, slopeFactor, tmUnfinishedHuman);
      SetClock(stamp, users);
    }

    /** The clock of the last unfinished human moves to stamp; no rider or recorder changes. */
    method SetClock(stamp: int, ghost users: seq<User>)
      modifies this
      ensures tmUnfinishedHuman == stamp && stopped == old(stopped)
      ensures HumanStillRiding(users, |users|) == old(HumanStillRiding(users, |users|))
      ensures forall k :: 0 <= k < |users| ==>
        users[k].State() == old(users[k].State()) && users[k].rec.State() == old(users[k].rec.State())
        && users[k].rec.lastPower == old(users[k].rec.lastPower)
      ensures forall r :: r in Recs(users) ==> r.id == old(r.id)
    {
      ghost var still := HumanStillRiding(users, |users|);
      tmUnfinishedHuman := stamp;
      assert forall u :: u in users ==> unchanged(u);
      assert forall r :: r in Recs(users) ==> unchanged(r);
      assert HumanStillRiding(users, |users|) == still;
    }

    /** The running branch of tick: every rider ticked in roster order, and the unfinished-human clock it leaves. */
    static method TickRiders(tmNow: int, course: RideMap, users: seq<User>, slopeFactor: real -> real, stamp0: int)
      returns (stamp: int, ghost before: seq<UserState>, ghost after: seq<UserState>, ghost powers: seq<real>)
      requires Roster(users) && Rideable(users, course)
      requires forall s :: slopeFactor(s) >= 0.0
      modifies users, Recs(users), Drafts(users)
      ensures |before| == |users| && |after| == |users| && |powers| == |users|
      ensures forall k :: 0 <= k < |users| ==>
        before[k] == old(users[k].State()) && after[k] == users[k].State()
        && powers[k] == old(users[k].rec.lastPower) && powers[k] == users[k].rec.lastPower
      ensures stamp == if HumanStillRiding(users, |users|) then tmNow else stamp0
      ensures TickedInOrder(users, before, after, powers, tmNow, course, slopeFactor)
      ensures forall k :: 0 <= k < |users| ==> Ticked(old(users[k].State()), users[k].State(), tmNow, course.length)
      ensures forall k :: 0 <= k < |users| ==>
        users[k].rec.State() == CrossedAt(old(users[k].rec.State()), before[k], after[k], tmNow, course.length)
      ensures forall r :: r in Recs(users) ==> r.id == old(r.id)
    {
      before, powers := States(users), Powers(users);
      ghost var recs0 := RecorderStates(users);
      ghost var recs;
      stamp, after, recs := TickAll(tmNow, course, users, slopeFactor, stamp0);
      TurnsDone(users, after, recs, recs0, powers);
      InOrderTicked(users, before, after, powers, tmNow, course, slopeFactor);
    }

    /**
     * tick's forEach: each rider in turn; a human with no finish time right
     * after its own tick (no later tick changes it) stamps the clock, which
     * starts at stamp0. cur and recs record the riders and their recorders.
     */
    static method TickAll(tmNow: int, course: RideMap, users: seq<User>, slopeFactor: real -> real, stamp0: int)
      returns (stamp: int, ghost cur: seq<UserState>, ghost recs: seq<RecorderState>)
      requires Roster(users) && Rideable(users, course)
      requires forall s :: slopeFactor(s) >= 0.0
      modifies users, Recs(users), Drafts(users)
      ensures |cur| == |users| && |recs| == |users|
      ensures forall k :: 0 <= k < |users| ==> users[k].State() == cur[k] && users[k].rec.State() == recs[k]
      ensures stamp == if RidingUpTo(cur, recs, |users|) then tmNow else stamp0
      ensures TickedInOrder(users, old(States(users)), cur, old(Powers(users)), tmNow, course, slopeFactor)
      ensures forall k :: 0 <= k < |users| ==>
        recs[k].id == old(users[k].rec.id) && recs[k].lastPower == old(users[k].rec.lastPower)
      ensures forall k :: 0 <= k < |users| ==>
        recs[k] == CrossedAt(old(users[k].rec.State()), old(users[k].State()), cur[k], tmNow, course.length)
    {
      ghost var before := States(users);
      ghost var powers := Powers(users);
      ghost var ids := Ids(users);
      ghost var recs0 := RecorderStates(users);
      cur, recs := before, recs0;
      ghost var counts: seq<nat> := [];
      stamp := stamp0;
      assert forall k :: 0 <= k < |users| ==>
        users[k].massKg > 0.0 && (course.transform == HandicapNormalised ==> before[k].handicap != 0.0);
      var i := 0;
      while i < |users|
        invariant 0 <= i <= |users| && |cur| == |users| && |recs| == |users|
        invariant forall k :: 0 <= k < |users| ==> users[k].State() == cur[k] && users[k].rec.State() == recs[k]
        invariant forall k :: i <= k < |users| ==> cur[k] == before[k]
        invariant forall k :: 0 <= k < |users| ==> recs[k].id == ids[k] && recs[k].lastPower == powers[k]
        invariant TurnsUpTo(users, before, cur, powers, counts, i, tmNow, course, slopeFactor)
        invariant forall k :: 0 <= k < |users| ==> recs[k] == CrossedAt(recs0[k], before[k], cur[k], tmNow, course.length)
        invariant stamp == if RidingUpTo(cur, recs, i) then tmNow else stamp0
      {
        cur, recs, counts := TakeTurn(tmNow, course, users, i, slopeFactor, before, cur, recs, powers, ids, counts, recs0);
        var user := users[i];
        if HasFlag(user.typeFlags, Ai) {
        } else {
          // it's a human!
          if user.rec.IsFinished() {
            // they're finished
          } else {
            stamp := tmNow;
          }
        }
        i := i + 1;
      }
    }

    /** One pass of tick's loop: rider i ticks against the roster as the earlier turns left it. */
    static method TakeTurn(tmNow: int, course: RideMap, users: seq<User>, i: nat, slopeFactor: real -> real,
                           ghost before: seq<UserState>, ghost cur: seq<UserState>, ghost recs: seq<RecorderState>,
                           ghost powers: seq<real>, ghost ids: seq<int>, ghost counts: seq<nat>,
                           ghost recs0: seq<RecorderState>)
      returns (ghost cur': seq<UserState>, ghost recs': seq<RecorderState>, ghost counts': seq<nat>)
      requires Roster(users) && i < |users| && |before| == |users| && |cur| == |users| && |recs| == |users|
      requires |powers| == |users| && |ids| == |users|
      requires forall s :: slopeFactor(s) >= 0.0
      requires users[i].massKg > 0.0 && (course.transform == HandicapNormalised ==> before[i].handicap != 0.0)
      requires forall k :: 0 <= k < |users| ==> users[k].State() == cur[k] && users[k].rec.State() == recs[k]
      requires forall k :: i <= k < |users| ==> cur[k] == before[k]
      requires forall k :: 0 <= k < |users| ==> recs[k].id == ids[k] && recs[k].lastPower == powers[k]
      requires TurnsUpTo(users, before, cur, powers, counts, i, tmNow, course, slopeFactor)
      requires |recs0| == |users|
      requires forall k :: 0 <= k < |users| ==> recs[k] == CrossedAt(recs0[k], before[k], cur[k], tmNow, course.length)
      modifies users[i], users[i].rec, Drafts(users)
      ensures |cur'| == |users| && |recs'| == |users|
      ensures forall k :: 0 <= k < |users| ==> users[k].State() == cur'[k] && users[k].rec.State() == recs'[k]
      ensures forall k :: i + 1 <= k < |users| ==> cur'[k] == before[k]
      ensures forall k :: 0 <= k < |users| ==> recs'[k].id == ids[k] && recs'[k].lastPower == powers[k]
      ensures TurnsUpTo(users, before, cur', powers, counts', i + 1, tmNow, course, slopeFactor)
      ensures forall k :: 0 <= k < |users| ==> recs'[k] == CrossedAt(recs0[k], before[k], cur'[k], tmNow, course.length)
      ensures RidingUpTo(cur', recs', i + 1)
              == (RidingUpTo(cur, recs, i) || (!HasFlag(users[i].typeFlags, Ai) && users[i].rec.tmFinish < 0))
    {
      SeenAtTurn(users, before, cur, i);
      ghost var count := TickRider(tmNow, course, users, i, slopeFactor);
      ghost var x, r := users[i].State(), users[i].rec.State();
      cur', recs', counts' := cur[i := x], recs[i := r], counts + [count];
      forall k | 0 <= k < |users| && k != i
        ensures users[k].State() == cur'[k] && users[k].rec.State() == recs'[k]
      {
        assert unchanged(users[k], users[k].rec);
      }
      TurnTaken(users, before, cur, recs, powers, ids, counts, recs0, i, x, r, count, tmNow, course, slopeFactor);
    }

    /** The bookkeeping of one turn of tick's loop, once rider `i` has ticked to `x` with recorder `r`. */
    static lemma TurnTaken(users: seq<User>, before: seq<UserState>, cur: seq<UserState>, recs: seq<RecorderState>,
                           powers: seq<real>, ids: seq<int>, counts: seq<nat>, recs0: seq<RecorderState>, i: nat,
                           x: UserState, r: RecorderState, count: nat, tmNow: int, course: RideMap,
                           slopeFactor: real -> real)
      requires i < |users| && |before| == |users| && |cur| == |users| && |recs| == |users|
      requires |powers| == |users| && |ids| == |users|
      requires forall k :: i <= k < |users| ==> cur[k] == before[k]
      requires forall k :: 0 <= k < |users| ==> recs[k].id == ids[k] && recs[k].lastPower == powers[k]
      requires TurnsUpTo(users, before, cur, powers, counts, i, tmNow, course, slopeFactor)
      requires TickedAs(before[i], x, tmNow, course, powers[i], TurnViews(before, cur, i), users, count, slopeFactor,
                        users[i].massKg)
      requires |recs0| == |users|
      requires forall k :: 0 <= k < |users| ==> recs[k] == CrossedAt(recs0[k], before[k], cur[k], tmNow, course.length)
      requires r == CrossedAt(recs[i], before[i], x, tmNow, course.length)
      ensures forall k :: i + 1 <= k < |users| ==> cur[i := x][k] == before[k]
      ensures forall k :: 0 <= k < |users| ==>
        recs[i := r][k] == CrossedAt(recs0[k], before[k], cur[i := x][k], tmNow, course.length)
      ensures forall k :: 0 <= k < |users| ==> recs[i := r][k].id == ids[k] && recs[i := r][k].lastPower == powers[k]
      ensures TurnsUpTo(users, before, cur[i := x], powers, counts + [count], i + 1, tmNow, course, slopeFactor)
      ensures RidingUpTo(cur[i := x], recs[i := r], i + 1)
              == (RidingUpTo(cur, recs, i) || (!HasFlag(x.typeFlags, Ai) && r.tmFinish < 0))
    {
      assert recs[i] == recs0[i];
      TurnStep(users, before, cur, powers, counts, i, x, count, tmNow, course, slopeFactor);
      RidingStep(cur, recs, cur[i := x], recs[i := r], i);
    }

    /**
     * absorbPositionUpdate: each row goes to the rider getUser finds for its
     * id and is skipped when there is none. Every rider ends up having
     * absorbed, in message order, exactly the rows carrying its id, if it is
     * the first rider with that id, and nothing otherwise.
     */
    method AbsorbPositionUpdate(tmNow: int, clients: seq<PositionUpdateUser>, users: seq<User>)
      requires Roster(users)
      modifies users, Recs(users)
      ensures forall k :: 0 <= k < |users| ==>
        var mine := RowsFor(old(Ids(users)), k, clients);
        users[k].State() == PositionsAbsorbed(old(users[k].State()), tmNow, mine)
        && users[k].rec.State()
           == RecordersAbsorbed(old(users[k].rec.State()), HasFlag(old(users[k].typeFlags), Local), tmNow, mine)
    {
      ghost var ids, st0, rec0 := Ids(users), States(users), RecorderStates(users);
      var c := 0;
      while c < |clients|
        invariant 0 <= c <= |clients|
        invariant forall k :: 0 <= k < |users| ==> users[k].rec.id == ids[k] && users[k].typeFlags == st0[k].typeFlags
        invariant forall k :: 0 <= k < |users| ==>
          var mine := RowsFor(ids, k, clients[..c]);
          users[k].State() == PositionsAbsorbed(st0[k], tmNow, mine)
          && users[k].rec.State() == RecordersAbsorbed(rec0[k], HasFlag(st0[k].typeFlags, Local), tmNow, mine)
      {
        AbsorbNext(tmNow, clients, c, users, ids, st0, rec0);
        c := c + 1;
      }
      assert clients[..|clients|] == clients;
    }

    /** One pass of AbsorbPositionUpdate's loop: row c joins what each rider has absorbed. */
    static method AbsorbNext(tmNow: int, clients: seq<PositionUpdateUser>, c: nat, users: seq<User>, ghost ids: seq<int>,
                             ghost st0: seq<UserState>, ghost rec0: seq<RecorderState>)
      requires Roster(users) && c < |clients| && |ids| == |users| && |st0| == |users| && |rec0| == |users|
      requires forall k :: 0 <= k < |users| ==> users[k].rec.id == ids[k] && users[k].typeFlags == st0[k].typeFlags
      requires forall k :: 0 <= k < |users| ==>
        var mine := RowsFor(ids, k, clients[..c]);
        users[k].State() == PositionsAbsorbed(st0[k], tmNow, mine)
        && users[k].rec.State() == RecordersAbsorbed(rec0[k], HasFlag(st0[k].typeFlags, Local), tmNow, mine)
      modifies users, Recs(users)
      ensures forall k :: 0 <= k < |users| ==> users[k].rec.id == ids[k] && users[k].typeFlags == st0[k].typeFlags
      ensures forall k :: 0 <= k < |users| ==>
        var mine := RowsFor(ids, k, clients[..c + 1]);
        users[k].State() == PositionsAbsorbed(st0[k], tmNow, mine)
        && users[k].rec.State() == RecordersAbsorbed(rec0[k], HasFlag(st0[k].typeFlags, Local), tmNow, mine)
    {
      AbsorbPositionRow(tmNow, clients[c], users, ids);
      forall k | 0 <= k < |users|
        ensures var mine := RowsFor(ids, k, clients[..c + 1]);
          users[k].State() == PositionsAbsorbed(st0[k], tmNow, mine)
          && users[k].rec.State() == RecordersAbsorbed(rec0[k], HasFlag(st0[k].typeFlags, Local), tmNow, mine)
      {
        UpdatesForStep(clients, c, ids[k]);
        var row := if FirstWithId(ids, k) && ids[k] == clients[c].id then [clients[c]] else [];
        assert RowsFor(ids, k, clients[..c + 1]) == RowsFor(ids, k, clients[..c]) + row;
        PositionsAbsorbedAppend(st0[k], rec0[k], HasFlag(st0[k].typeFlags, Local), tmNow, RowsFor(ids, k, clients[..c]), row);
      }
    }

    /** One row of a position update, absorbed by the first rider with its id. */
    static method AbsorbPositionRow(tmNow: int, update: PositionUpdateUser, users: seq<User>, ghost ids: seq<int>)
      requires Roster(users) && |ids| == |users|
      requires forall k :: 0 <= k < |users| ==> users[k].rec.id == ids[k]
      modifies users, Recs(users)
      ensures forall k :: 0 <= k < |users| ==> users[k].rec.id == ids[k] && users[k].typeFlags == old(users[k].typeFlags)
      ensures forall k :: 0 <= k < |users| ==>
        var row := if FirstWithId(ids, k) && ids[k] == update.id then [update] else [];
        users[k].State() == PositionsAbsorbed(old(users[k].State()), tmNow, row)
        && users[k].rec.State()
           == RecordersAbsorbed(old(users[k].rec.State()), HasFlag(old(users[k].typeFlags), Local), tmNow, row)
    {
      var found := FindUser(users, update.id);
      if found.Some? {
        var j := found.value;
        RosterApart(users);
        assert forall k :: 0 <= k < |users| && k != j ==> users[k] != users[j] && users[k].rec != users[j].rec;
        users[j].AbsorbPositionUpdate(tmNow, update);
        assert [update][..0] == [];
      }
    }

    /**
     * absorbNameUpdate: row by row through the parallel arrays, each row to
     * the rider getUser finds for its id, unknown ids skipped.
     */
    method AbsorbNameUpdate(tmNow: int, entries: seq<NameEntry>, users: seq<User>)
      requires Roster(users)
      modifies users
      ensures forall k :: 0 <= k < |users| ==>
        users[k].State() == NamesAbsorbed(old(users[k].State()), tmNow, NameRowsFor(old(Ids(users)), k, entries))
    {
      ghost var ids, st0 := Ids(users), States(users);
      var c := 0;
      while c < |entries|
        invariant 0 <= c <= |entries|
        invariant forall k :: 0 <= k < |users| ==> users[k].rec.id == ids[k]
        invariant forall k :: 0 <= k < |users| ==> users[k].State() == NamesAbsorbed(st0[k], tmNow, NameRowsFor(ids, k, entries[..c]))
      {
        AbsorbNameNext(tmNow, entries, c, users, ids, st0);
        c := c + 1;
      }
      assert entries[..|entries|] == entries;
    }

    /** One pass of AbsorbNameUpdate's loop: entry c joins what each rider has absorbed. */
    static method AbsorbNameNext(tmNow: int, entries: seq<NameEntry>, c: nat, users: seq<User>, ghost ids: seq<int>,
                                 ghost st0: seq<UserState>)
      requires Roster(users) && c < |entries| && |ids| == |users| && |st0| == |users|
      requires forall k :: 0 <= k < |users| ==> users[k].rec.id == ids[k]
      requires forall k :: 0 <= k < |users| ==> users[k].State() == NamesAbsorbed(st0[k], tmNow, NameRowsFor(ids, k, entries[..c]))
      modifies users
      ensures forall k :: 0 <= k < |users| ==> users[k].rec.id == ids[k]
      ensures forall k :: 0 <= k < |users| ==> users[k].State() == NamesAbsorbed(st0[k], tmNow, NameRowsFor(ids, k, entries[..c + 1]))
    {
      AbsorbNameRow(tmNow, entries[c], users, ids);
      forall k | 0 <= k < |users|
        ensures users[k].State() == NamesAbsorbed(st0[k], tmNow, NameRowsFor(ids, k, entries[..c + 1]))
      {
        NameRowStep(st0[k], tmNow, ids, k, entries, c);
      }
    }

    /** One row of a name update, absorbed by the first rider with its id. */
    static method AbsorbNameRow(tmNow: int, e: NameEntry, users: seq<User>, ghost ids: seq<int>)
      requires Roster(users) && |ids| == |users|
      requires forall k :: 0 <= k < |users| ==> users[k].rec.id == ids[k]
      modifies users
      ensures forall k :: 0 <= k < |users| ==>
        var row := if FirstWithId(ids, k) && ids[k] == e.id then [e] else [];
        users[k].State() == NamesAbsorbed(old(users[k].State()), tmNow, row)
    {
      var found := FindUser(users, e.id);
      if found.Some? {
        var j := found.value;
        RosterApart(users);
        assert forall k :: 0 <= k < |users| && k != j ==> users[k] != users[j];
        users[j].AbsorbNameUpdate(tmNow, e.name, e.userType, e.handicap);
        assert [e][..0] == [];
      }
    }

    /** TickOne, with what it leaves alone: every other rider and recorder on the roster. */
    static method TickRider(tmNow: int, course: RideMap, users: seq<User>, i: nat, slopeFactor: real -> real)
      returns (ghost count: nat)
      requires i < |users| && Roster(users)
      requires users[i].massKg > 0.0 && (course.transform == HandicapNormalised ==> users[i].handicap != 0.0)
      requires forall s :: slopeFactor(s) >= 0.0
      modifies users[i], users[i].rec, Drafts(users)
      ensures Ticked(old(users[i].State()), users[i].State(), tmNow, course.length)
      ensures TickedAs(old(users[i].State()), users[i].State(), tmNow, course, old(users[i].rec.lastPower), old(Views(users)),
                       users, count, slopeFactor, users[i].massKg)
      ensures users[i].rec.State()
              == CrossedAt(old(users[i].rec.State()), old(users[i].State()), users[i].State(), tmNow, course.length)
      ensures forall k :: 0 <= k < |users| && k != i ==> unchanged(users[k], users[k].rec)
    {
      RosterApart(users);
      assert forall k :: 0 <= k < |users| && k != i ==> users[k] != users[i] && users[k].rec != users[i].rec;
      count := TickOne(tmNow, course, users, i, slopeFactor);
    }

    /** One rider's physics tick inside tick's loop, against the whole roster. */
    static method TickOne(tmNow: int, course: RideMap, users: seq<User>, i: nat, slopeFactor: real -> real)
      returns (ghost count: nat)
      requires i < |users| && Roster(users)
      requires users[i].massKg > 0.0 && (course.transform == HandicapNormalised ==> users[i].handicap != 0.0)
      requires forall s :: slopeFactor(s) >= 0.0
      modifies users[i], users[i].rec, Drafts(users)
      ensures Ticked(old(users[i].State()), users[i].State(), tmNow, course.length)
      ensures TickedAs(old(users[i].State()), users[i].State(), tmNow, course, old(users[i].rec.lastPower), old(Views(users)),
                       users, count, slopeFactor, users[i].massKg)
      ensures users[i].rec.State()
              == CrossedAt(old(users[i].rec.State()), old(users[i].State()), users[i].State(), tmNow, course.length)
    {
      LeaderDraftInRoster(users[i].position, users);
      DraftsDistinct(users, i);
      count := LeaderCount(Nearest(users[i].position, Views(users)), users);
      users[i].PhysicsTick(tmNow, course, users, slopeFactor);
    }
  }

  /** HumanStillRiding on recorded states: a human among the first n has no finish time. */
  ghost predicate RidingUpTo(cur: seq<UserState>, recs: seq<RecorderState>, n: nat)
    requires n <= |cur| && n <= |recs|
  {
    n > 0 && (RidingUpTo(cur, recs, n - 1) || (!HasFlag(cur[n - 1].typeFlags, Ai) && recs[n - 1].tmFinish < 0))
  }

  /** RidingUpTo looks only at the first n riders. */
  lemma {:induction false} RidingAgree(cur: seq<UserState>, recs: seq<RecorderState>, cur': seq<UserState>, recs': seq<RecorderState>, n: nat)
    requires n <= |cur| && n <= |recs| && n <= |cur'| && n <= |recs'|
    requires forall k :: 0 <= k < n ==> cur'[k] == cur[k] && recs'[k] == recs[k]
    ensures RidingUpTo(cur', recs', n) == RidingUpTo(cur, recs, n)
  {
    if n > 0 {
      RidingAgree(cur, recs, cur', recs', n - 1);
    }
  }

  /** One more turn adds rider i to the riders HumanStillRiding looks at. */
  lemma {:induction false} RidingStep(cur: seq<UserState>, recs: seq<RecorderState>, cur': seq<UserState>, recs': seq<RecorderState>, i: nat)
    requires i < |cur| == |recs| == |cur'| == |recs'|
    requires forall k :: 0 <= k < i ==> cur'[k] == cur[k] && recs'[k] == recs[k]
    ensures RidingUpTo(cur', recs', i + 1)
            == (RidingUpTo(cur, recs, i) || (!HasFlag(cur'[i].typeFlags, Ai) && recs'[i].tmFinish < 0))
  {
    RidingAgree(cur, recs, cur', recs', i);
  }

  /** RidingUpTo on the riders' own states is HumanStillRiding. */
  lemma {:induction false} RidingOfRoster(users: seq<User>, cur: seq<UserState>, recs: seq<RecorderState>, n: nat)
    requires n <= |users| && |cur| == |users| && |recs| == |users|
    requires forall k :: 0 <= k < |users| ==> users[k].State() == cur[k] && users[k].rec.State() == recs[k]
    ensures RidingUpTo(cur, recs, n) == HumanStillRiding(users, n)
  {
    if n > 0 {
      RidingOfRoster(users, cur, recs, n - 1);
      assert users[n - 1].State() == cur[n - 1] && users[n - 1].rec.State() == recs[n - 1];
    }
  }

  /** After the last turn: the loop's ghost record read back on the roster. */
  lemma {:induction false} TurnsDone(users: seq<User>, cur: seq<UserState>, recs: seq<RecorderState>, recs0: seq<RecorderState>,
                  powers: seq<real>)
    requires |cur| == |users| && |recs| == |users| && |recs0| == |users| && |powers| == |users|
    requires forall k :: 0 <= k < |users| ==> users[k].State() == cur[k] && users[k].rec.State() == recs[k]
    requires forall k :: 0 <= k < |users| ==> recs[k].id == recs0[k].id && recs[k].lastPower == powers[k]
    ensures RidingUpTo(cur, recs, |users|) == HumanStillRiding(users, |users|)
    ensures States(users) == cur
    ensures forall k :: 0 <= k < |users| ==> users[k].rec.id == recs0[k].id
    ensures Powers(users) == powers
  {
    RidingOfRoster(users, cur, recs, |users|);
    assert forall k :: 0 <= k < |users| ==> States(users)[k] == cur[k];
    var ps := Powers(users);
    forall k | 0 <= k < |users|
      ensures ps[k] == powers[k]
    {
      assert users[k].rec.State() == recs[k];
    }
    assert ps == powers;
  }

  /** Before rider i's turn the roster shows the earlier riders ticked and the rest as they were. */
  lemma {:induction false} SeenAtTurn(users: seq<User>, before: seq<UserState>, cur: seq<UserState>, i: nat)
    requires |before| == |users| && |cur| == |users| && i <= |users|
    requires forall k :: 0 <= k < |users| ==> users[k].State() == cur[k]
    requires forall k :: i <= k < |users| ==> cur[k] == before[k]
    ensures Views(users) == TurnViews(before, cur, i)
  {
    forall k | 0 <= k < |users|
      ensures Views(users)[k] == TurnViews(before, cur, i)[k]
    {
      assert users[k].State() == cur[k];
    }
  }

  /** On a roster no other rider shares the draftee cycle of the rider at i. */
  lemma {:induction false} DraftsDistinct(users: seq<User>, i: nat)
    requires Roster(users) && i < |users|
    ensures forall u :: u in users && u != users[i] ==> u.draft != users[i].draft
  {
    RosterApart(users);
    forall u | u in users && u != users[i]
      ensures u.draft != users[i].draft
    {
      var j :| 0 <= j < |users| && users[j] == u;
      assert j != i;
    }
  }

  /** The leader's draftee cycle, if any, belongs to the roster. */
  lemma {:induction false} LeaderDraftInRoster(me: real, users: seq<User>)
    ensures forall d :: d in LeaderDraft(me, users) ==> d in Drafts(users)
  {
    NearestIsValid(me, Views(users));
  }
}
