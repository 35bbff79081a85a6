/** Who can hold which room key. Browsers poll, grant, adopt and rekey, each in several steps with
    everyone else's steps in between; the server stores sealed keys it cannot open. */
module KeyHolding {
  import opened Bytes
  import opened KeyStore
  import opened Rooms
  import opened RoomRuns

  /** What one browser keeps for the room: its keys on disk, and the member list and epoch of its
      last completed poll in memory. */
  datatype Browser = Browser(sig: Key, stored: Stored, cache: Option<Rows>, currentEpoch: nat)

  /** One `tickMembers` under way: the keys read from disk when it began, then the member list the
      server answered with. The epoch is read after the list. */
  datatype Tick = Tick(box: Key, keys: seq<Secret>, last: nat, members: Option<Rows>, ready: bool)

  datatype Stage = Sent | Authorized | Committed(epoch: nat)

  /** One `removeMember` under way. `members` is the list its recipients were taken from. */
  datatype Request = Request(box: Key, target: Key, wraps: Wraps, secret: Secret, members: Rows, stage: Stage)

  /** `mints` and `log` are history: the epoch each key was made for, and the room after each step.
      No step reads them but to pick a key that was never used. */
  datatype World = World(room: Room, browsers: map<Key, Browser>, ticks: map<nat, Tick>, requests: map<nat, Request>,
                         mints: map<Secret, nat>, log: seq<Room>)

  datatype Step =
    | Join(box: Key, sig: Key, date: int)
    | Leave(box: Key, date: int)
    | Forget(box: Key)
    | StartTick(id: nat, box: Key)
    | ListMembers(id: nat)
    | ReadEpoch(id: nat)
    | GrantOne(id: nat, forBox: Key)
    | Adopt(id: nat)
    | EndTick(id: nat)
    | StartRekey(id: nat, box: Key, target: Key, wraps: Wraps, secret: Secret)
    | CheckCreator(id: nat)
    | CommitRekey(id: nat, date: int)
    | AckRekey(id: nat)
    | DropRekey(id: nat)

  /** A fresh key pair for every join, a fresh random key for every rekey. */
  ghost predicate Unused(w: World, secret: Secret)
  {
    secret !in w.mints && forall id | id in w.requests :: w.requests[id].secret != secret
  }

  predicate NewcomerKeys(rows: Rows, box: Key, sig: Key) { box !in rows && forall b | b in rows :: rows[b].sig != sig }

  /** The wraps `removeMember` builds from its list: the new key, sealed once to each survivor. */
  ghost predicate WrapsForSurvivors(members: Rows, target: Key, wraps: Wraps, secret: Secret)
  {
    && DistinctRecipients(wraps) && Recipients(wraps) == ActiveBoxes(members) - {target}
    && forall i | 0 <= i < |wraps| :: wraps[i].1 == Sealed(wraps[i].0, secret)
  }

  /** The wrap this poll found for its own row, if its browser can open it. */
  function OwnWrap(t: Tick): Option<Secret>
  {
    if t.members.None? || t.box !in t.members.value || t.members.value[t.box].wrapped.None? then None
    else var sealed := t.members.value[t.box].wrapped.value;
         if sealed.recipient == t.box then Some(sealed.secret) else None
  }

  ghost predicate Enabled(w: World, step: Step)
  {
    match step
    case Join(box, sig, _) => NewcomerKeys(w.room.rows, box, sig)
    case Leave(box, _) => box in w.browsers
    case Forget(_) => true
    case StartTick(id, box) => id !in w.ticks && box in w.browsers
    case ListMembers(id) => id in w.ticks && w.ticks[id].members.None?
    case ReadEpoch(id) =>
      id in w.ticks && w.ticks[id].members.Some? && !w.ticks[id].ready && w.ticks[id].box in w.browsers
    case GrantOne(id, forBox) =>
      id in w.ticks && w.ticks[id].ready && |w.ticks[id].keys| > 0 && w.ticks[id].members.Some? &&
      var m := w.ticks[id].members.value;
      forBox in m && m[forBox].Active() && !m[forBox].Accepted() && forBox != w.ticks[id].box
    case Adopt(id) =>
      id in w.ticks && w.ticks[id].ready && w.ticks[id].box in w.browsers && OwnWrap(w.ticks[id]).Some? &&
      (|w.ticks[id].keys| == 0 || w.browsers[w.ticks[id].box].currentEpoch > w.ticks[id].last)
    case EndTick(_) => true
    case StartRekey(id, box, target, wraps, secret) =>
      id !in w.requests && box in w.browsers && |w.browsers[box].stored.keys| > 0 && target != box &&
      w.browsers[box].cache.Some? && Unused(w, secret) &&
      WrapsForSurvivors(w.browsers[box].cache.value, target, wraps, secret)
    case CheckCreator(id) =>
      id in w.requests && w.requests[id].stage.Sent? && w.requests[id].box in w.room.rows &&
      IsCreatorBySig(w.room.rows, w.room.rows[w.requests[id].box].sig)
    case CommitRekey(id, _) => id in w.requests && w.requests[id].stage.Authorized?
    case AckRekey(id) => id in w.requests && w.requests[id].stage.Committed? && w.requests[id].box in w.browsers
    case DropRekey(_) => true
  }

  /** The statement against the room that a step makes, if it makes one. */
  function Made(w: World, step: Step): Option<Op>
  {
    match step
    case Join(box, sig, date) => Some(Op.Join(box, sig, date))
    case Leave(box, date) => if box in w.browsers then Some(Op.Leave(w.browsers[box].sig, date)) else None
    case GrantOne(id, forBox) =>
      if id in w.ticks && |w.ticks[id].keys| > 0
      then var t := w.ticks[id]; Some(Grant(forBox, Sealed(forBox, t.keys[|t.keys| - 1]), t.box)) else None
    case CommitRekey(id, date) =>
      if id in w.requests then Some(Rekey(w.requests[id].target, w.requests[id].wraps, date)) else None
    case _ => None
  }

  function RoomAfter(w: World, step: Step): Room
  {
    if Made(w, step).Some? then Apply(w.room, Made(w, step).value) else w.room
  }

  predicate Commits(w: World, step: Step)
  {
    step.CommitRekey? && step.id in w.requests &&
    var r := w.requests[step.id]; RekeyOutcome(w.room, r.target, r.wraps, step.date).Rekeyed?
  }

  function BrowsersAfter(w: World, step: Step): map<Key, Browser>
  {
    match step
    case Join(box, sig, _) => w.browsers[box := Browser(sig, Stored([], 0), None, 0)]
    case Forget(box) => w.browsers - {box}
    case ReadEpoch(id) =>
      if id in w.ticks && w.ticks[id].box in w.browsers
      then var b := w.ticks[id].box;
           w.browsers[b := w.browsers[b].(cache := w.ticks[id].members, currentEpoch := w.room.epoch)]
      else w.browsers
    case Adopt(id) =>
      if id in w.ticks && w.ticks[id].box in w.browsers && OwnWrap(w.ticks[id]).Some?
      then Take(w.browsers, w.ticks[id].box, OwnWrap(w.ticks[id]).value, w.browsers[w.ticks[id].box].currentEpoch)
      else w.browsers
    case AckRekey(id) =>
      if id in w.requests && w.requests[id].stage.Committed? && w.requests[id].box in w.browsers
      then Take(w.browsers, w.requests[id].box, w.requests[id].secret, w.requests[id].stage.epoch)
      else w.browsers
    case _ => w.browsers
  }

  function Take(browsers: map<Key, Browser>, box: Key, key: Secret, epoch: nat): map<Key, Browser>
    requires box in browsers
  {
    browsers[box := browsers[box].(stored := Append(browsers[box].stored, key, epoch))]
  }

  function TicksAfter(w: World, step: Step): map<nat, Tick>
  {
    match step
    case StartTick(id, box) =>
      if box in w.browsers
      then var s := w.browsers[box].stored; w.ticks[id := Tick(box, s.keys, s.lastEpoch, None, false)] else w.ticks
    case ListMembers(id) => if id in w.ticks then w.ticks[id := w.ticks[id].(members := Some(w.room.rows))] else w.ticks
    case ReadEpoch(id) => if id in w.ticks then w.ticks[id := w.ticks[id].(ready := true)] else w.ticks
    case EndTick(id) => w.ticks - {id}
    case _ => w.ticks
  }

  function RequestsAfter(w: World, step: Step): map<nat, Request>
  {
    match step
    case StartRekey(id, box, target, wraps, secret) =>
      if box in w.browsers && w.browsers[box].cache.Some?
      then w.requests[id := Request(box, target, wraps, secret, w.browsers[box].cache.value, Sent)] else w.requests
    case CheckCreator(id) =>
      if id in w.requests then w.requests[id := w.requests[id].(stage := Authorized)] else w.requests
    case CommitRekey(id, _) =>
      if Commits(w, step) then w.requests[id := w.requests[id].(stage := Committed(w.room.epoch + 1))]
      else w.requests - {id}
    case AckRekey(id) => w.requests - {id}
    case DropRekey(id) => w.requests - {id}
    case _ => w.requests
  }

  /** A step that is not enabled does nothing. */
  ghost function Next(w: World, step: Step): World
  {
    if !Enabled(w, step) then w
    else World(RoomAfter(w, step), BrowsersAfter(w, step), TicksAfter(w, step), RequestsAfter(w, step),
               if Commits(w, step) then w.mints[w.requests[step.id].secret := w.room.epoch + 1] else w.mints,
               w.log + [RoomAfter(w, step)])
  }

  ghost function Exec(w: World, steps: seq<Step>): World
    decreases |steps|
  {
    if |steps| == 0 then w else Exec(Next(w, steps[0]), steps[1..])
  }

  lemma {:induction false} ExecConcat(w: World, a: seq<Step>, b: seq<Step>)
    ensures Exec(w, a + b) == Exec(Exec(w, a), b)
    decreases |a|
  {
    if |a| == 0 {
      assert a + b == b;
    } else {
      assert (a + b)[1..] == a[1..] + b;
      hide Next;
      ExecConcat(Next(w, a[0]), a[1..], b);
    }
  }

  /** A new room: its creator holds the first key, minted for epoch 0. */
  function Start(box: Key, sig: Key, secret: Secret, date: int): World
  {
    var room := NewRoom(box, sig, Sealed(box, secret), date);
    World(room, map[box := Browser(sig, Stored([secret], 0), None, 0)], map[], map[], map[secret := 0], [room])
  }

  // ---------- The invariant ----------

  /** The box had an active row at some moment at or after the epoch began. */
  ghost predicate Present(log: seq<Room>, box: Key, epoch: nat)
  {
    exists m :: 0 <= m < |log| && log[m].epoch >= epoch && box in ActiveBoxes(log[m].rows)
  }

  ghost predicate MayHold(w: World, box: Key, key: Secret)
  {
    key in w.mints && Present(w.log, box, w.mints[key])
  }

  ghost predicate AllMayHold(w: World, box: Key, keys: seq<Secret>) { forall k | k in keys :: MayHold(w, box, k) }

  ghost predicate WrapsOk(w: World, rows: Rows)
  {
    forall b | b in rows && rows[b].wrapped.Some? ::
      rows[b].wrapped.value.recipient == b && MayHold(w, b, rows[b].wrapped.value.secret)
  }

  /** The list was read when the key's epoch had begun. */
  ghost predicate ReadUnder(w: World, rows: Rows, key: Secret)
  {
    key in w.mints && exists m :: 0 <= m < |w.log| && w.log[m].epoch >= w.mints[key] && w.log[m].rows == rows
  }

  ghost predicate ListOk(w: World, box: Key, rows: Rows) { box in rows && RowsEvolve(rows, w.room.rows) }

  ghost predicate BrowserOk(w: World, box: Key, b: Browser)
  {
    && box in w.room.rows && w.room.rows[box].sig == b.sig && AllMayHold(w, box, b.stored.keys)
    && (b.cache.Some? ==> ListOk(w, box, b.cache.value))
  }

  ghost predicate TickOk(w: World, t: Tick)
  {
    && t.box in w.room.rows && AllMayHold(w, t.box, t.keys)
    && (t.members.Some? ==>
         && ListOk(w, t.box, t.members.value) && WrapsOk(w, t.members.value)
         && forall k | k in t.keys :: ReadUnder(w, t.members.value, k))
  }

  ghost predicate RequestOk(w: World, r: Request)
  {
    && ListOk(w, r.box, r.members) && r.target != r.box && WrapsForSurvivors(r.members, r.target, r.wraps, r.secret)
    && (r.stage.Authorized? ==> r.box in Recipients(r.wraps))
    && (if r.stage.Committed? then MayHold(w, r.box, r.secret) else r.secret !in w.mints)
  }

  ghost predicate Ledger(w: World)
  {
    && |w.log| > 0 && w.log[|w.log| - 1] == w.room && (forall m | 0 <= m < |w.log| :: w.log[m].epoch <= w.room.epoch)
    && (forall k | k in w.mints :: w.mints[k] <= w.room.epoch)
  }

  ghost predicate OneSigEach(rows: Rows) { forall a, b | a in rows && b in rows && rows[a].sig == rows[b].sig :: a == b }

  ghost predicate OneSecretEach(requests: map<nat, Request>)
  {
    forall i, j | i in requests && j in requests && requests[i].secret == requests[j].secret :: i == j
  }

  ghost predicate Inv(w: World)
  {
    && Ledger(w) && OneSigEach(w.room.rows) && OneSecretEach(w.requests) && WrapsOk(w, w.room.rows)
    && (forall b | b in w.browsers :: BrowserOk(w, b, w.browsers[b]))
    && (forall id | id in w.ticks :: TickOk(w, w.ticks[id]))
    && (forall id | id in w.requests :: RequestOk(w, w.requests[id]))
  }

  // ---------- What a later world keeps ----------

  ghost predicate Later(w: World, t: World)
  {
    && w.log <= t.log && RowsEvolve(w.room.rows, t.room.rows) && w.room.epoch <= t.room.epoch
    && forall k | k in w.mints :: k in t.mints && t.mints[k] == w.mints[k]
  }

  lemma HoldLater(w: World, t: World, box: Key, key: Secret)
    requires Later(w, t) && MayHold(w, box, key)
    ensures MayHold(t, box, key)
  {
    hide RowsEvolve;
    var m :| 0 <= m < |w.log| && w.log[m].epoch >= w.mints[key] && box in ActiveBoxes(w.log[m].rows);
    assert t.log[m] == w.log[m];
  }

  lemma ReadUnderLater(w: World, t: World, rows: Rows, key: Secret)
    requires Later(w, t) && ReadUnder(w, rows, key)
    ensures ReadUnder(t, rows, key)
  {
    hide RowsEvolve;
    var m :| 0 <= m < |w.log| && w.log[m].epoch >= w.mints[key] && w.log[m].rows == rows;
    assert t.log[m] == w.log[m];
  }

  lemma AllLater(w: World, t: World, box: Key, keys: seq<Secret>)
    requires Later(w, t) && AllMayHold(w, box, keys)
    ensures AllMayHold(t, box, keys)
  {
    hide Later, MayHold;
    forall k | k in keys ensures MayHold(t, box, k) { HoldLater(w, t, box, k); }
  }

  lemma WrapsLater(w: World, t: World, rows: Rows)
    requires Later(w, t) && WrapsOk(w, rows)
    ensures WrapsOk(t, rows)
  {
    hide Later, MayHold;
    forall b | b in rows && rows[b].wrapped.Some? ensures MayHold(t, b, rows[b].wrapped.value.secret) {
      HoldLater(w, t, b, rows[b].wrapped.value.secret);
    }
  }

  lemma ListLater(w: World, t: World, box: Key, rows: Rows)
    requires Later(w, t) && ListOk(w, box, rows)
    ensures ListOk(t, box, rows) && box in t.room.rows
  {
    RowsEvolveTransitive(rows, w.room.rows, t.room.rows);
  }

  lemma SigKept(w: World, t: World, box: Key)
    requires Later(w, t) && box in w.room.rows
    ensures box in t.room.rows && t.room.rows[box].sig == w.room.rows[box].sig
  {
  }

  lemma BrowserLater(w: World, t: World, box: Key, b: Browser)
    requires Later(w, t) && BrowserOk(w, box, b)
    ensures BrowserOk(t, box, b)
  {
    AllLater(w, t, box, b.stored.keys);
    SigKept(w, t, box);
    if b.cache.Some? { ListLater(w, t, box, b.cache.value); }
    hide Later, AllMayHold, ListOk;
  }

  lemma TickLater(w: World, t: World, tick: Tick)
    requires Later(w, t) && TickOk(w, tick)
    ensures TickOk(t, tick)
  {
    AllLater(w, t, tick.box, tick.keys);
    SigKept(w, t, tick.box);
    if tick.members.Some? {
      ListLater(w, t, tick.box, tick.members.value);
      WrapsLater(w, t, tick.members.value);
      forall k | k in tick.keys ensures ReadUnder(t, tick.members.value, k) {
        ReadUnderLater(w, t, tick.members.value, k);
      }
    }
    hide Later, AllMayHold, ListOk, WrapsOk, ReadUnder;
  }

  lemma RequestLater(w: World, t: World, r: Request)
    requires Later(w, t) && RequestOk(w, r) && (!r.stage.Committed? ==> r.secret !in t.mints)
    ensures RequestOk(t, r)
  {
    ListLater(w, t, r.box, r.members);
    if r.stage.Committed? { HoldLater(w, t, r.box, r.secret); }
    hide Later, ListOk, MayHold, WrapsForSurvivors;
  }

  // ---------- One step ----------

  lemma RoomAfterEvolves(w: World, step: Step)
    ensures Evolves(w.room, RoomAfter(w, step))
  {
    if Made(w, step).Some? {
      ApplyEvolves(w.room, Made(w, step).value);
    } else {
      EvolvesReflexive(w.room);
    }
    hide Apply, Made, Evolves;
  }

  lemma CommitFacts(w: World, step: Step)
    requires Inv(w) && Enabled(w, step) && Commits(w, step)
    ensures step.CommitRekey? && step.id in w.requests
    ensures var r := w.requests[step.id];
            && RequestOk(w, r) && r.stage.Authorized? && r.secret !in w.mints && r.box in Recipients(r.wraps)
            && RekeyOutcome(w.room, r.target, r.wraps, step.date).Rekeyed?
            && RoomAfter(w, step) == RemoveAndRekey(w.room, r.target, r.wraps, step.date)
            && RoomAfter(w, step).epoch == w.room.epoch + 1
  {
    hide Ledger, WrapsOk, OneSigEach, OneSecretEach, BrowserOk, TickOk, Recipients, ListOk, WrapsForSurvivors, MayHold,
      ActiveBoxes, ApplyWraps, SoftRemoveByBox;
  }

  lemma NextIsLater(w: World, step: Step)
    requires Inv(w)
    ensures Later(w, Next(w, step)) && Ledger(Next(w, step))
  {
    hide Made, Apply, RoomAfter, BrowsersAfter, TicksAfter, RequestsAfter, Enabled, BrowserOk, TickOk, WrapsOk,
      RequestOk, OneSigEach, OneSecretEach, RowsEvolve, Commits;
    RoomAfterEvolves(w, step);
    EvolvesReflexive(w.room);
    if Enabled(w, step) && Commits(w, step) {
      CommitFacts(w, step);
    }
  }

  /** Everything about the members' rows that a step other than a join leaves alone. */
  lemma SigsStay(room: Room, op: Op)
    requires OneSigEach(room.rows) && (op.Join? ==> NewcomerKeys(room.rows, op.box, op.sig))
    ensures OneSigEach(Apply(room, op).rows)
  {
    ApplyEvolves(room, op);
    if op.Rekey? {
      WrapsEvolve(SoftRemoveByBox(room.rows, op.target, op.date), op.wraps);
    }
    if !op.Join? {
      assert Apply(room, op).rows.Keys == room.rows.Keys;
      forall a, b | a in Apply(room, op).rows && b in Apply(room, op).rows &&
                    Apply(room, op).rows[a].sig == Apply(room, op).rows[b].sig
        ensures a == b
      {
        assert RowEvolves(room.rows[a], Apply(room, op).rows[a]) && RowEvolves(room.rows[b], Apply(room, op).rows[b]);
      }
    }
  }

  /** A grant reaches only a box that was active while the key's epoch had begun: the keys were read
      from disk before the list was. */
  lemma GrantIsSafe(w: World, step: Step)
    requires Inv(w) && step.GrantOne? && Enabled(w, step)
    ensures step.id in w.ticks && |w.ticks[step.id].keys| > 0
    ensures var keys := w.ticks[step.id].keys; MayHold(w, step.forBox, keys[|keys| - 1])
  {
    var tick := w.ticks[step.id];
    var key := tick.keys[|tick.keys| - 1];
    assert TickOk(w, tick) && ReadUnder(w, tick.members.value, key);
    var m :| 0 <= m < |w.log| && w.log[m].epoch >= w.mints[key] && w.log[m].rows == tick.members.value;
    assert step.forBox in ActiveBoxes(w.log[m].rows);
  }

  /** After a rekey the survivors' rows hold the new key, and every other row what it held. */
  lemma RekeyedRows(room: Room, members: Rows, target: Key, wraps: Wraps, secret: Secret, date: int)
    requires WrapsForSurvivors(members, target, wraps, secret) && RekeyOutcome(room, target, wraps, date).Rekeyed?
    ensures var after := RemoveAndRekey(room, target, wraps, date);
            && after.epoch == room.epoch + 1 && ActiveBoxes(after.rows) == Recipients(wraps)
            && after.rows.Keys == room.rows.Keys
            && forall b | b in after.rows ::
                 after.rows[b].wrapped == if b in Recipients(wraps) then Some(Sealed(b, secret)) else room.rows[b].wrapped
  {
    RekeyExact(room, target, wraps, date);
    var after := RemoveAndRekey(room, target, wraps, date);
    assert target !in Recipients(wraps);
    hide RemoveAndRekey, RekeyOutcome, ActiveBoxes, Recipients;
    forall b | b in after.rows
      ensures after.rows[b].wrapped == if b in Recipients(wraps) then Some(Sealed(b, secret)) else room.rows[b].wrapped
    {
      if b in Recipients(wraps) {
        assert (b, after.rows[b].wrapped.value) in wraps;
      }
    }
  }

  /** A committed rekey leaves every survivor with a key it may hold, the one who sent it too. */
  lemma CommitIsSafe(w: World, step: Step)
    requires Inv(w) && Enabled(w, step) && Commits(w, step)
    ensures var t, r := Next(w, step), w.requests[step.id];
            && MayHold(t, r.box, r.secret) && t.room.rows.Keys == w.room.rows.Keys
            && (forall b | b in Recipients(r.wraps) :: MayHold(t, b, r.secret))
            && forall b | b in t.room.rows ::
                 t.room.rows[b].wrapped == if b in Recipients(r.wraps) then Some(Sealed(b, r.secret))
                                           else w.room.rows[b].wrapped
  {
    hide Enabled, Commits, RemoveAndRekey, RekeyOutcome, Recipients, ActiveBoxes, RoomAfter, Inv, RequestsAfter,
      TicksAfter, BrowsersAfter, WrapsForSurvivors, ListOk;
    CommitFacts(w, step);
    var t, r := Next(w, step), w.requests[step.id];
    RekeyedRows(w.room, r.members, r.target, r.wraps, r.secret, step.date);
    assert t.log[|w.log|] == t.room && t.mints[r.secret] == t.room.epoch;
  }

  lemma RowsStep(w: World, step: Step)
    requires Inv(w)
    ensures WrapsOk(Next(w, step), Next(w, step).room.rows) && OneSigEach(Next(w, step).room.rows)
  {
    hide Ledger, BrowserOk, TickOk, RequestOk, OneSecretEach, Later, MayHold, Apply, Enabled, Commits, RoomAfter,
      BrowsersAfter, TicksAfter, RequestsAfter, OneSigEach, Recipients;
    var t := Next(w, step);
    NextIsLater(w, step);
    if !Enabled(w, step) { return; }
    SigsStep(w, step);
    WrapsLater(w, t, w.room.rows);
    if Commits(w, step) {
      CommitIsSafe(w, step);
    } else if step.GrantOne? {
      GrantIsSafe(w, step);
      GrantedRows(w, step);
      var keys := w.ticks[step.id].keys;
      HoldLater(w, t, step.forBox, keys[|keys| - 1]);
    } else {
      PlainStepKeepsWraps(w, step);
    }
  }

  lemma SigsStep(w: World, step: Step)
    requires Inv(w) && Enabled(w, step)
    ensures OneSigEach(RoomAfter(w, step).rows)
  {
    hide Ledger, BrowserOk, TickOk, RequestOk, OneSecretEach, Apply, OneSigEach;
    if Made(w, step).Some? {
      SigsStay(w.room, Made(w, step).value);
    }
  }

  lemma GrantedRows(w: World, step: Step)
    requires step.GrantOne? && Enabled(w, step)
    ensures step.id in w.ticks && |w.ticks[step.id].keys| > 0
    ensures var rows, keys := RoomAfter(w, step).rows, w.ticks[step.id].keys;
            forall b | b in rows ::
              b in w.room.rows &&
              (rows[b].wrapped == w.room.rows[b].wrapped ||
               (b == step.forBox && rows[b].wrapped == Some(Sealed(b, keys[|keys| - 1]))))
  {
  }

  lemma PlainStepKeepsWraps(w: World, step: Step)
    requires Enabled(w, step) && !Commits(w, step) && !step.GrantOne?
    ensures var rows := RoomAfter(w, step).rows;
            forall b | b in rows && rows[b].wrapped.Some? :: b in w.room.rows && rows[b].wrapped == w.room.rows[b].wrapped
  {
  }

  lemma TakenOk(w: World, t: World, box: Key, b: Browser, key: Secret, epoch: nat)
    requires Later(w, t) && BrowserOk(w, box, b) && MayHold(t, box, key)
    ensures BrowserOk(t, box, b.(stored := Append(b.stored, key, epoch)))
  {
    BrowserLater(w, t, box, b);
    hide Later, MayHold, ListOk;
  }

  /** The sealed key a poll found for its own row is one its box may hold. */
  lemma OwnWrapIsSafe(w: World, tick: Tick)
    requires TickOk(w, tick) && OwnWrap(tick).Some?
    ensures MayHold(w, tick.box, OwnWrap(tick).value)
  {
    hide MayHold, ListOk;
  }

  lemma BrowsersStep(w: World, step: Step)
    requires Inv(w)
    ensures forall b | b in Next(w, step).browsers :: BrowserOk(Next(w, step), b, Next(w, step).browsers[b])
  {
    hide Ledger, RequestOk, OneSigEach, OneSecretEach, Later, MayHold, WrapsOk, BrowserOk, TickOk, Commits, RoomAfter,
      RowsEvolve;
    var t := Next(w, step);
    NextIsLater(w, step);
    forall b | b in t.browsers ensures BrowserOk(t, b, t.browsers[b]) {
      if b in w.browsers && t.browsers[b] == w.browsers[b] {
        BrowserLater(w, t, b, w.browsers[b]);
      } else {
        BrowserChanged(w, step, b);
      }
    }
  }

  lemma BrowserChanged(w: World, step: Step, b: Key)
    requires Inv(w) && Enabled(w, step) && b in Next(w, step).browsers
    requires b !in w.browsers || Next(w, step).browsers[b] != w.browsers[b]
    ensures BrowserOk(Next(w, step), b, Next(w, step).browsers[b])
  {
    hide Ledger, OneSigEach, OneSecretEach, Later, MayHold, WrapsOk, BrowserOk, TickOk, Commits, RowsEvolve, RequestOk;
    var t := Next(w, step);
    NextIsLater(w, step);
    match step
    case Join(box, sig, date) => NewBrowser(t, b);
    case ReadEpoch(id) => CachedOk(w, t, w.ticks[id], w.browsers[b]);
    case Adopt(id) =>
      assert TickOk(w, w.ticks[id]);
      OwnWrapIsSafe(w, w.ticks[id]);
      HoldLater(w, t, b, OwnWrap(w.ticks[id]).value);
      TakenOk(w, t, b, w.browsers[b], OwnWrap(w.ticks[id]).value, w.browsers[b].currentEpoch);
    case AckRekey(id) =>
      AckedIsSafe(w, id);
      HoldLater(w, t, b, w.requests[id].secret);
      TakenOk(w, t, b, w.browsers[b], w.requests[id].secret, w.requests[id].stage.epoch);
    case _ => assert false;
  }

  lemma AckedIsSafe(w: World, id: nat)
    requires Inv(w) && id in w.requests && w.requests[id].stage.Committed?
    ensures MayHold(w, w.requests[id].box, w.requests[id].secret)
  {
    assert RequestOk(w, w.requests[id]);
  }

  lemma NewBrowser(t: World, b: Key)
    requires b in t.room.rows && b in t.browsers
    requires t.browsers[b] == Browser(t.room.rows[b].sig, Stored([], 0), None, 0)
    ensures BrowserOk(t, b, t.browsers[b])
  {
  }

  lemma CachedOk(w: World, t: World, tick: Tick, b: Browser)
    requires Later(w, t) && TickOk(w, tick) && BrowserOk(w, tick.box, b) && tick.members.Some?
    ensures BrowserOk(t, tick.box, b.(cache := tick.members, currentEpoch := w.room.epoch))
  {
    BrowserLater(w, t, tick.box, b);
    ListLater(w, t, tick.box, tick.members.value);
    hide Later, AllMayHold, ListOk;
  }

  lemma TicksStep(w: World, step: Step)
    requires Inv(w)
    ensures forall id | id in Next(w, step).ticks :: TickOk(Next(w, step), Next(w, step).ticks[id])
  {
    hide Ledger, RequestOk, OneSigEach, OneSecretEach, Later, MayHold, WrapsOk, BrowserOk, TickOk, Commits, RowsEvolve;
    var t := Next(w, step);
    NextIsLater(w, step);
    forall id | id in t.ticks ensures TickOk(t, t.ticks[id]) {
      if id in w.ticks && t.ticks[id] == w.ticks[id] {
        TickLater(w, t, w.ticks[id]);
      } else {
        TickChanged(w, step, id);
      }
    }
  }

  lemma TickChanged(w: World, step: Step, id: nat)
    requires Inv(w) && Enabled(w, step) && id in Next(w, step).ticks
    requires id !in w.ticks || Next(w, step).ticks[id] != w.ticks[id]
    ensures TickOk(Next(w, step), Next(w, step).ticks[id])
  {
    hide Ledger, OneSigEach, OneSecretEach, Later, MayHold, WrapsOk, BrowserOk, TickOk, RekeyOutcome, RowsEvolve,
      RequestOk;
    var t := Next(w, step);
    NextIsLater(w, step);
    match step
    case StartTick(_, box) =>
      BrowserLater(w, t, box, w.browsers[box]);
      StartedOk(t, box, w.browsers[box]);
    case ListMembers(_) =>
      TickLater(w, t, w.ticks[id]);
      ListedOk(w, t, w.ticks[id]);
    case ReadEpoch(_) =>
      TickLater(w, t, w.ticks[id]);
      ReadyOk(t, w.ticks[id]);
    case _ => assert false;
  }

  lemma StartedOk(t: World, box: Key, b: Browser)
    requires BrowserOk(t, box, b)
    ensures TickOk(t, Tick(box, b.stored.keys, b.stored.lastEpoch, None, false))
  {
  }

  lemma ReadyOk(t: World, tick: Tick)
    requires TickOk(t, tick)
    ensures TickOk(t, tick.(ready := true))
  {
  }

  /** A list read now was read after every key on disk at the tick's start was minted. */
  lemma ListedOk(w: World, t: World, tick: Tick)
    requires Inv(w) && TickOk(t, tick) && Later(w, t) && TickOk(w, tick)
    requires t.room == w.room && t.mints == w.mints
    ensures TickOk(t, tick.(members := Some(w.room.rows)))
  {
    hide BrowserOk, RequestOk, OneSigEach, OneSecretEach, Present;
    WrapsLater(w, t, w.room.rows);
    EvolvesReflexive(w.room);
    forall k | k in tick.keys ensures ReadUnder(t, w.room.rows, k) {
      assert MayHold(w, tick.box, k);
      assert t.log[|w.log| - 1] == w.room;
    }
    hide RowsEvolve, WrapsOk, AllMayHold, ReadUnder;
  }

  lemma RequestsStep(w: World, step: Step)
    requires Inv(w)
    ensures forall id | id in Next(w, step).requests :: RequestOk(Next(w, step), Next(w, step).requests[id])
    ensures OneSecretEach(Next(w, step).requests)
  {
    hide Ledger, RequestOk, OneSigEach, Later, MayHold, WrapsOk, BrowserOk, TickOk, RowsEvolve, RoomAfter, TicksAfter,
      BrowsersAfter, Commits, WrapsForSurvivors;
    var t := Next(w, step);
    NextIsLater(w, step);
    forall id | id in t.requests ensures RequestOk(t, t.requests[id]) {
      if id in w.requests && t.requests[id] == w.requests[id] {
        StillUnminted(w, step, id);
        RequestLater(w, t, w.requests[id]);
      } else {
        RequestChanged(w, step, id);
      }
    }
  }

  lemma StillUnminted(w: World, step: Step, id: nat)
    requires Inv(w) && id in w.requests && id in Next(w, step).requests && Next(w, step).requests[id] == w.requests[id]
    ensures !w.requests[id].stage.Committed? ==> w.requests[id].secret !in Next(w, step).mints
  {
    hide Ledger, OneSigEach, MayHold, WrapsOk, BrowserOk, TickOk, RowsEvolve, RoomAfter, TicksAfter, BrowsersAfter,
      WrapsForSurvivors, Recipients, ListOk, RekeyOutcome;
    assert RequestOk(w, w.requests[id]);
  }

  lemma RequestChanged(w: World, step: Step, id: nat)
    requires Inv(w) && Enabled(w, step) && id in Next(w, step).requests
    requires id !in w.requests || Next(w, step).requests[id] != w.requests[id]
    ensures RequestOk(Next(w, step), Next(w, step).requests[id])
  {
    hide Ledger, OneSigEach, OneSecretEach, Later, MayHold, WrapsOk, BrowserOk, TickOk, RowsEvolve, RequestOk,
      WrapsForSurvivors, TicksAfter, BrowsersAfter, RoomAfter, RekeyOutcome, ListOk;
    var t := Next(w, step);
    NextIsLater(w, step);
    match step
    case StartRekey(_, box, target, wraps, secret) =>
      SentOk(w, t, step);
    case CheckCreator(_) =>
      StillSecret(w, step, id);
      RequestLater(w, t, w.requests[id]);
      AuthorizedOk(w, t, w.requests[id]);
    case CommitRekey(_, _) =>
      CommitIsSafe(w, step);
      CommitFacts(w, step);
      CommittedOk(w, t, w.requests[id], w.room.epoch + 1);
    case _ => assert false;
  }

  lemma StillSecret(w: World, step: Step, id: nat)
    requires Inv(w) && step.CheckCreator? && id in w.requests && w.requests[id].stage.Sent?
    ensures w.requests[id].secret !in Next(w, step).mints
  {
    assert RequestOk(w, w.requests[id]);
    hide Enabled, RoomAfter, BrowsersAfter, TicksAfter, RequestsAfter;
  }

  lemma SentOk(w: World, t: World, step: Step)
    requires Inv(w) && Later(w, t) && t.mints == w.mints && step.StartRekey? && Enabled(w, step)
    ensures RequestOk(t, Request(step.box, step.target, step.wraps, step.secret, w.browsers[step.box].cache.value, Sent))
  {
    assert BrowserOk(w, step.box, w.browsers[step.box]);
    ListLater(w, t, step.box, w.browsers[step.box].cache.value);
    hide ListOk, WrapsForSurvivors, Later;
  }

  /** Whoever passes the creator check is active now, so was active in the older list its request was
      built from, and is not its own target: it is among its own recipients. */
  lemma AuthorizedOk(w: World, t: World, r: Request)
    requires Inv(w) && RequestOk(w, r) && RequestOk(t, r) && r.stage.Sent? && r.box in w.room.rows
    requires IsCreatorBySig(w.room.rows, w.room.rows[r.box].sig)
    ensures RequestOk(t, r.(stage := Authorized))
  {
    hide Ledger, OneSecretEach, BrowserOk, TickOk, WrapsOk;
    var b :| b in w.room.rows && w.room.rows[b].sig == w.room.rows[r.box].sig && w.room.rows[b].invitedBy.None? &&
             w.room.rows[b].Active();
    assert b == r.box;
    assert r.box in r.members && RowEvolves(r.members[r.box], w.room.rows[r.box]);
    assert r.box in ActiveBoxes(r.members);
    hide ListOk, IsCreatorBySig, ActiveBoxes;
  }

  lemma CommittedOk(w: World, t: World, r: Request, epoch: nat)
    requires RequestOk(w, r) && Later(w, t) && MayHold(t, r.box, r.secret)
    ensures RequestOk(t, r.(stage := Committed(epoch)))
  {
    ListLater(w, t, r.box, r.members);
    hide ListOk, MayHold, Later, WrapsForSurvivors;
  }

  lemma NextKeepsInv(w: World, step: Step)
    requires Inv(w)
    ensures Inv(Next(w, step)) && Later(w, Next(w, step))
  {
    NextIsLater(w, step);
    RowsStep(w, step);
    BrowsersStep(w, step);
    TicksStep(w, step);
    RequestsStep(w, step);
    hide Next, Later, Ledger, OneSigEach, OneSecretEach, WrapsOk, BrowserOk, TickOk, RequestOk;
  }

  // ---------- Whole runs ----------

  lemma LaterTransitive(a: World, b: World, c: World)
    requires Later(a, b) && Later(b, c)
    ensures Later(a, c)
  {
    RowsEvolveTransitive(a.room.rows, b.room.rows, c.room.rows);
    hide RowsEvolve;
  }

  lemma {:induction false} ExecKeepsInv(w: World, steps: seq<Step>)
    requires Inv(w)
    ensures Inv(Exec(w, steps)) && Later(w, Exec(w, steps))
    decreases |steps|
  {
    EvolvesReflexive(w.room);
    hide Inv, Next, RowsEvolve;
    if |steps| > 0 {
      var t := Next(w, steps[0]);
      NextKeepsInv(w, steps[0]);
      ExecKeepsInv(t, steps[1..]);
      LaterTransitive(w, t, Exec(w, steps));
    }
  }

  lemma StartInv(box: Key, sig: Key, secret: Secret, date: int)
    ensures Inv(Start(box, sig, secret, date))
  {
    var w := Start(box, sig, secret, date);
    assert w.log[0] == w.room && box in ActiveBoxes(w.log[0].rows);
    assert MayHold(w, box, secret);
  }

  /** Key-holding safety: in every run of creating, joining, polling, granting, adopting, leaving and
      rekeying, with any number of polls and rekeys interleaved step by step, every key in a
      browser's history and every key sealed in a member's row was minted for an epoch at or after
      the start of which that box had an active row, and a row's wrap is sealed to its own box. */
  lemma HoldersWerePresent(box: Key, sig: Key, secret: Secret, date: int, steps: seq<Step>)
    ensures var w := Exec(Start(box, sig, secret, date), steps);
            && (forall b, k | b in w.browsers && k in w.browsers[b].stored.keys :: MayHold(w, b, k))
            && WrapsOk(w, w.room.rows)
  {
    StartInv(box, sig, secret, date);
    ExecKeepsInv(Start(box, sig, secret, date), steps);
    var w := Exec(Start(box, sig, secret, date), steps);
    hide Exec, Start, MayHold, Ledger, OneSigEach, OneSecretEach, RequestOk, TickOk;
    forall b, k | b in w.browsers && k in w.browsers[b].stored.keys ensures MayHold(w, b, k) {
      assert BrowserOk(w, b, w.browsers[b]);
    }
  }

  /** Since the epoch began the box has not been active, and it never will be again. */
  ghost predicate Gone(w: World, box: Key, epoch: nat)
  {
    && box in w.room.rows && !w.room.rows[box].Active() && !Present(w.log, box, epoch)
  }

  lemma NextKeepsGone(w: World, step: Step, box: Key, epoch: nat)
    requires Inv(w) && Gone(w, box, epoch)
    ensures Gone(Next(w, step), box, epoch)
  {
    hide Ledger, OneSigEach, OneSecretEach, WrapsOk, BrowserOk, TickOk, RequestOk, Enabled, BrowsersAfter, TicksAfter,
      RequestsAfter, Commits, RoomAfter;
    NextIsLater(w, step);
    var t := Next(w, step);
    assert RowEvolves(w.room.rows[box], t.room.rows[box]);
    forall m | 0 <= m < |t.log| && t.log[m].epoch >= epoch ensures box !in ActiveBoxes(t.log[m].rows) {
      if m < |w.log| {
        assert w.log[m] == t.log[m];
      }
    }
  }

  lemma {:induction false} ExecKeepsGone(w: World, steps: seq<Step>, box: Key, epoch: nat)
    requires Inv(w) && Gone(w, box, epoch)
    ensures Gone(Exec(w, steps), box, epoch)
    decreases |steps|
  {
    if |steps| > 0 {
      NextKeepsInv(w, steps[0]);
      NextKeepsGone(w, steps[0], box, epoch);
      hide Inv, Gone, Next, Later;
      ExecKeepsGone(Next(w, steps[0]), steps[1..], box, epoch);
    }
  }

  lemma TargetIsRemoved(room: Room, target: Key, wraps: Wraps, date: int)
    requires RekeyOutcome(room, target, wraps, date).Rekeyed? && DistinctRecipients(wraps)
    ensures var rows := RemoveAndRekey(room, target, wraps, date).rows; target in rows && !rows[target].Active()
  {
    RekeyExact(room, target, wraps, date);
  }

  /** A rekey that commits leaves its target gone since the epoch it begins. */
  lemma CommitRemoves(w: World, step: Step)
    requires Inv(w) && Enabled(w, step) && Commits(w, step)
    ensures Gone(Next(w, step), w.requests[step.id].target, w.room.epoch + 1)
  {
    hide BrowserOk, TickOk, WrapsOk, OneSigEach, OneSecretEach, Enabled, BrowsersAfter, TicksAfter, RequestsAfter,
      RemoveAndRekey, RekeyOutcome, Recipients, ActiveBoxes, RoomAfter, ListOk, Commits;
    CommitFacts(w, step);
    var r, t := w.requests[step.id], Next(w, step);
    TargetIsRemoved(w.room, r.target, r.wraps, step.date);
    InactiveSince(w, t, r.target);
  }

  lemma InactiveSince(w: World, t: World, box: Key)
    requires Ledger(w) && t.log == w.log + [t.room] && box in t.room.rows && !t.room.rows[box].Active()
    ensures !Present(t.log, box, w.room.epoch + 1)
  {
    forall m | 0 <= m < |w.log| ensures t.log[m].epoch < w.room.epoch + 1 {
      assert w.log[m] == t.log[m];
    }
  }

  /** So a box removed by a rekey never holds a later epoch's key: whatever happens afterwards, every
      key in its history was minted for an epoch before the one its removal began, and so was the
      key sealed in its row. */
  lemma RemovedNeverHoldLaterKeys(box: Key, sig: Key, secret: Secret, date: int, before: seq<Step>, rekey: Step,
                                  after: seq<Step>)
    requires var w := Exec(Start(box, sig, secret, date), before); Enabled(w, rekey) && Commits(w, rekey)
    ensures var w := Exec(Start(box, sig, secret, date), before);
            var t := Exec(Next(w, rekey), after);
            var target := w.requests[rekey.id].target;
            && (target in t.browsers ==>
                  forall k | k in t.browsers[target].stored.keys :: k in t.mints && t.mints[k] < w.room.epoch + 1)
            && target in t.room.rows
            && (t.room.rows[target].wrapped.Some? ==>
                  var k := t.room.rows[target].wrapped.value.secret; k in t.mints && t.mints[k] < w.room.epoch + 1)
  {
    var w0 := Start(box, sig, secret, date);
    StartInv(box, sig, secret, date);
    ExecKeepsInv(w0, before);
    var w := Exec(w0, before);
    NextKeepsInv(w, rekey);
    CommitRemoves(w, rekey);
    var target := w.requests[rekey.id].target;
    var t := Exec(Next(w, rekey), after);
    ExecKeepsInv(Next(w, rekey), after);
    ExecKeepsGone(Next(w, rekey), after, target, w.room.epoch + 1);
    GoneHoldsNothingLater(t, target, w.room.epoch + 1);
  }

  lemma GoneHoldsNothingLater(t: World, box: Key, epoch: nat)
    requires Inv(t) && Gone(t, box, epoch)
    ensures box in t.browsers ==> forall k | k in t.browsers[box].stored.keys :: k in t.mints && t.mints[k] < epoch
    ensures t.room.rows[box].wrapped.Some? ==>
              var k := t.room.rows[box].wrapped.value.secret; k in t.mints && t.mints[k] < epoch
  {
    hide Ledger, OneSigEach, OneSecretEach, TickOk, RequestOk;
    if box in t.browsers {
      assert BrowserOk(t, box, t.browsers[box]);
      forall k | k in t.browsers[box].stored.keys ensures k in t.mints && t.mints[k] < epoch {
        assert MayHold(t, box, k);
        HeldBefore(t, box, k, epoch);
      }
    }
    if t.room.rows[box].wrapped.Some? {
      HeldBefore(t, box, t.room.rows[box].wrapped.value.secret, epoch);
    }
  }

  lemma HeldBefore(t: World, box: Key, key: Secret, epoch: nat)
    requires MayHold(t, box, key) && !Present(t.log, box, epoch)
    ensures t.mints[key] < epoch
  {
    var m :| 0 <= m < |t.log| && t.log[m].epoch >= t.mints[key] && box in ActiveBoxes(t.log[m].rows);
  }

  lemma LeaveRemoves(w: World, box: Key, date: int)
    requires Inv(w) && Enabled(w, Step.Leave(box, date))
    ensures Gone(Next(w, Step.Leave(box, date)), box, w.room.epoch + 1)
  {
    hide TickOk, WrapsOk, RequestOk, OneSigEach, OneSecretEach, Present, AllMayHold, ListOk;
    assert BrowserOk(w, box, w.browsers[box]);
    InactiveSince(w, Next(w, Step.Leave(box, date)), box);
  }

  /** Nor does a box that left: whatever happens afterwards, every key in its browser's history and the one
      sealed in its row was minted for an epoch that had begun when it left. */
  lemma LeaverNeverHoldsLaterKeys(box: Key, sig: Key, secret: Secret, date: int, before: seq<Step>, leaver: Key,
                                  day: int, after: seq<Step>)
    requires leaver in Exec(Start(box, sig, secret, date), before).browsers
    ensures var w := Exec(Start(box, sig, secret, date), before);
            var t := Exec(Next(w, Step.Leave(leaver, day)), after);
            && (leaver in t.browsers ==>
                  forall k | k in t.browsers[leaver].stored.keys :: k in t.mints && t.mints[k] <= w.room.epoch)
            && leaver in t.room.rows
            && (t.room.rows[leaver].wrapped.Some? ==>
                  var k := t.room.rows[leaver].wrapped.value.secret; k in t.mints && t.mints[k] <= w.room.epoch)
  {
    hide Exec, Inv, Gone, Start, Next;
    var w0 := Start(box, sig, secret, date);
    StartInv(box, sig, secret, date);
    ExecKeepsInv(w0, before);
    var w := Exec(w0, before);
    NextKeepsInv(w, Step.Leave(leaver, day));
    LeaveRemoves(w, leaver, day);
    ExecKeepsInv(Next(w, Step.Leave(leaver, day)), after);
    ExecKeepsGone(Next(w, Step.Leave(leaver, day)), after, leaver, w.room.epoch + 1);
    GoneHasARow(Exec(Next(w, Step.Leave(leaver, day)), after), leaver, w.room.epoch + 1);
    GoneHoldsNothingLater(Exec(Next(w, Step.Leave(leaver, day)), after), leaver, w.room.epoch + 1);
  }

  lemma GoneHasARow(t: World, box: Key, epoch: nat)
    requires Gone(t, box, epoch)
    ensures box in t.room.rows
  {
  }

  // ---------- A browser that forgets the room, and an answer that is taken ----------

  /** The box has a row and no browser holds anything for it. */
  ghost predicate Forgotten(w: World, box: Key) { box in w.room.rows && box !in w.browsers }

  lemma StaysForgotten(w: World, step: Step, box: Key)
    requires Inv(w) && Forgotten(w, box)
    ensures Forgotten(Next(w, step), box)
  {
    NextIsLater(w, step);
    hide Inv, Later, RoomAfter, TicksAfter, RequestsAfter, Commits, Append, OwnWrap, WrapsForSurvivors, Unused;
    hide IsCreatorBySig;
    RowsStayListed(w, Next(w, step), box);
  }

  lemma RowsStayListed(w: World, t: World, box: Key)
    requires Later(w, t) && box in w.room.rows
    ensures box in t.room.rows
  {
  }

  /** A browser that forgets the room never holds a key of it again: a join takes a new box. */
  lemma ForgottenForGood(w: World, box: Key, after: seq<Step>)
    requires Inv(w) && box in w.browsers
    ensures box !in Exec(Next(w, Forget(box)), after).browsers
  {
    assert Forgotten(Next(w, Forget(box)), box) by { assert BrowserOk(w, box, w.browsers[box]); }
    NextKeepsInv(w, Forget(box));
    hide Inv, Next, BrowserOk;
    ForgottenRun(Next(w, Forget(box)), after, box);
  }

  lemma {:induction false} ForgottenRun(w: World, steps: seq<Step>, box: Key)
    requires Inv(w) && Forgotten(w, box)
    ensures Forgotten(Exec(w, steps), box)
    decreases |steps|
  {
    if |steps| > 0 {
      NextKeepsInv(w, steps[0]);
      StaysForgotten(w, steps[0], box);
      hide Inv, Next, Forgotten, Later;
      ForgottenRun(Next(w, steps[0]), steps[1..], box);
    }
  }

  /** The answer to a rekey is taken once, by the browser that asked: it has the new key, seen with the epoch
      the rekey began, beside what it had; no other browser, no poll and no row has changed. */
  lemma AnswerIsTakenOnce(w: World, id: nat)
    requires Enabled(w, AckRekey(id))
    ensures var t, r := Next(w, AckRekey(id)), w.requests[id];
            && id !in t.requests && !Enabled(t, AckRekey(id)) && r.stage.Committed?
            && t.room == w.room && t.ticks == w.ticks && t.browsers.Keys == w.browsers.Keys
            && (forall b | b in w.browsers && b != r.box :: t.browsers[b] == w.browsers[b])
            && r.box in t.browsers && w.browsers[r.box].stored.keys <= t.browsers[r.box].stored.keys
            && r.secret in t.browsers[r.box].stored.keys && t.browsers[r.box].stored.lastEpoch >= r.stage.epoch
            && (r.secret !in w.browsers[r.box].stored.keys ==>
                  t.browsers[r.box].stored.keys == w.browsers[r.box].stored.keys + [r.secret])
  {
    hide WrapsForSurvivors, Unused, NewcomerKeys, IsCreatorBySig;
  }

  /** Whoever has a rekey under way holds a room key, as long as its browser keeps the room. */
  ghost predicate RekeyersHoldKeys(w: World)
  {
    forall id | id in w.requests && w.requests[id].box in w.browsers ::
      |w.browsers[w.requests[id].box].stored.keys| > 0
  }

  lemma HoldersStay(w: World, step: Step, box: Key)
    requires box in w.room.rows && box in w.browsers && |w.browsers[box].stored.keys| > 0
    ensures box in Next(w, step).browsers ==> |Next(w, step).browsers[box].stored.keys| > 0
  {
    hide RoomAfter, TicksAfter, RequestsAfter, Commits, OwnWrap, WrapsForSurvivors, Unused, IsCreatorBySig;
  }

  lemma OnlyHoldersStart(w: World, step: Step, id: nat)
    requires id in Next(w, step).requests
    ensures var t := Next(w, step);
            || (id in w.requests && w.requests[id].box == t.requests[id].box)
            || (t.browsers == w.browsers && t.requests[id].box in w.browsers &&
                |w.browsers[t.requests[id].box].stored.keys| > 0)
  {
    hide RoomAfter, TicksAfter, Commits, OwnWrap, WrapsForSurvivors, Unused, IsCreatorBySig;
  }

  lemma ForgottenIsNotBack(w: World, step: Step, box: Key)
    requires box in w.room.rows && box in Next(w, step).browsers
    ensures box in w.browsers
  {
    hide RoomAfter, TicksAfter, RequestsAfter, Commits, OwnWrap, WrapsForSurvivors, Unused, IsCreatorBySig;
  }

  lemma RekeyersStep(w: World, step: Step)
    requires Inv(w) && RekeyersHoldKeys(w)
    ensures RekeyersHoldKeys(Next(w, step))
  {
    hide Inv, Next;
    var t := Next(w, step);
    forall id | id in t.requests && t.requests[id].box in t.browsers
      ensures |t.browsers[t.requests[id].box].stored.keys| > 0
    {
      OnlyHoldersStart(w, step, id);
      if id in w.requests && w.requests[id].box == t.requests[id].box {
        RequesterIsListed(w, id);
        ForgottenIsNotBack(w, step, t.requests[id].box);
        HoldersStay(w, step, t.requests[id].box);
      }
    }
  }

  lemma RequesterIsListed(w: World, id: nat)
    requires Inv(w) && id in w.requests
    ensures w.requests[id].box in w.room.rows
  {
    assert RequestOk(w, w.requests[id]);
  }

  lemma {:induction false} RekeyersRun(w: World, steps: seq<Step>)
    requires Inv(w) && RekeyersHoldKeys(w)
    ensures RekeyersHoldKeys(Exec(w, steps))
    decreases |steps|
  {
    if |steps| > 0 {
      NextKeepsInv(w, steps[0]);
      RekeyersStep(w, steps[0]);
      hide Inv, Next, RekeyersHoldKeys, Later;
      RekeyersRun(Next(w, steps[0]), steps[1..]);
    }
  }

  /** In every run of a new room, only browsers that hold a key of it ask for a rekey. */
  lemma OnlyHoldersRekey(box: Key, sig: Key, secret: Secret, date: int, steps: seq<Step>)
    ensures RekeyersHoldKeys(Exec(Start(box, sig, secret, date), steps))
  {
    StartInv(box, sig, secret, date);
    RekeyersRun(Start(box, sig, secret, date), steps);
    hide Exec, RekeyersHoldKeys;
  }
}
