/** Whole polls, with nothing between their steps: what one comes to, runs from a new room up to a rekey,
    and the runs in which polling never brings a member the new key. */
module Polling {
  import opened Bytes
  import opened KeyStore
  import opened Rooms
  import opened RoomRuns
  import opened KeyHolding
  import opened Convergence

  function GrantSteps(id: nat, pending: seq<Key>): seq<Step>
  {
    if |pending| == 0 then [] else [GrantOne(id, pending[0])] + GrantSteps(id, pending[1..])
  }

  /** One whole poll: read the list and the epoch, grant to the pending members given, adopt. */
  function PollAs(id: nat, box: Key, pending: seq<Key>): seq<Step>
  {
    [StartTick(id, box), ListMembers(id), ReadEpoch(id)] + GrantSteps(id, pending) + [Adopt(id), EndTick(id)]
  }

  function PollSteps(box: Key, pending: seq<Key>): seq<Step> { PollAs(0, box, pending) }

  ghost function Poll(w: World, box: Key, pending: seq<Key>): World { Exec(w, PollSteps(box, pending)) }

  // ---------- What a poll comes to ----------

  predicate CanBeGranted(list: Rows, me: Key, forBox: Key)
  {
    forBox in list && list[forBox].Active() && !list[forBox].Accepted() && forBox != me
  }

  /** The rows after one browser's grants, from the list it read. */
  function GrantedRows(rows: Rows, list: Rows, me: Key, keys: seq<Secret>, pending: seq<Key>): Rows
    decreases |pending|
  {
    if |pending| == 0 then rows
    else GrantedRows(if |keys| > 0 && CanBeGranted(list, me, pending[0])
                     then GrantWrap(rows, pending[0], Sealed(pending[0], keys[|keys| - 1]), me) else rows,
                     list, me, keys, pending[1..])
  }

  /** The key history after a poll that found these rows and this epoch. */
  function Polled(s: Stored, rows: Rows, me: Key, epoch: nat): Stored
  {
    if me in rows && rows[me].wrapped.Some? && rows[me].wrapped.value.recipient == me &&
       (|s.keys| == 0 || epoch > s.lastEpoch)
    then Append(s, rows[me].wrapped.value.secret, epoch)
    else s
  }

  lemma ExecOne(w: World, a: Step)
    ensures Exec(w, [a]) == Next(w, a)
  {
    hide Next;
    assert [a][1..] == [];
  }

  lemma ExecTwo(w: World, a: Step, b: Step)
    ensures Exec(w, [a, b]) == Next(Next(w, a), b)
  {
    hide Next;
    assert [a, b][1..] == [b];
    assert Exec(Next(w, a), [b]) == Next(Next(w, a), b);
  }

  lemma ExecThreeMore(w: World, a: Step, b: Step, c: Step, rest: seq<Step>)
    ensures Exec(w, [a, b, c] + rest) == Exec(Next(Next(Next(w, a), b), c), rest)
  {
    hide Next;
    assert ([a, b, c] + rest)[1..] == [b, c] + rest && ([b, c] + rest)[1..] == [c] + rest && ([c] + rest)[1..] == rest;
    assert Exec(Next(Next(w, a), b), [c] + rest) == Exec(Next(Next(Next(w, a), b), c), rest);
    assert Exec(Next(w, a), [b, c] + rest) == Exec(Next(Next(w, a), b), [c] + rest);
  }

  lemma GrantComesTo(w: World, id: nat, forBox: Key)
    requires id in w.ticks && w.ticks[id].ready && w.ticks[id].members.Some?
    ensures var u, tick := Next(w, GrantOne(id, forBox)), w.ticks[id];
            && u.browsers == w.browsers && u.ticks == w.ticks && u.requests == w.requests && u.mints == w.mints
            && u.room == w.room.(rows :=
                 if |tick.keys| > 0 && CanBeGranted(tick.members.value, tick.box, forBox)
                 then GrantWrap(w.room.rows, forBox, Sealed(forBox, tick.keys[|tick.keys| - 1]), tick.box)
                 else w.room.rows)
  {
  }

  lemma {:induction false} GrantsComeTo(w: World, id: nat, pending: seq<Key>)
    requires id in w.ticks && w.ticks[id].ready && w.ticks[id].members.Some?
    ensures var t, tick := Exec(w, GrantSteps(id, pending)), w.ticks[id];
            && t.browsers == w.browsers && t.ticks == w.ticks && t.requests == w.requests && t.mints == w.mints
            && t.room == w.room.(rows := GrantedRows(w.room.rows, tick.members.value, tick.box, tick.keys, pending))
    decreases |pending|
  {
    if |pending| > 0 {
      var u := Next(w, GrantOne(id, pending[0]));
      GrantComesTo(w, id, pending[0]);
      hide Next, GrantWrap;
      GrantsComeTo(u, id, pending[1..]);
      assert GrantSteps(id, pending)[1..] == GrantSteps(id, pending[1..]);
    }
  }

  lemma TickStarts(w: World, id: nat, box: Key)
    requires id !in w.ticks && box in w.browsers
    ensures var t, s := Next(w, StartTick(id, box)), w.browsers[box].stored;
            && t.ticks == w.ticks[id := Tick(box, s.keys, s.lastEpoch, None, false)]
            && t.room == w.room && t.browsers == w.browsers && t.requests == w.requests && t.mints == w.mints
  {
  }

  lemma MembersAreListed(w: World, id: nat)
    requires id in w.ticks && w.ticks[id].members.None?
    ensures var t := Next(w, ListMembers(id));
            && t.ticks == w.ticks[id := w.ticks[id].(members := Some(w.room.rows))]
            && t.room == w.room && t.browsers == w.browsers && t.requests == w.requests && t.mints == w.mints
  {
  }

  lemma EpochIsRead(w: World, id: nat)
    requires id in w.ticks && w.ticks[id].members.Some? && !w.ticks[id].ready && w.ticks[id].box in w.browsers
    ensures var t, box := Next(w, ReadEpoch(id)), w.ticks[id].box;
            && t.room == w.room && t.requests == w.requests && t.mints == w.mints
            && t.ticks == w.ticks[id := w.ticks[id].(ready := true)]
            && t.browsers == w.browsers[box :=
                 w.browsers[box].(cache := w.ticks[id].members, currentEpoch := w.room.epoch)]
  {
  }

  /** Of a poll whose browser's disk is as it was when it began. */
  lemma AdoptComesTo(w: World, id: nat)
    requires id in w.ticks && w.ticks[id].ready && w.ticks[id].members.Some? && w.ticks[id].box in w.browsers
    requires w.ticks[id].keys == w.browsers[w.ticks[id].box].stored.keys
    requires w.ticks[id].last == w.browsers[w.ticks[id].box].stored.lastEpoch
    ensures var t, tick := Next(w, Adopt(id)), w.ticks[id];
            var b := w.browsers[tick.box];
            && t.room == w.room && t.requests == w.requests && t.mints == w.mints && t.ticks == w.ticks
            && t.browsers == w.browsers[tick.box :=
                 b.(stored := Polled(b.stored, tick.members.value, tick.box, b.currentEpoch))]
  {
  }

  lemma TickEnds(w: World, id: nat)
    ensures var t := Next(w, EndTick(id));
            && t.room == w.room && t.requests == w.requests && t.mints == w.mints && t.browsers == w.browsers
            && t.ticks == w.ticks - {id}
  {
  }

  lemma PollBegins(w: World, id: nat, box: Key)
    requires id !in w.ticks && box in w.browsers
    ensures var u := Exec(w, [StartTick(id, box), ListMembers(id), ReadEpoch(id)]);
            var s := w.browsers[box].stored;
            && u.room == w.room && u.requests == w.requests && u.mints == w.mints
            && u.ticks == w.ticks[id := Tick(box, s.keys, s.lastEpoch, Some(w.room.rows), true)]
            && u.browsers == w.browsers[box :=
                 w.browsers[box].(cache := Some(w.room.rows), currentEpoch := w.room.epoch)]
  {
    hide Next;
    TickStarts(w, id, box);
    MembersAreListed(Next(w, StartTick(id, box)), id);
    EpochIsRead(Next(Next(w, StartTick(id, box)), ListMembers(id)), id);
    ExecThreeMore(w, StartTick(id, box), ListMembers(id), ReadEpoch(id), []);
    var first := [StartTick(id, box), ListMembers(id), ReadEpoch(id)];
    assert first + [] == first;
  }

  lemma PollEnds(w: World, id: nat)
    requires id in w.ticks && w.ticks[id].ready && w.ticks[id].members.Some? && w.ticks[id].box in w.browsers
    requires w.ticks[id].keys == w.browsers[w.ticks[id].box].stored.keys
    requires w.ticks[id].last == w.browsers[w.ticks[id].box].stored.lastEpoch
    ensures var t, tick := Exec(w, [Adopt(id), EndTick(id)]), w.ticks[id];
            var b := w.browsers[tick.box];
            && t.room == w.room && t.requests == w.requests && t.mints == w.mints && t.ticks == w.ticks - {id}
            && t.browsers == w.browsers[tick.box :=
                 b.(stored := Polled(b.stored, tick.members.value, tick.box, b.currentEpoch))]
  {
    hide Next, Polled;
    AdoptComesTo(w, id);
    TickEnds(Next(w, Adopt(id)), id);
    ExecTwo(w, Adopt(id), EndTick(id));
  }

  lemma PollInThree(w: World, id: nat, box: Key, pending: seq<Key>)
    ensures Exec(w, PollAs(id, box, pending)) ==
            Exec(Exec(Exec(w, [StartTick(id, box), ListMembers(id), ReadEpoch(id)]), GrantSteps(id, pending)),
                 [Adopt(id), EndTick(id)])
  {
    var first := [StartTick(id, box), ListMembers(id), ReadEpoch(id)];
    var last := [Adopt(id), EndTick(id)];
    assert PollAs(id, box, pending) == first + (GrantSteps(id, pending) + last);
    hide Next, Exec, PollAs;
    ExecConcat(w, first, GrantSteps(id, pending) + last);
    ExecConcat(Exec(w, first), GrantSteps(id, pending), last);
  }

  /** A whole poll, in one line, whatever other polls are under way: its browser's history becomes `Polled`
      of what the server showed, and the pending members it names are granted the last key it held when it
      began. */
  lemma PollComesTo(w: World, id: nat, box: Key, pending: seq<Key>)
    requires id !in w.ticks && box in w.browsers && box in w.room.rows
    ensures var t, b := Exec(w, PollAs(id, box, pending)), w.browsers[box];
            && t.ticks == w.ticks && t.requests == w.requests && t.mints == w.mints
            && t.room == w.room.(rows := GrantedRows(w.room.rows, w.room.rows, box, b.stored.keys, pending))
            && t.browsers == w.browsers[box := Browser(b.sig, Polled(b.stored, w.room.rows, box, w.room.epoch),
                                                       Some(w.room.rows), w.room.epoch)]
  {
    hide Next, Polled, GrantedRows, PollAs, Exec, GrantSteps;
    PollInThree(w, id, box, pending);
    PollBegins(w, id, box);
    var u := Exec(w, [StartTick(id, box), ListMembers(id), ReadEpoch(id)]);
    GrantsComeTo(u, id, pending);
    PollEnds(Exec(u, GrantSteps(id, pending)), id);
    assert w.ticks[id := u.ticks[id]] - {id} == w.ticks;
  }

  // ---------- Up to a rekey ----------

  /** Who takes part in the runs below: a creator, two who join before the rekey, one of whom it
      removes, and one who joins after it; the first key and the one the rekey brings. */
  datatype Cast = Cast(creator: Key, creatorSig: Key, survivor: Key, survivorSig: Key, target: Key, targetSig: Key,
                       late: Key, lateSig: Key, first: Secret, second: Secret, date: int)
  {
    predicate Apart()
    {
      && creator != survivor && creator != target && creator != late
      && survivor != target && survivor != late && target != late
      && creatorSig != survivorSig && creatorSig != targetSig && creatorSig != lateSig
      && survivorSig != targetSig && survivorSig != lateSig && targetSig != lateSig && first != second
    }

    function Room(): World { Start(creator, creatorSig, first, date) }

    function Joins(): seq<Step> { [Step.Join(survivor, survivorSig, date), Step.Join(target, targetSig, date)] }

    function Polls(): seq<Step> { PollSteps(creator, [survivor]) + PollSteps(survivor, []) }

    function Wraps(): Wraps { [(creator, Sealed(creator, second)), (survivor, Sealed(survivor, second))] }

    function Asks(): seq<Step> { [StartRekey(0, creator, target, Wraps(), second), CheckCreator(0)] }

    /** Both join, the survivor is granted and takes the first key, and the request to remove the
        other has passed its check. */
    function UpToRekey(): seq<Step> { Joins() + Polls() + Asks() }

    function Rekey(): Step { CommitRekey(0, date) }
  }

  /** The three members' rows, with what the survivor's holds. */
  ghost predicate Three(rows: Rows, c: Cast, survivorWrap: Option<Sealed>)
  {
    && rows.Keys == {c.creator, c.survivor, c.target} == ActiveBoxes(rows)
    && rows[c.creator].sig == c.creatorSig && rows[c.survivor].sig == c.survivorSig && rows[c.target].sig == c.targetSig
    && rows[c.creator].invitedBy.None? && rows[c.creator].wrapped == Some(Sealed(c.creator, c.first))
    && rows[c.survivor].wrapped == survivorWrap
  }

  predicate Hold(w: World, c: Cast, survivorKeys: seq<Secret>)
  {
    && c.creator in w.browsers && w.browsers[c.creator].stored == Stored([c.first], 0)
    && c.survivor in w.browsers && w.browsers[c.survivor].stored == Stored(survivorKeys, 0)
  }

  predicate Idle(w: World) { w.ticks == map[] && w.requests == map[] }

  lemma OneJoins(w: World, box: Key, sig: Key, date: int)
    requires NewcomerKeys(w.room.rows, box, sig)
    ensures var t := Next(w, Step.Join(box, sig, date));
            && t.ticks == w.ticks && t.requests == w.requests && t.mints == w.mints && t.room.epoch == w.room.epoch
            && t.room.rows == w.room.rows[box := Row(sig, None, date, None, None, |w.room.rows|)]
            && t.browsers == w.browsers[box := Browser(sig, Stored([], 0), None, 0)]
  {
  }

  lemma StillNewcomer(rows: Rows, after: Rows, box: Key, target: Key, targetSig: Key)
    requires NewcomerKeys(rows, target, targetSig) && box in after && after == rows[box := after[box]]
    requires box != target && after[box].sig != targetSig
    ensures NewcomerKeys(after, target, targetSig)
  {
  }

  lemma JoinedRows(c: Cast, rows: Rows)
    requires c.Apart()
    requires rows == map[c.creator := Row(c.creatorSig, Some(Sealed(c.creator, c.first)), c.date, None, None, 0),
                         c.survivor := Row(c.survivorSig, None, c.date, None, None, 1),
                         c.target := Row(c.targetSig, None, c.date, None, None, 2)]
    ensures Three(rows, c, None)
  {
  }

  lemma RoomIsNew(c: Cast)
    requires c.Apart()
    ensures var w := c.Room();
            && Idle(w) && w.mints == map[c.first := 0] && w.room.epoch == 0
            && w.room.rows ==
                 map[c.creator := Row(c.creatorSig, Some(Sealed(c.creator, c.first)), c.date, None, None, 0)]
            && w.browsers == map[c.creator := Browser(c.creatorSig, Stored([c.first], 0), None, 0)]
            && NewcomerKeys(w.room.rows, c.survivor, c.survivorSig) && NewcomerKeys(w.room.rows, c.target, c.targetSig)
  {
  }

  lemma BothJoin(c: Cast)
    requires c.Apart()
    ensures var t := Exec(c.Room(), c.Joins());
            && Idle(t) && t.mints == map[c.first := 0] && t.room.epoch == 0
            && Three(t.room.rows, c, None) && Hold(t, c, [])
  {
    hide Next, Exec, Three, PollAs, NewcomerKeys, Start;
    RoomIsNew(c);
    var w := c.Room();
    var first, second := Step.Join(c.survivor, c.survivorSig, c.date), Step.Join(c.target, c.targetSig, c.date);
    ExecTwo(w, first, second);
    OneJoins(w, c.survivor, c.survivorSig, c.date);
    var u := Next(w, first);
    StillNewcomer(w.room.rows, u.room.rows, c.survivor, c.target, c.targetSig);
    OneJoins(u, c.target, c.targetSig, c.date);
    JoinedRows(c, Next(u, second).room.rows);
  }

  lemma BothPoll(w: World, c: Cast)
    requires c.Apart() && Idle(w) && w.room.epoch == 0 && Three(w.room.rows, c, None) && Hold(w, c, [])
    ensures var t := Exec(w, c.Polls());
            && Idle(t) && t.mints == w.mints && t.room.epoch == 0
            && Three(t.room.rows, c, Some(Sealed(c.survivor, c.first))) && Hold(t, c, [c.first])
            && t.browsers[c.creator].cache == Some(w.room.rows)
  {
    hide PollAs, Next, Exec;
    ExecConcat(w, PollSteps(c.creator, [c.survivor]), PollSteps(c.survivor, []));
    var u := Poll(w, c.creator, [c.survivor]);
    PollComesTo(w, 0, c.creator, [c.survivor]);
    assert [c.survivor][1..] == [];
    assert u.room.rows == GrantWrap(w.room.rows, c.survivor, Sealed(c.survivor, c.first), c.creator);
    PollComesTo(u, 0, c.survivor, []);
  }

  lemma WrapsFit(room: Room, list: Rows, c: Cast)
    requires c.Apart() && ActiveBoxes(list) == ActiveBoxes(room.rows) == {c.creator, c.survivor, c.target}
    ensures WrapsForSurvivors(list, c.target, c.Wraps(), c.second) && Recipients(c.Wraps()) == {c.creator, c.survivor}
    ensures RekeyOutcome(room, c.target, c.Wraps(), c.date).Rekeyed?
  {
    var wraps := c.Wraps();
    assert wraps[0].0 == c.creator && wraps[1].0 == c.survivor;
    assert Recipients(wraps) == {c.creator, c.survivor} == ActiveBoxes(room.rows) - {c.target};
    RekeyExact(room, c.target, wraps, c.date);
  }

  lemma CheckPasses(u: World, creator: Key, date: int)
    requires u.requests.Keys == {0} && u.requests[0].stage.Sent? && u.requests[0].box == creator
    requires creator in u.room.rows && u.room.rows[creator].invitedBy.None? && u.room.rows[creator].Active()
    requires RekeyOutcome(u.room, u.requests[0].target, u.requests[0].wraps, date).Rekeyed?
    ensures var t := Next(u, CheckCreator(0));
            && t.ticks == u.ticks && t.requests == map[0 := u.requests[0].(stage := Authorized)]
            && t.room == u.room && t.browsers == u.browsers && t.mints == u.mints
            && Enabled(t, CommitRekey(0, date)) && Commits(t, CommitRekey(0, date))
  {
    hide RekeyOutcome;
    assert IsCreatorBySig(u.room.rows, u.room.rows[creator].sig);
    assert Next(u, CheckCreator(0)).requests == map[0 := u.requests[0].(stage := Authorized)];
  }

  /** The request is there, has passed its check and would commit. */
  ghost predicate Asked(w: World, c: Cast)
  {
    && w.requests.Keys == {0} && w.requests[0].stage == Authorized
    && w.requests[0].box == c.creator && w.requests[0].target == c.target
    && w.requests[0].wraps == c.Wraps() && w.requests[0].secret == c.second
    && Enabled(w, c.Rekey()) && Commits(w, c.Rekey())
  }

  lemma RequestSent(w: World, c: Cast, list: Rows)
    requires c.Apart() && w.requests == map[] && c.second !in w.mints && c.creator in w.browsers
    requires |w.browsers[c.creator].stored.keys| > 0 && w.browsers[c.creator].cache == Some(list)
    requires WrapsForSurvivors(list, c.target, c.Wraps(), c.second)
    ensures var u := Next(w, c.Asks()[0]);
            && u.requests == map[0 := Request(c.creator, c.target, c.Wraps(), c.second, list, Sent)]
            && u.ticks == w.ticks && u.room == w.room && u.browsers == w.browsers && u.mints == w.mints
  {
    hide WrapsForSurvivors;
  }

  /** Whatever polls are under way. */
  lemma RequestPasses(w: World, c: Cast, list: Rows)
    requires c.Apart() && w.requests == map[] && c.second !in w.mints && c.creator in w.browsers
    requires |w.browsers[c.creator].stored.keys| > 0 && w.browsers[c.creator].cache == Some(list)
    requires ActiveBoxes(list) == ActiveBoxes(w.room.rows) == {c.creator, c.survivor, c.target}
    requires c.creator in w.room.rows && w.room.rows[c.creator].invitedBy.None?
    ensures var t := Exec(w, c.Asks());
            && Asked(t, c) && t.room == w.room && t.browsers == w.browsers && t.ticks == w.ticks
            && t.mints == w.mints
  {
    hide WrapsForSurvivors, RekeyOutcome, Exec, Next, Enabled, Commits, Cast.Wraps;
    WrapsFit(w.room, list, c);
    ExecTwo(w, c.Asks()[0], c.Asks()[1]);
    RequestSent(w, c, list);
    assert c.creator in ActiveBoxes(w.room.rows);
    hide ActiveBoxes;
    CheckPasses(Next(w, c.Asks()[0]), c.creator, c.date);
  }

  /** A rekey as `RekeyConverges` and `RemovedNeverHoldLaterKeys` describe it is within reach of every
      new room, for any keys that are told apart. */
  lemma RekeyIsReachable(c: Cast)
    requires c.Apart()
    ensures var w := Exec(c.Room(), c.UpToRekey());
            && w.ticks == map[] && Asked(w, c) && w.room.epoch == 0
            && Three(w.room.rows, c, Some(Sealed(c.survivor, c.first)))
            && Hold(w, c, [c.first]) && NoKeyComing(w, c.survivor) && w.mints == map[c.first := 0]
  {
    hide Next, Exec, PollAs, Asked, Three, Hold;
    ExecConcat(c.Room(), c.Joins() + c.Polls(), c.Asks());
    ExecConcat(c.Room(), c.Joins(), c.Polls());
    BothJoin(c);
    var w := Exec(c.Room(), c.Joins());
    BothPoll(w, c);
    RequestPassesAfter(w, Exec(w, c.Polls()), c);
  }

  lemma RequestPassesAfter(w: World, t: World, c: Cast)
    requires c.Apart() && Three(w.room.rows, c, None) && Idle(t) && t.mints == map[c.first := 0]
    requires Three(t.room.rows, c, Some(Sealed(c.survivor, c.first))) && Hold(t, c, [c.first])
    requires t.browsers[c.creator].cache == Some(w.room.rows)
    ensures var a := Exec(t, c.Asks());
            && a.ticks == map[] && Asked(a, c) && a.room == t.room && Hold(a, c, [c.first])
            && NoKeyComing(a, c.survivor) && a.mints == t.mints
  {
    RequestPasses(t, c, w.room.rows);
    hide Exec, Enabled, Commits;
  }

  /** The moment after it commits. */
  ghost predicate Committed(u: World, c: Cast)
  {
    && u.ticks == map[] && u.requests.Keys == {0} && u.requests[0].box == c.creator && u.room.epoch == 1
    && u.mints == map[c.first := 0, c.second := 1]
    && u.room.rows.Keys == {c.creator, c.survivor, c.target} && ActiveBoxes(u.room.rows) == {c.creator, c.survivor}
    && u.room.rows[c.creator].sig == c.creatorSig && u.room.rows[c.survivor].sig == c.survivorSig
    && u.room.rows[c.target].sig == c.targetSig
    && u.room.rows[c.creator].wrapped == Some(Sealed(c.creator, c.second)) && u.room.rows[c.creator].invitedBy.None?
    && u.room.rows[c.survivor].wrapped == Some(Sealed(c.survivor, c.second)) && Hold(u, c, [c.first])
  }

  lemma RekeyCommits(c: Cast)
    requires c.Apart()
    ensures var u := Next(Exec(c.Room(), c.UpToRekey()), c.Rekey()); Committed(u, c) && Inv(u) && Bounded(u)
  {
    hide Inv, Bounded, Next, Exec, Start, Enabled, Commits, ActiveBoxes, RowsEvolve, Recipients,
      Cast.UpToRekey;
    RekeyIsReachable(c);
    var w := Exec(c.Room(), c.UpToRekey());
    CastIsSound(c, c.UpToRekey());
    var u := Next(w, c.Rekey());
    CommitParts(w, c.Rekey());
    CommittedRows(w, c.Rekey());
    WrapsFit(w.room, w.room.rows, c);
    NextKeepsInv(w, c.Rekey());
    NextKeepsBounded(w, c.Rekey());
    CommitKeepsSigs(w, c.Rekey());
    CommitMints(w, c.Rekey());
    assert c.creator in Recipients(c.Wraps()) && c.survivor in Recipients(c.Wraps());
  }

  lemma CommitKeepsSigs(w: World, step: Step)
    requires Inv(w) && Enabled(w, step) && Commits(w, step)
    ensures var t := Next(w, step);
            && t.room.rows.Keys == w.room.rows.Keys
            && forall b | b in w.room.rows ::
                 && t.room.rows[b].sig == w.room.rows[b].sig
                 && (w.room.rows[b].Accepted() ==> t.room.rows[b].invitedBy == w.room.rows[b].invitedBy)
  {
    hide Ledger, OneSigEach, OneSecretEach, WrapsOk, TickOk, BrowserOk, RemoveAndRekey, RekeyOutcome, Recipients,
      RoomAfter, Enabled, Commits, ListOk, RequestsAfter, TicksAfter, BrowsersAfter, ActiveBoxes;
    CommitFacts(w, step);
    var r := w.requests[step.id];
    RekeyedRows(w.room, r.members, r.target, r.wraps, r.secret, step.date);
    NextIsLater(w, step);
  }

  lemma CommitMints(w: World, step: Step)
    requires Enabled(w, step) && Commits(w, step)
    ensures step.CommitRekey? && step.id in w.requests
    ensures Next(w, step).mints == w.mints[w.requests[step.id].secret := w.room.epoch + 1]
  {
    hide RoomAfter, BrowsersAfter, TicksAfter, RequestsAfter, RekeyOutcome;
  }

  lemma CastIsSound(c: Cast, steps: seq<Step>)
    ensures Inv(Exec(c.Room(), steps)) && Bounded(Exec(c.Room(), steps))
  {
    RunIsSound(c.creator, c.creatorSig, c.first, c.date, steps);
  }

  /** Where `RekeyConverges` promises it: one poll of the survivor and it has the new key. */
  lemma SurvivorConverges(c: Cast)
    requires c.Apart()
    ensures var t := Exec(Next(Exec(c.Room(), c.UpToRekey()), c.Rekey()), PollSteps(c.survivor, []));
            c.survivor in t.browsers && t.browsers[c.survivor].stored == Stored([c.first, c.second], 1)
  {
    hide Inv, Bounded, Next, Exec, Start, PollAs, Cast.UpToRekey;
    RekeyCommits(c);
    PollComesTo(Next(Exec(c.Room(), c.UpToRekey()), c.Rekey()), 0, c.survivor, []);
  }

  // ---------- Where it does not converge ----------

  /** A poll grants before it adopts, from the keys it began with. So a member who joined since the
      last rekey and is granted by a poll of `granter` ends, after its own poll, with the key that was
      the granter's last before that poll, marked with the server's current epoch. Its key is the
      room's current one if and only if the granter had already adopted it. */
  lemma JoinerGetsGrantersLastKey(w: World, granter: Key, joiner: Key, current: Secret)
    requires w.ticks == map[] && granter in w.browsers && joiner in w.browsers && granter != joiner
    requires granter in w.room.rows && w.room.rows[granter].Active() && |w.browsers[granter].stored.keys| > 0
    requires joiner in w.room.rows && w.room.rows[joiner].Active() && !w.room.rows[joiner].Accepted()
    requires w.browsers[joiner].stored == Stored([], 0)
    ensures var t := Poll(Poll(w, granter, [joiner]), joiner, []);
            var last := w.browsers[granter].stored.keys[|w.browsers[granter].stored.keys| - 1];
            && t.ticks == map[] && t.requests == w.requests && t.room.epoch == w.room.epoch
            && joiner in t.browsers && joiner in ActiveBoxes(t.room.rows)
            && t.browsers[joiner].stored == Stored([last], w.room.epoch)
            && (Converged(t.browsers[joiner].stored, current, w.room.epoch) <==> last == current)
            && granter in t.browsers
            && t.browsers[granter].stored == Polled(w.browsers[granter].stored, w.room.rows, granter, w.room.epoch)
  {
    hide PollAs, Exec, Next;
    PollComesTo(w, 0, granter, [joiner]);
    var u := Poll(w, granter, [joiner]);
    var keys := w.browsers[granter].stored.keys;
    var sealed := Sealed(joiner, keys[|keys| - 1]);
    assert [joiner][1..] == [];
    assert u.room.rows == GrantWrap(w.room.rows, joiner, sealed, granter);
    assert u.room.rows[joiner].wrapped == Some(sealed);
    PollComesTo(u, 0, joiner, []);
    assert GrantedRows(u.room.rows, u.room.rows, joiner, [], []) == u.room.rows;
  }

  /** The rekey's answer is lost, somebody joins, and the survivor's first poll since the rekey comes
      before the joiner's. */
  function LateJoin(c: Cast): seq<Step> { [c.Rekey(), DropRekey(0), Step.Join(c.late, c.lateSig, c.date)] }

  function LatePolls(c: Cast): seq<Step> { PollSteps(c.survivor, [c.late]) + PollSteps(c.late, []) }

  lemma LateJoins(u: World, c: Cast)
    requires c.Apart() && Committed(u, c)
    ensures var t := Next(Next(u, DropRekey(0)), Step.Join(c.late, c.lateSig, c.date));
            && Idle(t) && t.room.epoch == 1 && Hold(t, c, [c.first]) && t.mints == u.mints
            && ActiveBoxes(t.room.rows) == {c.creator, c.survivor, c.late}
            && c.creator in t.room.rows && t.room.rows[c.creator] == u.room.rows[c.creator]
            && c.survivor in t.room.rows && t.room.rows[c.survivor].Active()
            && t.room.rows[c.survivor].wrapped == Some(Sealed(c.survivor, c.second))
            && c.late in t.room.rows && t.room.rows[c.late].Active() && !t.room.rows[c.late].Accepted()
            && c.late in t.browsers && t.browsers[c.late].stored == Stored([], 0)
  {
    var v := Next(u, DropRekey(0));
    assert v.requests == map[] && v.room == u.room && v.ticks == map[] && v.browsers == u.browsers;
    assert c.survivor in ActiveBoxes(u.room.rows);
    hide Next, Inv, Bounded;
    OneJoins(v, c.late, c.lateSig, c.date);
    ActiveAfterJoin(v.room.rows, c.late, Row(c.lateSig, None, c.date, None, None, |v.room.rows|));
  }

  lemma ActiveAfterJoin(rows: Rows, box: Key, row: Row)
    requires box !in rows && row.Active()
    ensures ActiveBoxes(rows[box := row]) == ActiveBoxes(rows) + {box}
  {
  }

  /** The failure a late joiner meets, from a new room: it gets the key from before the rekey under the
      epoch after it, from a survivor that has the new key itself once that poll is over. Whatever
      happens then, in any interleaving of single steps, it takes no other key while the epoch stays. */
  lemma LateJoinerIsStranded(c: Cast, after: seq<Step>)
    requires c.Apart()
    ensures var t := Exec(Exec(c.Room(), c.UpToRekey()), LateJoin(c) + LatePolls(c));
            && t.room.epoch == 1 && c.late in ActiveBoxes(t.room.rows)
            && c.late in t.browsers && t.browsers[c.late].stored == Stored([c.first], 1)
            && c.survivor in t.browsers && t.browsers[c.survivor].stored == Stored([c.first, c.second], 1)
            && (Exec(t, after).room.epoch == 1 && c.late in Exec(t, after).browsers ==>
                  Exec(t, after).browsers[c.late].stored == Stored([c.first], 1))
  {
    hide Inv, Bounded, Next, Exec, Start, PollAs, Committed, ActiveBoxes, Cast.UpToRekey;
    RekeyCommits(c);
    CastIsSound(c, c.UpToRekey() + (LateJoin(c) + LatePolls(c)));
    var w := Exec(c.Room(), c.UpToRekey());
    ExecConcat(c.Room(), c.UpToRekey(), LateJoin(c) + LatePolls(c));
    ExecThreeMore(w, c.Rekey(), DropRekey(0), Step.Join(c.late, c.lateSig, c.date), LatePolls(c));
    LateJoins(Next(w, c.Rekey()), c);
    var v := Next(Next(Next(w, c.Rekey()), DropRekey(0)), Step.Join(c.late, c.lateSig, c.date));
    ExecConcat(v, PollSteps(c.survivor, [c.late]), PollSteps(c.late, []));
    JoinerGetsGrantersLastKey(v, c.survivor, c.late, c.second);
    var t := Exec(w, LateJoin(c) + LatePolls(c));
    StrandedFromNow(t, c.late, Stored([c.first], 1), after);
  }

  lemma StrandedFromNow(t: World, box: Key, s: Stored, after: seq<Step>)
    requires Inv(t) && Bounded(t) && t.ticks == map[] && box in t.browsers && t.browsers[box].stored == s
    requires |s.keys| > 0 && s.lastEpoch == t.room.epoch
    requires forall id | id in t.requests :: t.requests[id].box != box
    ensures Exec(t, after).room.epoch == t.room.epoch && box in Exec(t, after).browsers ==>
              Exec(t, after).browsers[box].stored == s
  {
    BrowserHolds(t, box);
    hide Inv, Bounded, Exec;
    if Exec(t, after).room.epoch == t.room.epoch {
      SeenEpochNeverAdopts(t, after, box, s);
    }
  }

  lemma SameCommit(w: World, u: World, id: nat, date: int)
    requires u.room == w.room && u.requests == w.requests
    ensures Enabled(u, CommitRekey(id, date)) == Enabled(w, CommitRekey(id, date))
    ensures Commits(u, CommitRekey(id, date)) == Commits(w, CommitRekey(id, date))
  {
    hide RekeyOutcome;
  }

  lemma SecretIsNew(w: World, step: Step, box: Key)
    requires Inv(w) && Enabled(w, step) && Commits(w, step) && box in w.browsers
    ensures box in w.room.rows && step.id in w.requests && w.requests[step.id].secret !in w.browsers[box].stored.keys
    ensures w.room.rows[box].wrapped.Some? ==> w.room.rows[box].wrapped.value.recipient == box
  {
    hide RekeyOutcome, TickOk, RequestOk, Enabled, Commits;
    CommitFacts(w, step);
    assert BrowserOk(w, box, w.browsers[box]);
    NotYetHeld(w, box, w.browsers[box].stored.keys, w.requests[step.id].secret);
  }

  /** A tick that has its list, whatever came next until now, finishing its poll. */
  lemma ListedTickEnds(w: World, box: Key)
    requires w.ticks.Keys == {0} && w.ticks[0].box == box && w.ticks[0].members.Some? && !w.ticks[0].ready
    requires box in w.browsers
    requires w.ticks[0].keys == w.browsers[box].stored.keys && w.ticks[0].last == w.browsers[box].stored.lastEpoch
    ensures var t := Exec(w, [ReadEpoch(0), Adopt(0), EndTick(0)]);
            && t.ticks == map[] && t.room == w.room && t.requests == w.requests && box in t.browsers
            && t.browsers[box].stored == Polled(w.browsers[box].stored, w.ticks[0].members.value, box, w.room.epoch)
  {
    hide Next, Polled, Exec;
    EpochIsRead(w, 0);
    PollEnds(Next(w, ReadEpoch(0)), 0);
    assert [ReadEpoch(0), Adopt(0), EndTick(0)] == [ReadEpoch(0)] + [Adopt(0), EndTick(0)];
    ExecConcat(w, [ReadEpoch(0)], [Adopt(0), EndTick(0)]);
    ExecOne(w, ReadEpoch(0));
  }

  function TornPoll(box: Key, commit: Step): seq<Step>
  {
    [StartTick(0, box), ListMembers(0), commit] + [ReadEpoch(0), Adopt(0), EndTick(0)]
  }

  /** The other failure: the list and the epoch are two reads. If a rekey commits between them, the
      poll takes its old key for the new epoch's. */
  lemma TornPollMissesTheRekey(w: World, box: Key, id: nat, date: int)
    requires Inv(w) && w.ticks == map[] && w.requests.Keys == {id}
    requires Enabled(w, CommitRekey(id, date)) && Commits(w, CommitRekey(id, date))
    requires box in w.browsers && box in w.room.rows && w.room.rows[box].wrapped.Some?
    requires w.room.rows[box].wrapped.value.secret in w.browsers[box].stored.keys
    requires w.browsers[box].stored.lastEpoch <= w.room.epoch
    ensures var t := Exec(w, TornPoll(box, CommitRekey(id, date)));
            && t.ticks == map[] && t.room == Next(w, CommitRekey(id, date)).room && t.room.epoch == w.room.epoch + 1
            && t.requests.Keys == {id} && t.requests[id].box == w.requests[id].box && box in t.browsers
            && t.browsers[box].stored == Stored(w.browsers[box].stored.keys, t.room.epoch)
            && w.requests[id].secret !in t.browsers[box].stored.keys
  {
    hide Inv, RowsEvolve, Next, Enabled, Commits, WrapsOk, Exec;
    var commit := CommitRekey(id, date);
    SecretIsNew(w, commit, box);
    TickStarts(w, 0, box);
    var w1 := Next(w, StartTick(0, box));
    MembersAreListed(w1, 0);
    var w2 := Next(w1, ListMembers(0));
    NextKeepsInv(w, StartTick(0, box));
    NextKeepsInv(w1, ListMembers(0));
    SameCommit(w, w2, id, date);
    SameRoom(w, w2, commit);
    var w3 := Next(w2, commit);
    CommitParts(w2, commit);
    ListedTickEnds(w3, box);
    ExecThreeMore(w, StartTick(0, box), ListMembers(0), commit, [ReadEpoch(0), Adopt(0), EndTick(0)]);
  }

  lemma SameRoom(w: World, u: World, step: Step)
    requires step.CommitRekey? && u.room == w.room && u.requests == w.requests
    ensures Next(u, step).room == Next(w, step).room
  {
    hide Apply, BrowsersAfter, TicksAfter, RequestsAfter;
  }

  /** And it happens, from a new room: the survivor ends with the old key under the new epoch though its
      row holds the new key, and takes no other in any interleaving while the epoch stays. */
  lemma TornPollIsStranded(c: Cast, after: seq<Step>)
    requires c.Apart()
    ensures var t := Exec(Exec(c.Room(), c.UpToRekey()), TornPoll(c.survivor, c.Rekey()));
            && t.room.epoch == 1 && c.survivor in ActiveBoxes(t.room.rows)
            && t.room.rows[c.survivor].wrapped == Some(Sealed(c.survivor, c.second))
            && c.survivor in t.browsers && t.browsers[c.survivor].stored == Stored([c.first], 1)
            && (Exec(t, after).room.epoch == 1 && c.survivor in Exec(t, after).browsers ==>
                  Exec(t, after).browsers[c.survivor].stored == Stored([c.first], 1))
  {
    hide Inv, Bounded, Next, Exec, Enabled, Commits, ActiveBoxes, TornPoll, Start, Cast.UpToRekey;
    RekeyIsReachable(c);
    RekeyCommits(c);
    CastIsSound(c, c.UpToRekey());
    CastIsSound(c, c.UpToRekey() + TornPoll(c.survivor, c.Rekey()));
    var w := Exec(c.Room(), c.UpToRekey());
    var t := Exec(w, TornPoll(c.survivor, c.Rekey()));
    ExecConcat(c.Room(), c.UpToRekey(), TornPoll(c.survivor, c.Rekey()));
    TornPollMissesTheRekey(w, c.survivor, 0, c.date);
    StrandedFromNow(t, c.survivor, Stored([c.first], 1), after);
  }
}
