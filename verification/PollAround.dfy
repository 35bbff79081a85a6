/** One poll of a survivor with a rekey committing at any place in it, and one whole poll after. */
module PollAround {
  import opened Bytes
  import opened KeyStore
  import opened Rooms
  import opened RoomRuns
  import opened KeyHolding
  import opened Convergence
  import opened Polling
  import opened RekeyLimits

  function OnePoll(b: Key): (steps: seq<Step>)
    ensures |steps| == 5
  {
    [StartTick(0, b), ListMembers(0), ReadEpoch(0), Adopt(0), EndTick(0)]
  }

  /** The rekey commits when `place` steps of the poll are over. */
  function Around(b: Key, rekey: Step, place: nat): seq<Step>
    requires place <= 5
  {
    OnePoll(b)[..place] + ([rekey] + OnePoll(b)[place..])
  }

  /** How far a poll has come: the disk it began with, the list and the epoch it read, and the disk now. */
  datatype Going = Going(began: Stored, list: Rows, epoch: nat, now: Stored)

  ghost predicate At(u: World, b: Key, place: nat, g: Going)
  {
    && b in u.browsers && u.browsers[b].stored == g.now && (place <= 3 ==> g.now == g.began)
    && (place == 3 ==> u.browsers[b].currentEpoch == g.epoch)
    && u.ticks == if place == 0 || place == 5 then map[]
                  else map[0 := Tick(b, g.began.keys, g.began.lastEpoch, if place == 1 then None else Some(g.list),
                                     place >= 3)]
  }

  /** The poll between two of its places, with nothing in between. */
  function Along(g: Going, room: Room, b: Key, from: nat, until: nat): Going
  {
    var list := if from <= 1 < until then room.rows else g.list;
    var epoch := if from <= 2 < until then room.epoch else g.epoch;
    Going(g.began, list, epoch, if from <= 3 < until then Polled(g.began, list, b, epoch) else g.now)
  }

  lemma OneStep(u: World, b: Key, place: nat, g: Going)
    requires At(u, b, place, g) && place < 5
    ensures var t := Next(u, OnePoll(b)[place]);
            && At(t, b, place + 1, Along(g, u.room, b, place, place + 1))
            && t.room == u.room && t.requests == u.requests
  {
    hide Next, Polled;
    match place
    case 0 => TickStarts(u, 0, b);
    case 1 => MembersAreListed(u, 0);
    case 2 => EpochIsRead(u, 0);
    case 3 => AdoptComesTo(u, 0);
    case _ => TickEnds(u, 0);
  }

  lemma {:induction false} SomeSteps(u: World, b: Key, from: nat, until: nat, g: Going)
    requires from <= until <= 5 && At(u, b, from, g)
    ensures var t := Exec(u, OnePoll(b)[from..until]);
            && At(t, b, until, Along(g, u.room, b, from, until)) && t.room == u.room && t.requests == u.requests
    decreases until - from
  {
    hide Next, Polled, At, OnePoll;
    if from < until {
      var steps := OnePoll(b)[from..until];
      assert steps[0] == OnePoll(b)[from] && steps[1..] == OnePoll(b)[from + 1..until];
      OneStep(u, b, from, g);
      SomeSteps(Next(u, OnePoll(b)[from]), b, from + 1, until, Along(g, u.room, b, from, from + 1));
      assert Along(Along(g, u.room, b, from, from + 1), u.room, b, from + 1, until) == Along(g, u.room, b, from, until);
    } else {
      assert OnePoll(b)[from..until] == [] && Along(g, u.room, b, from, until) == g;
    }
  }

  lemma StaysAt(w: World, rekey: Step, b: Key, place: nat, g: Going)
    requires Inv(w) && Enabled(w, rekey) && Commits(w, rekey) && At(w, b, place, g)
    ensures At(Next(w, rekey), b, place, g)
  {
    hide Inv, Next, Enabled, Commits;
    CommitParts(w, rekey);
  }

  /** What the poll leaves on the disk: a list from before the commit or after it, under the epoch from
      before it or after it. */
  function Left(s: Stored, earlier: Rows, later: Rows, b: Key, epoch: nat, place: nat): Stored
  {
    Polled(s, if place <= 1 then later else earlier, b, if place <= 2 then epoch + 1 else epoch)
  }

  lemma PollLeaves(w: World, rekey: Step, b: Key, place: nat)
    requires Inv(w) && w.ticks == map[] && Enabled(w, rekey) && Commits(w, rekey) && b in w.browsers && place <= 5
    ensures var u, t := Next(w, rekey), Exec(w, Around(b, rekey, place));
            && t.room == u.room && u.room.epoch == w.room.epoch + 1 && t.ticks == map[] && b in t.browsers
            && t.browsers[b].stored ==
                 Left(w.browsers[b].stored, w.room.rows, u.room.rows, b, w.room.epoch, place)
  {
    hide Inv, Next, Exec, Enabled, Commits, OnePoll, Polled;
    var steps := OnePoll(b);
    var s := w.browsers[b].stored;
    var g := Going(s, w.room.rows, w.room.epoch, s);
    assert steps[0..place] == steps[..place] && steps[place..5] == steps[place..];
    SomeSteps(w, b, 0, place, g);
    var v, h := Exec(w, steps[..place]), Along(g, w.room, b, 0, place);
    ExecKeepsInv(w, steps[..place]);
    SameCommit(w, v, rekey.id, rekey.date) by { IsCommit(w, rekey); }
    IsCommit(w, rekey);
    SameRoom(w, v, rekey);
    StaysAt(v, rekey, b, place, h);
    CommitParts(v, rekey);
    SomeSteps(Next(v, rekey), b, place, 5, h);
    ExecConcat(w, steps[..place], [rekey] + steps[place..]);
    ExecConcat(v, [rekey], steps[place..]);
    ExecOne(v, rekey);
  }

  lemma IsCommit(w: World, rekey: Step)
    requires Commits(w, rekey)
    ensures rekey.CommitRekey? && rekey == CommitRekey(rekey.id, rekey.date)
  {
  }

  lemma LeftExactly(s: Stored, earlier: Rows, later: Rows, b: Key, epoch: nat, place: nat, key: Secret)
    requires b in earlier && b in later && later[b].wrapped == Some(Sealed(b, key))
    requires var wrap := earlier[b].wrapped; wrap.Some? ==> wrap.value.recipient == b && wrap.value.secret != key
    requires key !in s.keys && s.lastEpoch <= epoch
    ensures Converged(Polled(Left(s, earlier, later, b, epoch, place), later, b, epoch + 1), key, epoch + 1) <==>
              place != 2 || earlier[b].wrapped.None?
  {
  }

  lemma OldWrap(w: World, rekey: Step, b: Key)
    requires Inv(w) && Enabled(w, rekey) && Commits(w, rekey) && b in w.browsers
    ensures b in w.room.rows
    ensures var wrapped := w.room.rows[b].wrapped;
            wrapped.Some? ==> wrapped.value.recipient == b && wrapped.value.secret != w.requests[rekey.id].secret
  {
    hide Enabled, Commits, RekeyOutcome, TickOk, RequestOk, BrowserOk, Ledger, Present;
    CommitParts(w, rekey);
    BrowserHolds(w, b);
  }

  /** For every run of a new room up to a rekey that commits with no poll under way, every survivor with a
      browser and every place of the commit in a poll of it: once one more whole poll is over, the browser
      has the new key last under the new epoch if and only if the commit was not between the poll's two
      reads, or the list it read before showed the survivor no key at all. */
  lemma PollAroundARekeyExactly(box: Key, sig: Key, secret: Secret, date: int, before: seq<Step>, rekey: Step,
                                survivor: Key, place: nat)
    requires place <= 5
    requires var w := Exec(Start(box, sig, secret, date), before);
             w.ticks == map[] && Enabled(w, rekey) && Commits(w, rekey) && survivor in w.browsers &&
             survivor in ActiveBoxes(Next(w, rekey).room.rows)
    ensures var w := Exec(Start(box, sig, secret, date), before);
            var t := Exec(w, Around(survivor, rekey, place) + PollSteps(survivor, []));
            && survivor in w.room.rows && survivor in t.browsers
            && (Converged(t.browsers[survivor].stored, w.requests[rekey.id].secret, w.room.epoch + 1) <==>
                  place != 2 || w.room.rows[survivor].wrapped.None?)
  {
    hide *;
    RunIsSound(box, sig, secret, date, before);
    AroundExactly(Exec(Start(box, sig, secret, date), before), rekey, survivor, place);
  }

  lemma AroundExactly(w: World, rekey: Step, b: Key, place: nat)
    requires Inv(w) && Bounded(w) && place <= 5 && w.ticks == map[] && Enabled(w, rekey) && Commits(w, rekey)
    requires b in w.browsers && b in ActiveBoxes(Next(w, rekey).room.rows)
    ensures var t := Exec(w, Around(b, rekey, place) + PollSteps(b, []));
            && b in w.room.rows && b in t.browsers
            && (Converged(t.browsers[b].stored, w.requests[rekey.id].secret, w.room.epoch + 1) <==>
                  place != 2 || w.room.rows[b].wrapped.None?)
  {
    hide Inv, Next, Exec, Enabled, Commits, Around, PollAs, Polled, Left, ActiveBoxes, Converged, Recipients;
    CommitParts(w, rekey);
    AfterTheCommit(w, rekey, b);
    OldWrap(w, rekey, b);
    PollLeaves(w, rekey, b, place);
    DiskBounded(w, b);
    var v := Exec(w, Around(b, rekey, place));
    ExecConcat(w, Around(b, rekey, place), PollSteps(b, []));
    PollComesTo(v, 0, b, []);
    LeftExactly(w.browsers[b].stored, w.room.rows, v.room.rows, b, w.room.epoch, place, w.requests[rekey.id].secret);
  }
}
