/** A poll that is still granting while a rekey and a whole poll of the same browser pass it by, from a new
    room on: it puts the older key behind the newer one. */
module OvertakenPoll {
  import opened Bytes
  import opened KeyStore
  import opened Rooms
  import opened RoomRuns
  import opened KeyHolding
  import opened Convergence
  import opened Polling
  import opened RekeyLimits

  /** The cast of a first rekey, and the key of a second one, which removes the member who joined late. */
  datatype Second = Second(c: Cast, third: Secret)
  {
    predicate Apart() { c.Apart() && third != c.first && third != c.second }

    function Again(): Cast
    {
      c.(target := c.late, targetSig := c.lateSig, late := c.target, lateSig := c.targetSig, second := third)
    }

    /** The creator takes the first rekey's key, then grants it to the newcomer, who takes it. */
    function LateIsGranted(): seq<Step>
    {
      PollSteps(c.creator, []) + (PollSteps(c.creator, [c.late]) + PollSteps(c.late, []))
    }

    /** The survivor's poll reads its list and epoch, and goes on to its grants. */
    function Reads(): seq<Step> { [StartTick(1, c.survivor), ListMembers(1), ReadEpoch(1)] }

    function Rekeys(): seq<Step> { Again().Asks() + [Again().Rekey()] }

    /** A whole poll of the survivor, and then the end of the one that was still granting. */
    function Passes(): seq<Step> { PollSteps(c.survivor, []) + [Adopt(1), EndTick(1)] }

    function Steps(): seq<Step>
    {
      c.UpToRekey() + (LateJoin(c) + (LateIsGranted() + (Reads() + (Rekeys() + Passes()))))
    }
  }

  /** After the first rekey and the late join. */
  ghost predicate Joined(w: World, s: Second)
  {
    var c := s.c;
    && Idle(w) && w.room.epoch == 1 && s.third !in w.mints
    && ActiveBoxes(w.room.rows) == {c.creator, c.survivor, c.late}
    && c.creator in w.room.rows && w.room.rows[c.creator].invitedBy.None?
    && w.room.rows[c.creator].wrapped == Some(Sealed(c.creator, c.second))
    && c.survivor in w.room.rows && w.room.rows[c.survivor].wrapped == Some(Sealed(c.survivor, c.second))
    && c.survivor in w.browsers && w.browsers[c.survivor].stored == Stored([c.first], 0)
    && c.creator in w.browsers && c.late in w.room.rows && c.late in w.browsers
  }

  lemma FirstRekeyAndJoin(s: Second)
    requires s.Apart()
    ensures var c, t := s.c, Exec(Exec(s.c.Room(), s.c.UpToRekey()), LateJoin(s.c));
            && Joined(t, s) && t.browsers[c.creator].stored == Stored([c.first], 0)
            && t.room.rows[c.late].wrapped.None? && t.browsers[c.late].stored == Stored([], 0)
  {
    hide Inv, Bounded, Next, Exec, Start, PollAs, ActiveBoxes, Cast.UpToRekey;
    var c := s.c;
    RekeyCommits(c);
    var w := Exec(c.Room(), c.UpToRekey());
    LateJoins(Next(w, c.Rekey()), c);
    ExecThreeMore(w, c.Rekey(), DropRekey(0), Step.Join(c.late, c.lateSig, c.date), []);
    NothingMore(Next(Next(Next(w, c.Rekey()), DropRekey(0)), Step.Join(c.late, c.lateSig, c.date)));
    assert LateJoin(c) + [] == LateJoin(c);
  }

  /** The creator has both keys and a list of the three, the newcomer the second. */
  ghost predicate Granted(w: World, s: Second)
  {
    var c := s.c;
    && Joined(w, s) && w.browsers[c.creator].stored == Stored([c.first, c.second], 1)
    && w.browsers[c.late].stored == Stored([c.second], 1) && w.browsers[c.creator].cache.Some?
    && ActiveBoxes(w.browsers[c.creator].cache.value) == {c.creator, c.survivor, c.late}
  }

  lemma CreatorTakes(w: World, s: Second)
    requires s.Apart() && Joined(w, s) && w.browsers[s.c.creator].stored == Stored([s.c.first], 0)
    ensures var c, t := s.c, Exec(w, PollSteps(s.c.creator, []));
            && Joined(t, s) && t.browsers[c.creator].stored == Stored([c.first, c.second], 1)
            && t.room == w.room && t.browsers[c.late] == w.browsers[c.late]
  {
    hide PollAs, Next, Exec, ActiveBoxes;
    PollComesTo(w, 0, s.c.creator, []);
  }

  lemma CreatorGrants(w: World, s: Second)
    requires s.Apart() && Joined(w, s) && w.browsers[s.c.creator].stored == Stored([s.c.first, s.c.second], 1)
    requires w.room.rows[s.c.late].wrapped.None?
    ensures var c, t := s.c, Exec(w, PollSteps(s.c.creator, [s.c.late]));
            && Joined(t, s) && t.browsers[c.creator].stored == Stored([c.first, c.second], 1)
            && t.room.rows[c.late].wrapped == Some(Sealed(c.late, c.second))
            && t.browsers[c.late] == w.browsers[c.late] && t.browsers[c.creator].cache == Some(w.room.rows)
  {
    hide PollAs, Next, Exec;
    var c := s.c;
    assert c.creator in ActiveBoxes(w.room.rows) && c.late in ActiveBoxes(w.room.rows);
    PollComesTo(w, 0, c.creator, [c.late]);
    assert [c.late][1..] == [];
    assert Exec(w, PollSteps(c.creator, [c.late])).room.rows ==
           GrantWrap(w.room.rows, c.late, Sealed(c.late, c.second), c.creator);
    GrantKeepsActive(w.room.rows, c.late, Sealed(c.late, c.second), c.creator);
  }

  lemma GrantKeepsActive(rows: Rows, forBox: Key, wrapped: Sealed, inviter: Key)
    ensures ActiveBoxes(GrantWrap(rows, forBox, wrapped, inviter)) == ActiveBoxes(rows)
  {
  }

  lemma LateTakes(w: World, s: Second)
    requires s.Apart() && Joined(w, s) && w.browsers[s.c.late].stored == Stored([], 0)
    requires w.room.rows[s.c.late].wrapped == Some(Sealed(s.c.late, s.c.second))
    requires w.browsers[s.c.creator].stored == Stored([s.c.first, s.c.second], 1)
    requires var cache := w.browsers[s.c.creator].cache;
             cache.Some? && ActiveBoxes(cache.value) == {s.c.creator, s.c.survivor, s.c.late}
    ensures Granted(Exec(w, PollSteps(s.c.late, [])), s)
  {
    hide PollAs, Next, Exec, ActiveBoxes;
    PollComesTo(w, 0, s.c.late, []);
  }

  lemma LateGetsTheSecondKey(w: World, s: Second)
    requires s.Apart() && Joined(w, s) && w.browsers[s.c.creator].stored == Stored([s.c.first], 0)
    requires w.room.rows[s.c.late].wrapped.None? && w.browsers[s.c.late].stored == Stored([], 0)
    ensures Granted(Exec(w, s.LateIsGranted()), s)
  {
    hide PollAs, Next, Exec, ActiveBoxes, Second.Apart;
    var c := s.c;
    CreatorTakes(w, s);
    var w1 := Exec(w, PollSteps(c.creator, []));
    CreatorGrants(w1, s);
    LateTakes(Exec(w1, PollSteps(c.creator, [c.late])), s);
    ExecConcat(w, PollSteps(c.creator, []), PollSteps(c.creator, [c.late]) + PollSteps(c.late, []));
    ExecConcat(w1, PollSteps(c.creator, [c.late]), PollSteps(c.late, []));
  }

  /** The survivor's poll with the second key in hand. */
  ghost predicate HasSecond(w: World, c: Cast)
  {
    && w.ticks.Keys == {1} && w.ticks[1].box == c.survivor && w.ticks[1].ready && w.ticks[1].last == 0
    && OwnWrap(w.ticks[1]) == Some(c.second)
    && c.survivor in w.browsers && w.browsers[c.survivor].stored == Stored([c.first], 0)
    && c.late in w.browsers && w.browsers[c.late].stored == Stored([c.second], 1)
  }

  lemma PollHasSecond(w: World, s: Second)
    requires s.Apart() && Granted(w, s)
    ensures var c, t := s.c, Exec(w, s.Reads());
            && HasSecond(t, c) && t.room == w.room && t.requests == map[] && t.mints == w.mints
            && c.creator in t.browsers && t.browsers[c.creator] == w.browsers[c.creator]
  {
    hide Next, Exec, ActiveBoxes;
    PollBegins(w, 1, s.c.survivor);
  }

  /** The second rekey, while that poll is under way. */
  lemma SecondCommits(w: World, s: Second)
    requires s.Apart() && Inv(w) && HasSecond(w, s.c) && w.room.epoch == 1 && w.requests == map[] && s.third !in w.mints
    requires ActiveBoxes(w.room.rows) == {s.c.creator, s.c.survivor, s.c.late}
    requires s.c.creator in w.room.rows && w.room.rows[s.c.creator].invitedBy.None? && s.c.creator in w.browsers
    requires |w.browsers[s.c.creator].stored.keys| > 0 && w.browsers[s.c.creator].cache.Some?
    requires ActiveBoxes(w.browsers[s.c.creator].cache.value) == {s.c.creator, s.c.survivor, s.c.late}
    ensures var c, t := s.c, Exec(w, s.Rekeys());
            && HasSecond(t, c) && t.room.epoch == 2 && ActiveBoxes(t.room.rows) == {c.creator, c.survivor}
            && c.survivor in t.room.rows && t.room.rows[c.survivor].wrapped == Some(Sealed(c.survivor, s.third))
            && t.requests.Keys == {0} && t.requests[0].box == c.creator
  {
    hide Inv, Next, Exec, Enabled, Commits, ActiveBoxes, OwnWrap, Recipients, Cast.Asks;
    var again, list := s.Again(), w.browsers[s.c.creator].cache.value;
    RequestPasses(w, again, list);
    WrapsFit(w.room, list, again);
    var v := Exec(w, again.Asks());
    ExecKeepsInv(w, again.Asks());
    CommitParts(v, again.Rekey());
    CommittedRows(v, again.Rekey());
    assert s.c.survivor in Recipients(again.Wraps());
    ActiveHaveRows(Next(v, again.Rekey()).room.rows);
    ExecConcat(w, again.Asks(), [again.Rekey()]);
    ExecOne(v, again.Rekey());
  }

  lemma FirstPollEndsLast(w: World, s: Second)
    requires s.Apart() && HasSecond(w, s.c) && w.room.epoch == 2 && s.c.survivor in w.room.rows
    requires w.room.rows[s.c.survivor].wrapped == Some(Sealed(s.c.survivor, s.third))
    ensures var c, t := s.c, Exec(w, s.Passes());
            && t.ticks == map[] && t.room == w.room && t.requests == w.requests && c.survivor in t.browsers
            && t.browsers[c.survivor].stored == Stored([c.first, s.third, c.second], 2)
            && c.late in t.browsers && t.browsers[c.late].stored == Stored([c.second], 1)
  {
    hide PollAs, Next, Exec, OwnWrap;
    var c := s.c;
    PollComesTo(w, 0, c.survivor, []);
    var v := Exec(w, PollSteps(c.survivor, []));
    AdoptTouchesNobodyElse(v, 1, c.late);
    TakesWhatItHas(v, 1, c.survivor, s.third, 2);
    TickEnds(Next(v, Adopt(1)), 1);
    ExecConcat(w, PollSteps(c.survivor, []), [Adopt(1), EndTick(1)]);
    ExecTwo(v, Adopt(1), EndTick(1));
    assert v.ticks - {1} == map[];
  }

  lemma AdoptTouchesNobodyElse(w: World, id: nat, other: Key)
    requires id in w.ticks && w.ticks[id].box != other && other in w.browsers
    ensures var t := Next(w, Adopt(id));
            && other in t.browsers && t.browsers[other] == w.browsers[other] && t.requests == w.requests
            && t.room == w.room
  {
  }

  /** From every new room, for any keys that are told apart, a run after which a survivor of two rekeys has
      the newest key, under the newest epoch, with the one before it last: it encrypts with a key that the
      member removed by the second rekey holds, and goes on so in every interleaving until the next. */
  lemma OlderKeyComesLast(s: Second, after: seq<Step>)
    requires s.Apart()
    ensures var c, t := s.c, Exec(s.c.Room(), s.Steps());
            && t.room.epoch == 2 && ActiveBoxes(t.room.rows) == {c.creator, c.survivor}
            && c.survivor in t.room.rows && t.room.rows[c.survivor].wrapped == Some(Sealed(c.survivor, s.third))
            && c.survivor in t.browsers && t.browsers[c.survivor].stored == Stored([c.first, s.third, c.second], 2)
            && c.late in t.browsers && c.second in t.browsers[c.late].stored.keys
            && (Exec(t, after).room.epoch == 2 && c.survivor in Exec(t, after).browsers ==>
                  Exec(t, after).browsers[c.survivor].stored == Stored([c.first, s.third, c.second], 2))
  {
    hide Inv, Bounded, Next, Exec, Start, ActiveBoxes, OwnWrap, Cast.UpToRekey, LateJoin, Second.LateIsGranted,
      Second.Reads, Second.Rekeys, Second.Passes;
    var c := s.c;
    CastIsSound(c, s.Steps());
    FirstRekeyAndJoin(s);
    var w0 := Exec(c.Room(), c.UpToRekey());
    CastIsSound(c, c.UpToRekey());
    var w1 := Exec(w0, LateJoin(c));
    ExecKeepsInv(w0, LateJoin(c));
    LateGetsTheSecondKey(w1, s);
    var w2 := Exec(w1, s.LateIsGranted());
    ExecKeepsInv(w1, s.LateIsGranted());
    PollHasSecond(w2, s);
    var w3 := Exec(w2, s.Reads());
    ExecKeepsInv(w2, s.Reads());
    SecondCommits(w3, s);
    var w4 := Exec(w3, s.Rekeys());
    FirstPollEndsLast(w4, s);
    InParts(s);
    StrandedFromNow(Exec(w4, s.Passes()), c.survivor, Stored([c.first, s.third, c.second], 2), after);
  }

  lemma InParts(s: Second)
    ensures Exec(s.c.Room(), s.Steps()) ==
            Exec(Exec(Exec(Exec(Exec(Exec(s.c.Room(), s.c.UpToRekey()), LateJoin(s.c)), s.LateIsGranted()), s.Reads()),
                      s.Rekeys()), s.Passes())
  {
    hide Next, Exec, Start, Cast.UpToRekey, LateJoin, Second.LateIsGranted, Second.Reads, Second.Rekeys, Second.Passes;
    var w0 := Exec(s.c.Room(), s.c.UpToRekey());
    var w1 := Exec(w0, LateJoin(s.c));
    var w2 := Exec(w1, s.LateIsGranted());
    var w3 := Exec(w2, s.Reads());
    ExecConcat(s.c.Room(), s.c.UpToRekey(),
               LateJoin(s.c) + (s.LateIsGranted() + (s.Reads() + (s.Rekeys() + s.Passes()))));
    ExecConcat(w0, LateJoin(s.c), s.LateIsGranted() + (s.Reads() + (s.Rekeys() + s.Passes())));
    ExecConcat(w1, s.LateIsGranted(), s.Reads() + (s.Rekeys() + s.Passes()));
    ExecConcat(w2, s.Reads(), s.Rekeys() + s.Passes());
    ExecConcat(w3, s.Rekeys(), s.Passes());
  }
}
