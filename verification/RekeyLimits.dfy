/** Exactly when polling brings a survivor of a rekey to the new key, whatever interleaves. */
module RekeyLimits {
  import opened Bytes
  import opened KeyStore
  import opened Rooms
  import opened RoomRuns
  import opened KeyHolding
  import opened Convergence
  import opened Polling

  /** In every run while the epoch stays: once a poll of `b` that found the new key has come to adopting,
      its browser is converged. */
  ghost predicate PollingConverges(u: World, b: Key, key: Secret, epoch: nat)
  {
    forall after: seq<Step> | Exec(u, after).room.epoch == epoch && b in Exec(u, after).browsers &&
                              HasPolled(u, after, b, key) ::
      Converged(Exec(u, after).browsers[b].stored, key, epoch)
  }

  /** In every run while the epoch stays: once the browser has the new key it is last, so it encrypts with
      no older one. */
  ghost predicate KeyStaysLast(u: World, b: Key, key: Secret, epoch: nat)
  {
    forall after: seq<Step> | Exec(u, after).room.epoch == epoch && b in Exec(u, after).browsers ::
      KeyIsLast(Exec(u, after).browsers[b].stored, key, epoch)
  }

  // ---------- Pieces of runs ----------

  lemma {:induction false} UnusedId(s: set<nat>) returns (id: nat)
    ensures forall x | x in s :: x < id
  {
    if s == {} {
      id := 0;
    } else {
      var x :| x in s;
      var m := UnusedId(s - {x});
      assert forall y | y in s :: y == x || y in s - {x};
      id := if x < m then m else x + 1;
    }
  }

  lemma {:induction false} PolledInParts(w: World, a: seq<Step>, rest: seq<Step>, b: Key, key: Secret)
    ensures HasPolled(w, a + rest, b, key) <==> HasPolled(w, a, b, key) || HasPolled(Exec(w, a), rest, b, key)
    decreases |a|
  {
    hide Next, ComesToAdopt;
    if |a| == 0 {
      assert a + rest == rest;
    } else {
      assert (a + rest)[1..] == a[1..] + rest;
      PolledInParts(Next(w, a[0]), a[1..], rest, b, key);
    }
  }

  /** The world as this survivor's polls see it: its row holds the new key. */
  ghost predicate Shows(w: World, b: Key, key: Secret, epoch: nat)
  {
    && w.room.epoch == epoch && b in w.room.rows && w.room.rows[b].wrapped == Some(Sealed(b, key)) && b in w.browsers
  }

  lemma PollFinds(w: World, id: nat, b: Key, key: Secret, epoch: nat)
    requires Shows(w, b, key, epoch) && id !in w.ticks
    ensures HasPolled(w, PollAs(id, b, []), b, key)
  {
    var first, last := [StartTick(id, b), ListMembers(id), ReadEpoch(id)], [Adopt(id), EndTick(id)];
    assert PollAs(id, b, []) == first + last;
    PollBegins(w, id, b);
    hide Next, Exec, PollAs;
    PolledInParts(w, first, last, b, key);
    assert ComesToAdopt(Exec(w, first), last[0], b, key);
  }

  /** One whole poll of a survivor, with whatever else under way. */
  lemma SurvivorPolls(w: World, id: nat, b: Key, key: Secret, epoch: nat)
    requires Shows(w, b, key, epoch) && id !in w.ticks
    ensures var t := Exec(w, PollAs(id, b, []));
            && Shows(t, b, key, epoch) && t.ticks == w.ticks && t.requests == w.requests && t.room == w.room
            && t.browsers[b].currentEpoch == epoch
            && t.browsers[b].stored ==
                 if |w.browsers[b].stored.keys| == 0 || epoch > w.browsers[b].stored.lastEpoch
                 then Append(w.browsers[b].stored, key, epoch) else w.browsers[b].stored
  {
    hide Next, Exec, PollAs, Append;
    PollComesTo(w, id, b, []);
  }

  /** A poll under way reads its epoch, if it has not. */
  lemma EpochIsReadByNow(w: World, id: nat, b: Key, key: Secret, epoch: nat)
    requires Shows(w, b, key, epoch) && id in w.ticks && w.ticks[id].box == b && w.ticks[id].members.Some?
    ensures var t := Next(w, ReadEpoch(id));
            && Shows(t, b, key, epoch) && t.ticks == w.ticks[id := w.ticks[id].(ready := true)]
            && t.requests == w.requests && t.browsers[b].stored == w.browsers[b].stored
  {
    if w.ticks[id].ready {
      assert w.ticks[id := w.ticks[id].(ready := true)] == w.ticks;
    } else {
      hide Next;
      EpochIsRead(w, id);
    }
  }

  /** A poll whose browser has seen a newer epoch than it began with takes what it has in hand. */
  lemma TakesWhatItHas(w: World, id: nat, b: Key, key: Secret, epoch: nat)
    requires Shows(w, b, key, epoch) && id in w.ticks && w.ticks[id].box == b && w.ticks[id].ready
    requires OwnWrap(w.ticks[id]).Some? && w.browsers[b].currentEpoch == epoch > w.ticks[id].last
    ensures var t := Next(w, Adopt(id));
            && Shows(t, b, key, epoch) && t.ticks == w.ticks
            && t.browsers[b].stored == Append(w.browsers[b].stored, OwnWrap(w.ticks[id]).value, epoch)
  {
    hide Append;
  }

  // ---------- What goes wrong ----------

  /** A poll with an older key in hand: another poll tells the browser the new epoch, this one takes the
      older key under it, and a third finds nothing to do though its list shows the new key. */
  lemma OlderKeyHidesTheNew(u: World, b: Key, id: nat, key: Secret, epoch: nat)
    requires Shows(u, b, key, epoch) && Behind(u.browsers[b].stored, key, epoch)
    requires id in u.ticks && u.ticks[id].box == b && TickBounded(u, u.ticks[id])
    requires OwnWrap(u.ticks[id]).Some? && OwnWrap(u.ticks[id]).value != key
    ensures !PollingConverges(u, b, key, epoch)
  {
    hide Next, Exec, PollAs, HasPolled, OwnWrap;
    var f := UnusedId(u.ticks.Keys);
    var begins, poll := [StartTick(f, b), ListMembers(f), ReadEpoch(f)], PollAs(f + 1, b, []);
    HasAList(u.ticks[id]);
    EpochIsReadByNow(u, id, b, key, epoch);
    var w1 := Next(u, ReadEpoch(id));
    PollBegins(w1, f, b);
    var w2 := Exec(w1, begins);
    SameWrap(u.ticks[id]);
    TakesWhatItHas(w2, id, b, key, epoch);
    var w3 := Next(w2, Adopt(id));
    SurvivorPolls(w3, f + 1, b, key, epoch);
    PollFinds(w3, f + 1, b, key, epoch);
    var run := [ReadEpoch(id)] + (begins + ([Adopt(id)] + poll));
    FourParts(u, ReadEpoch(id), begins, Adopt(id), poll, b, key);
    assert !Converged(Exec(u, run).browsers[b].stored, key, epoch);
  }

  lemma HasAList(t: Tick)
    requires OwnWrap(t).Some?
    ensures t.members.Some?
  {
  }

  lemma SameWrap(t: Tick)
    ensures OwnWrap(t.(ready := true)) == OwnWrap(t)
  {
  }

  lemma FourParts(u: World, a: Step, begins: seq<Step>, d: Step, rest: seq<Step>, b: Key, key: Secret)
    ensures var w3 := Next(Exec(Next(u, a), begins), d);
            var run := [a] + (begins + ([d] + rest));
            Exec(u, run) == Exec(w3, rest) && (HasPolled(w3, rest, b, key) ==> HasPolled(u, run, b, key))
  {
    hide Next, Exec, HasPolled;
    ExecConcat(u, [a], begins + ([d] + rest));
    PolledInParts(u, [a], begins + ([d] + rest), b, key);
    ExecOne(u, a);
    ExecConcat(Next(u, a), begins, [d] + rest);
    PolledInParts(Next(u, a), begins, [d] + rest, b, key);
    var w2 := Exec(Next(u, a), begins);
    ExecConcat(w2, [d], rest);
    PolledInParts(w2, [d], rest, b, key);
    ExecOne(w2, d);
  }

  /** When one poll takes its browser off the new key: it has an older key in hand that the browser lacks,
      and it began with no key or before the epoch its browser has seen by now. */
  lemma AdoptOvertakesExactly(w: World, id: nat, b: Key, key: Secret, epoch: nat)
    requires id in w.ticks && w.ticks[id].box == b && w.ticks[id].ready && b in w.browsers
    requires Converged(w.browsers[b].stored, key, epoch) && w.browsers[b].currentEpoch <= epoch
    ensures var t, wrap := w.ticks[id], OwnWrap(w.ticks[id]);
            !Converged(Next(w, Adopt(id)).browsers[b].stored, key, epoch) <==>
              && wrap.Some? && wrap.value !in w.browsers[b].stored.keys
              && (|t.keys| == 0 || w.browsers[b].currentEpoch > t.last)
  {
    var s := w.browsers[b].stored;
    if OwnWrap(w.ticks[id]).Some? {
      var k := OwnWrap(w.ticks[id]).value;
      assert k !in s.keys ==> Append(s, k, w.browsers[b].currentEpoch).keys == s.keys + [k] && key in s.keys;
    }
  }

  /** If the browser lacks that older key, a whole poll takes the new key first and this one puts the older
      one behind it. */
  lemma OlderKeyOvertakes(u: World, b: Key, id: nat, key: Secret, epoch: nat)
    requires Shows(u, b, key, epoch) && Behind(u.browsers[b].stored, key, epoch)
    requires id in u.ticks && u.ticks[id].box == b && TickBounded(u, u.ticks[id])
    requires OwnWrap(u.ticks[id]).Some? && OwnWrap(u.ticks[id]).value != key
    requires OwnWrap(u.ticks[id]).value !in u.browsers[b].stored.keys
    ensures !KeyStaysLast(u, b, key, epoch)
  {
    hide Next, Exec, PollAs, HasPolled, OwnWrap;
    var f := UnusedId(u.ticks.Keys);
    var poll := PollAs(f, b, []);
    HasAList(u.ticks[id]);
    EpochIsReadByNow(u, id, b, key, epoch);
    var w1 := Next(u, ReadEpoch(id));
    SurvivorPolls(w1, f, b, key, epoch);
    var w2 := Exec(w1, poll);
    SameWrap(u.ticks[id]);
    TakesWhatItHas(w2, id, b, key, epoch);
    FourParts(u, ReadEpoch(id), poll, Adopt(id), [], b, key);
    NothingMore(Next(w2, Adopt(id)));
    var run := [ReadEpoch(id)] + (poll + ([Adopt(id)] + []));
    assert !KeyIsLast(Exec(u, run).browsers[b].stored, key, epoch);
  }

  lemma NothingMore(w: World)
    ensures Exec(w, []) == w
  {
  }

  /** The same when the older key comes with the answer to an earlier rekey of its own. */
  lemma OlderAnswerOvertakes(u: World, b: Key, id: nat, key: Secret, epoch: nat)
    requires Shows(u, b, key, epoch) && Behind(u.browsers[b].stored, key, epoch)
    requires id in u.requests && u.requests[id].box == b && u.requests[id].stage.Committed?
    requires u.requests[id].secret != key && u.requests[id].secret !in u.browsers[b].stored.keys
    ensures !PollingConverges(u, b, key, epoch) && !KeyStaysLast(u, b, key, epoch)
  {
    hide Exec, PollAs, HasPolled;
    var f := UnusedId(u.ticks.Keys);
    var poll := PollAs(f, b, []);
    SurvivorPolls(u, f, b, key, epoch);
    PollFinds(u, f, b, key, epoch);
    var w1 := Exec(u, poll);
    ExecConcat(u, poll, [AckRekey(id)]);
    PolledInParts(u, poll, [AckRekey(id)], b, key);
    ExecOne(w1, AckRekey(id));
    assert !KeyIsLast(Exec(u, poll + [AckRekey(id)]).browsers[b].stored, key, epoch);
  }

  /** Whatever was in hand when a rekey committed is an older key. */
  lemma InHandIsOlder(w: World, rekey: Step)
    requires Inv(w) && Enabled(w, rekey) && Commits(w, rekey)
    ensures var key := w.requests[rekey.id].secret;
            && (forall id | id in w.ticks && OwnWrap(w.ticks[id]).Some? :: OwnWrap(w.ticks[id]).value != key)
            && (forall id | id in w.requests && w.requests[id].stage.Committed? :: w.requests[id].secret != key)
  {
    hide RekeyOutcome, Enabled, Commits, Present, RowsEvolve, BrowserOk, ListOk, WrapsForSurvivors;
    CommitParts(w, rekey);
    forall id | id in w.ticks && OwnWrap(w.ticks[id]).Some? ensures OwnWrap(w.ticks[id]).value in w.mints {
      assert TickOk(w, w.ticks[id]);
    }
    forall id | id in w.requests && w.requests[id].stage.Committed? ensures w.requests[id].secret in w.mints {
      assert RequestOk(w, w.requests[id]);
    }
  }

  // ---------- The exact conditions ----------

  lemma KeyOrderExactly(w: World, rekey: Step, b: Key)
    requires Inv(w) && Bounded(w) && Enabled(w, rekey) && Commits(w, rekey)
    requires b in w.browsers && b in ActiveBoxes(Next(w, rekey).room.rows)
    ensures var u := Next(w, rekey);
            KeyStaysLast(u, b, w.requests[rekey.id].secret, u.room.epoch) <==> NoOtherKeyComing(w, b)
  {
    hide Inv, Bounded, Next, Enabled, Commits, ActiveBoxes, OwnWrap, Exec, Ordered, Settled, Recipients;
    CommitParts(w, rekey);
    var u, key, epoch := Next(w, rekey), w.requests[rekey.id].secret, w.room.epoch + 1;
    AfterTheCommit(w, rekey, b);
    if NoOtherKeyComing(w, b) {
      CommitSettles(w, rekey, b);
      forall after: seq<Step> | Exec(u, after).room.epoch == epoch && b in Exec(u, after).browsers
        ensures KeyIsLast(Exec(u, after).browsers[b].stored, key, epoch)
      {
        RunSettles(u, after, b, key, epoch);
      }
    } else if id :| id in w.ticks && w.ticks[id].box == b && OwnWrap(w.ticks[id]).Some? &&
                    OwnWrap(w.ticks[id]).value !in w.browsers[b].stored.keys {
      OlderKeyOvertakes(u, b, id, key, epoch);
    } else {
      var id :| id in w.requests && w.requests[id].box == b && w.requests[id].stage.Committed? &&
                w.requests[id].secret !in w.browsers[b].stored.keys;
      OlderAnswerOvertakes(u, b, id, key, epoch);
    }
  }

  lemma AfterTheCommit(w: World, rekey: Step, b: Key)
    requires Inv(w) && Bounded(w) && Enabled(w, rekey) && Commits(w, rekey)
    requires b in w.browsers && b in ActiveBoxes(Next(w, rekey).room.rows)
    ensures var u, key, epoch := Next(w, rekey), w.requests[rekey.id].secret, w.room.epoch + 1;
            && Inv(u) && Bounded(u) && Shows(u, b, key, epoch) && Behind(u.browsers[b].stored, key, epoch)
            && u.browsers == w.browsers && u.ticks == w.ticks
            && (forall id | id in w.ticks :: TickBounded(u, u.ticks[id]))
            && (forall id | id in w.ticks && OwnWrap(w.ticks[id]).Some? :: OwnWrap(w.ticks[id]).value != key)
            && (forall id | id in w.requests && w.requests[id].stage.Committed? ::
                  id in u.requests && u.requests[id] == w.requests[id] && w.requests[id].secret != key)
  {
    hide Inv, Next, Enabled, Commits, ActiveBoxes, OwnWrap, Recipients;
    NextKeepsInv(w, rekey);
    NextKeepsBounded(w, rekey);
    CommitParts(w, rekey);
    CommittedRows(w, rekey);
    ActiveHaveRows(Next(w, rekey).room.rows);
    InHandIsOlder(w, rekey);
    BrowserHolds(w, b);
    NotYetHeld(w, b, w.browsers[b].stored.keys, w.requests[rekey.id].secret);
    StageBefore(w, rekey);
  }

  lemma StageBefore(w: World, rekey: Step)
    requires Enabled(w, rekey) && Commits(w, rekey)
    ensures w.requests[rekey.id].stage.Authorized?
  {
  }

  lemma ConvergenceExactly(w: World, rekey: Step, b: Key)
    requires Inv(w) && Bounded(w) && Enabled(w, rekey) && Commits(w, rekey)
    requires b in w.browsers && b in ActiveBoxes(Next(w, rekey).room.rows)
    ensures var u := Next(w, rekey);
            PollingConverges(u, b, w.requests[rekey.id].secret, u.room.epoch) <==> NoKeyComing(w, b)
  {
    hide Inv, Bounded, Next, Enabled, Commits, ActiveBoxes, OwnWrap, Exec, Ordered, Settled, Recipients, HasPolled;
    CommitParts(w, rekey);
    var u, key, epoch := Next(w, rekey), w.requests[rekey.id].secret, w.room.epoch + 1;
    AfterTheCommit(w, rekey, b);
    if NoKeyComing(w, b) {
      CommitSettles(w, rekey, b);
      forall after: seq<Step> | Exec(u, after).room.epoch == epoch && b in Exec(u, after).browsers &&
                                HasPolled(u, after, b, key)
        ensures Converged(Exec(u, after).browsers[b].stored, key, epoch)
      {
        RunSettles(u, after, b, key, epoch);
      }
    } else if id :| id in w.ticks && w.ticks[id].box == b && OwnWrap(w.ticks[id]).Some? {
      OlderKeyHidesTheNew(u, b, id, key, epoch);
    } else {
      var id :| id in w.requests && w.requests[id].box == b && w.requests[id].stage.Committed? &&
                w.requests[id].secret !in w.browsers[b].stored.keys;
      OlderAnswerOvertakes(u, b, id, key, epoch);
    }
  }

  /** Exactly when rekey convergence holds, for every run of a new room up to a rekey that commits and every
      survivor with a browser. Over every interleaving of single steps until the next rekey:

      the new key is never overtaken, so the browser that has it encrypts with it, if and only if at the
      commit no poll of the browser had in hand, and no answer was to bring it, a key that it lacks;

      and every poll of it that finds the new key and comes to adopting leaves it converged if and only if,
      besides, no poll had any key in hand, which is to say each had yet to read its list or its list
      showed none. */
  lemma RekeyConvergesExactly(box: Key, sig: Key, secret: Secret, date: int, before: seq<Step>, rekey: Step,
                              survivor: Key)
    requires var w := Exec(Start(box, sig, secret, date), before);
             Enabled(w, rekey) && Commits(w, rekey) && survivor in w.browsers &&
             survivor in ActiveBoxes(Next(w, rekey).room.rows)
    ensures var w := Exec(Start(box, sig, secret, date), before);
            var u, key := Next(w, rekey), w.requests[rekey.id].secret;
            && (KeyStaysLast(u, survivor, key, u.room.epoch) <==> NoOtherKeyComing(w, survivor))
            && (PollingConverges(u, survivor, key, u.room.epoch) <==> NoKeyComing(w, survivor))
  {
    hide *;
    RunIsSound(box, sig, secret, date, before);
    KeyOrderExactly(Exec(Start(box, sig, secret, date), before), rekey, survivor);
    ConvergenceExactly(Exec(Start(box, sig, secret, date), before), rekey, survivor);
  }

  // ---------- Who joins after it ----------

  lemma PendingHasNoKeyComing(w: World, joiner: Key)
    requires Inv(w) && joiner in w.room.rows && !w.room.rows[joiner].Accepted()
    ensures forall id | id in w.ticks && w.ticks[id].box == joiner :: OwnWrap(w.ticks[id]).None?
  {
    hide Ledger, OneSigEach, OneSecretEach, BrowserOk, RequestOk, WrapsOk, AllMayHold, ReadUnder;
    forall id | id in w.ticks && w.ticks[id].box == joiner ensures OwnWrap(w.ticks[id]).None? {
      assert TickOk(w, w.ticks[id]);
      if w.ticks[id].members.Some? {
        assert RowEvolves(w.ticks[id].members.value[joiner], w.room.rows[joiner]);
      }
    }
  }

  lemma GrantReaches(w: World, id: nat, joiner: Key)
    requires Enabled(w, GrantOne(id, joiner)) && CanGrant(w.room.rows, joiner, w.ticks[id].box)
    ensures var t, key := Next(w, GrantOne(id, joiner)), w.ticks[id].keys[|w.ticks[id].keys| - 1];
            && t.browsers == w.browsers && t.ticks == w.ticks && t.requests == w.requests
            && t.room.epoch == w.room.epoch && joiner in t.room.rows
            && t.room.rows[joiner].wrapped == Some(Sealed(joiner, key))
  {
    GrantComesTo(w, id, joiner);
    hide Next;
  }

  lemma GrantSettlesJoiner(w: World, id: nat, joiner: Key)
    requires Inv(w) && Enabled(w, GrantOne(id, joiner)) && CanGrant(w.room.rows, joiner, w.ticks[id].box)
    requires joiner in w.browsers ==>
               Behind(w.browsers[joiner].stored, w.ticks[id].keys[|w.ticks[id].keys| - 1], w.room.epoch)
    requires forall r | r in w.requests && w.requests[r].box == joiner :: !w.requests[r].stage.Committed?
    ensures Settled(Next(w, GrantOne(id, joiner)), joiner, w.ticks[id].keys[|w.ticks[id].keys| - 1], w.room.epoch)
  {
    PendingHasNoKeyComing(w, joiner);
    GrantReaches(w, id, joiner);
    hide Inv, Next, OwnWrap, Enabled, Converged, GrantWrap;
  }

  /** What a late joiner comes to, over every interleaving of single steps. A member granted after a rekey,
      with no key yet and no answer of its own to come, gets the last key its granter's poll began with:
      once a poll that found it has come to adopting, that key is its last, under the epoch of the room.
      So it has the room's current key if and only if the granter's poll began with it last. */
  lemma JoinerGetsWhatThePollBeganWith(box: Key, sig: Key, secret: Secret, date: int, before: seq<Step>, id: nat,
                                       joiner: Key, after: seq<Step>, current: Secret)
    requires var w := Exec(Start(box, sig, secret, date), before);
             && Enabled(w, GrantOne(id, joiner)) && CanGrant(w.room.rows, joiner, w.ticks[id].box)
             && (joiner in w.browsers ==>
                   w.browsers[joiner].stored.keys == [] && w.browsers[joiner].stored.lastEpoch < w.room.epoch)
             && (forall r | r in w.requests && w.requests[r].box == joiner :: !w.requests[r].stage.Committed?)
    ensures var w := Exec(Start(box, sig, secret, date), before);
            var granted, u := w.ticks[id].keys[|w.ticks[id].keys| - 1], Next(w, GrantOne(id, joiner));
            var t := Exec(u, after);
            t.room.epoch == w.room.epoch && joiner in t.browsers && HasPolled(u, after, joiner, granted) ==>
              && Converged(t.browsers[joiner].stored, granted, w.room.epoch)
              && (Converged(t.browsers[joiner].stored, current, w.room.epoch) <==> granted == current)
  {
    RunIsSound(box, sig, secret, date, before);
    hide Inv, Bounded, Exec, Next, Start, Settled, HasPolled, Ordered;
    var w := Exec(Start(box, sig, secret, date), before);
    var granted, u := w.ticks[id].keys[|w.ticks[id].keys| - 1], Next(w, GrantOne(id, joiner));
    GrantSettlesJoiner(w, id, joiner);
    NextKeepsInv(w, GrantOne(id, joiner));
    NextKeepsBounded(w, GrantOne(id, joiner));
    SettledIsOrdered(u, joiner, granted, w.room.epoch);
    if Exec(u, after).room.epoch == w.room.epoch {
      RunSettles(u, after, joiner, granted, w.room.epoch);
    }
  }

  lemma SettledIsOrdered(w: World, b: Key, key: Secret, epoch: nat)
    requires Settled(w, b, key, epoch)
    ensures Ordered(w, b, key, epoch)
  {
  }
}
