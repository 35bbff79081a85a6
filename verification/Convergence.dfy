/** What polling settles to after a rekey, in runs that interleave every browser's polls step by step
    with each other and with everything else. */
module Convergence {
  import opened Bytes
  import opened KeyStore
  import opened Rooms
  import opened RoomRuns
  import opened KeyHolding

  // ---------- Epochs seen are never ahead of the room's ----------

  /** What a poll under way remembers is no newer than what its browser has on disk. */
  ghost predicate TickBounded(w: World, t: Tick)
  {
    && (t.ready ==> t.members.Some?)
    && (t.box in w.browsers ==> t.last <= w.browsers[t.box].stored.lastEpoch)
  }

  ghost predicate Bounded(w: World)
  {
    && (forall b | b in w.browsers ::
          w.browsers[b].stored.lastEpoch <= w.room.epoch && w.browsers[b].currentEpoch <= w.room.epoch)
    && (forall id | id in w.requests && w.requests[id].stage.Committed? :: w.requests[id].stage.epoch <= w.room.epoch)
    && (forall id | id in w.ticks :: TickBounded(w, w.ticks[id]))
  }

  lemma BrowsersStayBounded(w: World, step: Step)
    requires Inv(w) && Bounded(w)
    ensures var t := Next(w, step);
            && (forall b | b in t.browsers ::
                  t.browsers[b].stored.lastEpoch <= t.room.epoch && t.browsers[b].currentEpoch <= t.room.epoch)
            && (forall id | id in t.requests && t.requests[id].stage.Committed? ::
                  t.requests[id].stage.epoch <= t.room.epoch)
  {
    hide Ledger, OneSigEach, OneSecretEach, WrapsOk, BrowserOk, TickOk, RequestOk, RoomAfter, RekeyOutcome, Inv,
      TicksAfter, Enabled, Commits, OwnWrap, RowsEvolve, RemoveAndRekey, Recipients, TickBounded;
    NextIsLater(w, step);
    if Enabled(w, step) && Commits(w, step) {
      CommitFacts(w, step);
    }
  }

  /** Whatever a step does to a browser that was there, its disk goes only forward. */
  lemma DiskGoesForward(w: World, step: Step, b: Key)
    requires Inv(w) && b in w.browsers && b in Next(w, step).browsers
    ensures var x, y := w.browsers[b].stored, Next(w, step).browsers[b].stored;
            x.keys <= y.keys && x.lastEpoch <= y.lastEpoch
  {
    hide Ledger, OneSigEach, OneSecretEach, WrapsOk, TickOk, RequestOk, RoomAfter, TicksAfter, RequestsAfter, Commits,
      RowsEvolve, AllMayHold;
    assert BrowserOk(w, b, w.browsers[b]);
  }

  lemma TicksStayBounded(w: World, step: Step)
    requires Inv(w) && Bounded(w)
    ensures var t := Next(w, step); forall id | id in t.ticks :: TickBounded(t, t.ticks[id])
  {
    hide Inv, RoomAfter, BrowsersAfter, RequestsAfter, Commits;
    var t := Next(w, step);
    forall id | id in t.ticks ensures TickBounded(t, t.ticks[id]) {
      var box := t.ticks[id].box;
      TickBoxKnown(w, step, id);
      if box in t.browsers {
        StillThere(w, step, box);
        DiskGoesForward(w, step, box);
      }
    }
  }

  lemma TickBoxKnown(w: World, step: Step, id: nat)
    requires Inv(w) && id in Next(w, step).ticks
    ensures Next(w, step).ticks[id].box in w.room.rows
  {
    hide Ledger, OneSigEach, OneSecretEach, WrapsOk, RequestOk, RoomAfter, BrowsersAfter, RequestsAfter, Commits,
      AllMayHold, ListOk;
    if id in w.ticks {
      assert TickOk(w, w.ticks[id]);
    }
    if step.StartTick? && step.box in w.browsers {
      assert BrowserOk(w, step.box, w.browsers[step.box]);
    }
  }

  /** No box that has a row can join, so a browser with a row that is there after a step was before. */
  lemma StillThere(w: World, step: Step, b: Key)
    requires b in w.room.rows && b in Next(w, step).browsers
    ensures b in w.browsers
  {
    hide RoomAfter, TicksAfter, RequestsAfter, Commits;
  }

  lemma NextKeepsBounded(w: World, step: Step)
    requires Inv(w) && Bounded(w)
    ensures Bounded(Next(w, step))
  {
    BrowsersStayBounded(w, step);
    TicksStayBounded(w, step);
    hide Inv, Next, TickBounded;
  }

  lemma {:induction false} ExecKeepsBounded(w: World, steps: seq<Step>)
    requires Inv(w) && Bounded(w)
    ensures Bounded(Exec(w, steps))
    decreases |steps|
  {
    if |steps| > 0 {
      NextKeepsInv(w, steps[0]);
      NextKeepsBounded(w, steps[0]);
      hide Inv, Bounded, Next, Later;
      ExecKeepsBounded(Next(w, steps[0]), steps[1..]);
    }
  }

  lemma StartBounded(box: Key, sig: Key, secret: Secret, date: int)
    ensures Bounded(Start(box, sig, secret, date))
  {
  }

  // ---------- After a rekey ----------

  predicate Converged(s: Stored, key: Secret, epoch: nat)
  {
    |s.keys| > 0 && s.keys[|s.keys| - 1] == key && s.lastEpoch == epoch
  }

  predicate Behind(s: Stored, key: Secret, epoch: nat) { key !in s.keys && s.lastEpoch < epoch }

  /** Once the new key is there, it is last and the epoch is the new one. */
  predicate KeyIsLast(s: Stored, key: Secret, epoch: nat) { key in s.keys ==> Converged(s, key, epoch) }

  /** A survivor's poll: the wrap it has in hand is of the new key or of one the browser has, and one that
      has the new key with its epoch read has told its browser the new epoch. */
  ghost predicate TickOrdered(w: World, t: Tick, key: Secret, epoch: nat)
  {
    OwnWrap(t).Some? && t.box in w.browsers ==>
      && (OwnWrap(t).value == key || OwnWrap(t).value in w.browsers[t.box].stored.keys)
      && (OwnWrap(t).value == key && t.ready ==> w.browsers[t.box].currentEpoch == epoch)
  }

  /** Of one survivor, from the commit of a rekey until the next one: its row holds the new key, its
      browser has it last if at all, and nothing under way can put another key behind it. */
  ghost predicate Ordered(w: World, b: Key, key: Secret, epoch: nat)
  {
    && w.room.epoch == epoch && b in w.room.rows && w.room.rows[b].wrapped == Some(Sealed(b, key))
    && (b in w.browsers ==> KeyIsLast(w.browsers[b].stored, key, epoch))
    && (forall id | id in w.ticks && w.ticks[id].box == b :: TickOrdered(w, w.ticks[id], key, epoch))
    && (forall id | id in w.requests && w.requests[id].box == b && w.requests[id].stage.Committed? && b in w.browsers ::
          if w.requests[id].secret == key then w.requests[id].stage.epoch == epoch
          else w.requests[id].secret in w.browsers[b].stored.keys)
  }

  /** And nothing under way can tell its disk the new epoch but with the new key. */
  ghost predicate Settled(w: World, b: Key, key: Secret, epoch: nat)
  {
    && Ordered(w, b, key, epoch)
    && (b in w.browsers ==> Converged(w.browsers[b].stored, key, epoch) || Behind(w.browsers[b].stored, key, epoch))
    && (forall id | id in w.ticks && w.ticks[id].box == b :: OwnWrap(w.ticks[id]) in {None, Some(key)})
    && (forall id | id in w.requests && w.requests[id].box == b && w.requests[id].stage.Committed? ::
          w.requests[id].secret != key ==> w.requests[id].stage.epoch < epoch)
  }

  /** One browser's disk from one moment to a later one. */
  predicate Progress(a: Stored, b: Stored, key: Secret, epoch: nat)
  {
    a.keys <= b.keys && (Converged(a, key, epoch) ==> Converged(b, key, epoch))
  }

  lemma AppendIsProgress(s: Stored, key: Secret, epoch: nat)
    ensures Progress(s, s, key, epoch)
    ensures Converged(s, key, epoch) || Behind(s, key, epoch) ==>
              Converged(Append(s, key, epoch), key, epoch) && Progress(s, Append(s, key, epoch), key, epoch)
    ensures s.keys <= Append(s, key, epoch).keys
  {
  }

  /** Without a committed rekey no statement touches the wrap of a row that has one. */
  lemma WrapsStay(room: Room, op: Op, b: Key)
    requires b in room.rows && room.rows[b].wrapped.Some? && Apply(room, op).epoch == room.epoch
    ensures b in Apply(room, op).rows && Apply(room, op).rows[b].wrapped == room.rows[b].wrapped
  {
    hide ApplyWraps, SoftRemoveByBox, ActiveBoxes;
  }

  lemma SurvivorRowsStay(w: World, step: Step, b: Key)
    requires b in w.room.rows && w.room.rows[b].wrapped.Some? && Next(w, step).room.epoch == w.room.epoch
    ensures b in Next(w, step).room.rows && Next(w, step).room.rows[b].wrapped == w.room.rows[b].wrapped
  {
    hide Apply, BrowsersAfter, TicksAfter, RequestsAfter, Enabled;
    if Enabled(w, step) && Made(w, step).Some? {
      WrapsStay(w.room, Made(w, step).value, b);
    }
  }

  /** The same keys under an epoch that may have risen, or the new key appended. */
  predicate Gains(a: Stored, b: Stored, key: Secret, epoch: nat)
  {
    b == Append(a, key, epoch) || (b.keys == a.keys && a.lastEpoch <= b.lastEpoch <= epoch)
  }

  lemma GainKeeps(a: Stored, b: Stored, key: Secret, epoch: nat)
    requires Gains(a, b, key, epoch)
    ensures forall k | k in a.keys :: k in b.keys
  {
  }

  lemma GainKeepsLast(a: Stored, b: Stored, key: Secret, epoch: nat)
    requires KeyIsLast(a, key, epoch) && a.lastEpoch <= epoch && Gains(a, b, key, epoch)
    ensures KeyIsLast(b, key, epoch) && Progress(a, b, key, epoch)
  {
  }

  /** What a step leaves on a browser's disk and of the epoch it has seen. */
  lemma BrowserAfterIs(w: World, step: Step, b: Key)
    requires b in w.browsers && b in Next(w, step).browsers && b in w.room.rows
    ensures var x, y := w.browsers[b], Next(w, step).browsers[b];
            && y.currentEpoch in {x.currentEpoch, w.room.epoch}
            && (|| y.stored == x.stored
                || (step.Adopt? && Enabled(w, step) && w.ticks[step.id].box == b &&
                    y.stored == Append(x.stored, OwnWrap(w.ticks[step.id]).value, x.currentEpoch))
                || (step.AckRekey? && Enabled(w, step) && w.requests[step.id].box == b &&
                    y.stored == Append(x.stored, w.requests[step.id].secret, w.requests[step.id].stage.epoch)))
  {
    hide RoomAfter, TicksAfter, RequestsAfter, Commits, Append, OwnWrap;
  }

  /** A survivor's browser after a step. */
  lemma SurvivorBrowserStep(w: World, step: Step, b: Key, key: Secret, epoch: nat)
    requires Bounded(w) && Ordered(w, b, key, epoch) && b in Next(w, step).browsers
    ensures b in w.browsers && Gains(w.browsers[b].stored, Next(w, step).browsers[b].stored, key, epoch)
    ensures Next(w, step).browsers[b].currentEpoch in {w.browsers[b].currentEpoch, epoch}
    ensures Settled(w, b, key, epoch) ==>
              var s := Next(w, step).browsers[b].stored; Converged(s, key, epoch) || Behind(s, key, epoch)
  {
    StillThere(w, step, b);
    BrowserAfterIs(w, step, b);
    hide Next, BrowsersAfter, TickBounded, OwnWrap;
    if step.Adopt? && Enabled(w, step) && w.ticks[step.id].box == b {
      assert TickOrdered(w, w.ticks[step.id], key, epoch);
    }
  }

  /** A poll after a step: as it was, begun, with the list it was just given, or with its epoch read. */
  lemma TickAfterIs(w: World, step: Step, id: nat)
    requires id in Next(w, step).ticks
    ensures var t := Next(w, step).ticks[id];
            || (id in w.ticks && t == w.ticks[id])
            || t.members.None?
            || (id in w.ticks && w.ticks[id].members.None? && t == w.ticks[id].(members := Some(w.room.rows)))
            || (id in w.ticks && t == w.ticks[id].(ready := true) && t.box in Next(w, step).browsers &&
                Next(w, step).browsers[t.box].currentEpoch == w.room.epoch)
  {
    hide RoomAfter, RequestsAfter, Commits, OwnWrap;
  }

  lemma SurvivorTickStep(w: World, step: Step, b: Key, key: Secret, epoch: nat, id: nat)
    requires Bounded(w) && Ordered(w, b, key, epoch)
    requires id in Next(w, step).ticks && Next(w, step).ticks[id].box == b
    ensures TickOrdered(Next(w, step), Next(w, step).ticks[id], key, epoch)
    ensures Settled(w, b, key, epoch) ==> OwnWrap(Next(w, step).ticks[id]) in {None, Some(key)}
  {
    hide Next, KeyIsLast, Converged, Behind, Append, Gains;
    TickAfterIs(w, step, id);
    if id in w.ticks {
      assert w.ticks[id].box == b ==> TickOrdered(w, w.ticks[id], key, epoch) && TickBounded(w, w.ticks[id]);
    }
    if b in Next(w, step).browsers {
      SurvivorBrowserStep(w, step, b, key, epoch);
      GainKeeps(w.browsers[b].stored, Next(w, step).browsers[b].stored, key, epoch);
    }
  }

  lemma CommittedStep(w: World, step: Step, id: nat)
    requires !(Enabled(w, step) && Commits(w, step))
    requires id in Next(w, step).requests && Next(w, step).requests[id].stage.Committed?
    ensures id in w.requests && w.requests[id] == Next(w, step).requests[id]
  {
    hide RoomAfter, BrowsersAfter, TicksAfter, RekeyOutcome;
  }

  /** A rekey that commits moves the epoch. */
  lemma NoCommitHere(w: World, step: Step)
    requires Inv(w) && Next(w, step).room.epoch == w.room.epoch
    ensures !(Enabled(w, step) && Commits(w, step))
  {
    hide Inv, Next, Enabled, Commits;
    if Enabled(w, step) && Commits(w, step) {
      CommitParts(w, step);
    }
  }

  lemma NextKeepsOrdered(w: World, step: Step, b: Key, key: Secret, epoch: nat)
    requires Inv(w) && Bounded(w) && Ordered(w, b, key, epoch) && Next(w, step).room.epoch == epoch
    ensures Ordered(Next(w, step), b, key, epoch)
    ensures Settled(w, b, key, epoch) ==> Settled(Next(w, step), b, key, epoch)
    ensures b in Next(w, step).browsers ==>
              b in w.browsers && Progress(w.browsers[b].stored, Next(w, step).browsers[b].stored, key, epoch)
  {
    hide Inv, Bounded, Next, Enabled, Commits, Converged, Behind, TickOrdered, Append, Progress, KeyIsLast, Gains,
      OwnWrap;
    var t := Next(w, step);
    SurvivorRowsStay(w, step, b);
    NoCommitHere(w, step);
    if b in t.browsers {
      SurvivorBrowserStep(w, step, b, key, epoch);
      DiskBounded(w, b);
      GainKeepsLast(w.browsers[b].stored, t.browsers[b].stored, key, epoch);
      GainKeeps(w.browsers[b].stored, t.browsers[b].stored, key, epoch);
    }
    forall id | id in t.ticks && t.ticks[id].box == b
      ensures TickOrdered(t, t.ticks[id], key, epoch)
      ensures Settled(w, b, key, epoch) ==> OwnWrap(t.ticks[id]) in {None, Some(key)}
    {
      SurvivorTickStep(w, step, b, key, epoch, id);
    }
    forall id | id in t.requests && t.requests[id].stage.Committed?
      ensures id in w.requests && w.requests[id] == t.requests[id]
    {
      CommittedStep(w, step, id);
    }
  }

  lemma DiskBounded(w: World, b: Key)
    requires Bounded(w) && b in w.browsers
    ensures w.browsers[b].stored.lastEpoch <= w.room.epoch
  {
  }

  /** This step is where a poll of `b` that found the new key in its row, its epoch read, comes to
      adopting, whether or not it then takes it. */
  ghost predicate ComesToAdopt(w: World, step: Step, b: Key, key: Secret)
  {
    && step.Adopt? && step.id in w.ticks && w.ticks[step.id].box == b && w.ticks[step.id].ready && b in w.browsers
    && OwnWrap(w.ticks[step.id]) == Some(key)
  }

  /** Some poll of `b` that found the new key came to adopting during the run. */
  ghost predicate HasPolled(w: World, steps: seq<Step>, b: Key, key: Secret)
    decreases |steps|
  {
    |steps| > 0 && (ComesToAdopt(w, steps[0], b, key) || HasPolled(Next(w, steps[0]), steps[1..], b, key))
  }

  /** A survivor's poll that comes to adopting leaves its browser converged: it takes the new key, or it
      began knowing the new epoch, which it can only have learnt with the key. */
  lemma AdoptingConverges(w: World, step: Step, b: Key, key: Secret, epoch: nat)
    requires Bounded(w) && Settled(w, b, key, epoch) && ComesToAdopt(w, step, b, key)
    ensures b in Next(w, step).browsers && Converged(Next(w, step).browsers[b].stored, key, epoch)
  {
    var tick := w.ticks[step.id];
    assert TickOrdered(w, tick, key, epoch) && TickBounded(w, tick);
    AppendIsProgress(w.browsers[b].stored, key, epoch);
    hide RoomAfter, TicksAfter, RequestsAfter, Commits, Append;
  }

  /** While the epoch does not move, however every other step falls. */
  lemma {:induction false} RunSettles(w: World, steps: seq<Step>, b: Key, key: Secret, epoch: nat)
    requires Inv(w) && Bounded(w) && Ordered(w, b, key, epoch) && Exec(w, steps).room.epoch == epoch
    ensures var t := Exec(w, steps);
            b in t.browsers ==>
              && b in w.browsers && Progress(w.browsers[b].stored, t.browsers[b].stored, key, epoch)
              && KeyIsLast(t.browsers[b].stored, key, epoch)
              && (Settled(w, b, key, epoch) && HasPolled(w, steps, b, key) ==>
                    Converged(t.browsers[b].stored, key, epoch))
    decreases |steps|
  {
    hide Inv, Bounded, Settled, Next, Converged, ComesToAdopt, TickOrdered;
    if |steps| > 0 {
      var t := Next(w, steps[0]);
      NextKeepsInv(w, steps[0]);
      NextKeepsBounded(w, steps[0]);
      ExecKeepsInv(t, steps[1..]);
      EpochBetween(w, t, Exec(w, steps), epoch);
      NextKeepsOrdered(w, steps[0], b, key, epoch);
      hide Ordered;
      RunSettles(t, steps[1..], b, key, epoch);
      if Settled(w, b, key, epoch) && ComesToAdopt(w, steps[0], b, key) {
        AdoptingConverges(w, steps[0], b, key, epoch);
      }
    } else if b in w.browsers {
      AppendIsProgress(w.browsers[b].stored, key, epoch);
    }
  }

  lemma EpochBetween(a: World, b: World, c: World, epoch: nat)
    requires Later(a, b) && Later(b, c) && a.room.epoch == epoch == c.room.epoch
    ensures b.room.epoch == epoch
  {
  }

  // ---------- The commit ----------

  /** No poll under way has in hand a key the browser lacks, nor has an answer still to come. */
  ghost predicate NoOtherKeyComing(w: World, b: Key)
    requires b in w.browsers
  {
    && (forall id | id in w.ticks && w.ticks[id].box == b && OwnWrap(w.ticks[id]).Some? ::
          OwnWrap(w.ticks[id]).value in w.browsers[b].stored.keys)
    && (forall id | id in w.requests && w.requests[id].box == b && w.requests[id].stage.Committed? ::
          w.requests[id].secret in w.browsers[b].stored.keys)
  }

  /** And no poll under way has any key in hand: each has yet to read its list, or its list shows none. */
  ghost predicate NoKeyComing(w: World, b: Key)
    requires b in w.browsers
  {
    NoOtherKeyComing(w, b) && forall id | id in w.ticks && w.ticks[id].box == b :: OwnWrap(w.ticks[id]).None?
  }

  lemma NotYetHeld(w: World, box: Key, keys: seq<Secret>, secret: Secret)
    requires AllMayHold(w, box, keys) && secret !in w.mints
    ensures secret !in keys
  {
  }

  lemma CommitParts(w: World, step: Step)
    requires Inv(w) && Enabled(w, step) && Commits(w, step)
    ensures step.CommitRekey? && step.id in w.requests
    ensures var t, r := Next(w, step), w.requests[step.id];
            && t.ticks == w.ticks && t.browsers == w.browsers && t.room.epoch == w.room.epoch + 1
            && t.requests == w.requests[step.id := r.(stage := Committed(w.room.epoch + 1))] && r.secret !in w.mints
  {
    hide Inv, RemoveAndRekey, RekeyOutcome, RoomAfter, Enabled, RequestOk, Recipients;
    CommitFacts(w, step);
  }

  lemma CommittedRows(w: World, step: Step)
    requires Inv(w) && Enabled(w, step) && Commits(w, step)
    ensures var t, r := Next(w, step), w.requests[step.id];
            && ActiveBoxes(t.room.rows) == Recipients(r.wraps)
            && forall b | b in Recipients(r.wraps) :: t.room.rows[b].wrapped == Some(Sealed(b, r.secret))
  {
    hide Ledger, OneSigEach, OneSecretEach, WrapsOk, TickOk, BrowserOk, RemoveAndRekey, RekeyOutcome, Recipients,
      RoomAfter, Enabled, Commits, ListOk, RequestsAfter, TicksAfter, BrowsersAfter, ActiveBoxes;
    CommitFacts(w, step);
    var r := w.requests[step.id];
    RekeyedRows(w.room, r.members, r.target, r.wraps, r.secret, step.date);
    ActiveHaveRows(Next(w, step).room.rows);
  }

  lemma ActiveHaveRows(rows: Rows)
    ensures forall b | b in ActiveBoxes(rows) :: b in rows
  {
  }

  /** The moment after the commit: the survivor's row holds the new key and its browser is behind. */
  lemma CommitSettles(w: World, step: Step, b: Key)
    requires Inv(w) && Bounded(w) && Enabled(w, step) && Commits(w, step)
    requires b in ActiveBoxes(Next(w, step).room.rows) && (b in w.browsers ==> NoOtherKeyComing(w, b))
    ensures var key := w.requests[step.id].secret;
            && (b in w.browsers ==> Behind(w.browsers[b].stored, key, w.room.epoch + 1))
            && Ordered(Next(w, step), b, key, w.room.epoch + 1)
            && (b in w.browsers && NoKeyComing(w, b) ==> Settled(Next(w, step), b, key, w.room.epoch + 1))
  {
    hide Inv, Next, Enabled, Commits, ActiveBoxes, Recipients, OwnWrap;
    CommitParts(w, step);
    CommittedRows(w, step);
    ActiveHaveRows(Next(w, step).room.rows);
    if b in w.browsers {
      BrowserHolds(w, b);
      NotYetHeld(w, b, w.browsers[b].stored.keys, w.requests[step.id].secret);
    }
  }

  lemma BrowserHolds(w: World, b: Key)
    requires Inv(w) && b in w.browsers
    ensures b in w.room.rows && AllMayHold(w, b, w.browsers[b].stored.keys)
  {
    assert BrowserOk(w, b, w.browsers[b]);
  }

  /** Rekey convergence. Take any run of a new room up to a rekey that commits, and any survivor whose own
      browser has, at that moment, no poll under way with a key in hand and no answer to come with a key it
      lacks. Then let every browser's polls, grants, joins, leaves, lost browsers, rekey requests and
      answers follow in any interleaving of their single steps, as long as no further rekey commits, which
      is to say the epoch stays. If a poll of the survivor that found the new key has come to adopting,
      its browser has the new key as the last of its history and the server's epoch as its own. It has
      lost no key either way, so every message it could decrypt it still can. */
  lemma RekeyConverges(box: Key, sig: Key, secret: Secret, date: int, before: seq<Step>, rekey: Step,
                       after: seq<Step>, survivor: Key)
    requires var w := Exec(Start(box, sig, secret, date), before);
             (survivor in w.browsers ==> NoKeyComing(w, survivor)) && Enabled(w, rekey) && Commits(w, rekey)
    requires var u := Next(Exec(Start(box, sig, secret, date), before), rekey);
             survivor in ActiveBoxes(u.room.rows) && Exec(u, after).room.epoch == u.room.epoch
    ensures var w := Exec(Start(box, sig, secret, date), before);
            var u := Next(w, rekey);
            var t := Exec(u, after);
            survivor in t.browsers ==>
              && survivor in w.browsers && w.browsers[survivor].stored.keys <= t.browsers[survivor].stored.keys
              && t.room.epoch == w.room.epoch + 1
              && (HasPolled(u, after, survivor, w.requests[rekey.id].secret) ==>
                    Converged(t.browsers[survivor].stored, w.requests[rekey.id].secret, t.room.epoch))
  {
    RunIsSound(box, sig, secret, date, before);
    hide Inv, Exec, Start, Next, Enabled, Commits, Bounded, Converged, HasPolled, ActiveBoxes, NoKeyComing,
      NoOtherKeyComing, Settled, Ordered;
    var w := Exec(Start(box, sig, secret, date), before);
    NextKeepsInv(w, rekey);
    NextKeepsBounded(w, rekey);
    if survivor in w.browsers {
      NoKeyIsNoOther(w, survivor);
    }
    CommitSettles(w, rekey, survivor);
    CommitParts(w, rekey);
    RunSettles(Next(w, rekey), after, survivor, w.requests[rekey.id].secret, w.room.epoch + 1);
  }

  lemma NoKeyIsNoOther(w: World, b: Key)
    requires b in w.browsers && NoKeyComing(w, b)
    ensures NoOtherKeyComing(w, b)
  {
  }

  lemma RunIsSound(box: Key, sig: Key, secret: Secret, date: int, steps: seq<Step>)
    ensures Inv(Exec(Start(box, sig, secret, date), steps)) && Bounded(Exec(Start(box, sig, secret, date), steps))
  {
    hide Inv, Bounded, Exec, Start;
    StartInv(box, sig, secret, date);
    StartBounded(box, sig, secret, date);
    ExecKeepsInv(Start(box, sig, secret, date), steps);
    ExecKeepsBounded(Start(box, sig, secret, date), steps);
  }

  // ---------- A browser that has seen the epoch ----------

  /** Nothing under way for this box can bring its disk a key before the epoch moves. */
  ghost predicate Stranded(w: World, box: Key, s: Stored)
  {
    && box in w.room.rows && |s.keys| > 0 && s.lastEpoch == w.room.epoch
    && (box in w.browsers ==> w.browsers[box].stored == s)
    && (forall id | id in w.ticks && w.ticks[id].box == box :: |w.ticks[id].keys| > 0 && w.ticks[id].last >= w.room.epoch)
    && (forall id | id in w.requests && w.requests[id].box == box :: !w.requests[id].stage.Committed?)
  }

  lemma StrandedBrowser(w: World, step: Step, box: Key, s: Stored)
    requires Bounded(w) && Stranded(w, box, s) && box in Next(w, step).browsers
    ensures Next(w, step).browsers[box].stored == s
  {
    StillThere(w, step, box);
    hide RoomAfter, TicksAfter, RequestsAfter, Commits, TickBounded, Append, OwnWrap;
  }

  lemma StrandedTick(w: World, step: Step, box: Key, s: Stored, id: nat)
    requires Stranded(w, box, s) && id in Next(w, step).ticks && Next(w, step).ticks[id].box == box
    ensures |Next(w, step).ticks[id].keys| > 0 && Next(w, step).ticks[id].last >= w.room.epoch
  {
    hide RoomAfter, BrowsersAfter, RequestsAfter, Commits, OwnWrap;
  }

  lemma StrandedRequest(w: World, step: Step, box: Key, s: Stored, id: nat)
    requires Stranded(w, box, s) && id in Next(w, step).requests && Next(w, step).requests[id].box == box
    requires !(Enabled(w, step) && Commits(w, step))
    ensures !Next(w, step).requests[id].stage.Committed?
  {
    hide RoomAfter, BrowsersAfter, TicksAfter, RekeyOutcome, OwnWrap;
  }

  lemma NextKeepsStranded(w: World, step: Step, box: Key, s: Stored)
    requires Inv(w) && Bounded(w) && Stranded(w, box, s) && Next(w, step).room.epoch == w.room.epoch
    ensures Stranded(Next(w, step), box, s)
  {
    hide Inv, Bounded, Next, Enabled, Commits;
    NextIsLater(w, step);
    var t := Next(w, step);
    NoCommitHere(w, step);
    SigKept(w, t, box);
    if box in t.browsers {
      StrandedBrowser(w, step, box, s);
    }
    forall id | id in t.ticks && t.ticks[id].box == box
      ensures |t.ticks[id].keys| > 0 && t.ticks[id].last >= w.room.epoch
    {
      StrandedTick(w, step, box, s, id);
    }
    forall id | id in t.requests && t.requests[id].box == box ensures !t.requests[id].stage.Committed? {
      StrandedRequest(w, step, box, s, id);
    }
  }

  /** In every interleaving, a browser with a key that has seen the current epoch, with no older poll and
      no rekey answer of its own under way, takes no key at all until the epoch moves. */
  lemma {:induction false} SeenEpochNeverAdopts(w: World, steps: seq<Step>, box: Key, s: Stored)
    requires Inv(w) && Bounded(w) && Stranded(w, box, s) && Exec(w, steps).room.epoch == w.room.epoch
    ensures box in Exec(w, steps).browsers ==> Exec(w, steps).browsers[box].stored == s
    decreases |steps|
  {
    hide Inv, Bounded, Next;
    if |steps| > 0 {
      var t := Next(w, steps[0]);
      NextKeepsInv(w, steps[0]);
      NextKeepsBounded(w, steps[0]);
      ExecKeepsInv(t, steps[1..]);
      EpochBetween(w, t, Exec(w, steps), w.room.epoch);
      NextKeepsStranded(w, steps[0], box, s);
      hide Stranded;
      SeenEpochNeverAdopts(t, steps[1..], box, s);
    }
  }
}
