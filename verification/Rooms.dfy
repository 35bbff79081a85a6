/** The room tables: member rows, the key epoch and the published rosters, with the statements and
    transactions that change them. */
module Rooms {
  import opened Bytes

  /** A room key sealed to one box key. The server stores it without looking inside. */
  datatype Sealed = Sealed(recipient: Key, secret: nat)

  /** A member row. The table's primary key, the box key, is the key of the map that holds it;
      `order` is the row's place in insertion order. */
  datatype Row = Row(sig: Key, wrapped: Option<Sealed>, joinedAt: int, invitedBy: Option<Key>,
                     removedAt: Option<int>, order: nat)
  {
    predicate Active() { removedAt.None? }
    predicate Accepted() { wrapped.Some? }
  }

  type Rows = map<Key, Row>

  datatype Roster = Roster(ring: seq<Key>, creatorSig: seq<byte>)

  datatype Room = Room(rows: Rows, epoch: nat, rosterEpoch: nat, vouching: bool, rosters: map<int, Roster>)

  type Wraps = seq<(Key, Sealed)>

  datatype RekeyResult = Rekeyed(epoch: nat) | TargetNotActive | CountMismatch | NotASurvivor

  function ActiveBoxes(rows: Rows): set<Key> { set b | b in rows && rows[b].Active() }

  function ActiveWithSig(rows: Rows, sig: Key): set<Key>
  {
    set b | b in rows && rows[b].Active() && rows[b].sig == sig
  }

  function NewRoom(box: Key, sig: Key, wrapped: Sealed, date: int): Room
  {
    Room(map[box := Row(sig, Some(wrapped), date, None, None, 0)], 0, 0, false, map[])
  }

  /** INSERT ... ON CONFLICT DO NOTHING. */
  function AddMember(rows: Rows, box: Key, sig: Key, date: int): Rows
  {
    if box in rows then rows else rows[box := Row(sig, None, date, None, None, |rows|)]
  }

  predicate CanGrant(rows: Rows, forBox: Key, inviter: Key)
  {
    forBox in rows && rows[forBox].wrapped.None? && inviter in rows && rows[inviter].Active()
  }

  function GrantWrap(rows: Rows, forBox: Key, wrapped: Sealed, inviter: Key): Rows
  {
    if CanGrant(rows, forBox, inviter)
    then rows[forBox := rows[forBox].(wrapped := Some(wrapped), invitedBy := Some(inviter))]
    else rows
  }

  /** Every active row with this signing key is removed, however many there are. */
  function SoftRemoveBySig(rows: Rows, sig: Key, date: int): Rows
  {
    map b | b in rows :: if rows[b].Active() && rows[b].sig == sig then rows[b].(removedAt := Some(date)) else rows[b]
  }

  function SoftRemoveByBox(rows: Rows, box: Key, date: int): Rows
  {
    if box in rows && rows[box].Active() then rows[box := rows[box].(removedAt := Some(date))] else rows
  }

  function Rewrap(rows: Rows, box: Key, wrapped: Sealed): Rows
  {
    if box in rows && rows[box].Active() then rows[box := rows[box].(wrapped := Some(wrapped))] else rows
  }

  /** The updates of a rekey, one after another. */
  function ApplyWraps(rows: Rows, wraps: Wraps): Rows
  {
    if |wraps| == 0 then rows
    else var last := wraps[|wraps| - 1];
         Rewrap(ApplyWraps(rows, wraps[..|wraps| - 1]), last.0, last.1)
  }

  function RekeyOutcome(room: Room, target: Key, wraps: Wraps, date: int): RekeyResult
  {
    if target !in room.rows || !room.rows[target].Active() then TargetNotActive
    else var survivors := ActiveBoxes(SoftRemoveByBox(room.rows, target, date));
         if |survivors| != |wraps| then CountMismatch
         else if exists i | 0 <= i < |wraps| :: wraps[i].0 !in survivors then NotASurvivor
         else Rekeyed(room.epoch + 1)
  }

  function RemoveAndRekey(room: Room, target: Key, wraps: Wraps, date: int): Room
  {
    if RekeyOutcome(room, target, wraps, date).Rekeyed?
    then room.(rows := ApplyWraps(SoftRemoveByBox(room.rows, target, date), wraps), epoch := room.epoch + 1)
    else room
  }

  predicate CanInsertRoster(room: Room, epoch: int) { room.rosterEpoch == epoch - 1 }

  function InsertRoster(room: Room, epoch: int, roster: Roster): Room
  {
    if CanInsertRoster(room, epoch)
    then room.(rosterEpoch := epoch, vouching := true, rosters := room.rosters[epoch := roster])
    else room
  }

  /** The signing keys of accepted active members in ascending order, as the query returns them:
      one entry per row, so two rows with one signing key give a repeated entry. */
  ghost predicate IsLiveRing(rows: Rows, live: seq<Key>)
  {
    exists boxes: seq<Key> :: ListsLive(rows, live, boxes)
  }

  ghost predicate ListsLive(rows: Rows, live: seq<Key>, boxes: seq<Key>)
  {
    && |boxes| == |live|
    && (forall i, j | 0 <= i < j < |boxes| :: boxes[i] != boxes[j])
    && (forall b :: b in boxes <==> b in rows && rows[b].Active() && rows[b].Accepted())
    && (forall i | 0 <= i < |live| :: live[i] == rows[boxes[i]].sig)
    && (forall i, j | 0 <= i < j < |live| :: !Less(live[j], live[i]))
  }

  /** ORDER BY joined_at over the rows without an inviter, ties to the row inserted first. */
  ghost predicate IsFirstUninvited(rows: Rows, box: Key)
  {
    && box in rows && rows[box].invitedBy.None?
    && forall b | b in rows && rows[b].invitedBy.None? && b != box ::
         rows[box].joinedAt < rows[b].joinedAt ||
         (rows[box].joinedAt == rows[b].joinedAt && rows[box].order < rows[b].order)
  }

  /** The check before a rekey: some active row without an inviter carries this signing key. */
  predicate IsCreatorBySig(rows: Rows, sig: Key)
  {
    exists b :: b in rows && rows[b].sig == sig && rows[b].invitedBy.None? && rows[b].Active()
  }

  /** From one table to another, everyone with this signing key has left: rows active before are the same
      rows but removed on this day, every other row is as it was, and none with the key is active. */
  ghost predicate HasLeft(before: Rows, after: Rows, sig: Key, date: int)
  {
    && after.Keys == before.Keys
    && (forall b | b in after && after[b].sig == sig :: after[b].removedAt.Some?)
    && (forall b | b in before && before[b].sig == sig && before[b].removedAt.None? ::
          after[b] == before[b].(removedAt := Some(date)))
    && (forall b | b in before && (before[b].sig != sig || before[b].removedAt.Some?) :: after[b] == before[b])
  }

  ghost predicate OneActive(rows: Rows, sig: Key)
  {
    exists b :: IsActiveWith(rows, b, sig) && forall c | IsActiveWith(rows, c, sig) :: c == b
  }

  predicate IsActiveWith(rows: Rows, b: Key, sig: Key) { b in rows && rows[b].sig == sig && rows[b].removedAt.None? }

  lemma OnlyOne(s: set<Key>)
    ensures |s| == 1 <==> exists b :: b in s && forall c | c in s :: c == b
  {
    if |s| == 1 {
      var b :| b in s;
      assert |s - {b}| == 0;
      assert forall c | c in s :: c == b || c in s - {b};
    }
    if b :| b in s && forall c | c in s :: c == b {
      assert s == {b};
    }
  }

  lemma LeaveIs(rows: Rows, sig: Key, date: int)
    ensures HasLeft(rows, SoftRemoveBySig(rows, sig, date), sig, date)
    ensures |ActiveWithSig(rows, sig)| == 1 <==> OneActive(rows, sig)
  {
    OnlyOne(ActiveWithSig(rows, sig));
    assert forall b :: b in ActiveWithSig(rows, sig) <==> IsActiveWith(rows, b, sig);
  }

  ghost predicate AllForOthers(rows: Rows, target: Key, wraps: Wraps)
  {
    forall i | 0 <= i < |wraps| :: wraps[i].0 != target && wraps[i].0 in rows && rows[wraps[i].0].removedAt.None?
  }

  ghost predicate NoWrapFor(wraps: Wraps, box: Key) { forall i | 0 <= i < |wraps| :: wraps[i].0 != box }

  ghost predicate LastAt(wraps: Wraps, i: nat, box: Key, wrapped: Sealed)
  {
    i < |wraps| && wraps[i] == (box, wrapped) && forall j | i < j < |wraps| :: wraps[j].0 != box
  }

  ghost predicate IsLastWrap(wraps: Wraps, box: Key, wrapped: Sealed) { exists i :: LastAt(wraps, i, box, wrapped) }

  /** One row, with the wrap for it if there is one. */
  ghost predicate Rewrapped(before: Row, after: Row, wraps: Wraps, box: Key)
  {
    (NoWrapFor(wraps, box) && after == before) ||
    (after.wrapped.Some? && IsLastWrap(wraps, box, after.wrapped.value) && after == before.(wrapped := after.wrapped))
  }

  ghost predicate HasRekeyed(before: Rows, after: Rows, target: Key, wraps: Wraps, date: int)
  {
    && after.Keys == before.Keys && target in before && after[target] == before[target].(removedAt := Some(date))
    && forall b | b in before && b != target :: Rewrapped(before[b], after[b], wraps, b)
  }

  lemma OneMoreWrap(wraps: Wraps, box: Key)
    requires |wraps| > 0
    ensures var n := |wraps| - 1;
            if wraps[n].0 == box then IsLastWrap(wraps, box, wraps[n].1)
            else && (NoWrapFor(wraps[..n], box) ==> NoWrapFor(wraps, box))
                 && forall w | IsLastWrap(wraps[..n], box, w) :: IsLastWrap(wraps, box, w)
  {
    var n := |wraps| - 1;
    if wraps[n].0 == box {
      assert LastAt(wraps, n, box, wraps[n].1);
    } else {
      forall w | IsLastWrap(wraps[..n], box, w) ensures IsLastWrap(wraps, box, w) {
        var i :| LastAt(wraps[..n], i, box, w);
        assert LastAt(wraps, i, box, w);
      }
    }
  }

  lemma {:induction false} LastWrapStays(rows: Rows, wraps: Wraps, b: Key)
    requires b in rows && (rows[b].removedAt.None? || NoWrapFor(wraps, b))
    ensures b in ApplyWraps(rows, wraps) && Rewrapped(rows[b], ApplyWraps(rows, wraps)[b], wraps, b)
  {
    hide IsLastWrap;
    if |wraps| > 0 {
      var n := |wraps| - 1;
      LastWrapStays(rows, wraps[..n], b);
      OneMoreWrap(wraps, b);
      hide NoWrapFor;
    }
  }

  lemma RekeyIs(room: Room, target: Key, wraps: Wraps, date: int)
    ensures var r := RekeyOutcome(room, target, wraps, date);
            && (r.TargetNotActive? <==> target !in room.rows || room.rows[target].removedAt.Some?)
            && (r.CountMismatch? <==> !r.TargetNotActive? && |wraps| != |ActiveBoxes(room.rows) - {target}|)
            && (r.NotASurvivor? <==> !r.TargetNotActive? && !r.CountMismatch? && !AllForOthers(room.rows, target, wraps))
            && (r.Rekeyed? ==>
                  HasRekeyed(room.rows, RemoveAndRekey(room, target, wraps, date).rows, target, wraps, date))
  {
    if target in room.rows && room.rows[target].Active() {
      var removed := SoftRemoveByBox(room.rows, target, date);
      assert ActiveBoxes(removed) == ActiveBoxes(room.rows) - {target};
      if RekeyOutcome(room, target, wraps, date).Rekeyed? {
        RekeyedRowsAre(room.rows, removed, target, wraps, date);
      }
    }
    hide HasRekeyed, SoftRemoveByBox, ApplyWraps;
  }

  lemma RekeyedRowsAre(rows: Rows, removed: Rows, target: Key, wraps: Wraps, date: int)
    requires target in rows && removed == rows[target := rows[target].(removedAt := Some(date))]
    requires forall i | 0 <= i < |wraps| :: wraps[i].0 in ActiveBoxes(removed)
    ensures HasRekeyed(rows, ApplyWraps(removed, wraps), target, wraps, date)
  {
    WrapsReach(removed, wraps, target);
    forall i | 0 <= i < |wraps| ensures wraps[i].0 != target { }
    assert NoWrapFor(wraps, target);
    forall b | b in rows
      ensures b in ApplyWraps(removed, wraps) && Rewrapped(removed[b], ApplyWraps(removed, wraps)[b], wraps, b)
    {
      if rows[b].removedAt.Some? { assert b !in ActiveBoxes(removed); }
      LastWrapStays(removed, wraps, b);
    }
    hide ApplyWraps, Rewrapped;
  }

  /** The database half of a room. A transaction that fails leaves every field as it was. */
  class RoomStore {
    var rows: Rows
    var epoch: nat
    var rosterEpoch: nat
    var vouching: bool
    var rosters: map<int, Roster>

    function State(): Room
      reads this
    {
      Room(rows, epoch, rosterEpoch, vouching, rosters)
    }

    constructor (box: Key, sig: Key, wrapped: Sealed, date: int)
      ensures State() == NewRoom(box, sig, wrapped, date)
    {
      rows := map[box := Row(sig, Some(wrapped), date, None, None, 0)];
      epoch, rosterEpoch, vouching, rosters := 0, 0, false, map[];
    }

    method AddMemberRow(box: Key, sig: Key, date: int)
      modifies this
      ensures State() == old(State()).(rows := AddMember(old(rows), box, sig, date))
      ensures box in rows && forall b | b in old(rows) :: rows[b] == old(rows)[b]
      ensures box !in old(rows) ==> rows == old(rows)[box := Row(sig, None, date, None, None, |old(rows)|)]
    {
      if box !in rows {
        rows := rows[box := Row(sig, None, date, None, None, |rows|)];
      }
    }

    method Grant(forBox: Key, wrapped: Sealed, inviter: Key) returns (ok: bool)
      modifies this
      ensures State() == old(State()).(rows := GrantWrap(old(rows), forBox, wrapped, inviter))
      ensures ok <==> forBox in old(rows) && old(rows)[forBox].wrapped.None? &&
                      inviter in old(rows) && old(rows)[inviter].removedAt.None?
      ensures ok ==> rows[forBox] == old(rows)[forBox].(wrapped := Some(wrapped), invitedBy := Some(inviter))
      ensures rows.Keys == old(rows).Keys && forall b | b in rows && (b != forBox || !ok) :: rows[b] == old(rows)[b]
    {
      ok := CanGrant(rows, forBox, inviter);
      if ok {
        rows := rows[forBox := rows[forBox].(wrapped := Some(wrapped), invitedBy := Some(inviter))];
      }
    }

    /** Whoever leaves is gone: every row active under the signing key is the same row but removed on this
        day, and no other row has changed. Reports success only for exactly one row, after the update is
        already made. */
    method SoftRemove(sig: Key, date: int) returns (ok: bool)
      modifies this
      ensures State() == old(State()).(rows := SoftRemoveBySig(old(rows), sig, date))
      ensures ok == (|ActiveWithSig(old(rows), sig)| == 1)
      ensures HasLeft(old(rows), rows, sig, date) && (ok <==> OneActive(old(rows), sig))
    {
      LeaveIs(rows, sig, date);
      hide HasLeft, OneActive;
      var affected := ActiveWithSig(rows, sig);
      ok := |affected| == 1;
      ghost var before := rows;
      var todo := affected;
      while todo != {}
        invariant todo <= affected && epoch == old(epoch) && rosterEpoch == old(rosterEpoch)
        invariant vouching == old(vouching) && rosters == old(rosters)
        invariant rows.Keys == before.Keys
        invariant forall b | b in before ::
                    rows[b] == if b in affected && b !in todo then before[b].(removedAt := Some(date)) else before[b]
      {
        var b :| b in todo;
        rows := rows[b := rows[b].(removedAt := Some(date))];
        todo := todo - {b};
      }
    }

    /** The rekey transaction: `tx` is its uncommitted view of the member rows. It goes through exactly when the
        target is active and there are as many wraps as others active, each for one of those; then the target is
        out, each wrap is in the row it is for, a later one over an earlier, and nothing else has changed. */
    method RemoveAndRekeyRows(target: Key, wraps: Wraps, date: int) returns (r: RekeyResult)
      modifies this
      ensures r == RekeyOutcome(old(State()), target, wraps, date)
      ensures State() == RemoveAndRekey(old(State()), target, wraps, date)
      ensures !r.Rekeyed? ==> State() == old(State())
      ensures r.TargetNotActive? <==> target !in old(rows) || old(rows)[target].removedAt.Some?
      ensures r.CountMismatch? <==> !r.TargetNotActive? && |wraps| != |ActiveBoxes(old(rows)) - {target}|
      ensures r.NotASurvivor? <==> !r.TargetNotActive? && !r.CountMismatch? && !AllForOthers(old(rows), target, wraps)
      ensures r.Rekeyed? ==> HasRekeyed(old(rows), rows, target, wraps, date) && epoch == old(epoch) + 1 == r.epoch
    {
      RekeyIs(State(), target, wraps, date);
      hide HasRekeyed, AllForOthers;
      var tx := rows;
      if target !in tx || !tx[target].Active() {
        return TargetNotActive;
      }
      tx := tx[target := tx[target].(removedAt := Some(date))];
      var survivors := ActiveBoxes(tx);
      if |survivors| != |wraps| {
        return CountMismatch;
      }
      for i := 0 to |wraps|
        invariant forall j | 0 <= j < i :: wraps[j].0 in survivors
      {
        if wraps[i].0 !in survivors {
          return NotASurvivor;
        }
      }
      ghost var removed := tx;
      for i := 0 to |wraps|
        invariant tx == ApplyWraps(removed, wraps[..i])
      {
        var (forBox, wrapped) := wraps[i];
        if forBox in tx && tx[forBox].Active() {
          tx := tx[forBox := tx[forBox].(wrapped := Some(wrapped))];
        }
        assert wraps[..i + 1][..i] == wraps[..i];
      }
      assert wraps[..|wraps|] == wraps;
      rows, epoch := tx, epoch + 1;
      return Rekeyed(epoch);
    }

    method PublishRoster(newEpoch: int, ring: seq<Key>, creatorSig: seq<byte>) returns (ok: bool)
      modifies this
      ensures State() == InsertRoster(old(State()), newEpoch, Roster(ring, creatorSig))
      ensures ok <==> newEpoch == old(rosterEpoch) + 1
      ensures !ok ==> State() == old(State())
      ensures ok ==> rosterEpoch == newEpoch == old(rosterEpoch) + 1 && vouching && rows == old(rows)
      ensures ok ==> newEpoch in rosters && rosters[newEpoch] == Roster(ring, creatorSig)
      ensures forall e | e in old(rosters) && e <= old(rosterEpoch) :: e in rosters && rosters[e] == old(rosters)[e]
    {
      if rosterEpoch != newEpoch - 1 {
        return false;
      }
      rosterEpoch, vouching := newEpoch, true;
      rosters := rosters[newEpoch := Roster(ring, creatorSig)];
      return true;
    }
  }

  ghost predicate DistinctRecipients(wraps: Wraps)
  {
    forall i, j | 0 <= i < j < |wraps| :: wraps[i].0 != wraps[j].0
  }

  function Recipients(wraps: Wraps): set<Key> { set i | 0 <= i < |wraps| :: wraps[i].0 }

  lemma {:induction false} RecipientCount(wraps: Wraps)
    ensures |Recipients(wraps)| <= |wraps|
    ensures |Recipients(wraps)| == |wraps| <==> DistinctRecipients(wraps)
  {
    if |wraps| > 0 {
      var front, last := wraps[..|wraps| - 1], wraps[|wraps| - 1].0;
      RecipientCount(front);
      assert forall i | 0 <= i < |front| :: front[i] == wraps[i];
      assert Recipients(wraps) == Recipients(front) + {last};
      if last in Recipients(front) {
        var i :| 0 <= i < |front| && front[i].0 == last;
        assert wraps[i].0 == wraps[|wraps| - 1].0;
        assert Recipients(wraps) == Recipients(front);
      } else if DistinctRecipients(front) {
        forall i, j | 0 <= i < j < |wraps| ensures wraps[i].0 != wraps[j].0 {
          if j == |wraps| - 1 {
            assert front[i].0 in Recipients(front);
          } else {
            assert front[i].0 != front[j].0;
          }
        }
      } else {
        var i, j :| 0 <= i < j < |front| && front[i].0 == front[j].0;
        assert wraps[i].0 == wraps[j].0;
      }
    }
  }

  lemma SubsetOfSameSize(a: set<Key>, b: set<Key>)
    requires a <= b && |a| == |b|
    ensures a == b
  {
    if a != b {
      var x :| x in b && x !in a;
      assert a <= b - {x};
      SubsetSize(a, b - {x});
    }
  }

  lemma {:induction false} SubsetSize(a: set<Key>, b: set<Key>)
    requires a <= b
    ensures |a| <= |b|
    decreases |a|
  {
    if a != {} {
      var x :| x in a;
      SubsetSize(a - {x}, b - {x});
    }
  }

  /** What one row looks like after the wraps have been applied. */
  lemma {:induction false} WrapsReach(rows: Rows, wraps: Wraps, b: Key)
    requires b in rows
    ensures ApplyWraps(rows, wraps).Keys == rows.Keys
    ensures var row := ApplyWraps(rows, wraps)[b];
            && (b !in Recipients(wraps) || !rows[b].Active() ==> row == rows[b])
            && (b in Recipients(wraps) && rows[b].Active() ==>
                  row.wrapped.Some? && (b, row.wrapped.value) in wraps && row == rows[b].(wrapped := row.wrapped))
  {
    if |wraps| > 0 {
      var front, last := wraps[..|wraps| - 1], wraps[|wraps| - 1];
      WrapsReach(rows, front, b);
      assert wraps == front + [last];
      assert Recipients(wraps) == Recipients(front) + {last.0} by {
        forall k | k in Recipients(wraps) ensures k in Recipients(front) + {last.0} {
          var i :| 0 <= i < |wraps| && wraps[i].0 == k;
          assert i < |front| ==> front[i] == wraps[i];
        }
        forall k | k in Recipients(front) ensures k in Recipients(wraps) {
          var i :| 0 <= i < |front| && front[i].0 == k;
          assert wraps[i].0 == k;
        }
      }
    }
  }

  /** Rekey exactness: with distinct recipients, the count check and the membership check together
      accept exactly when the recipients are the survivors, and then every survivor holds the
      wrap addressed to it, everyone else's row is untouched but the target's, and the epoch is
      one higher. Whatever the recipients, a call that fails changes nothing. */
  lemma RekeyExact(room: Room, target: Key, wraps: Wraps, date: int)
    ensures var outcome, after := RekeyOutcome(room, target, wraps, date), RemoveAndRekey(room, target, wraps, date);
            && (DistinctRecipients(wraps) ==>
                 (outcome.Rekeyed? <==> target in ActiveBoxes(room.rows) &&
                                        Recipients(wraps) == ActiveBoxes(room.rows) - {target}))
            && (!outcome.Rekeyed? ==> after == room)
            && (outcome.Rekeyed? && DistinctRecipients(wraps) ==>
                 && after.epoch == room.epoch + 1 && ActiveBoxes(after.rows) == Recipients(wraps)
                 && after.rows.Keys == room.rows.Keys
                 && after.rows[target] == room.rows[target].(removedAt := Some(date))
                 && forall b | b in room.rows && b != target ::
                      if b in Recipients(wraps)
                      then after.rows[b].wrapped.Some? && (b, after.rows[b].wrapped.value) in wraps &&
                           after.rows[b] == room.rows[b].(wrapped := after.rows[b].wrapped)
                      else after.rows[b] == room.rows[b])
  {
    RecipientCount(wraps);
    var removed := SoftRemoveByBox(room.rows, target, date);
    var survivors := ActiveBoxes(removed);
    if target in ActiveBoxes(room.rows) {
      assert survivors == ActiveBoxes(room.rows) - {target};
      if RekeyOutcome(room, target, wraps, date).Rekeyed? {
        assert Recipients(wraps) <= survivors;
        if DistinctRecipients(wraps) {
          SubsetOfSameSize(Recipients(wraps), survivors);
        }
        WrapsReach(removed, wraps, target);
        forall b | b in room.rows ensures b in ApplyWraps(removed, wraps) {
          WrapsReach(removed, wraps, b);
        }
        forall b | b in removed ensures ApplyWraps(removed, wraps)[b].Active() == removed[b].Active() {
          WrapsReach(removed, wraps, b);
        }
        forall b | b in room.rows && b != target && DistinctRecipients(wraps)
          ensures var after := RemoveAndRekey(room, target, wraps, date);
                  if b in Recipients(wraps)
                  then after.rows[b].wrapped.Some? && (b, after.rows[b].wrapped.value) in wraps &&
                       after.rows[b] == room.rows[b].(wrapped := after.rows[b].wrapped)
                  else after.rows[b] == room.rows[b]
        {
          WrapsReach(removed, wraps, b);
        }
      }
    }
  }

  /** Without the hypothesis: an accepted rekey reaches every survivor exactly when its recipients
      are distinct, because the check counts entries and not recipients. */
  lemma RekeyCoversIffDistinct(room: Room, target: Key, wraps: Wraps, date: int)
    requires RekeyOutcome(room, target, wraps, date).Rekeyed?
    ensures Recipients(wraps) == ActiveBoxes(room.rows) - {target} <==> DistinctRecipients(wraps)
  {
    RecipientCount(wraps);
    RekeyExact(room, target, wraps, date);
    assert ActiveBoxes(SoftRemoveByBox(room.rows, target, date)) == ActiveBoxes(room.rows) - {target};
  }
}
