/** What a leave comes to, whatever follows it. */
module Leaving {
  import opened Bytes
  import opened Rooms
  import opened RoomRuns

  ghost predicate NobodyJoinsWith(ops: seq<Op>, sig: Key)
  {
    forall i | 0 <= i < |ops| && ops[i].Join? :: ops[i].sig != sig
  }

  ghost predicate NoneActive(rows: Rows, sig: Key)
  {
    forall b | b in rows && rows[b].sig == sig :: rows[b].removedAt.Some?
  }

  lemma {:induction false} StaysAway(room: Room, ops: seq<Op>, sig: Key)
    requires NoneActive(room.rows, sig) && NobodyJoinsWith(ops, sig)
    ensures NoneActive(Run(room, ops).rows, sig)
    decreases |ops|
  {
    if |ops| > 0 {
      var next := Apply(room, ops[0]);
      ApplyEvolves(room, ops[0]);
      hide RemoveAndRekey, GrantWrap, SoftRemoveBySig, InsertRoster;
      forall b | b in next.rows && next.rows[b].sig == sig ensures next.rows[b].removedAt.Some? {
        if b in room.rows {
          assert RowEvolves(room.rows[b], next.rows[b]);
        }
      }
      hide Apply;
      StaysAway(next, ops[1..], sig);
    }
  }

  /** Whoever leaves is gone until somebody joins with that signing key, whatever else happens: no active row
      carries the key, the check before a removal refuses it, no live ring contains it, none of its rows
      may grant, and no rekey that is accepted seals a key to one of them. */
  lemma LeaverIsGone(room: Room, sig: Key, date: int, ops: seq<Op>)
    requires NobodyJoinsWith(ops, sig)
    ensures var after := Run(Apply(room, Leave(sig, date)), ops);
            && NoneActive(after.rows, sig) && !IsCreatorBySig(after.rows, sig)
            && (forall live | IsLiveRing(after.rows, live) :: sig !in live)
            && forall b | b in after.rows && after.rows[b].sig == sig ::
                 && b !in ActiveBoxes(after.rows) && (forall c :: !CanGrant(after.rows, c, b))
                 && forall target, wraps, day | RekeyOutcome(after, target, wraps, day).Rekeyed? ::
                      b !in Recipients(wraps)
  {
    var left := Apply(room, Leave(sig, date));
    assert NoneActive(left.rows, sig);
    StaysAway(left, ops, sig);
    var after := Run(left, ops);
    hide Run, Apply;
    forall live | IsLiveRing(after.rows, live) ensures sig !in live {
      NotInLive(after.rows, live, sig);
    }
    hide IsLiveRing;
    forall b, target, wraps, day | b in after.rows && after.rows[b].sig == sig &&
                                   RekeyOutcome(after, target, wraps, day).Rekeyed?
      ensures b !in Recipients(wraps)
    {
      NotRekeyed(after, b, target, wraps, day);
    }
  }

  lemma NotInLive(rows: Rows, live: seq<Key>, sig: Key)
    requires IsLiveRing(rows, live) && NoneActive(rows, sig)
    ensures sig !in live
  {
    var boxes :| ListsLive(rows, live, boxes);
    forall i | 0 <= i < |live| ensures live[i] != sig {
      assert boxes[i] in boxes;
    }
  }

  lemma NotRekeyed(room: Room, b: Key, target: Key, wraps: Wraps, date: int)
    requires b in room.rows && !room.rows[b].Active() && RekeyOutcome(room, target, wraps, date).Rekeyed?
    ensures b !in Recipients(wraps)
  {
  }
}
