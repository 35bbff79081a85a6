/** Whom the check before a removal lets through, over every run of a room: `is_creator_by_sig` asks for an
    active row with no inviter under the caller's signing key. */
module CreatorCheck {
  import opened Bytes
  import opened Rooms
  import opened RoomRuns
  import opened Leaving

  /** An active member besides the creator, not invited by anyone, with this signing key: somebody who
      joined and whom no member has granted the room key yet, or only a rekey has. */
  ghost predicate UninvitedOther(rows: Rows, creator: Key, sig: Key)
  {
    exists b :: b in rows && b != creator && rows[b].sig == sig && rows[b].invitedBy.None? && rows[b].Active()
  }

  /** The creator's row never gets an inviter, since it held the key from the start. */
  lemma CreatorStaysUninvited(box: Key, sig: Key, wrapped: Sealed, date: int, ops: seq<Op>)
    ensures var rows := Run(NewRoom(box, sig, wrapped, date), ops).rows;
            box in rows && rows[box].sig == sig && rows[box].invitedBy.None?
  {
    var room := NewRoom(box, sig, wrapped, date);
    RunEvolves(room, ops);
    assert RowEvolves(room.rows[box], Run(room, ops).rows[box]);
    hide Run;
  }

  /** Exactly who passes, in every run of a new room: the creator while its row is active, and every
      other active member without an inviter. */
  lemma PassesExactly(box: Key, sig: Key, wrapped: Sealed, date: int, ops: seq<Op>, caller: Key)
    ensures var rows := Run(NewRoom(box, sig, wrapped, date), ops).rows;
            && box in rows
            && (IsCreatorBySig(rows, caller) <==>
                  (caller == sig && rows[box].Active()) || UninvitedOther(rows, box, caller))
  {
    CreatorStaysUninvited(box, sig, wrapped, date, ops);
    hide Run, NewRoom;
  }

  /** "Only the room's creator may call this" holds of a room, whatever run led to it, if and only if
      every active member but the creator has an inviter or shares the creator's signing key. */
  lemma OnlyCreatorPassesExactly(box: Key, sig: Key, wrapped: Sealed, date: int, ops: seq<Op>)
    ensures var rows := Run(NewRoom(box, sig, wrapped, date), ops).rows;
            (forall caller :: IsCreatorBySig(rows, caller) ==> caller == sig) <==>
            (forall b | b in rows && b != box && rows[b].Active() :: rows[b].invitedBy.Some? || rows[b].sig == sig)
  {
    CreatorStaysUninvited(box, sig, wrapped, date, ops);
    hide Run, NewRoom;
    var rows := Run(NewRoom(box, sig, wrapped, date), ops).rows;
    if forall caller :: IsCreatorBySig(rows, caller) ==> caller == sig {
      forall b | b in rows && b != box && rows[b].Active() ensures rows[b].invitedBy.Some? || rows[b].sig == sig {
        assert rows[b].invitedBy.None? ==> IsCreatorBySig(rows, rows[b].sig);
      }
    }
  }

  /** One join is enough for it to fail: the joiner passes before anybody has accepted it. */
  lemma JoinerPasses(box: Key, sig: Key, wrapped: Sealed, date: int, joiner: Key, joinerSig: Key, today: int)
    requires joiner != box && joinerSig != sig
    ensures var rows := Run(NewRoom(box, sig, wrapped, date), [Op.Join(joiner, joinerSig, today)]).rows;
            joiner in rows && !rows[joiner].Accepted() && IsCreatorBySig(rows, joinerSig)
  {
    var room := NewRoom(box, sig, wrapped, date);
    var join := Op.Join(joiner, joinerSig, today);
    var after := Apply(room, join);
    assert Run(room, [join]) == after;
    assert joiner in after.rows && after.rows[joiner].invitedBy.None? && after.rows[joiner].Active();
  }

  ghost predicate SoleHolder(rows: Rows, box: Key)
    requires box in rows
  {
    forall b | b in rows && b != box :: rows[b].sig != rows[box].sig
  }

  lemma {:induction false} StaysSoleHolder(room: Room, ops: seq<Op>, box: Key)
    requires box in room.rows && SoleHolder(room.rows, box) && NobodyJoinsWith(ops, room.rows[box].sig)
    ensures box in Run(room, ops).rows && SoleHolder(Run(room, ops).rows, box)
    decreases |ops|
  {
    if |ops| > 0 {
      var next := Apply(room, ops[0]);
      ApplyEvolves(room, ops[0]);
      hide RemoveAndRekey, GrantWrap, SoftRemoveBySig;
      forall b | b in next.rows && b != box ensures next.rows[b].sig != next.rows[box].sig {
        if b in room.rows {
          assert RowEvolves(room.rows[b], next.rows[b]);
        }
      }
      hide Apply;
      StaysSoleHolder(next, ops[1..], box);
    }
  }

  /** While nobody else joins with its key, the creator passes exactly as long as its row is active. Since
      a removal is for good, a removed creator never passes again: it is not still considered creator,
      as the comment on the check has it. */
  lemma CreatorPassesWhileActive(box: Key, sig: Key, wrapped: Sealed, date: int, before: seq<Op>, after: seq<Op>)
    requires NobodyJoinsWith(before, sig) && NobodyJoinsWith(after, sig)
    ensures var room := Run(NewRoom(box, sig, wrapped, date), before);
            && box in room.rows
            && (IsCreatorBySig(room.rows, sig) <==> room.rows[box].Active())
            && (!room.rows[box].Active() ==> !IsCreatorBySig(Run(room, after).rows, sig))
  {
    var start := NewRoom(box, sig, wrapped, date);
    CreatorStaysUninvited(box, sig, wrapped, date, before);
    StaysSoleHolder(start, before, box);
    var room := Run(start, before);
    StaysSoleHolder(room, after, box);
    RunEvolves(room, after);
    hide Run, NewRoom;
    assert RowEvolves(room.rows[box], Run(room, after).rows[box]);
  }
}
