/** Whole runs of one room: what every sequence of statements against its tables keeps. */
module RoomRuns {
  import opened Bytes
  import opened Rooms

  datatype Op =
    | Join(box: Key, sig: Key, date: int)
    | Grant(forBox: Key, wrapped: Sealed, inviter: Key)
    | Leave(sig: Key, date: int)
    | Rekey(target: Key, wraps: Wraps, date: int)
    | Publish(epoch: int, roster: Roster)

  function Apply(room: Room, op: Op): Room
  {
    match op
    case Join(box, sig, date) => room.(rows := AddMember(room.rows, box, sig, date))
    case Grant(forBox, wrapped, inviter) => room.(rows := GrantWrap(room.rows, forBox, wrapped, inviter))
    case Leave(sig, date) => room.(rows := SoftRemoveBySig(room.rows, sig, date))
    case Rekey(target, wraps, date) => RemoveAndRekey(room, target, wraps, date)
    case Publish(epoch, roster) => InsertRoster(room, epoch, roster)
  }

  function Run(room: Room, ops: seq<Op>): Room
    decreases |ops|
  {
    if |ops| == 0 then room else Run(Apply(room, ops[0]), ops[1..])
  }

  // ---------- What never goes back ----------

  /** A row keeps its identity; removal and acceptance are permanent, and the inviter is settled
      by acceptance. */
  predicate RowEvolves(a: Row, b: Row)
  {
    && b.sig == a.sig && b.joinedAt == a.joinedAt && b.order == a.order
    && (a.removedAt.Some? ==> b.removedAt == a.removedAt)
    && (a.Accepted() ==> b.Accepted() && b.invitedBy == a.invitedBy)
    && (b.invitedBy != a.invitedBy ==> b.Accepted())
  }

  ghost predicate RowsEvolve(a: Rows, b: Rows)
  {
    && a.Keys <= b.Keys
    && (forall k | k in a :: RowEvolves(a[k], b[k]))
    && (forall k | k in b && k !in a :: b[k].order >= |a|)
  }

  ghost predicate Evolves(a: Room, b: Room)
  {
    && RowsEvolve(a.rows, b.rows)
    && a.epoch <= b.epoch && a.rosterEpoch <= b.rosterEpoch && (a.vouching ==> b.vouching)
    && (forall e | e in a.rosters && e <= a.rosterEpoch :: e in b.rosters && b.rosters[e] == a.rosters[e])
  }

  lemma WrapsEvolve(rows: Rows, wraps: Wraps)
    ensures ApplyWraps(rows, wraps).Keys == rows.Keys && RowsEvolve(rows, ApplyWraps(rows, wraps))
    ensures ActiveBoxes(ApplyWraps(rows, wraps)) == ActiveBoxes(rows)
    ensures forall b | b in rows :: ApplyWraps(rows, wraps)[b].invitedBy == rows[b].invitedBy
  {
    forall b | b in rows
      ensures b in ApplyWraps(rows, wraps) && RowEvolves(rows[b], ApplyWraps(rows, wraps)[b])
      ensures ApplyWraps(rows, wraps)[b].Active() == rows[b].Active()
      ensures ApplyWraps(rows, wraps)[b].invitedBy == rows[b].invitedBy
    {
      WrapsReach(rows, wraps, b);
    }
    WrapsKeys(rows, wraps);
  }

  lemma {:induction false} WrapsKeys(rows: Rows, wraps: Wraps)
    ensures ApplyWraps(rows, wraps).Keys == rows.Keys
  {
    if |wraps| > 0 {
      WrapsKeys(rows, wraps[..|wraps| - 1]);
    }
  }

  lemma RowsEvolveTransitive(a: Rows, b: Rows, c: Rows)
    requires RowsEvolve(a, b) && RowsEvolve(b, c)
    ensures RowsEvolve(a, c)
  {
    SubsetSize(a.Keys, b.Keys);
  }

  lemma SoftRemoveEvolves(rows: Rows, box: Key, date: int)
    ensures RowsEvolve(rows, SoftRemoveByBox(rows, box, date)) && SoftRemoveByBox(rows, box, date).Keys == rows.Keys
  {
  }

  lemma RekeyEvolves(room: Room, target: Key, wraps: Wraps, date: int)
    ensures RowsEvolve(room.rows, RemoveAndRekey(room, target, wraps, date).rows)
    ensures RemoveAndRekey(room, target, wraps, date).rows.Keys == room.rows.Keys
  {
    hide ApplyWraps, RekeyOutcome, SoftRemoveByBox, RowsEvolve, ActiveBoxes;
    SoftRemoveEvolves(room.rows, target, date);
    var removed := SoftRemoveByBox(room.rows, target, date);
    WrapsEvolve(removed, wraps);
    RowsEvolveTransitive(room.rows, removed, ApplyWraps(removed, wraps));
    RowsEvolveReflexive(room.rows);
  }

  lemma LeaveEvolves(rows: Rows, sig: Key, date: int)
    ensures RowsEvolve(rows, SoftRemoveBySig(rows, sig, date)) && SoftRemoveBySig(rows, sig, date).Keys == rows.Keys
  {
  }

  lemma GrantEvolves(rows: Rows, forBox: Key, wrapped: Sealed, inviter: Key)
    ensures RowsEvolve(rows, GrantWrap(rows, forBox, wrapped, inviter))
    ensures GrantWrap(rows, forBox, wrapped, inviter).Keys == rows.Keys
  {
  }

  lemma JoinEvolves(rows: Rows, box: Key, sig: Key, date: int)
    ensures RowsEvolve(rows, AddMember(rows, box, sig, date))
  {
  }

  lemma ApplyEvolves(room: Room, op: Op)
    ensures Evolves(room, Apply(room, op))
    ensures !op.Join? ==> Apply(room, op).rows.Keys == room.rows.Keys
  {
    hide AddMember, GrantWrap, SoftRemoveBySig, SoftRemoveByBox, ApplyWraps, RekeyOutcome, RowEvolves;
    match op
    case Rekey(target, wraps, date) =>
      RekeyEvolves(room, target, wraps, date);
      hide RowsEvolve;
    case Join(box, sig, date) =>
      JoinEvolves(room.rows, box, sig, date);
      hide RowsEvolve;
    case Grant(forBox, wrapped, inviter) =>
      GrantEvolves(room.rows, forBox, wrapped, inviter);
      hide RowsEvolve;
    case Leave(sig, date) =>
      LeaveEvolves(room.rows, sig, date);
      hide RowsEvolve;
    case Publish(epoch, roster) =>
      RowsEvolveReflexive(room.rows);
      hide RowsEvolve;
  }

  lemma RowsEvolveReflexive(rows: Rows)
    ensures RowsEvolve(rows, rows)
  {
  }

  lemma EvolvesReflexive(room: Room)
    ensures Evolves(room, room)
  {
  }

  lemma EvolvesTransitive(a: Room, b: Room, c: Room)
    requires Evolves(a, b) && Evolves(b, c)
    ensures Evolves(a, c)
  {
    RowsEvolveTransitive(a.rows, b.rows, c.rows);
  }

  /** Over every run: members stay listed, removal and acceptance are permanent per box key, both
      epochs only rise, and a roster once stored is never changed. */
  lemma {:induction false} RunEvolves(room: Room, ops: seq<Op>)
    ensures Evolves(room, Run(room, ops))
    decreases |ops|
  {
    if |ops| > 0 {
      ApplyEvolves(room, ops[0]);
      RunEvolves(Apply(room, ops[0]), ops[1..]);
      EvolvesTransitive(room, Apply(room, ops[0]), Run(room, ops));
    }
  }

  // ---------- The creator's row and the stored epochs ----------

  /** The creator's row stays the first without an inviter, and the stored roster epochs are
      exactly 1 up to the current one. */
  ghost predicate RoomInv(room: Room, creator: Key)
  {
    && creator in room.rows && room.rows[creator].invitedBy.None? && room.rows[creator].Accepted()
    && room.rows[creator].order == 0
    && (forall b | b in room.rows && b != creator ::
          0 < room.rows[b].order < |room.rows| && room.rows[creator].joinedAt <= room.rows[b].joinedAt)
    && (forall e :: e in room.rosters <==> 1 <= e <= room.rosterEpoch)
    && (room.vouching <==> room.rosterEpoch >= 1)
  }

  predicate NotBefore(op: Op, date: int) { op.Join? ==> date <= op.date }

  lemma ApplyKeepsInv(room: Room, op: Op, creator: Key)
    requires RoomInv(room, creator) && NotBefore(op, room.rows[creator].joinedAt)
    ensures RoomInv(Apply(room, op), creator)
    ensures Apply(room, op).rows[creator].sig == room.rows[creator].sig
    ensures Apply(room, op).rows[creator].joinedAt == room.rows[creator].joinedAt
  {
    hide GrantWrap, SoftRemoveBySig, SoftRemoveByBox, ApplyWraps, RekeyOutcome;
    ApplyEvolves(room, op);
    if op.Join? {
      JoinKeepsInv(room, op.box, op.sig, op.date, creator);
    } else if op.Publish? {
      hide RowsEvolve;
    } else {
      SameMembersKeepInv(room, Apply(room, op), creator);
    }
    hide RoomInv;
  }

  lemma JoinKeepsInv(room: Room, box: Key, sig: Key, date: int, creator: Key)
    requires RoomInv(room, creator) && room.rows[creator].joinedAt <= date
    ensures RoomInv(room.(rows := AddMember(room.rows, box, sig, date)), creator)
  {
  }

  lemma SameMembersKeepInv(room: Room, after: Room, creator: Key)
    requires RoomInv(room, creator) && RowsEvolve(room.rows, after.rows) && after.rows.Keys == room.rows.Keys
    requires after == room.(rows := after.rows, epoch := after.epoch)
    ensures RoomInv(after, creator)
  {
    assert |after.rows.Keys| == |room.rows.Keys|;
  }

  lemma {:induction false} RunKeepsInv(room: Room, ops: seq<Op>, creator: Key)
    requires RoomInv(room, creator)
    requires forall i | 0 <= i < |ops| :: NotBefore(ops[i], room.rows[creator].joinedAt)
    ensures RoomInv(Run(room, ops), creator)
    ensures Run(room, ops).rows[creator].sig == room.rows[creator].sig
    decreases |ops|
  {
    if |ops| > 0 {
      ApplyKeepsInv(room, ops[0], creator);
      RunKeepsInv(Apply(room, ops[0]), ops[1..], creator);
    }
  }

  lemma CreatorIsFirstUninvited(room: Room, creator: Key, box: Key)
    requires RoomInv(room, creator)
    ensures IsFirstUninvited(room.rows, box) <==> box == creator
  {
  }

  /** The key the roster is checked against never changes: in every run of a new room, as long as
      no join is dated before the room, the creator query answers with the creator's row and no
      other, and the stored epochs are exactly 1 up to the published one. */
  lemma CreatorKeyIsStable(box: Key, sig: Key, wrapped: Sealed, date: int, ops: seq<Op>)
    requires forall i | 0 <= i < |ops| :: NotBefore(ops[i], date)
    ensures var room := Run(NewRoom(box, sig, wrapped, date), ops);
            && (forall b :: IsFirstUninvited(room.rows, b) <==> b == box)
            && box in room.rows && room.rows[box].sig == sig
            && (forall e :: e in room.rosters <==> 1 <= e <= room.rosterEpoch)
            && (room.vouching <==> room.rosterEpoch >= 1)
  {
    var start := NewRoom(box, sig, wrapped, date);
    RunKeepsInv(start, ops, box);
    var room := Run(start, ops);
    forall b ensures IsFirstUninvited(room.rows, b) <==> b == box {
      CreatorIsFirstUninvited(room, box, b);
    }
  }

  // ---------- On the tables themselves ----------

  method ApplyTo(store: RoomStore, op: Op)
    modifies store
    ensures store.State() == Apply(old(store.State()), op) && Evolves(old(store.State()), store.State())
  {
    ApplyEvolves(store.State(), op);
    hide Evolves, AddMember, GrantWrap, SoftRemoveBySig, RemoveAndRekey, InsertRoster;
    match op
    case Join(box, sig, date) => store.AddMemberRow(box, sig, date);
    case Grant(forBox, wrapped, inviter) => var _ := store.Grant(forBox, wrapped, inviter);
    case Leave(sig, date) => var _ := store.SoftRemove(sig, date);
    case Rekey(target, wraps, date) => var _ := store.RemoveAndRekeyRows(target, wraps, date);
    case Publish(epoch, roster) => var _ := store.PublishRoster(epoch, roster.ring, roster.creatorSig);
  }

  lemma {:induction false} RunOneMore(room: Room, ops: seq<Op>, op: Op)
    ensures Run(room, ops + [op]) == Apply(Run(room, ops), op)
    decreases |ops|
  {
    hide Apply;
    if |ops| > 0 {
      assert (ops + [op])[1..] == ops[1..] + [op];
      RunOneMore(Apply(room, ops[0]), ops[1..], op);
    } else {
      assert (ops + [op])[1..] == [];
      assert Run(Apply(room, op), []) == Apply(room, op);
    }
  }

  /** One statement after another against the tables of a new room. Whatever they are, nothing that
      evolves goes back, and unless a join is dated before the room its creator stays the one the roster
      is checked against. */
  method LifeOf(box: Key, sig: Key, wrapped: Sealed, date: int, ops: seq<Op>) returns (store: RoomStore)
    ensures store.State() == Run(NewRoom(box, sig, wrapped, date), ops)
    ensures Evolves(NewRoom(box, sig, wrapped, date), store.State())
    ensures (forall i | 0 <= i < |ops| :: NotBefore(ops[i], date)) ==>
              (forall b :: IsFirstUninvited(store.rows, b) <==> b == box) && store.rows[box].sig == sig
  {
    var room := NewRoom(box, sig, wrapped, date);
    store := new RoomStore(box, sig, wrapped, date);
    hide Apply, Evolves;
    for i := 0 to |ops|
      invariant store.State() == Run(room, ops[..i])
    {
      ApplyTo(store, ops[i]);
      assert ops[..i + 1] == ops[..i] + [ops[i]];
      RunOneMore(room, ops[..i], ops[i]);
    }
    assert ops[..|ops|] == ops;
    RunEvolves(room, ops);
    if forall i | 0 <= i < |ops| :: NotBefore(ops[i], date) {
      CreatorKeyIsStable(box, sig, wrapped, date, ops);
    }
  }

  // ---------- The invite forest ----------

  /** The inviter `k` steps up from `b`. */
  function Ancestor(rows: Rows, b: Key, k: nat): Option<Key>
    decreases k
  {
    if k == 0 then Some(b)
    else if b !in rows || rows[b].invitedBy.None? then None
    else Ancestor(rows, rows[b].invitedBy.value, k - 1)
  }

  /** The accepted members in the order they were accepted, each invited by an earlier one. */
  ghost predicate AcceptedInOrder(rows: Rows, order: seq<Key>)
  {
    && (forall i, j | 0 <= i < j < |order| :: order[i] != order[j])
    && (forall b :: b in order <==> b in rows && rows[b].Accepted())
    && (forall b | b in rows && rows[b].invitedBy.Some? :: b in order)
    && (forall i | 0 <= i < |order| && rows[order[i]].invitedBy.Some? ::
          exists j :: 0 <= j < i && order[j] == rows[order[i]].invitedBy.value)
  }

  predicate GranterAccepted(room: Room, op: Op)
  {
    op.Grant? ==> op.inviter in room.rows && room.rows[op.inviter].Accepted()
  }

  lemma AppendAccepted(rows: Rows, order: seq<Key>, rows': Rows, b: Key)
    requires AcceptedInOrder(rows, order) && b in rows && !rows[b].Accepted()
    requires b in rows' && rows' == rows[b := rows'[b]] && rows'[b].Accepted()
    requires rows'[b].invitedBy.Some? ==> rows'[b].invitedBy.value in order
    ensures AcceptedInOrder(rows', order + [b])
  {
    var order' := order + [b];
    forall i | 0 <= i < |order'| && rows'[order'[i]].invitedBy.Some?
      ensures exists j :: 0 <= j < i && order'[j] == rows'[order'[i]].invitedBy.value
    {
      if i < |order| {
        var j :| 0 <= j < i && order[j] == rows[order[i]].invitedBy.value;
        assert order'[j] == order[j];
      } else {
        var j :| 0 <= j < |order| && order[j] == rows'[b].invitedBy.value;
        assert order'[j] == order[j];
      }
    }
  }

  lemma {:induction false} WrapsKeepOrder(rows: Rows, wraps: Wraps, order: seq<Key>) returns (order': seq<Key>)
    requires AcceptedInOrder(rows, order)
    ensures AcceptedInOrder(ApplyWraps(rows, wraps), order')
  {
    order' := order;
    if |wraps| > 0 {
      order' := WrapsKeepOrder(rows, wraps[..|wraps| - 1], order);
      var before, last := ApplyWraps(rows, wraps[..|wraps| - 1]), wraps[|wraps| - 1];
      var after := ApplyWraps(rows, wraps);
      if last.0 in before && before[last.0].Active() && !before[last.0].Accepted() {
        AppendAccepted(before, order', after, last.0);
        order' := order' + [last.0];
      } else {
        SameTree(before, after, order');
      }
    }
  }

  lemma SameTree(a: Rows, b: Rows, order: seq<Key>)
    requires AcceptedInOrder(a, order) && a.Keys <= b.Keys
    requires forall k | k in b ::
               if k in a then b[k].Accepted() == a[k].Accepted() && b[k].invitedBy == a[k].invitedBy
               else !b[k].Accepted() && b[k].invitedBy.None?
    ensures AcceptedInOrder(b, order)
  {
    forall i | 0 <= i < |order| && b[order[i]].invitedBy.Some?
      ensures exists j :: 0 <= j < i && order[j] == b[order[i]].invitedBy.value
    {
      assert order[i] in order;
    }
  }

  lemma ApplyKeepsOrder(room: Room, op: Op, order: seq<Key>) returns (order': seq<Key>)
    requires AcceptedInOrder(room.rows, order) && GranterAccepted(room, op)
    ensures AcceptedInOrder(Apply(room, op).rows, order')
  {
    var after := Apply(room, op).rows;
    order' := order;
    match op {
      case Grant(forBox, wrapped, inviter) =>
        if CanGrant(room.rows, forBox, inviter) {
          AppendAccepted(room.rows, order, after, forBox);
          order' := order + [forBox];
        }
      case Rekey(target, wraps, date) =>
        if RekeyOutcome(room, target, wraps, date).Rekeyed? {
          var removed := SoftRemoveByBox(room.rows, target, date);
          SameTree(room.rows, removed, order);
          order' := WrapsKeepOrder(removed, wraps, order);
        }
      case _ =>
        SameTree(room.rows, after, order);
    }
  }

  ghost predicate GrantersAccepted(room: Room, ops: seq<Op>)
    decreases |ops|
  {
    |ops| > 0 ==> GranterAccepted(room, ops[0]) && GrantersAccepted(Apply(room, ops[0]), ops[1..])
  }

  lemma {:induction false} RunKeepsOrder(room: Room, ops: seq<Op>, order: seq<Key>) returns (order': seq<Key>)
    requires AcceptedInOrder(room.rows, order) && GrantersAccepted(room, ops)
    ensures AcceptedInOrder(Run(room, ops).rows, order')
    decreases |ops|
  {
    order' := order;
    if |ops| > 0 {
      order' := ApplyKeepsOrder(room, ops[0], order);
      order' := RunKeepsOrder(Apply(room, ops[0]), ops[1..], order');
    }
  }

  lemma InviterIsEarlier(rows: Rows, order: seq<Key>, i: nat) returns (j: nat)
    requires AcceptedInOrder(rows, order) && i < |order|
    ensures order[i] in rows
    ensures rows[order[i]].invitedBy.Some? ==> j < i && order[j] == rows[order[i]].invitedBy.value
  {
    assert order[i] in order;
    j := 0;
    if rows[order[i]].invitedBy.Some? {
      j :| 0 <= j < i && order[j] == rows[order[i]].invitedBy.value;
    }
  }

  /** Going up the chain goes back in the order of acceptance. */
  lemma {:induction false} ChainGoesBack(rows: Rows, order: seq<Key>, i: nat, k: nat)
    requires AcceptedInOrder(rows, order) && i < |order|
    ensures var up := Ancestor(rows, order[i], k);
            up.Some? ==> k <= i && exists j :: 0 <= j <= i - k && order[j] == up.value
    decreases k
  {
    hide AcceptedInOrder;
    var j := InviterIsEarlier(rows, order, i);
    if k > 0 && rows[order[i]].invitedBy.Some? {
      ChainGoesBack(rows, order, j, k - 1);
      var up := Ancestor(rows, order[i], k);
      assert up == Ancestor(rows, order[j], k - 1);
      if up.Some? {
        var m :| 0 <= m <= j - (k - 1) && order[m] == up.value;
        assert m <= i - k;
      }
    }
  }

  /** A chain ends at a row with no inviter. */
  lemma {:induction false} ChainEnds(rows: Rows, order: seq<Key>, i: nat) returns (k: nat)
    requires AcceptedInOrder(rows, order) && i < |order|
    ensures k <= i && Ancestor(rows, order[i], k).Some?
    ensures var root := Ancestor(rows, order[i], k).value; root in rows && rows[root].invitedBy.None?
    decreases i
  {
    hide AcceptedInOrder;
    var j := InviterIsEarlier(rows, order, i);
    if rows[order[i]].invitedBy.None? {
      k := 0;
    } else {
      k := ChainEnds(rows, order, j);
      assert Ancestor(rows, order[i], k + 1) == Ancestor(rows, order[j], k);
      k := k + 1;
    }
  }

  lemma {:induction false} DistinctCount(order: seq<Key>, s: set<Key>)
    requires forall i, j | 0 <= i < j < |order| :: order[i] != order[j]
    requires forall b | b in order :: b in s
    ensures |order| <= |s|
  {
    if |order| > 0 {
      var last := order[|order| - 1];
      var front := order[..|order| - 1];
      forall b | b in front ensures b in s - {last} {
        var i :| 0 <= i < |front| && front[i] == b;
        assert order[i] == b;
      }
      DistinctCount(front, s - {last});
      assert last in order;
    }
  }

  ghost predicate IsForest(rows: Rows)
  {
    && (forall b, k: nat | b in rows && k > 0 :: Ancestor(rows, b, k) != Some(b))
    && (forall b | b in rows :: exists k: nat :: k < |rows| && ReachesRoot(rows, b, k))
  }

  ghost predicate ReachesRoot(rows: Rows, b: Key, k: nat)
  {
    var up := Ancestor(rows, b, k);
    up.Some? && up.value in rows && rows[up.value].invitedBy.None?
  }

  lemma OrderedIsForest(rows: Rows, order: seq<Key>)
    requires AcceptedInOrder(rows, order)
    ensures IsForest(rows)
  {
    DistinctCount(order, rows.Keys);
    forall b, k: nat | b in rows && k > 0 ensures Ancestor(rows, b, k) != Some(b) {
      if b in order {
        var i :| 0 <= i < |order| && order[i] == b;
        ChainGoesBack(rows, order, i, k);
      }
    }
    forall b | b in rows ensures exists k: nat :: k < |rows| && ReachesRoot(rows, b, k) {
      if b in order {
        var i :| 0 <= i < |order| && order[i] == b;
        var k := ChainEnds(rows, order, i);
        assert ReachesRoot(rows, b, k);
      } else {
        assert ReachesRoot(rows, b, 0);
        assert |rows.Keys - {b}| == |rows| - 1;
      }
    }
  }

  /** The invite forest: in every run of a new room whose grants all come from accepted members,
      the invited-by relation has no cycle and each chain reaches a row without an inviter in
      fewer steps than there are members. */
  lemma InviteForest(box: Key, sig: Key, wrapped: Sealed, date: int, ops: seq<Op>)
    requires GrantersAccepted(NewRoom(box, sig, wrapped, date), ops)
    ensures IsForest(Run(NewRoom(box, sig, wrapped, date), ops).rows)
  {
    var start := NewRoom(box, sig, wrapped, date);
    assert AcceptedInOrder(start.rows, [box]);
    var order := RunKeepsOrder(start, ops, [box]);
    OrderedIsForest(Run(start, ops).rows, order);
  }

  /** The hypothesis is needed: a pending active member may be named as its own inviter, and then
      it is its own ancestor. */
  lemma PendingGranterMakesACycle(room: Room, b: Key, wrapped: Sealed)
    requires b in room.rows && room.rows[b].Active() && !room.rows[b].Accepted()
    ensures var after := Apply(room, Grant(b, wrapped, b)).rows;
            after[b].Accepted() && Ancestor(after, b, 1) == Some(b) && !IsForest(after)
  {
    var after := Apply(room, Grant(b, wrapped, b)).rows;
    assert Ancestor(after, b, 1) == Ancestor(after, b, 0);
  }
}
