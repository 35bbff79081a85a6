/** Exactly which grants keep the invited-by relation a forest. The server checks that the inviter is
    active and the member pending; whether the relation stays a forest hangs on one thing more. */
module InviteChains {
  import opened Bytes
  import opened Rooms
  import opened RoomRuns

  /** Walking up from `start` comes past `b`. */
  ghost predicate Meets(rows: Rows, start: Key, b: Key) { exists k: nat :: Ancestor(rows, start, k) == Some(b) }

  lemma {:induction false} AncestorAdds(rows: Rows, b: Key, i: nat, j: nat)
    requires Ancestor(rows, b, i).Some?
    ensures Ancestor(rows, b, i + j) == Ancestor(rows, Ancestor(rows, b, i).value, j)
    decreases i
  {
    if i > 0 {
      AncestorAdds(rows, rows[b].invitedBy.value, i - 1, j);
    }
  }

  lemma {:induction false} NothingAboveNothing(rows: Rows, b: Key, i: nat, j: nat)
    requires Ancestor(rows, b, i).None? && i <= j
    ensures Ancestor(rows, b, j).None?
    decreases i
  {
    if b in rows && rows[b].invitedBy.Some? {
      NothingAboveNothing(rows, rows[b].invitedBy.value, i - 1, j - 1);
    }
  }

  lemma {:induction false} RoundAndRound(rows: Rows, b: Key, n: nat, t: nat) returns (m: nat)
    requires n > 0 && Ancestor(rows, b, n) == Some(b)
    ensures m >= t && Ancestor(rows, b, m) == Some(b)
    decreases t
  {
    m := 0;
    if t > 0 {
      m := RoundAndRound(rows, b, n, t - 1);
      AncestorAdds(rows, b, n, m);
      m := n + m;
    }
  }

  /** Above a root there is nothing. */
  lemma AboveRoot(rows: Rows, b: Key, k: nat)
    requires ReachesRoot(rows, b, k)
    ensures Ancestor(rows, b, k + 1).None?
  {
    AncestorAdds(rows, b, k, 1);
    assert Ancestor(rows, Ancestor(rows, b, k).value, 1) == None;
  }

  /** A chain that ends does not come back. */
  lemma RootedIsAcyclic(rows: Rows, b: Key, k: nat, n: nat)
    requires ReachesRoot(rows, b, k) && n > 0
    ensures Ancestor(rows, b, n) != Some(b)
  {
    if Ancestor(rows, b, n) == Some(b) {
      AboveRoot(rows, b, k);
      var m := RoundAndRound(rows, b, n, k + 1);
      NothingAboveNothing(rows, b, k + 1, m);
    }
  }

  lemma {:induction false} ChainIsListed(rows: Rows, b: Key, k: nat, i: nat)
    requires ReachesRoot(rows, b, k) && i <= k
    ensures Ancestor(rows, b, i).Some? && Ancestor(rows, b, i).value in rows
    ensures ReachesRoot(rows, Ancestor(rows, b, i).value, k - i)
  {
    if Ancestor(rows, b, i).None? {
      NothingAboveNothing(rows, b, i, k);
    }
    AncestorAdds(rows, b, i, k - i);
  }

  /** A chain that ends is shorter than the table: its members are all different. */
  lemma RootIsNear(rows: Rows, b: Key, k: nat)
    requires ReachesRoot(rows, b, k)
    ensures k < |rows|
  {
    forall i | 0 <= i <= k ensures Ancestor(rows, b, i).Some? && Ancestor(rows, b, i).value in rows {
      ChainIsListed(rows, b, k, i);
    }
    var chain := seq(k + 1, i requires 0 <= i <= k => Ancestor(rows, b, i).value);
    forall i, j | 0 <= i < j < |chain| ensures chain[i] != chain[j] {
      ChainIsListed(rows, b, k, i);
      AncestorAdds(rows, b, i, j - i);
      RootedIsAcyclic(rows, chain[i], k - i, j - i);
    }
    DistinctCount(chain, rows.Keys);
  }

  ghost predicate Rooted(rows: Rows, b: Key) { exists k: nat :: ReachesRoot(rows, b, k) }

  /** A table is a forest exactly when every chain ends. */
  lemma ForestIsRooted(rows: Rows)
    ensures IsForest(rows) <==> forall b | b in rows :: Rooted(rows, b)
  {
    hide IsForest, Rooted;
    if forall b | b in rows :: Rooted(rows, b) {
      RootedIsForest(rows);
    }
    if IsForest(rows) {
      ForestChainsEnd(rows);
    }
  }

  lemma RootedIsForest(rows: Rows)
    requires forall b | b in rows :: Rooted(rows, b)
    ensures IsForest(rows)
  {
    hide Ancestor, ReachesRoot;
    forall b, n: nat | b in rows && n > 0 ensures Ancestor(rows, b, n) != Some(b) {
      var k: nat :| ReachesRoot(rows, b, k);
      RootedIsAcyclic(rows, b, k, n);
    }
    forall b | b in rows ensures exists k: nat :: k < |rows| && ReachesRoot(rows, b, k) {
      var k: nat :| ReachesRoot(rows, b, k);
      RootIsNear(rows, b, k);
    }
  }

  lemma ForestChainsEnd(rows: Rows)
    requires IsForest(rows)
    ensures forall b | b in rows :: Rooted(rows, b)
  {
    hide Ancestor, ReachesRoot;
    forall b | b in rows ensures Rooted(rows, b) {
      var k: nat :| k < |rows| && ReachesRoot(rows, b, k);
    }
  }

  /** The grant hangs one root below the inviter, so what was above a box still is. */
  lemma {:induction false} ChainsExtend(rows: Rows, after: Rows, root: Key, b: Key, k: nat)
    requires root in rows && rows[root].invitedBy.None? && root in after && after == rows[root := after[root]]
    requires Ancestor(rows, b, k).Some?
    ensures Ancestor(after, b, k) == Ancestor(rows, b, k)
    decreases k
  {
    if k > 0 {
      ChainsExtend(rows, after, root, rows[b].invitedBy.value, k - 1);
    }
  }

  /** Exactly when a grant keeps the forest: of a table that is one, a grant the server accepts leaves
      one if and only if walking up from the inviter does not come past the member it is for. A
      member inviting itself is the shortest way to fail, not the only one. Pending members have no
      inviter, in every state a room reaches. */
  lemma GrantKeepsForestExactly(rows: Rows, forBox: Key, wrapped: Sealed, inviter: Key)
    requires IsForest(rows) && CanGrant(rows, forBox, inviter) && rows[forBox].invitedBy.None?
    ensures IsForest(GrantWrap(rows, forBox, wrapped, inviter)) <==> !Meets(rows, inviter, forBox)
  {
    var after := GrantWrap(rows, forBox, wrapped, inviter);
    ForestIsRooted(rows);
    ForestIsRooted(after);
    hide IsForest;
    if Meets(rows, inviter, forBox) {
      GrantClosesACycle(rows, after, forBox, inviter);
    } else {
      forall b | b in after ensures Rooted(after, b) {
        assert Rooted(rows, b) && Rooted(rows, inviter);
        StillRooted(rows, after, forBox, inviter, b);
      }
    }
  }

  lemma GrantClosesACycle(rows: Rows, after: Rows, forBox: Key, inviter: Key)
    requires forBox in rows && rows[forBox].invitedBy.None? && forBox in after && after == rows[forBox := after[forBox]]
    requires after[forBox].invitedBy == Some(inviter) && Meets(rows, inviter, forBox)
    ensures !Rooted(after, forBox)
  {
    var k: nat :| Ancestor(rows, inviter, k) == Some(forBox);
    ChainsExtend(rows, after, forBox, inviter, k);
    assert Ancestor(after, forBox, 1) == Some(inviter) by { assert Ancestor(after, inviter, 0) == Some(inviter); }
    AncestorAdds(after, forBox, 1, k);
    if Rooted(after, forBox) {
      var n: nat :| ReachesRoot(after, forBox, n);
      RootedIsAcyclic(after, forBox, n, k + 1);
    }
  }

  lemma StillRooted(rows: Rows, after: Rows, forBox: Key, inviter: Key, b: Key)
    requires forBox in rows && rows[forBox].invitedBy.None? && forBox in after && after == rows[forBox := after[forBox]]
    requires after[forBox].invitedBy == Some(inviter) && !Meets(rows, inviter, forBox)
    requires Rooted(rows, b) && Rooted(rows, inviter)
    ensures Rooted(after, b)
  {
    var k: nat :| ReachesRoot(rows, b, k);
    var m: nat :| ReachesRoot(rows, inviter, m);
    ChainsExtend(rows, after, forBox, b, k);
    ChainsExtend(rows, after, forBox, inviter, m);
    if Ancestor(rows, b, k) == Some(forBox) {
      assert Ancestor(after, forBox, 1 + m) == Ancestor(after, inviter, m);
      AncestorAdds(after, b, k, 1 + m);
      assert ReachesRoot(after, b, k + (1 + m));
    } else {
      assert ReachesRoot(after, b, k);
    }
  }

  // ---------- Pending members have no inviter ----------

  ghost predicate PendingUninvited(rows: Rows) { forall b | b in rows && !rows[b].Accepted() :: rows[b].invitedBy.None? }

  lemma {:induction false} RunKeepsPendingUninvited(room: Room, ops: seq<Op>)
    requires PendingUninvited(room.rows)
    ensures PendingUninvited(Run(room, ops).rows)
    decreases |ops|
  {
    if |ops| > 0 {
      StepKeepsPendingUninvited(room, ops[0]);
      hide Apply, PendingUninvited;
      RunKeepsPendingUninvited(Apply(room, ops[0]), ops[1..]);
    }
  }

  lemma StepKeepsPendingUninvited(room: Room, op: Op)
    requires PendingUninvited(room.rows)
    ensures PendingUninvited(Apply(room, op).rows)
  {
    if op.Rekey? {
      ApplyEvolves(room, op);
      forall b | b in Apply(room, op).rows && !Apply(room, op).rows[b].Accepted()
        ensures Apply(room, op).rows[b].invitedBy.None?
      {
        assert RowEvolves(room.rows[b], Apply(room, op).rows[b]);
      }
    }
    hide ApplyWraps, RekeyOutcome, RowsEvolve;
  }
}
