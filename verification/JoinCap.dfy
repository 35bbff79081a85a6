/** The member cap under concurrent joins. A join looks up its box key, counts the active members
    and inserts its row in three separate statements, and other handlers run in between. */
module JoinCap {
  import opened Bytes
  import opened Encodings
  import opened Rooms
  import opened RoomRuns

  const MAX_ROOM_MEMBERS: nat := 50

  /** A join in flight: past the lookup, or past the count check as well. */
  datatype Joining = LookedUp(box: Key, sig: Key, member: bool) | Cleared(box: Key, sig: Key, counted: bool)

  datatype State = State(room: Room, joins: map<nat, Joining>)

  datatype Step =
    | Lookup(id: nat, box: Key, sig: Key)
    | Count(id: nat)
    | Insert(id: nat, date: int)
    | Abort(id: nat)
    | Other(op: Op)

  predicate Enabled(s: State, step: Step)
  {
    match step
    case Lookup(id, _, _) => id !in s.joins
    case Count(id) => id in s.joins && s.joins[id].LookedUp?
    case Insert(id, _) => id in s.joins && s.joins[id].Cleared?
    case Abort(id) => true
    case Other(op) => !op.Join?
  }

  /** A step that is not enabled does nothing. */
  function Next(s: State, step: Step): State
  {
    if !Enabled(s, step) then s else
    match step
    case Lookup(id, box, sig) => s.(joins := s.joins[id := LookedUp(box, sig, box in ActiveBoxes(s.room.rows))])
    case Count(id) =>
      var j := s.joins[id];
      if j.member then s.(joins := s.joins[id := Cleared(j.box, j.sig, false)])
      else if |ActiveBoxes(s.room.rows)| >= MAX_ROOM_MEMBERS then s.(joins := s.joins - {id})
      else s.(joins := s.joins[id := Cleared(j.box, j.sig, true)])
    case Insert(id, date) =>
      var j := s.joins[id];
      s.(room := Apply(s.room, Op.Join(j.box, j.sig, date)), joins := s.joins - {id})
    case Abort(id) => s.(joins := s.joins - {id})
    case Other(op) => s.(room := Apply(s.room, op))
  }

  /** The joins between a passed count check and their insert. */
  function InFlight(s: State): set<nat> { set id | id in s.joins && s.joins[id].Cleared? && s.joins[id].counted }

  ghost predicate Runs(s: State, steps: seq<Step>, limit: nat)
    decreases |steps|
  {
    |InFlight(s)| <= limit &&
    (|steps| > 0 ==> Runs(Next(s, steps[0]), steps[1..], limit))
  }

  function Exec(s: State, steps: seq<Step>): State
    decreases |steps|
  {
    if |steps| == 0 then s else Exec(Next(s, steps[0]), steps[1..])
  }

  /** A join that found its row may skip the count, because its insert cannot add a row. */
  ghost predicate Inv(s: State, limit: nat)
  {
    && |ActiveBoxes(s.room.rows)| + |InFlight(s)| <= MAX_ROOM_MEMBERS - 1 + limit
    && forall id | id in s.joins ::
         (s.joins[id].LookedUp? && s.joins[id].member ==> s.joins[id].box in s.room.rows) &&
         (s.joins[id].Cleared? && !s.joins[id].counted ==> s.joins[id].box in s.room.rows)
  }

  lemma OtherNeverAdds(room: Room, op: Op)
    requires !op.Join?
    ensures room.rows.Keys <= Apply(room, op).rows.Keys
    ensures |ActiveBoxes(Apply(room, op).rows)| <= |ActiveBoxes(room.rows)|
  {
    ApplyEvolves(room, op);
    if op.Rekey? {
      WrapsEvolve(SoftRemoveByBox(room.rows, op.target, op.date), op.wraps);
    }
    assert ActiveBoxes(Apply(room, op).rows) <= ActiveBoxes(room.rows);
    SubsetSize(ActiveBoxes(Apply(room, op).rows), ActiveBoxes(room.rows));
  }

  lemma FewerInFlight(s: State, t: State, id: nat)
    requires InFlight(t) == InFlight(s) - {id}
    ensures |InFlight(t)| == if id in InFlight(s) then |InFlight(s)| - 1 else |InFlight(s)|
  {
  }

  lemma CountKeepsInv(s: State, id: nat, limit: nat)
    requires Inv(s, limit) && Enabled(s, Count(id)) && |InFlight(Next(s, Count(id)))| <= limit
    ensures Inv(Next(s, Count(id)), limit)
  {
    hide ActiveBoxes;
    if s.joins[id].member || |ActiveBoxes(s.room.rows)| >= MAX_ROOM_MEMBERS {
      assert InFlight(Next(s, Count(id))) == InFlight(s);
    }
  }

  lemma AddedIsActive(rows: Rows, box: Key, sig: Key, date: int)
    ensures rows.Keys + {box} == AddMember(rows, box, sig, date).Keys
    ensures |ActiveBoxes(AddMember(rows, box, sig, date))| == |ActiveBoxes(rows)| + if box in rows then 0 else 1
  {
    if box !in rows {
      assert ActiveBoxes(AddMember(rows, box, sig, date)) == ActiveBoxes(rows) + {box};
    }
  }

  lemma InsertKeepsInv(s: State, id: nat, date: int, limit: nat)
    requires Inv(s, limit) && Enabled(s, Insert(id, date))
    ensures Inv(Next(s, Insert(id, date)), limit)
  {
    hide ActiveBoxes, AddMember;
    var t, j := Next(s, Insert(id, date)), s.joins[id];
    assert t.room.rows == AddMember(s.room.rows, j.box, j.sig, date) && t.joins == s.joins - {id};
    hide Next, Apply;
    AddedIsActive(s.room.rows, j.box, j.sig, date);
    assert InFlight(t) == InFlight(s) - {id};
    FewerInFlight(s, t, id);
  }

  lemma OtherKeepsInv(s: State, op: Op, limit: nat)
    requires Inv(s, limit) && !op.Join?
    ensures Inv(Next(s, Other(op)), limit)
  {
    hide Apply, ActiveBoxes;
    OtherNeverAdds(s.room, op);
    assert InFlight(Next(s, Other(op))) == InFlight(s);
  }

  lemma NextKeepsInv(s: State, step: Step, limit: nat)
    requires Inv(s, limit) && |InFlight(Next(s, step))| <= limit
    ensures Inv(Next(s, step), limit)
  {
    hide Apply, ActiveBoxes;
    if !Enabled(s, step) { return; }
    match step
    case Lookup(id, box, sig) =>
      LookupKeepsInv(s, id, box, sig, limit);
    case Count(id) =>
      CountKeepsInv(s, id, limit);
    case Insert(id, date) =>
      InsertKeepsInv(s, id, date, limit);
    case Abort(id) =>
      assert InFlight(Next(s, step)) == InFlight(s) - {id};
      FewerInFlight(s, Next(s, step), id);
    case Other(op) =>
      OtherKeepsInv(s, op, limit);
  }

  lemma LookupKeepsInv(s: State, id: nat, box: Key, sig: Key, limit: nat)
    requires Inv(s, limit) && Enabled(s, Lookup(id, box, sig))
    ensures Inv(Next(s, Lookup(id, box, sig)), limit)
  {
    assert InFlight(Next(s, Lookup(id, box, sig))) == InFlight(s);
  }

  lemma {:induction false} RunKeepsInv(s: State, steps: seq<Step>, limit: nat)
    requires Inv(s, limit) && Runs(s, steps, limit)
    ensures Inv(Exec(s, steps), limit)
    decreases |steps|
  {
    if |steps| > 0 {
      NextKeepsInv(s, steps[0], limit);
      RunKeepsInv(Next(s, steps[0]), steps[1..], limit);
    }
  }

  function Start(box: Key, sig: Key, wrapped: Sealed, date: int): State
  {
    State(NewRoom(box, sig, wrapped, date), map[])
  }

  /** With at most `limit` joins between their count check and their insert, in any interleaving
      with each other and with leaves, grants, removals and rekeys, a room never has more than
      `49 + limit` active members. One at a time gives the documented fifty. */
  lemma CapUnderConcurrency(box: Key, sig: Key, wrapped: Sealed, date: int, steps: seq<Step>, limit: nat)
    requires Runs(Start(box, sig, wrapped, date), steps, limit)
    ensures |ActiveBoxes(Exec(Start(box, sig, wrapped, date), steps).room.rows)| <= 49 + limit
  {
    var start := Start(box, sig, wrapped, date);
    assert ActiveBoxes(start.room.rows) == {box};
    assert InFlight(start) == {};
    RunKeepsInv(start, steps, limit);
  }

  // ---------- The bound is reached ----------

  /** The request decoder lets through no key but of 32 bytes. */
  ghost predicate Receivable(steps: seq<Step>)
  {
    forall i | 0 <= i < |steps| && steps[i].Lookup? :: |steps[i].box| == PUBKEY_LEN && |steps[i].sig| == PUBKEY_LEN
  }

  function Numbered(i: nat): (k: Key)
    ensures |k| == PUBKEY_LEN
  {
    Be(i, PUBKEY_LEN)
  }

  predicate FitsKey(n: nat) { n <= Pow256(PUBKEY_LEN) }

  /** Members numbered below `n`, all of them active. */
  ghost predicate Members(rows: Rows, n: nat)
  {
    && (forall b | b in rows :: HasNumber(b, n)) && (forall i: nat | i < n :: Numbered(i) in rows)
    && ActiveBoxes(rows) == rows.Keys && |rows| == n
  }

  ghost predicate HasNumber(b: Key, n: nat) { exists i: nat :: i < n && b == Numbered(i) }

  /** Joins `n` to `n + k - 1`, each past its count check. */
  ghost predicate Waiting(s: State, n: nat, k: nat)
  {
    && (forall id :: id in s.joins <==> n <= id < n + k)
    && (forall id | id in s.joins :: s.joins[id] == Cleared(Numbered(id), Numbered(id), true))
    && |InFlight(s)| == k
  }

  ghost predicate Crowd(s: State, n: nat, k: nat) { Members(s.room.rows, n) && Waiting(s, n, k) }

  lemma NotYetMember(rows: Rows, n: nat, m: nat)
    requires Members(rows, n) && n <= m && FitsKey(m + 1)
    ensures Numbered(m) !in rows && Numbered(m) !in ActiveBoxes(rows) && |ActiveBoxes(rows)| == n
  {
    hide Be, Pow256;
    if Numbered(m) in rows {
      var i: nat :| i < n && Numbered(m) == Numbered(i);
      BeInjective(m, i, PUBKEY_LEN);
    }
  }

  lemma LookupStep(s: State, id: nat, box: Key, sig: Key)
    requires id !in s.joins && box !in ActiveBoxes(s.room.rows)
    ensures Next(s, Lookup(id, box, sig)) == s.(joins := s.joins[id := LookedUp(box, sig, false)])
  {
    hide ActiveBoxes;
  }

  lemma CountStep(s: State, id: nat)
    requires id in s.joins && s.joins[id].LookedUp? && !s.joins[id].member
    requires |ActiveBoxes(s.room.rows)| < MAX_ROOM_MEMBERS
    ensures Next(s, Count(id)) == s.(joins := s.joins[id := Cleared(s.joins[id].box, s.joins[id].sig, true)])
  {
    hide ActiveBoxes;
  }

  lemma WaitOneMore(s: State, t: State, u: State, n: nat, k: nat)
    requires Waiting(s, n, k) && t.joins == s.joins[n + k := LookedUp(Numbered(n + k), Numbered(n + k), false)]
    requires u.joins == t.joins[n + k := Cleared(Numbered(n + k), Numbered(n + k), true)]
    ensures |InFlight(t)| == k && Waiting(u, n, k + 1)
  {
    hide Numbered;
    assert InFlight(t) == InFlight(s);
    assert InFlight(u) == InFlight(s) + {n + k};
  }

  lemma NotYetWaiting(s: State, n: nat, k: nat)
    requires Waiting(s, n, k)
    ensures n + k !in s.joins
  {
  }

  lemma ClearOne(s: State, n: nat, k: nat)
    requires Crowd(s, n, k) && n < MAX_ROOM_MEMBERS && FitsKey(n + k + 1)
    ensures var t := Next(s, Lookup(n + k, Numbered(n + k), Numbered(n + k)));
            |InFlight(t)| == k && Crowd(Next(t, Count(n + k)), n, k + 1)
  {
    hide Next, Numbered, InFlight, ActiveBoxes, Members, Waiting, FitsKey;
    var box := Numbered(n + k);
    NotYetMember(s.room.rows, n, n + k);
    NotYetWaiting(s, n, k);
    LookupStep(s, n + k, box, box);
    var t := Next(s, Lookup(n + k, box, box));
    CountStep(t, n + k);
    WaitOneMore(s, t, Next(t, Count(n + k)), n, k);
  }

  lemma InsertStep(s: State, id: nat, box: Key)
    requires id in s.joins && s.joins[id] == Cleared(box, box, true) && box !in s.room.rows
    ensures var t, row := Next(s, Insert(id, 0)), Row(box, None, 0, None, None, |s.room.rows|);
            t.room.rows == s.room.rows[box := row] && t.joins == s.joins - {id}
  {
  }

  lemma InsertOne(s: State, n: nat, k: nat)
    requires Crowd(s, n, k) && k > 0 && FitsKey(n + 1)
    ensures Crowd(Next(s, Insert(n, 0)), n + 1, k - 1)
  {
    hide Next, Numbered, ActiveBoxes, Members, InFlight, FitsKey;
    NotYetMember(s.room.rows, n, n);
    InsertStep(s, n, Numbered(n));
    OneMoreMember(s.room.rows, Row(Numbered(n), None, 0, None, None, |s.room.rows|), n);
    OneFewerWaiting(s, Next(s, Insert(n, 0)), n, k);
  }

  lemma OneFewerWaiting(s: State, t: State, n: nat, k: nat)
    requires Waiting(s, n, k) && k > 0 && t.joins == s.joins - {n}
    ensures Waiting(t, n + 1, k - 1)
  {
    hide Numbered;
    assert InFlight(t) == InFlight(s) - {n};
  }

  lemma NumberedUpTo(b: Key, n: nat)
    requires HasNumber(b, n) || b == Numbered(n)
    ensures HasNumber(b, n + 1)
  {
    hide Numbered;
  }

  lemma OneMoreMember(rows: Rows, row: Row, n: nat)
    requires Members(rows, n) && row.Active() && Numbered(n) !in rows
    ensures Members(rows[Numbered(n) := row], n + 1)
  {
    hide Numbered, HasNumber;
    var after := rows[Numbered(n) := row];
    assert |after| == n + 1;
    assert ActiveBoxes(after) == after.Keys by {
      assert forall b | b in rows :: b in ActiveBoxes(rows);
    }
    forall b | b in after ensures HasNumber(b, n + 1) { NumberedUpTo(b, n); }
  }

  lemma OneStepMore(s: State, step: Step, rest: seq<Step>, limit: nat)
    requires |InFlight(s)| <= limit && Runs(Next(s, step), rest, limit)
    ensures Runs(s, [step] + rest, limit) && Exec(s, [step] + rest) == Exec(Next(s, step), rest)
  {
    hide Next, InFlight;
    assert ([step] + rest)[1..] == rest;
  }

  lemma FitsBelow(n: nat, m: nat)
    requires FitsKey(m) && n <= m
    ensures FitsKey(n)
  {
  }

  /** From `n` members and `k` cleared joins to `49 + limit` members: fill the room one at a time,
      clear the last `limit` joins together, then let them all insert. */
  lemma {:induction false} FillUp(s: State, n: nat, k: nat, limit: nat) returns (steps: seq<Step>)
    requires Crowd(s, n, k) && 1 <= n <= MAX_ROOM_MEMBERS - 1 + limit && k <= limit && limit >= 1
    requires n < MAX_ROOM_MEMBERS - 1 ==> k <= 1
    requires n >= MAX_ROOM_MEMBERS ==> n + k == MAX_ROOM_MEMBERS - 1 + limit
    requires FitsKey(MAX_ROOM_MEMBERS - 1 + limit)
    ensures Receivable(steps) && Runs(s, steps, limit) && Crowd(Exec(s, steps), MAX_ROOM_MEMBERS - 1 + limit, 0)
    decreases MAX_ROOM_MEMBERS + limit - n, limit - k
  {
    hide Next, Members, Numbered, FitsKey;
    if n == MAX_ROOM_MEMBERS - 1 + limit {
      steps := [];
    } else if n >= MAX_ROOM_MEMBERS || (n < MAX_ROOM_MEMBERS - 1 && k == 1) || k == limit {
      FitsBelow(n + 1, MAX_ROOM_MEMBERS - 1 + limit);
      InsertOne(s, n, k);
      var rest := FillUp(Next(s, Insert(n, 0)), n + 1, k - 1, limit);
      steps := [Insert(n, 0)] + rest;
      OneStepMore(s, Insert(n, 0), rest, limit);
    } else {
      FitsBelow(n + k + 1, MAX_ROOM_MEMBERS - 1 + limit);
      ClearOne(s, n, k);
      var a, b := Lookup(n + k, Numbered(n + k), Numbered(n + k)), Count(n + k);
      var rest := FillUp(Next(Next(s, a), b), n, k + 1, limit);
      OneStepMore(Next(s, a), b, rest, limit);
      OneStepMore(s, a, [b] + rest, limit);
      steps := [a] + ([b] + rest);
    }
  }

  function NumberedStart(): State { Start(Numbered(0), Numbered(0), Sealed(Numbered(0), 0), 0) }

  /** The bound is exact: for every `limit` of one or more some run reaches `49 + limit` active members,
      as long as there are that many keys. */
  lemma CapIsReached(limit: nat) returns (steps: seq<Step>)
    requires limit >= 1 && FitsKey(MAX_ROOM_MEMBERS - 1 + limit)
    ensures Receivable(steps) && Runs(NumberedStart(), steps, limit)
    ensures |ActiveBoxes(Exec(NumberedStart(), steps).room.rows)| == 49 + limit
  {
    hide Numbered, FitsKey, Exec, Runs;
    var start := NumberedStart();
    assert ActiveBoxes(start.room.rows) == start.room.rows.Keys == {Numbered(0)};
    assert InFlight(start) == {};
    assert HasNumber(Numbered(0), 1);
    assert Crowd(start, 1, 0);
    steps := FillUp(start, 1, 0, limit);
  }

  /** In every run the request decoder lets through, with at most `limit` joins past their check, the
      room has at most `cap` active members. */
  ghost predicate CapHolds(limit: nat, cap: nat)
  {
    forall box: Key, sig: Key, wrapped: Sealed, date: int, steps: seq<Step> |
      && |box| == PUBKEY_LEN && |sig| == PUBKEY_LEN && Receivable(steps)
      && Runs(Start(box, sig, wrapped, date), steps, limit) ::
      |ActiveBoxes(Exec(Start(box, sig, wrapped, date), steps).room.rows)| <= cap
  }

  /** A cap holds in every run if and only if it leaves room for the joins that can be past their check
      together: the documented fifty exactly when joins are taken one at a time. */
  lemma CapExactly(limit: nat, cap: nat)
    requires limit >= 1 && FitsKey(MAX_ROOM_MEMBERS - 1 + limit)
    ensures CapHolds(limit, cap) <==> 49 + limit <= cap
    ensures CapHolds(limit, 50) <==> limit == 1
  {
    CapIsAtLeast(limit, cap);
    CapIsAtLeast(limit, MAX_ROOM_MEMBERS);
    hide FitsKey, Exec, Runs, Start, ActiveBoxes, Receivable;
    forall box: Key, sig: Key, wrapped: Sealed, date: int, steps: seq<Step> |
      && |box| == PUBKEY_LEN && |sig| == PUBKEY_LEN && Receivable(steps)
      && Runs(Start(box, sig, wrapped, date), steps, limit)
      ensures |ActiveBoxes(Exec(Start(box, sig, wrapped, date), steps).room.rows)| <= MAX_ROOM_MEMBERS - 1 + limit
    {
      CapUnderConcurrency(box, sig, wrapped, date, steps, limit);
    }
  }

  lemma CapIsAtLeast(limit: nat, cap: nat)
    requires limit >= 1 && FitsKey(MAX_ROOM_MEMBERS - 1 + limit)
    ensures CapHolds(limit, cap) ==> MAX_ROOM_MEMBERS - 1 + limit <= cap
  {
    hide FitsKey, Exec, Runs, Start, ActiveBoxes, Receivable, Numbered;
    var steps := CapIsReached(limit);
    if CapHolds(limit, cap) {
      assert Runs(Start(Numbered(0), Numbered(0), Sealed(Numbered(0), 0), 0), steps, limit);
    }
  }

  // ---------- A member who joins again ----------

  ghost predicate FoundItself(s: State, id: nat, box: Key, sig: Key)
  {
    && box in s.room.rows && id in s.joins
    && (s.joins[id] == LookedUp(box, sig, true) || s.joins[id] == Cleared(box, sig, false))
  }

  predicate Handles(step: Step, id: nat) { step == Abort(id) || (step.Insert? && step.id == id) }

  lemma StillFound(s: State, step: Step, id: nat, box: Key, sig: Key)
    requires FoundItself(s, id, box, sig) && !Handles(step, id)
    ensures FoundItself(Next(s, step), id, box, sig)
  {
    hide ActiveBoxes;
    if step.Other? && !step.op.Join? {
      OtherNeverAdds(s.room, step.op);
      hide Apply;
    }
  }

  lemma {:induction false} RunStillFinds(s: State, steps: seq<Step>, id: nat, box: Key, sig: Key)
    requires FoundItself(s, id, box, sig) && forall i | 0 <= i < |steps| :: !Handles(steps[i], id)
    ensures FoundItself(Exec(s, steps), id, box, sig)
    decreases |steps|
  {
    if |steps| > 0 {
      StillFound(s, steps[0], id, box, sig);
      hide Next, FoundItself;
      RunStillFinds(Next(s, steps[0]), steps[1..], id, box, sig);
    }
  }

  /** The cap never turns away an active member that joins again: however full the room is by then, and
      whatever ran since its lookup, its join passes the check and comes to an insert that changes nothing. */
  lemma RejoinIsNeverRefused(s: State, steps: seq<Step>, id: nat, box: Key, sig: Key, date: int)
    requires id !in s.joins && box in ActiveBoxes(s.room.rows)
    requires forall i | 0 <= i < |steps| :: !Handles(steps[i], id)
    ensures var t := Next(Exec(Next(s, Lookup(id, box, sig)), steps), Count(id));
            && Enabled(t, Insert(id, date)) && Next(t, Insert(id, date)).room == t.room
            && t.room == Exec(Next(s, Lookup(id, box, sig)), steps).room
  {
    var u := Exec(Next(s, Lookup(id, box, sig)), steps);
    RunStillFinds(Next(s, Lookup(id, box, sig)), steps, id, box, sig);
    hide Exec, ActiveBoxes;
  }

  /** With nobody in between, the lookup and the count turn a join away exactly when the box has no active row
      and fifty others have: a removed member is counted like anybody else. */
  lemma CountRefusesExactly(s: State, id: nat, box: Key, sig: Key)
    requires id !in s.joins
    ensures var t := Next(Next(s, Lookup(id, box, sig)), Count(id));
            && t.room == s.room && (forall i | i != id :: i in t.joins <==> i in s.joins)
            && (id !in t.joins <==> |ActiveBoxes(s.room.rows)| >= 50 && !(box in s.room.rows &&
                                                                          s.room.rows[box].removedAt.None?))
  {
    assert box in ActiveBoxes(s.room.rows) <==> box in s.room.rows && s.room.rows[box].removedAt.None?;
    hide ActiveBoxes;
  }
}
