/** Replay protection: a freshness window on the application's clock, a nonce table stamped by the
    database's clock, and a pruner that forgets old nonces. */
module Replay {
  import opened Bytes

  /** A request as the nonce table sees it: endpoint kind, signing key, signed timestamp. */
  datatype Nonce = Nonce(kind: string, key: Key, ts: int)

  const FRESHNESS: int := 60
  const PRUNE_AGE: real := 600.0

  /** One handled request: the application clock at the freshness check, the database clock at that
      same moment, and the database clock when the nonce is inserted. One sweep: the database
      clock it runs at. */
  datatype Event =
    | Handle(n: Nonce, appAtCheck: real, dbAtCheck: real, dbAtInsert: real)
    | Sweep(db: real)

  function When(e: Event): real { if e.Handle? then e.dbAtInsert else e.db }

  /** `unix_timestamp` drops the fraction of a second. */
  predicate Fresh(appNow: real, ts: int) { -FRESHNESS <= appNow.Floor - ts <= FRESHNESS }

  type Table = map<Nonce, real>

  /** INSERT ... ON CONFLICT DO NOTHING, with `seen_at` from the database clock. */
  function Record(t: Table, n: Nonce, now: real): Table { if n in t then t else t[n := now] }

  function PruneOlderThan(t: Table, age: real, now: real): Table { map n | n in t && !(t[n] < now - age) :: t[n] }

  /** The nonce table, with the requests accepted so far beside it. */
  datatype State = State(seen: Table, accepted: seq<Event>)

  predicate Accepts(s: State, e: Event) { e.Handle? && Fresh(e.appAtCheck, e.n.ts) && e.n !in s.seen }

  function Next(s: State, e: Event): State
  {
    match e
    case Sweep(db) => s.(seen := PruneOlderThan(s.seen, PRUNE_AGE, db))
    case Handle(n, app, _, db) =>
      if !Fresh(app, n.ts) then s
      else State(Record(s.seen, n, db), if Accepts(s, e) then s.accepted + [e] else s.accepted)
  }

  function Exec(s: State, es: seq<Event>): State
  {
    if |es| == 0 then s else Next(Exec(s, es[..|es| - 1]), es[|es| - 1])
  }

  class NonceTable {
    var seen: Table

    constructor ()
      ensures seen == map[]
    {
      seen := map[];
    }

    method RecordNonce(n: Nonce, now: real) returns (isNew: bool)
      modifies this
      ensures seen == Record(old(seen), n, now)
      ensures isNew <==> n !in old(seen)
      ensures seen.Keys == old(seen).Keys + {n} && (isNew ==> seen[n] == now)
      ensures forall m | m in old(seen) :: seen[m] == old(seen)[m]
    {
      isNew := n !in seen;
      if isNew {
        seen := seen[n := now];
      }
    }

    /** The pruning statement of the retention sweep, row by row. */
    method Prune(age: real, now: real) returns (deleted: nat)
      modifies this
      ensures seen == PruneOlderThan(old(seen), age, now)
      ensures deleted == |old(seen)| - |seen|
      ensures forall n | n in seen :: n in old(seen) && seen[n] == old(seen)[n]
      ensures forall n | n in old(seen) :: n in seen <==> old(seen)[n] >= now - age
    {
      deleted := 0;
      var todo := seen.Keys;
      while todo != {}
        invariant todo <= seen.Keys <= old(seen).Keys
        invariant forall n | n in old(seen) :: n in seen <==> n in todo || !(old(seen)[n] < now - age)
        invariant forall n | n in seen :: seen[n] == old(seen)[n]
        invariant deleted == |old(seen)| - |seen|
      {
        var n :| n in todo;
        todo := todo - {n};
        if seen[n] < now - age {
          assert (seen - {n}).Keys == seen.Keys - {n};
          seen := seen - {n};
          deleted := deleted + 1;
        }
      }
    }
  }

  // ---------- Timing ----------

  /** Database operations happen in the order of the log; each handler inserts at most `delay`
      after its check; the two clocks are never more than `skew` apart. */
  ghost predicate Timed(es: seq<Event>, delay: real, skew: real)
  {
    && (forall i, j | 0 <= i < j < |es| :: When(es[i]) <= When(es[j]))
    && (forall i | 0 <= i < |es| && es[i].Handle? ::
          && es[i].dbAtCheck <= es[i].dbAtInsert <= es[i].dbAtCheck + delay
          && -skew <= es[i].appAtCheck - es[i].dbAtCheck <= skew)
  }

  ghost predicate NoReplay(accepted: seq<Event>)
  {
    forall i, j | 0 <= i < j < |accepted| && accepted[i].Handle? && accepted[j].Handle? :: accepted[i].n != accepted[j].n
  }

  /** Of an accepted request, either the table still holds its nonce, stamped no earlier than the
      check, or a sweep more than the prune age after the check has run. */
  ghost predicate Remembered(s: State, es: seq<Event>)
  {
    forall i | 0 <= i < |s.accepted| ::
      s.accepted[i] in es && s.accepted[i].Handle? && Fresh(s.accepted[i].appAtCheck, s.accepted[i].n.ts) &&
      (SeenSince(s, s.accepted[i]) || SweptAfter(es, s.accepted[i]))
  }

  ghost predicate SeenSince(s: State, e: Event)
    requires e.Handle?
  {
    e.n in s.seen && s.seen[e.n] >= e.dbAtInsert
  }

  ghost predicate SweptAfter(es: seq<Event>, e: Event)
    requires e.Handle?
  {
    exists k :: 0 <= k < |es| && es[k].Sweep? && es[k].db > e.dbAtInsert + PRUNE_AGE
  }

  /** Less than 121 seconds pass on the application's clock while one timestamp is fresh: the
      floors of the first and last moment lie within 60 of it. */
  lemma FreshForLessThan121(a: real, b: real, ts: int)
    requires Fresh(a, ts) && b - a >= 121.0
    ensures !Fresh(b, ts)
  {
    assert a.Floor as real <= a && b < b.Floor as real + 1.0;
    assert (b.Floor - a.Floor) as real > 120.0;
  }

  lemma TimedPrefix(es: seq<Event>, delay: real, skew: real)
    requires |es| > 0 && Timed(es, delay, skew)
    ensures Timed(es[..|es| - 1], delay, skew)
  {
  }

  lemma {:induction false} NoReplayHolds(es: seq<Event>, delay: real, skew: real)
    requires Timed(es, delay, skew) && delay + 2.0 * skew <= 479.0
    ensures var s := Exec(State(map[], []), es); NoReplay(s.accepted) && Remembered(s, es)
  {
    if |es| > 0 {
      var front, e := es[..|es| - 1], es[|es| - 1];
      TimedPrefix(es, delay, skew);
      NoReplayHolds(front, delay, skew);
      var s := Exec(State(map[], []), front);
      StepRemembers(s, front, e, es);
      if Accepts(s, e) {
        forall i | 0 <= i < |s.accepted| ensures s.accepted[i].n != e.n {
          if s.accepted[i].n == e.n {
            StaleOnceForgotten(es, s.accepted[i], delay, skew);
          }
        }
      }
    }
  }

  /** Forgetting an accepted nonce takes longer than a timestamp stays fresh. */
  lemma StaleOnceForgotten(es: seq<Event>, first: Event, delay: real, skew: real)
    requires |es| > 0 && Timed(es, delay, skew) && delay + 2.0 * skew <= 479.0
    requires first in es[..|es| - 1] && first.Handle? && es[|es| - 1].Handle?
    requires Fresh(first.appAtCheck, first.n.ts) && SweptAfter(es[..|es| - 1], first)
    ensures !Fresh(es[|es| - 1].appAtCheck, first.n.ts)
  {
    var front, second := es[..|es| - 1], es[|es| - 1];
    var k :| 0 <= k < |front| && front[k].Sweep? && front[k].db > first.dbAtInsert + PRUNE_AGE;
    var m :| 0 <= m < |front| && front[m] == first;
    assert es[k] == front[k] && es[m] == first;
    assert When(es[k]) <= When(second);
    assert second.appAtCheck - first.appAtCheck >= 121.0;
    FreshForLessThan121(first.appAtCheck, second.appAtCheck, first.n.ts);
  }

  lemma StepRemembers(s: State, front: seq<Event>, e: Event, es: seq<Event>)
    requires es == front + [e] && Remembered(s, front)
    ensures Remembered(Next(s, e), es)
  {
    var t := Next(s, e);
    forall i | 0 <= i < |t.accepted|
      ensures t.accepted[i] in es && t.accepted[i].Handle? && Fresh(t.accepted[i].appAtCheck, t.accepted[i].n.ts)
      ensures SeenSince(t, t.accepted[i]) || SweptAfter(es, t.accepted[i])
    {
      var a := t.accepted[i];
      if i < |s.accepted| {
        if SweptAfter(front, a) {
          var k :| 0 <= k < |front| && front[k].Sweep? && front[k].db > a.dbAtInsert + PRUNE_AGE;
          assert es[k] == front[k];
        } else if e.Sweep? && a.n !in t.seen {
          assert es[|front|] == e && s.seen[a.n] < e.db - PRUNE_AGE;
        }
      } else {
        assert es[|front|] == e;
      }
    }
  }

  /** The handlers' and the sweep's database operations on one table, in the order they happen. Over a
      table that began empty, with the slack there is, no request is accepted twice. */
  method Serve(table: NonceTable, es: seq<Event>) returns (accepted: seq<Event>)
    modifies table
    ensures State(table.seen, accepted) == Exec(State(old(table.seen), []), es)
    ensures forall delay, skew | Timed(es, delay, skew) && delay + 2.0 * skew <= 479.0 && old(table.seen) == map[] ::
              NoReplay(accepted)
  {
    accepted := [];
    assert es[..0] == [];
    for i := 0 to |es|
      invariant State(table.seen, accepted) == Exec(State(old(table.seen), []), es[..i])
    {
      assert es[..i + 1][..i] == es[..i];
      match es[i]
      case Sweep(db) =>
        var _ := table.Prune(PRUNE_AGE, db);
      case Handle(n, app, _, db) =>
        if Fresh(app, n.ts) {
          var isNew := table.RecordNonce(n, db);
          if isNew {
            accepted := accepted + [es[i]];
          }
        }
    }
    assert es[..|es|] == es;
    forall delay, skew | Timed(es, delay, skew) && delay + 2.0 * skew <= 479.0 && old(table.seen) == map[]
      ensures NoReplay(accepted)
    {
      NoReplayHolds(es, delay, skew);
    }
  }

  // ---------- Exactly how much slack there is ----------

  /** The handlers refuse a signing key that is not 32 bytes long before they look at the table. */
  ghost predicate Receivable(es: seq<Event>)
  {
    forall i | 0 <= i < |es| && es[i].Handle? :: |es[i].n.key| == PUBKEY_LEN
  }

  /** With more delay and skew than that, some run accepts one request twice: check it at the very
      start of its window on an early clock, sweep, and check it again in the last instant of its
      window on a late one. */
  lemma TooLateIsReplayed(delay: real, skew: real) returns (es: seq<Event>)
    requires delay >= 0.0 && skew >= 0.0 && delay + 2.0 * skew > 479.0
    ensures Timed(es, delay, skew) && Receivable(es) && !NoReplay(Exec(State(map[], []), es).accepted)
  {
    var over := delay + 2.0 * skew - 479.0;
    var gap := if over < 1.0 then over / 2.0 else 0.5;
    var n := Nonce("leave", seq(PUBKEY_LEN, _ => 0), 60);
    var first := Handle(n, 0.0, -skew, -skew);
    var end := 121.0 - gap;
    var last := end + skew + delay;
    var second := Handle(n, end, end + skew, last);
    es := [first, Sweep(last), second];
    assert end.Floor == 120;
    var s0 := State(map[], []);
    var s1 := Next(s0, first);
    var s2 := Next(s1, Sweep(last));
    var s3 := Next(s2, second);
    assert es[..2] == [first, Sweep(last)] && es[..2][..1] == [first] && [first][..0] == [];
    assert Exec(s0, [first]) == s1;
    assert Exec(s0, es[..2]) == s2;
    assert Exec(s0, es) == s3;
    assert first.n !in s2.seen;
    assert s3.accepted == [first, second];
    assert s3.accepted[0].n == s3.accepted[1].n;
  }

  /** Replay safety over whole runs with pruning: for any handler delay and clock skew, no run
      accepts a request twice if and only if the delay plus twice the skew is at most 479 seconds.
      That is one second short of the 480 left between a 120-second window and the 600-second
      prune age, because whole-second timestamps stay fresh for nearly 121. */
  lemma ReplaySafetyExactly(delay: real, skew: real)
    requires delay >= 0.0 && skew >= 0.0
    ensures delay + 2.0 * skew <= 479.0 <==>
            forall es: seq<Event> | Timed(es, delay, skew) && Receivable(es) ::
              NoReplay(Exec(State(map[], []), es).accepted)
  {
    if delay + 2.0 * skew <= 479.0 {
      forall es: seq<Event> | Timed(es, delay, skew) && Receivable(es)
        ensures NoReplay(Exec(State(map[], []), es).accepted)
      {
        NoReplayHolds(es, delay, skew);
      }
    } else {
      var es := TooLateIsReplayed(delay, skew);
    }
  }
}
