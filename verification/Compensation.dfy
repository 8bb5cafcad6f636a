/** The background scan that retries TDengine writes which were never confirmed.

    The telemetry table is its entries in id order together with the set of keys
    marked written.  A sink or a mark call is asked at most once per record and
    tick, so one tick's behaviour is a function of the record. */
module Compensation {
  import opened Wrappers
  import opened TelemetryStore
  import P = TelemetryPipeline
  import A = TelemetryActors

  const BATCH: nat := 500

  datatype Entry = Entry(id: nat, rec: Record)

  /** How the write of one row went; Cancelled: the worker was told to stop before it. */
  datatype SinkReply = Accepted | Rejected | Unavailable | AcceptedUnreported | Cancelled

  type Sink = Record -> SinkReply

  /** What a scan selects: rows received by `olderThan`, of the allowed tenants (all when empty). */
  datatype Scope = Scope(olderThan: Time, tenants: set<string>)

  datatype Sweeper = Sweeper(written: set<Key>, tdengine: set<Record>, afterId: nat)

  predicate Allowed(tenants: set<string>, r: Record) {
    tenants == {} || r.key.of.tenant in tenants
  }

  predicate Selected(e: Entry, written: set<Key>, afterId: nat, s: Scope) {
    && e.rec.key !in written && e.id > afterId && Allowed(s.tenants, e.rec)
    && e.rec.receivedAt.Some? && e.rec.receivedAt.value <= s.olderThan
  }

  /** Ids increase and keys are unique. */
  ghost predicate TableOk(rows: seq<Entry>) {
    forall i, j :: 0 <= i < j < |rows| ==> rows[i].id < rows[j].id && rows[i].rec.key != rows[j].rec.key
  }

  /** All rows still to be written after a cursor, in id order. */
  function Pending(rows: seq<Entry>, written: set<Key>, afterId: nat, s: Scope): seq<Entry> {
    if rows == [] then []
    else
      var rest := Pending(rows[1..], written, afterId, s);
      if Selected(rows[0], written, afterId, s) then [rows[0]] + rest else rest
  }

  function Take(xs: seq<Entry>, n: nat): seq<Entry> {
    if |xs| <= n then xs else xs[..n]
  }

  // ----- one tick ------------------------------------------------------------

  function Write(st: Sweeper, rec: Record, mark: bool): Sweeper {
    st.(tdengine := st.tdengine + {rec}, written := if mark then st.written + {rec.key} else st.written)
  }

  /** compensateTelemetryRows: passes over rows of other tenants and rejected ones, stops at the first row the
      sink is unavailable for or at a cancellation. */
  function Work(st: Sweeper, batch: seq<Entry>, tenants: set<string>, sink: Sink,
                marks: Record -> bool): (r: (Sweeper, bool))
    ensures r.0.afterId == st.afterId
    decreases |batch|
  {
    if batch == [] then (st, true)
    else
      var rec := batch[0].rec;
      if sink(rec).Cancelled? then (st, false)
      else if !Allowed(tenants, rec) then Work(st, batch[1..], tenants, sink, marks)
      else
        match sink(rec)
        case Accepted => Work(Write(st, rec, marks(rec)), batch[1..], tenants, sink, marks)
        case Rejected => Work(st, batch[1..], tenants, sink, marks)
        case Unavailable => (st, false)
        case AcceptedUnreported => (Write(st, rec, false), false)
  }

  function Tick(rows: seq<Entry>, st: Sweeper, s: Scope, sink: Sink, marks: Record -> bool): Sweeper {
    var batch := Take(Pending(rows, st.written, st.afterId, s), BATCH);
    if batch == [] then st.(afterId := 0)
    else
      var (after, done) := Work(st, batch, s.tenants, sink, marks);
      if done then after.(afterId := batch[|batch| - 1].id) else after
  }

  // ----- the scan, in place --------------------------------------------------

  lemma {:induction false} PendingAppend(xs: seq<Entry>, x: Entry, written: set<Key>, afterId: nat, s: Scope)
    ensures Pending(xs + [x], written, afterId, s) ==
            Pending(xs, written, afterId, s) + if Selected(x, written, afterId, s) then [x] else []
  {
    if xs == [] {
      assert xs + [x] == [x];
      assert [x][1..] == [];
    } else {
      assert (xs + [x])[1..] == xs[1..] + [x];
      PendingAppend(xs[1..], x, written, afterId, s);
    }
  }

  lemma {:induction false} PendingSplit(xs: seq<Entry>, ys: seq<Entry>, written: set<Key>, afterId: nat, s: Scope)
    ensures Pending(xs + ys, written, afterId, s) == Pending(xs, written, afterId, s) + Pending(ys, written, afterId, s)
  {
    if xs == [] {
      assert xs + ys == ys;
    } else {
      assert (xs + ys)[1..] == xs[1..] + ys;
      PendingSplit(xs[1..], ys, written, afterId, s);
    }
  }

  lemma PendingNext(rows: seq<Entry>, i: nat, written: set<Key>, afterId: nat, s: Scope)
    requires i < |rows|
    ensures Pending(rows[..i + 1], written, afterId, s) ==
            Pending(rows[..i], written, afterId, s) + if Selected(rows[i], written, afterId, s) then [rows[i]] else []
  {
    assert rows[..i + 1] == rows[..i] + [rows[i]];
    PendingAppend(rows[..i], rows[i], written, afterId, s);
  }

  lemma PendingDone(rows: seq<Entry>, i: nat, written: set<Key>, afterId: nat, s: Scope, limit: nat)
    requires i <= |rows| && |Pending(rows[..i], written, afterId, s)| <= limit
    requires i == |rows| || |Pending(rows[..i], written, afterId, s)| == limit
    ensures Take(Pending(rows, written, afterId, s), limit) == Pending(rows[..i], written, afterId, s)
  {
    assert rows == rows[..i] + rows[i..];
    PendingSplit(rows[..i], rows[i..], written, afterId, s);
  }

  /** A row TDengine should have had by now: not marked, of an allowed tenant, received long enough ago. */
  predicate Overdue(e: Entry, written: set<Key>, s: Scope) {
    && e.rec.key !in written && (s.tenants == {} || e.rec.key.of.tenant in s.tenants)
    && e.rec.receivedAt.Some? && e.rec.receivedAt.value <= s.olderThan
  }

  /** What a scan returns: overdue rows after the cursor in id order, none left out but those past a full batch. */
  ghost predicate OldestOverdue(rows: seq<Entry>, written: set<Key>, afterId: nat, s: Scope, limit: nat,
                                out: seq<Entry>) {
    && |out| <= limit && (forall i, j :: 0 <= i < j < |out| ==> out[i].id < out[j].id)
    && (forall e <- out :: e in rows && Overdue(e, written, s) && e.id > afterId)
    && (forall e <- rows :: Overdue(e, written, s) && e.id > afterId && e !in out ==>
          |out| == limit && (out != [] ==> e.id > out[|out| - 1].id))
  }

  lemma ListedExactly(rows: seq<Entry>, written: set<Key>, afterId: nat, s: Scope, limit: nat)
    requires TableOk(rows)
    ensures OldestOverdue(rows, written, afterId, s, limit, Take(Pending(rows, written, afterId, s), limit))
  {
    var p := Pending(rows, written, afterId, s);
    var out := Take(p, limit);
    PendingMembers(rows, written, afterId, s);
    PendingSorted(rows, written, afterId, s);
    forall e | e in p && e !in out ensures |out| == limit && (out != [] ==> e.id > out[|out| - 1].id) {
      var i :| 0 <= i < |p| && p[i] == e;
      assert forall k :: 0 <= k < |out| ==> out[k] == p[k];
      assert i >= |out| by { assert forall k :: 0 <= k < |out| ==> p[k] in out; }
    }
    forall e | e in rows && Overdue(e, written, s) && e.id > afterId ensures e in p {
      assert Selected(e, written, afterId, s);
    }
  }

  class Compensator {
    const rows: seq<Entry>
    var written: set<Key>
    var tdengine: set<Record>
    var afterId: nat

    constructor (rows: seq<Entry>)
      ensures this.rows == rows && State() == Sweeper({}, {}, 0)
    {
      this.rows := rows;
      written, tdengine, afterId := {}, {}, 0;
    }

    function State(): Sweeper
      reads this
    {
      Sweeper(written, tdengine, afterId)
    }

    /** The scan query: the oldest pending rows after the cursor, at most `limit`, and the new cursor. */
    method ListUnwrittenTelemetry(s: Scope, limit: nat) returns (out: seq<Entry>, cursor: nat)
      ensures out == Take(Pending(rows, written, afterId, s), limit)
      ensures cursor == if out == [] then afterId else out[|out| - 1].id
      ensures TableOk(rows) ==> OldestOverdue(rows, written, afterId, s, limit, out)
    {
      out, cursor := [], afterId;
      var i := 0;
      while i < |rows| && |out| < limit
        invariant i <= |rows| && |out| <= limit
        invariant out == Pending(rows[..i], written, afterId, s)
        invariant cursor == if out == [] then afterId else out[|out| - 1].id
      {
        PendingNext(rows, i, written, afterId, s);
        if Selected(rows[i], written, afterId, s) {
          out := out + [rows[i]];
          cursor := rows[i].id;
        }
        i := i + 1;
      }
      PendingDone(rows, i, written, afterId, s, limit);
      if TableOk(rows) { ListedExactly(rows, written, afterId, s, limit); }
    }

    method CompensateTelemetryRows(batch: seq<Entry>, tenants: set<string>, sink: Sink, marks: Record -> bool)
      returns (done: bool)
      modifies this`written, this`tdengine
      ensures (State(), done) == Work(old(State()), batch, tenants, sink, marks)
    {
      for i := 0 to |batch|
        invariant Work(State(), batch[i..], tenants, sink, marks) == Work(old(State()), batch, tenants, sink, marks)
        invariant afterId == old(afterId)
      {
        assert batch[i..][1..] == batch[i + 1..];
        var rec := batch[i].rec;
        if sink(rec).Cancelled? {
          return false;
        }
        if Allowed(tenants, rec) {
          match sink(rec) {
            case Accepted =>
              tdengine := tdengine + {rec};
              if marks(rec) {
                written := written + {rec.key};
              }
            case Rejected =>
            case Unavailable => return false;
            case AcceptedUnreported =>
              tdengine := tdengine + {rec};
              return false;
          }
        }
      }
      return true;
    }

    /** One tick of the ticker; a scan error skips the tick.  On the pipeline's state it is a run of
        compensation writes and marks. */
    method CompensateTick(s: Scope, scanOk: bool, sink: Sink, marks: Record -> bool, ghost c: nat, ghost w: P.World)
      returns (ghost v: P.World)
      requires TableOk(rows) && Mirrors(w, rows, State()) && c !in w.accepted && s.tenants == w.cfg.allowlist
      modifies this
      ensures State() == if scanOk then Tick(rows, old(State()), s, sink, marks) else old(State())
      ensures A.Reaches(w, v) && Mirrors(v, rows, State()) && v.accepted == w.accepted && v.cfg == w.cfg
    {
      A.ReachesSelf(w);
      v := w;
      if !scanOk {
        return;
      }
      v := TickIsRun(rows, State(), s, sink, marks, c, w);
      var batch, nextId := ListUnwrittenTelemetry(s, BATCH);
      if |batch| == 0 {
        afterId := 0;
        return;
      }
      var done := CompensateTelemetryRows(batch, s.tenants, sink, marks);
      if done {
        afterId := nextId;
      }
    }
  }

  // ----- it is a run of the pipeline -----------------------------------------

  /** The pipeline's tables hold exactly these rows and marks, and the sink these records. */
  ghost predicate Mirrors(w: P.World, rows: seq<Entry>, st: Sweeper) {
    && w.tdengine == st.tdengine
    && (forall e <- rows :: e.rec.key in w.db.rows && w.db.rows[e.rec.key] == Row(e.id, e.rec, e.rec.key in st.written))
    && (forall k <- w.db.rows :: exists e :: e in rows && e.rec.key == k)
  }

  ghost predicate SameBut(w: P.World, v: P.World) {
    v.accepted == w.accepted && v.cfg == w.cfg
  }

  lemma WriteOnly(w: P.World, rows: seq<Entry>, st: Sweeper, e: Entry, c: nat) returns (v: P.World)
    requires TableOk(rows) && Mirrors(w, rows, st) && e in rows && c !in w.accepted && Allowed(w.cfg.allowlist, e.rec)
    ensures A.Reaches(w, v) && Mirrors(v, rows, Write(st, e.rec, false)) && SameBut(w, v)
  {
    var op := P.CompensateWrite(c, e.rec.key, P.AppliedUnreported);
    A.ReachesSelf(w);
    A.ReachesStep(w, w, op);
    v := P.Apply(w, op);
  }

  lemma SameKeySameRow(rows: seq<Entry>, d: Entry, e: Entry)
    requires TableOk(rows) && d in rows && e in rows && d.rec.key == e.rec.key
    ensures d == e
  {
    var i :| 0 <= i < |rows| && rows[i] == d;
    var j :| 0 <= j < |rows| && rows[j] == e;
  }

  lemma MarkMirrors(w: P.World, v: P.World, rows: seq<Entry>, st: Sweeper, e: Entry, mark: bool)
    requires TableOk(rows) && Mirrors(w, rows, st) && e in rows
    requires v.tdengine == w.tdengine + {e.rec} && v.db == if mark then Written(w.db, e.rec.key) else w.db
    ensures Mirrors(v, rows, Write(st, e.rec, mark))
  {
    forall d | d in rows && d.rec.key == e.rec.key ensures d == e {
      SameKeySameRow(rows, d, e);
    }
  }

  lemma CompensateRow(w: P.World, key: Key, mark: bool, c: nat) returns (v: P.World)
    requires key in w.db.rows && c !in w.accepted && Allowed(w.cfg.allowlist, w.db.rows[key].rec)
             && w.db.rows[key].rec.key == key
    ensures A.Reaches(w, v) && SameBut(w, v)
    ensures v.tdengine == w.tdengine + {w.db.rows[key].rec} && v.db == if mark then Written(w.db, key) else w.db
  {
    var write, fin := P.CompensateWrite(c, key, P.Fine), P.CompensateMark(c, if mark then P.Fine else P.NotApplied);
    A.ReachesSelf(w);
    A.ReachesStep(w, w, write);
    var u := P.Apply(w, write);
    A.ReachesStep(w, u, fin);
    v := P.Apply(u, fin);
    assert u.accepted - {c} == w.accepted;
  }

  lemma WriteThenMark(w: P.World, rows: seq<Entry>, st: Sweeper, e: Entry, mark: bool, c: nat) returns (v: P.World)
    requires TableOk(rows) && Mirrors(w, rows, st) && e in rows && c !in w.accepted && Allowed(w.cfg.allowlist, e.rec)
    ensures A.Reaches(w, v) && Mirrors(v, rows, Write(st, e.rec, mark)) && SameBut(w, v)
  {
    v := CompensateRow(w, e.rec.key, mark, c);
    MarkMirrors(w, v, rows, st, e, mark);
  }

  lemma {:induction false} WorkIsRun(rows: seq<Entry>, st: Sweeper, batch: seq<Entry>, sink: Sink,
                                     marks: Record -> bool, c: nat, w: P.World)
    returns (v: P.World)
    requires TableOk(rows) && Mirrors(w, rows, st) && c !in w.accepted && forall e <- batch :: e in rows
    ensures A.Reaches(w, v) && Mirrors(v, rows, Work(st, batch, w.cfg.allowlist, sink, marks).0) && SameBut(w, v)
    decreases |batch|
  {
    A.ReachesSelf(w);
    v := w;
    if batch != [] {
      var e, tenants := batch[0], w.cfg.allowlist;
      assert e in rows && forall d <- batch[1..] :: d in batch;
      var reply := sink(e.rec);
      if reply.Cancelled? {
      } else if !Allowed(tenants, e.rec) || reply.Rejected? {
        v := WorkIsRun(rows, st, batch[1..], sink, marks, c, w);
      } else if reply.Accepted? {
        var u := WriteThenMark(w, rows, st, e, marks(e.rec), c);
        v := WorkIsRun(rows, Write(st, e.rec, marks(e.rec)), batch[1..], sink, marks, c, u);
        A.ReachesAll(w, u, v);
      } else if reply.AcceptedUnreported? {
        v := WriteOnly(w, rows, st, e, c);
      }
    }
  }

  /** A tick is a run of the pipeline: compensation writes and marks, nothing else. */
  lemma TickIsRun(rows: seq<Entry>, st: Sweeper, s: Scope, sink: Sink, marks: Record -> bool, c: nat, w: P.World)
    returns (v: P.World)
    requires TableOk(rows) && Mirrors(w, rows, st) && c !in w.accepted && s.tenants == w.cfg.allowlist
    ensures A.Reaches(w, v) && Mirrors(v, rows, Tick(rows, st, s, sink, marks)) && SameBut(w, v)
  {
    var batch := Take(Pending(rows, st.written, st.afterId, s), BATCH);
    PendingMembers(rows, st.written, st.afterId, s);
    v := WorkIsRun(rows, st, batch, sink, marks, c, w);
  }

  // ----- it never lies -------------------------------------------------------

  /** Every row marked written was accepted by the sink. */
  ghost predicate Honest(rows: seq<Entry>, st: Sweeper) {
    forall e <- rows :: e.rec.key in st.written ==> e.rec in st.tdengine
  }

  /** What becomes of a row the loop gets past: accepted, permanently rejected, or none of its business. */
  predicate Handled(st: Sweeper, tenants: set<string>, sink: Sink, rec: Record) {
    rec in st.tdengine || sink(rec).Rejected? || !Allowed(tenants, rec)
  }

  /** The record of a row in the batch that the sink took. */
  ghost predicate Sunk(batch: seq<Entry>, tenants: set<string>, sink: Sink, r: Record) {
    (exists e <- batch :: e.rec == r) && Allowed(tenants, r) && (sink(r).Accepted? || sink(r).AcceptedUnreported?)
  }

  /** Work marks only accepted rows of the batch, and reports done exactly when no row of the batch met a
      cancellation or an unavailable sink; then each was accepted, permanently rejected or of another tenant, and each
      accepted row whose mark works is marked. */
  lemma {:induction false} WorkHonest(rows: seq<Entry>, st: Sweeper, batch: seq<Entry>, tenants: set<string>,
                                      sink: Sink, marks: Record -> bool)
    requires TableOk(rows) && Honest(rows, st) && forall e <- batch :: e in rows
    ensures var (after, done) := Work(st, batch, tenants, sink, marks);
            && Honest(rows, after)
            && st.written <= after.written && st.tdengine <= after.tdengine
            && (forall k <- after.written :: k in st.written || exists e <- batch :: e.rec.key == k)
            && (done <==> forall e <- batch ::
                  && !sink(e.rec).Cancelled?
                  && (Allowed(tenants, e.rec) ==> sink(e.rec).Accepted? || sink(e.rec).Rejected?))
            && (done ==> forall e <- batch :: Handled(after, tenants, sink, e.rec))
            && (done ==> forall e <- batch :: Allowed(tenants, e.rec) && sink(e.rec).Accepted? && marks(e.rec) ==>
                  e.rec.key in after.written)
            && (forall r <- after.tdengine :: r in st.tdengine || Sunk(batch, tenants, sink, r))
    decreases |batch|
  {
    if batch != [] {
      var rec := batch[0].rec;
      assert batch[0] in rows;
      assert forall e <- batch[1..] :: e in batch;
      assert forall e <- batch :: e == batch[0] || e in batch[1..];
      if sink(rec).Cancelled? {
      } else if !Allowed(tenants, rec) || sink(rec).Rejected? {
        WorkHonest(rows, st, batch[1..], tenants, sink, marks);
      } else if sink(rec).Accepted? {
        WorkHonest(rows, Write(st, rec, marks(rec)), batch[1..], tenants, sink, marks);
      }
    }
  }

  lemma {:induction false} PendingMembers(rows: seq<Entry>, written: set<Key>, afterId: nat, s: Scope)
    ensures forall e :: e in Pending(rows, written, afterId, s) <==> e in rows && Selected(e, written, afterId, s)
  {
    if rows != [] {
      PendingMembers(rows[1..], written, afterId, s);
      assert forall e :: e in rows <==> e == rows[0] || e in rows[1..];
    }
  }

  lemma {:induction false} PendingSorted(rows: seq<Entry>, written: set<Key>, afterId: nat, s: Scope)
    requires TableOk(rows)
    ensures TableOk(Pending(rows, written, afterId, s))
  {
    if rows != [] {
      var rest := Pending(rows[1..], written, afterId, s);
      PendingSorted(rows[1..], written, afterId, s);
      PendingMembers(rows[1..], written, afterId, s);
      forall i | 0 <= i < |rest| ensures rows[0].id < rest[i].id && rows[0].rec.key != rest[i].rec.key {
        assert rest[i] in rows[1..];
      }
    }
  }

  /** The sink answered every row of the batch that was its business, and nobody cancelled. */
  ghost predicate Answered(batch: seq<Entry>, tenants: set<string>, sink: Sink) {
    forall e <- batch ::
      !sink(e.rec).Cancelled? && (Allowed(tenants, e.rec) ==> sink(e.rec).Accepted? || sink(e.rec).Rejected?)
  }

  /** In any tick, whatever the sink does: the mark never lies, an empty batch sends the cursor back to 0, and it moves
      forward exactly past a batch in which each row was accepted, permanently rejected or outside the allowlist, with
      every accepted row marked whose mark works. */
  lemma CursorPassesOnlyHandledRows(rows: seq<Entry>, st: Sweeper, s: Scope, sink: Sink, marks: Record -> bool)
    requires TableOk(rows) && Honest(rows, st)
    ensures var batch, after := Take(Pending(rows, st.written, st.afterId, s), BATCH), Tick(rows, st, s, sink, marks);
            && Honest(rows, after) && st.tdengine <= after.tdengine && st.written <= after.written
            && (batch == [] ==> after == st.(afterId := 0))
            && (batch != [] ==> after.afterId == if Answered(batch, s.tenants, sink) then batch[|batch| - 1].id
                                                 else st.afterId)
            && (Answered(batch, s.tenants, sink) ==> forall e <- batch ::
                  && Handled(after, s.tenants, sink, e.rec)
                  && (Allowed(s.tenants, e.rec) && sink(e.rec).Accepted? && marks(e.rec) ==>
                        e.rec.key in after.written))
  {
    PendingMembers(rows, st.written, st.afterId, s);
    WorkHonest(rows, st, Take(Pending(rows, st.written, st.afterId, s), BATCH), s.tenants, sink, marks);
  }

  // ----- it never starves ----------------------------------------------------

  /** Raising the cursor past the first k pending rows leaves exactly the others. */
  lemma {:induction false} PendingAfterCut(rows: seq<Entry>, w: set<Key>, a: nat, w': set<Key>, a': nat, s: Scope,
                                           k: nat)
    requires forall e <- rows :: Selected(e, w', a', s) <==> Selected(e, w, a, s) && e.id > a'
    requires k <= |Pending(rows, w, a, s)|
    requires forall i :: 0 <= i < |Pending(rows, w, a, s)| ==> (Pending(rows, w, a, s)[i].id <= a' <==> i < k)
    ensures Pending(rows, w', a', s) == Pending(rows, w, a, s)[k..]
  {
    if rows != [] {
      var p, rest := Pending(rows, w, a, s), Pending(rows[1..], w, a, s);
      if Selected(rows[0], w, a, s) {
        assert p == [rows[0]] + rest && p[0] == rows[0];
        assert forall i :: 0 <= i < |rest| ==> rest[i] == p[i + 1];
        PendingAfterCut(rows[1..], w, a, w', a', s, if k == 0 then 0 else k - 1);
      } else {
        PendingAfterCut(rows[1..], w, a, w', a', s, k);
      }
    }
  }

  /** A sink that answers every row, accepting or permanently rejecting it. */
  ghost predicate Responsive(sink: Sink) {
    forall r :: sink(r).Accepted? || sink(r).Rejected?
  }

  /** Where a sorted list passes a bound. */
  lemma {:induction false} CutPoint(p: seq<Entry>, bound: nat) returns (k: nat)
    requires TableOk(p)
    ensures k <= |p| && forall i :: 0 <= i < |p| ==> (p[i].id <= bound <==> i < k)
  {
    k := 0;
    while k < |p| && p[k].id <= bound
      invariant k <= |p| && forall i :: 0 <= i < k ==> p[i].id <= bound
    {
      k := k + 1;
    }
    forall i | k <= i < |p| ensures p[i].id > bound {
      if i > k { assert p[k].id < p[i].id; }
    }
  }

  /** Distinct rows that all lie in a list are no more than the list. */
  lemma {:induction false} FitsInto(xs: seq<Entry>, p: seq<Entry>)
    requires TableOk(xs) && TableOk(p) && forall x <- xs :: x in p
    ensures |xs| <= |p|
    decreases |xs|
  {
    if xs != [] {
      var last := xs[|xs| - 1];
      assert last in xs;
      var j :| 0 <= j < |p| && p[j] == last;
      forall x | x in xs[..|xs| - 1] ensures x in p[..j] {
        var i :| 0 <= i < |xs| - 1 && xs[i] == x;
        assert x in xs && x.id < last.id;
        var m :| 0 <= m < |p| && p[m] == x;
        assert m < j;
      }
      FitsInto(xs[..|xs| - 1], p[..j]);
    }
  }

  /** A later scope of the same tenants: rows age into it, none leave. */
  predicate Within(s: Scope, t: Scope) {
    s.tenants == t.tenants && s.olderThan <= t.olderThan
  }

  lemma BatchSelected(rows: seq<Entry>, st: Sweeper, s: Scope)
    requires TableOk(rows)
    ensures var batch := Take(Pending(rows, st.written, st.afterId, s), BATCH);
            TableOk(batch) && forall e <- batch :: e in rows && Selected(e, st.written, st.afterId, s)
  {
    var p := Pending(rows, st.written, st.afterId, s);
    PendingMembers(rows, st.written, st.afterId, s);
    PendingSorted(rows, st.written, st.afterId, s);
    assert forall e <- Take(p, BATCH) :: e in p;
  }

  /** A tick moves the cursor to the end of its batch and marks rows of the batch only. */
  lemma TickMarks(rows: seq<Entry>, st: Sweeper, s: Scope, sink: Sink, marks: Record -> bool)
    requires TableOk(rows) && Honest(rows, st) && Responsive(sink)
    requires Pending(rows, st.written, st.afterId, s) != []
    ensures var batch, after := Take(Pending(rows, st.written, st.afterId, s), BATCH), Tick(rows, st, s, sink, marks);
            && batch != [] && TableOk(batch)
               && (forall e <- batch :: e in rows && Selected(e, st.written, st.afterId, s))
            && st.afterId < after.afterId == batch[|batch| - 1].id && st.written <= after.written
            && (forall k <- after.written :: k in st.written || exists e <- batch :: e.rec.key == k)
  {
    var batch := Take(Pending(rows, st.written, st.afterId, s), BATCH);
    BatchSelected(rows, st, s);
    WorkHonest(rows, st, batch, s.tenants, sink, marks);
    assert batch[|batch| - 1] in batch;
  }

  /** Then, in any scope, the rows still selected are those that were and lie past the cursor. */
  lemma SelectedAfter(rows: seq<Entry>, w: set<Key>, a: nat, w': set<Key>, batch: seq<Entry>, t: Scope, e: Entry)
    requires TableOk(rows) && TableOk(batch) && batch != [] && (forall b <- batch :: b in rows) && w <= w' && e in rows
    requires a < batch[|batch| - 1].id && forall k <- w' :: k in w || exists b <- batch :: b.rec.key == k
    ensures var a' := batch[|batch| - 1].id; Selected(e, w', a', t) <==> Selected(e, w, a, t) && e.id > a'
  {
    if e.rec.key in w' && e.rec.key !in w {
      var b :| b in batch && b.rec.key == e.rec.key;
      SameKeySameRow(rows, b, e);
      LastIsLargest(batch, b);
    }
  }

  lemma CutCount(rows: seq<Entry>, w: set<Key>, a: nat, w': set<Key>, batch: seq<Entry>, t: Scope)
    requires TableOk(rows) && TableOk(batch) && batch != [] && forall b <- batch :: b in rows && Selected(b, w, a, t)
    requires forall e <- rows :: Selected(e, w', batch[|batch| - 1].id, t) <==>
               Selected(e, w, a, t) && e.id > batch[|batch| - 1].id
    ensures |Pending(rows, w', batch[|batch| - 1].id, t)| + |batch| <= |Pending(rows, w, a, t)|
  {
    var q, a' := Pending(rows, w, a, t), batch[|batch| - 1].id;
    PendingMembers(rows, w, a, t);
    PendingSorted(rows, w, a, t);
    var k := CutPoint(q, a');
    PendingAfterCut(rows, w, a, w', a', t, k);
    forall e | e in batch ensures e in q[..k] {
      LastIsLargest(batch, e);
      var i :| 0 <= i < |q| && q[i] == e;
      assert q[..k][i] == e;
    }
    FitsInto(batch, q[..k]);
  }

  /** What a tick under scope s does for the rows of a wider scope t: those up to the new cursor are gone from the list,
      at least as many as the batch had. */
  lemma TickCuts(rows: seq<Entry>, st: Sweeper, s: Scope, t: Scope, sink: Sink, marks: Record -> bool)
    requires TableOk(rows) && Honest(rows, st) && Responsive(sink) && Within(s, t)
    requires Pending(rows, st.written, st.afterId, s) != []
    ensures var batch, after := Take(Pending(rows, st.written, st.afterId, s), BATCH), Tick(rows, st, s, sink, marks);
            && after.afterId == batch[|batch| - 1].id
            && |Pending(rows, after.written, after.afterId, t)| + |batch| <= |Pending(rows, st.written, st.afterId, t)|
            && forall e <- rows :: Selected(e, st.written, st.afterId, t) && e.id > after.afterId ==>
                 Selected(e, after.written, after.afterId, t)
  {
    var batch, after := Take(Pending(rows, st.written, st.afterId, s), BATCH), Tick(rows, st, s, sink, marks);
    TickMarks(rows, st, s, sink, marks);
    forall e | e in rows ensures Selected(e, after.written, after.afterId, t) <==>
          Selected(e, st.written, st.afterId, t) && e.id > after.afterId {
      SelectedAfter(rows, st.written, st.afterId, after.written, batch, t, e);
    }
    CutCount(rows, st.written, st.afterId, after.written, batch, t);
  }

  lemma LastIsLargest(xs: seq<Entry>, x: Entry)
    requires TableOk(xs) && x in xs
    ensures x.id <= xs[|xs| - 1].id
  {
    var i :| 0 <= i < |xs| && xs[i] == x;
  }

  /** Every row of the scope up to the new cursor is handled by the tick; all of them if the batch was not full. */
  lemma TickHandles(rows: seq<Entry>, st: Sweeper, s: Scope, sink: Sink, marks: Record -> bool, e: Entry)
    requires TableOk(rows) && Honest(rows, st) && Responsive(sink) && e in rows
             && Selected(e, st.written, st.afterId, s)
    ensures var batch, after := Take(Pending(rows, st.written, st.afterId, s), BATCH), Tick(rows, st, s, sink, marks);
            && batch != [] && Honest(rows, after) && st.tdengine <= after.tdengine
            && (e.id <= after.afterId || |batch| < BATCH ==> e.rec in after.tdengine || sink(e.rec).Rejected?)
  {
    var p := Pending(rows, st.written, st.afterId, s);
    var batch := Take(p, BATCH);
    PendingMembers(rows, st.written, st.afterId, s);
    PendingSorted(rows, st.written, st.afterId, s);
    assert forall b <- batch :: b in p;
    WorkHonest(rows, st, batch, s.tenants, sink, marks);
    var i :| 0 <= i < |p| && p[i] == e;
    if i >= |batch| { assert batch[|batch| - 1].id == p[|batch| - 1].id < p[i].id; }
    if i < |batch| { assert batch[i] == e; }
  }

  /** What one tick meets: the age bound of its scan, and which marks take effect. */
  datatype Turn = Turn(scope: Scope, marks: Record -> bool)

  function Ticks(rows: seq<Entry>, st: Sweeper, sink: Sink, turns: seq<Turn>): Sweeper
    decreases |turns|
  {
    if turns == [] then st else Ticks(rows, Tick(rows, st, turns[0].scope, sink, turns[0].marks), sink, turns[1..])
  }

  /** The age bound never goes back, from the first scope on and up to the last. */
  ghost predicate Aging(first: Scope, turns: seq<Turn>, last: Scope) {
    Within(first, last) && forall i :: 0 <= i < |turns| ==>
          Within(first, turns[i].scope) && Within(turns[i].scope, last)
  }

  lemma {:induction false} TicksKeepAccepted(rows: seq<Entry>, st: Sweeper, sink: Sink, turns: seq<Turn>)
    requires TableOk(rows) && Honest(rows, st)
    ensures st.tdengine <= Ticks(rows, st, sink, turns).tdengine
    decreases |turns|
  {
    if turns != [] {
      var t := turns[0];
      CursorPassesOnlyHandledRows(rows, st, t.scope, sink, t.marks);
      TicksKeepAccepted(rows, Tick(rows, st, t.scope, sink, t.marks), sink, turns[1..]);
    }
  }

  lemma {:induction false} TicksReach(rows: seq<Entry>, st: Sweeper, first: Scope, last: Scope, sink: Sink,
                                      turns: seq<Turn>, e: Entry)
    requires TableOk(rows) && Honest(rows, st) && Responsive(sink) && Aging(first, turns, last)
    requires |Pending(rows, st.written, st.afterId, last)| <= BATCH * |turns|
    requires e in rows && Selected(e, st.written, st.afterId, first) && !sink(e.rec).Rejected?
    ensures e.rec in Ticks(rows, st, sink, turns).tdengine
    decreases |turns|
  {
    PendingMembers(rows, st.written, st.afterId, last);
    assert Selected(e, st.written, st.afterId, last);
    var t := turns[0];
    assert Within(first, t.scope) && Within(t.scope, last);
    var batch, after := Take(Pending(rows, st.written, st.afterId, t.scope), BATCH),
        Tick(rows, st, t.scope, sink, t.marks);
    TickHandles(rows, st, t.scope, sink, t.marks, e);
    if e.rec in after.tdengine {
      TicksKeepAccepted(rows, after, sink, turns[1..]);
    } else {
      TickCuts(rows, st, t.scope, last, sink, t.marks);
      TickCuts(rows, st, t.scope, t.scope, sink, t.marks);
      assert Aging(first, turns[1..], last);
      TicksReach(rows, after, first, last, sink, turns[1..], e);
    }
  }

  /** From cursor 0, with n rows eligible by the last of the ticks, ceil(n / 500) ticks bring every row that was
      eligible at the first one to TDengine unless it is permanently rejected: wherever the rejected rows sit, whichever
      marks fail, and however the age bound advances from tick to tick. */
  lemma {:induction false} NoStarvation(rows: seq<Entry>, st: Sweeper, first: Scope, last: Scope, sink: Sink,
                                        turns: seq<Turn>, e: Entry)
    requires TableOk(rows) && Honest(rows, st) && Responsive(sink) && st.afterId == 0 && Aging(first, turns, last)
    requires |turns| == (|Pending(rows, st.written, 0, last)| + 499) / 500
    requires e in rows && Selected(e, st.written, 0, first) && !sink(e.rec).Rejected?
    ensures e.rec in Ticks(rows, st, sink, turns).tdengine
  {
    TicksReach(rows, st, first, last, sink, turns, e);
  }

  /** Marking rows takes them off the list and puts none on it. */
  lemma {:induction false} PendingShrinks(rows: seq<Entry>, w: set<Key>, w': set<Key>, a: nat, s: Scope)
    requires w <= w'
    ensures |Pending(rows, w', a, s)| <= |Pending(rows, w, a, s)|
  {
    if rows != [] { PendingShrinks(rows[1..], w, w', a, s); }
  }

  /** A row behind the cursor is reached again: from any cursor, after the rows ahead are done and the scan has wrapped,
      every row that was eligible at the first tick is brought to TDengine unless it is permanently rejected. */
  lemma {:induction false} ReachedAgain(rows: seq<Entry>, st: Sweeper, first: Scope, last: Scope, sink: Sink,
                                        turns: seq<Turn>, e: Entry)
    requires TableOk(rows) && Honest(rows, st) && Responsive(sink) && Aging(first, turns, last)
    requires |turns| > |Pending(rows, st.written, st.afterId, last)|
    requires |Pending(rows, st.written, 0, last)| <=
             BATCH * (|turns| - 1 - |Pending(rows, st.written, st.afterId, last)|)
    requires e in rows && !sink(e.rec).Rejected?
    requires Selected(e, st.written, 0, first) || e.rec in st.tdengine
    ensures e.rec in Ticks(rows, st, sink, turns).tdengine
    decreases |turns|
  {
    var t := turns[0];
    var after := Tick(rows, st, t.scope, sink, t.marks);
    assert Within(first, t.scope) && Within(t.scope, last);
    assert Aging(first, turns[1..], last);
    if e.rec in st.tdengine {
      TicksKeepAccepted(rows, st, sink, turns);
    } else if e.id > st.afterId {
      TicksReach(rows, st, first, last, sink, turns, e);
    } else if Pending(rows, st.written, st.afterId, t.scope) == [] {
      TicksReach(rows, after, first, last, sink, turns[1..], e);
    } else {
      PassBy(rows, st, first, last, sink, t, e);
      ReachedAgain(rows, after, first, last, sink, turns[1..], e);
    }
  }

  /** A tick over the rows ahead leaves a row behind the cursor as eligible as it was. */
  lemma PassBy(rows: seq<Entry>, st: Sweeper, first: Scope, last: Scope, sink: Sink, t: Turn, e: Entry)
    requires TableOk(rows) && Honest(rows, st) && Responsive(sink) && Within(first, t.scope) && Within(t.scope, last)
    requires Pending(rows, st.written, st.afterId, t.scope) != [] && e in rows && Selected(e, st.written, 0, first)
    ensures var after := Tick(rows, st, t.scope, sink, t.marks);
            && Honest(rows, after) && (Selected(e, after.written, 0, first) || e.rec in after.tdengine)
            && |Pending(rows, after.written, after.afterId, last)| < |Pending(rows, st.written, st.afterId, last)|
            && |Pending(rows, after.written, 0, last)| <= |Pending(rows, st.written, 0, last)|
  {
    var after := Tick(rows, st, t.scope, sink, t.marks);
    CursorPassesOnlyHandledRows(rows, st, t.scope, sink, t.marks);
    TickCuts(rows, st, t.scope, last, sink, t.marks);
    PendingShrinks(rows, st.written, after.written, 0, last);
  }
}
