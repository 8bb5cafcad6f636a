/** Device liveness does not depend on the order in which records arrive: after
    any interleaving of live, late, duplicate and replayed records, a device was
    last seen at the latest receive time among its stored records. */
module DeviceLiveness {
  import opened Wrappers
  import opened TelemetryStore
  import P = TelemetryPipeline
  import C = TelemetryConservation

  datatype Change =
    | Restore(rec: Record, payloadOk: bool)
    | MarkWritten(key: Key)
    | Register(of: Device)

  function Step(db: Db, c: Change): Db {
    match c
    case Restore(rec, payloadOk) => Restored(db, rec, payloadOk)
    case MarkWritten(key) => Written(db, key)
    case Register(d) => Registered(db, d)
  }

  function After(db: Db, cs: seq<Change>): Db {
    if cs == [] then db else Step(After(db, cs[..|cs| - 1]), cs[|cs| - 1])
  }

  /** Never heard from, or last seen at the latest stored receive time, by a record that has it. */
  ghost predicate SeenIsLatest(db: Db, d: Device) {
    if d !in db.seen || db.seen[d].lastSeen.None? then forall k <- db.rows :: k.of != d
    else
      var s := db.seen[d];
      && (forall k <- db.rows :: k.of == d && db.rows[k].rec.receivedAt.Some? ==>
           db.rows[k].rec.receivedAt.value <= s.lastSeen.value)
      && Key(s.lastMsg, d) in db.rows
      && db.rows[Key(s.lastMsg, d)].rec.receivedAt == s.lastSeen
  }

  lemma InsertKeepsSeen(db: Db, rec: Record, payloadOk: bool, d: Device)
    requires RowsOk(db) && SeenIsLatest(db, d)
    ensures SeenIsLatest(Restored(db, rec, payloadOk), d)
  {
  }

  lemma StepKeepsRows(db: Db, c: Change)
    requires RowsOk(db)
    ensures RowsOk(Step(db, c))
  {
    match c {
      case Restore(rec, payloadOk) => RestoredRowsOk(db, rec, payloadOk);
      case MarkWritten(key) => WrittenRowsOk(db, key);
      case Register(_) =>
    }
  }

  lemma StepKeepsSeen(db: Db, c: Change, d: Device)
    requires RowsOk(db) && SeenIsLatest(db, d)
    ensures SeenIsLatest(Step(db, c), d)
  {
    if c.Restore? { InsertKeepsSeen(db, c.rec, c.payloadOk, d); }
  }

  /** last_seen_at is the latest receive time and last_msg_id names a record that has it, always. */
  lemma {:induction false} SeenIsLatestAlways(cs: seq<Change>, d: Device)
    ensures RowsOk(After(EmptyDb, cs)) && SeenIsLatest(After(EmptyDb, cs), d)
  {
    if cs != [] {
      SeenIsLatestAlways(cs[..|cs| - 1], d);
      StepKeepsSeen(After(EmptyDb, cs[..|cs| - 1]), cs[|cs| - 1], d);
      StepKeepsRows(After(EmptyDb, cs[..|cs| - 1]), cs[|cs| - 1]);
    }
  }

  ghost predicate SameRecords(x: Db, y: Db) {
    x.rows.Keys == y.rows.Keys && forall k <- x.rows :: x.rows[k].rec == y.rows[k].rec
  }

  function LastSeen(db: Db, d: Device): Option<Time> {
    if d in db.seen then db.seen[d].lastSeen else None
  }

  lemma LatestIsUnique(x: Db, y: Db, d: Device)
    requires RowsOk(x) && RowsOk(y) && SeenIsLatest(x, d) && SeenIsLatest(y, d) && SameRecords(x, y)
    ensures LastSeen(x, d) == LastSeen(y, d)
  {
  }

  /** Two histories that stored the same records agree on when each device was last seen,
      whatever the order, the duplicates and the completion marks. */
  lemma OrderIndependent(cs: seq<Change>, ds: seq<Change>, d: Device)
    requires SameRecords(After(EmptyDb, cs), After(EmptyDb, ds))
    ensures LastSeen(After(EmptyDb, cs), d) == LastSeen(After(EmptyDb, ds), d)
  {
    SeenIsLatestAlways(cs, d);
    SeenIsLatestAlways(ds, d);
    LatestIsUnique(After(EmptyDb, cs), After(EmptyDb, ds), d);
  }

  // ----- in the pipeline -----------------------------------------------------

  /** What a step of the pipeline does to the tables. */
  lemma ChangeOf(w: P.World, op: P.Op) returns (c: Option<Change>)
    requires P.Enabled(w, op)
    ensures P.Apply(w, op).db == match c { case Some(change) => Step(w.db, change) case None => w.db }
  {
    C.DbOrigin(w, op);
    c := None;
    if P.Apply(w, op).db != w.db {
      match op {
        case WriteInbox(n, payloadOk, _) => c := Some(Restore(w.deliveries[n].pc.rec, payloadOk));
        case Store(payloadOk, _) => c := Some(Restore(w.worker.rec, payloadOk));
        case Mark(_) => c := Some(MarkWritten(w.worker.rec.key));
        case CompensateMark(i, _) => c := Some(MarkWritten(w.accepted[i].key));
        case RegisterDevice(of) => c := Some(Register(of));
        case _ =>
      }
    }
  }

  lemma NextChange(w: P.World, v: P.World) returns (c: Option<Change>)
    requires C.Next(w, v)
    ensures v.db == match c { case Some(change) => Step(w.db, change) case None => w.db }
  {
    var op :| P.Enabled(w, op) && v == P.Apply(w, op);
    c := ChangeOf(w, op);
  }

  lemma NextKeepsSeen(w: P.World, v: P.World, d: Device)
    requires C.Next(w, v) && RowsOk(w.db) && SeenIsLatest(w.db, d)
    ensures SeenIsLatest(v.db, d)
  {
    var c := NextChange(w, v);
    if c.Some? { StepKeepsSeen(w.db, c.value, d); }
  }

  lemma NextAt(ws: seq<P.World>, i: nat)
    requires P.Run(ws) && i + 1 < |ws|
    ensures C.Next(ws[i], ws[i + 1])
  {
    assert P.StepAt(ws, i);
  }

  /** In every state of every run of the pipeline, whatever fails and whatever is delivered, replayed or produced in
      whichever order, a device was last seen at the latest receive time among its stored records. */
  lemma {:induction false} SeenIsLatestInRuns(ws: seq<P.World>, i: nat, d: Device)
    requires P.Run(ws) && i < |ws|
    ensures SeenIsLatest(ws[i].db, d)
  {
    if i > 0 {
      SeenIsLatestInRuns(ws, i - 1, d);
      RowsInRuns(ws, i - 1);
      NextAt(ws, i - 1);
      NextKeepsSeen(ws[i - 1], ws[i], d);
    }
  }

  lemma RowsInRuns(ws: seq<P.World>, i: nat)
    requires P.Run(ws) && i < |ws|
    ensures RowsOk(ws[i].db)
  {
    C.InvAlways(ws, i);
  }

  /** Two runs that stored the same records agree on when each device was last seen. */
  lemma RunsAgree(vs: seq<P.World>, i: nat, ws: seq<P.World>, j: nat, d: Device)
    requires P.Run(vs) && i < |vs| && P.Run(ws) && j < |ws| && SameRecords(vs[i].db, ws[j].db)
    ensures LastSeen(vs[i].db, d) == LastSeen(ws[j].db, d)
  {
    SeenIsLatestInRuns(vs, i, d);
    SeenIsLatestInRuns(ws, j, d);
    RowsInRuns(vs, i);
    RowsInRuns(ws, j);
    LatestIsUnique(vs[i].db, ws[j].db, d);
  }
}
