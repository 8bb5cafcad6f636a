/** Acknowledged telemetry is never lost.

    Every admitted delivery ends acknowledged exactly once or with the bridge
    failed; and from its acknowledgement on, in every later state of every run, a
    copy survives: a dead letter, a PostgreSQL row still pending or accepted by
    TDengine, or a Kafka event not yet committed or filtered by the allowlist. */
module TelemetryConservation {
  import opened Wrappers
  import opened TelemetryStore
  import opened TelemetryPipeline

  // ----- what is kept --------------------------------------------------------

  ghost predicate HasKey(e: Event, key: Key) {
    e.rec.Some? && e.rec.value.key == key
  }

  ghost predicate Logged(kafka: seq<Event>, key: Key) {
    exists e :: e in kafka && HasKey(e, key)
  }

  /** What an acknowledgement rests on. */
  ghost predicate Kept(w: World, m: Message) {
    OfMessage(m) in w.letters || (m.rec.Some? && (m.rec.value.key in w.db.rows || Logged(w.kafka, m.rec.value.key)))
  }

  /** What must hold of a Kafka event before its offset may be committed. */
  predicate Covered(w: World, e: Event) {
    || OfEvent(e) in w.letters
    || (e.rec.Some? && (!Allowed(w.cfg, e.rec.value) || e.rec.value.key in w.db.rows))
  }

  // ----- nothing shrinks -----------------------------------------------------

  ghost predicate RowsGrow(a: Db, b: Db) {
    forall k <- a.rows :: k in b.rows && b.rows[k].rec == a.rows[k].rec
  }

  ghost predicate Grows(w: World, v: World) {
    && v.cfg == w.cfg
    && RowsGrow(w.db, v.db)
    && w.kafka <= v.kafka && w.committed <= v.committed
    && w.letters <= v.letters && w.tdengine <= v.tdengine
  }

  lemma RestoredGrows(db: Db, rec: Record, payloadOk: bool)
    ensures RowsGrow(db, Restored(db, rec, payloadOk))
  {
  }

  lemma WrittenGrows(db: Db, key: Key)
    ensures RowsGrow(db, Written(db, key))
  {
  }

  lemma BridgeGrows(w: World, op: Op)
    requires Enabled(w, op) && IsBridge(op)
    ensures Grows(w, BridgeStep(w, op))
  {
    if op.WriteInbox? {
      InboxGrows(w, op);
    } else if op.Publish? {
      PublishGrows(w, op);
    } else if op.Park? {
      ParkGrows(w, op);
    }
  }

  lemma InboxGrows(w: World, op: Op)
    requires Enabled(w, op) && op.WriteInbox?
    ensures Grows(w, BridgeStep(w, op))
  {
    RestoredGrows(w.db, w.deliveries[op.n].pc.rec, op.payloadOk);
  }

  lemma PublishGrows(w: World, op: Op)
    requires Enabled(w, op) && op.Publish?
    ensures Grows(w, BridgeStep(w, op))
  {
  }

  lemma ParkGrows(w: World, op: Op)
    requires Enabled(w, op) && op.Park?
    ensures Grows(w, BridgeStep(w, op))
  {
  }

  lemma WorkerGrows(w: World, op: Op)
    requires Enabled(w, op) && IsWorker(op)
    ensures Grows(w, WorkerStep(w, op))
  {
    if op.Store? { RestoredGrows(w.db, w.worker.rec, op.payloadOk); }
    if op.Mark? { WrittenGrows(w.db, w.worker.rec.key); }
  }

  lemma OthersGrow(w: World, op: Op)
    requires Enabled(w, op) && !IsBridge(op) && !IsWorker(op)
    ensures Grows(w, OtherStep(w, op))
  {
    if op.CompensateMark? { WrittenGrows(w.db, w.accepted[op.c].key); }
  }

  lemma KeptStays(w: World, v: World, m: Message)
    requires Grows(w, v) && Kept(w, m)
    ensures Kept(v, m)
  {
    if m.rec.Some? && Logged(w.kafka, m.rec.value.key) {
      var e :| e in w.kafka && HasKey(e, m.rec.value.key);
      assert e in v.kafka;
    }
  }

  // ----- one delivery --------------------------------------------------------

  ghost predicate DeliveryInv(w: World, d: Delivery) {
    && d.acks <= 1
    && (d.acks == 1 ==> Kept(w, d.message))
    && match d.pc {
         case Waiting => d.acks == 0 && !d.failed
         case Working => d.acks == 0 && !d.failed
         case Recording(r) => d.acks == 0 && !d.failed && d.message.rec == Some(r)
         case Publishing(r, durable) => !d.failed && d.message.rec.Some? && d.message.rec.value.key == r.key
             && (durable <==> d.acks == 1)
         case Parking(durable) => !d.failed && (durable <==> d.acks == 1)
         case Done => !d.slot && (d.failed <==> d.acks == 0)
       }
  }

  lemma DeliveryStays(w: World, v: World, d: Delivery)
    requires Grows(w, v) && DeliveryInv(w, d)
    ensures DeliveryInv(v, d)
  {
    if d.acks == 1 { KeptStays(w, v, d.message); }
  }

  lemma PublishedIsLogged(w: World, key: Key, e: Event)
    requires HasKey(e, key)
    ensures Logged(w.kafka + [e], key)
  {
    assert e in w.kafka + [e];
  }

  /** A bridge step keeps the invariant of the delivery it works on. */
  lemma WorkedDelivery(w: World, op: Op)
    requires RowsOk(w.db) && Enabled(w, op) && IsBridge(op) && !op.Admit? && !op.StopAdmission?
    requires DeliveryInv(w, w.deliveries[op.n])
    ensures var v := BridgeStep(w, op); op.n in v.deliveries && DeliveryInv(v, v.deliveries[op.n])
  {
    if op.WriteInbox? {
      RecordedDelivery(w, op);
    } else if op.Publish? {
      PublishedDelivery(w, op);
    } else if op.Park? {
      ParkedDelivery(w, op);
    }
  }

  /** A record that is stored, now or before, is answered with its key. */
  lemma RestoredAnswer(db: Db, rec: Record, payloadOk: bool)
    requires RowsOk(db)
    ensures var reply := RestoreReply(db, rec, payloadOk);
            && (reply.Inserted? ==> reply.rec == rec && rec.key in Restored(db, rec, payloadOk).rows)
            && (reply.Duplicate? ==> reply.row.rec.key == rec.key && rec.key in Restored(db, rec, payloadOk).rows)
  {
  }

  lemma AcknowledgedDelivery(w: World, d: Delivery, rec: Record)
    requires d.message.rec.Some? && d.message.rec.value.key == rec.key && rec.key in w.db.rows
    requires d.pc == Publishing(rec, true) && d.acks == 1 && !d.failed
    ensures DeliveryInv(w, d)
  {
  }

  lemma RecordedDelivery(w: World, op: Op)
    requires RowsOk(w.db) && Enabled(w, op) && op.WriteInbox? && DeliveryInv(w, w.deliveries[op.n])
    ensures var v := BridgeStep(w, op); op.n in v.deliveries && DeliveryInv(v, v.deliveries[op.n])
  {
    var d, v := w.deliveries[op.n], BridgeStep(w, op);
    RestoredAnswer(w.db, d.pc.rec, op.payloadOk);
    if v.deliveries[op.n].acks == 1 {
      AcknowledgedDelivery(v, v.deliveries[op.n], v.deliveries[op.n].pc.rec);
    }
  }

  lemma PublishedDelivery(w: World, op: Op)
    requires Enabled(w, op) && op.Publish? && DeliveryInv(w, w.deliveries[op.n])
    ensures var v := BridgeStep(w, op); op.n in v.deliveries && DeliveryInv(v, v.deliveries[op.n])
  {
    var d, v := w.deliveries[op.n], BridgeStep(w, op);
    PublishGrows(w, op);
    DeliveryStays(w, v, d);
    PublishedIsLogged(w, d.pc.rec.key, Event(d.message.body, Some(d.pc.rec), op.stamp));
  }

  lemma ParkedDelivery(w: World, op: Op)
    requires Enabled(w, op) && op.Park? && DeliveryInv(w, w.deliveries[op.n])
    ensures var v := BridgeStep(w, op); op.n in v.deliveries && DeliveryInv(v, v.deliveries[op.n])
  {
    ParkGrows(w, op);
    DeliveryStays(w, BridgeStep(w, op), w.deliveries[op.n]);
  }

  // ----- the worker ----------------------------------------------------------

  ghost predicate WorkerInv(w: World) {
    && w.committed <= |w.kafka|
    && (!w.worker.Idle? ==> w.committed < |w.kafka|)
    && match w.worker {
         case Storing(r) => w.kafka[w.committed].rec.Some? && r.key == w.kafka[w.committed].rec.value.key
         case NeedWrite(r) => HasKey(w.kafka[w.committed], r.key) && r.key in w.db.rows && w.db.rows[r.key].rec == r
         case NeedMark(r) => HasKey(w.kafka[w.committed], r.key) && r.key in w.db.rows && w.db.rows[r.key].rec == r
             && r in w.tdengine
         case NeedCommit => Covered(w, w.kafka[w.committed])
         case _ => true
       }
  }

  lemma WorkerStays(w: World, v: World)
    requires Grows(w, v) && WorkerInv(w) && v.worker == w.worker && v.committed == w.committed
    ensures WorkerInv(v)
  {
  }

  lemma StoredWorks(w: World, op: Op)
    requires RowsOk(w.db) && WorkerInv(w) && Enabled(w, op) && op.Store? && op.fault.Fine?
    ensures WorkerInv(WorkerStep(w, op))
  {
  }

  lemma StoringWorks(w: World, op: Op)
    requires RowsOk(w.db) && WorkerInv(w) && Enabled(w, op) && op.Store?
    ensures WorkerInv(WorkerStep(w, op))
  {
    if op.fault.Fine? { StoredWorks(w, op); }
  }

  lemma WorkerWorks(w: World, op: Op)
    requires RowsOk(w.db) && WorkerInv(w) && Enabled(w, op) && IsWorker(op)
    ensures WorkerInv(WorkerStep(w, op))
  {
    if op.Store? { StoringWorks(w, op); }
  }

  // ----- storage -------------------------------------------------------------

  /** The written mark never lies, also for marks still under way. */
  ghost predicate MarksHonest(w: World) {
    && (forall k <- w.db.rows :: w.db.rows[k].written ==> w.db.rows[k].rec in w.tdengine)
    && (forall c <- w.accepted ::
          && w.accepted[c] in w.tdengine
          && w.accepted[c].key in w.db.rows && w.db.rows[w.accepted[c].key].rec == w.accepted[c])
  }

  ghost predicate OffsetsCovered(w: World) {
    w.committed <= |w.kafka| && forall o :: 0 <= o < w.committed ==> Covered(w, w.kafka[o])
  }

  lemma OffsetsStay(w: World, v: World)
    requires Grows(w, v) && OffsetsCovered(w) && v.committed == w.committed
    ensures OffsetsCovered(v)
  {
    forall o | 0 <= o < v.committed ensures Covered(v, v.kafka[o]) {
      assert Covered(w, w.kafka[o]);
    }
  }

  /** An offset is committed only once its event is covered. */
  lemma OffsetsAdvance(w: World, op: Op)
    requires OffsetsCovered(w) && WorkerInv(w) && Enabled(w, op) && IsWorker(op)
    ensures OffsetsCovered(WorkerStep(w, op))
  {
    WorkerGrows(w, op);
    var v := WorkerStep(w, op);
    forall o | 0 <= o < v.committed ensures Covered(v, v.kafka[o]) {
      assert Covered(w, w.kafka[o]);
    }
  }

  lemma MarksStay(w: World, op: Op)
    requires MarksHonest(w) && WorkerInv(w) && RowsOk(w.db) && Enabled(w, op)
    ensures MarksHonest(Apply(w, op))
  {
    StepGrows(w, op);
    var v := Apply(w, op);
    forall k | k in v.db.rows && v.db.rows[k].written ensures v.db.rows[k].rec in v.tdengine {
      MarkOrigin(w, op, k);
    }
    forall c | c in v.accepted ensures v.accepted[c] in v.tdengine && v.accepted[c].key in v.db.rows
        && v.db.rows[v.accepted[c].key].rec == v.accepted[c] {
      AcceptedOrigin(w, op, c);
    }
  }

  /** A row marked written after a step was marked before it, or its record is held as accepted. */
  lemma MarkOrigin(w: World, op: Op, k: Key)
    requires Enabled(w, op) && k in Apply(w, op).db.rows && Apply(w, op).db.rows[k].written
    ensures k in w.db.rows
    ensures || w.db.rows[k].written
            || (op.Mark? && w.worker.rec.key == k)
            || (op.CompensateMark? && w.accepted[op.c].key == k)
  {
    DbOrigin(w, op);
  }

  lemma BridgeAccepts(w: World, op: Op)
    requires Enabled(w, op) && IsBridge(op)
    ensures BridgeStep(w, op).accepted == w.accepted
  {
  }

  lemma WorkerAccepts(w: World, op: Op)
    requires Enabled(w, op) && IsWorker(op)
    ensures WorkerStep(w, op).accepted == w.accepted
  {
  }

  lemma AcceptedUntouched(w: World, op: Op)
    requires Enabled(w, op) && (IsBridge(op) || IsWorker(op))
    ensures Apply(w, op).accepted == w.accepted
  {
    if IsBridge(op) { BridgeAccepts(w, op); } else { WorkerAccepts(w, op); }
  }

  lemma AcceptedOrigin(w: World, op: Op, c: nat)
    requires Enabled(w, op) && RowsOk(w.db) && c in Apply(w, op).accepted
    ensures (c in w.accepted && Apply(w, op).accepted[c] == w.accepted[c]) ||
            (&& op.CompensateWrite? && Apply(w, op).accepted[c] == w.db.rows[op.key].rec && Apply(w, op).db == w.db
             && w.db.rows[op.key].rec in Apply(w, op).tdengine && w.db.rows[op.key].rec.key == op.key)
  {
    if IsBridge(op) || IsWorker(op) { AcceptedUntouched(w, op); }
  }

  lemma StepGrows(w: World, op: Op)
    requires Enabled(w, op)
    ensures Grows(w, Apply(w, op))
  {
    if IsBridge(op) {
      BridgeGrows(w, op);
    } else if IsWorker(op) {
      WorkerGrows(w, op);
    } else {
      OthersGrow(w, op);
    }
  }

  // ----- admission and slots -------------------------------------------------

  function InProgress(ds: map<nat, Delivery>): set<nat> {
    set n | n in ds && !ds[n].pc.Done?
  }

  function Holding(ds: map<nat, Delivery>): set<nat> {
    set n | n in ds && ds[n].slot
  }

  /** The wait group and the slot channel count exactly the deliveries under way. */
  ghost predicate Counted(w: World) {
    && w.pending == |InProgress(w.deliveries)|
    && w.slots == |Holding(w.deliveries)| <= w.cfg.concurrency
    && (forall n <- w.deliveries :: w.deliveries[n].pc.Waiting? ==> !w.deliveries[n].slot)
  }

  lemma InProgressUpdate(ds: map<nat, Delivery>, n: nat, d: Delivery)
    ensures |InProgress(ds[n := d])| == |InProgress(ds) - {n}| + if d.pc.Done? then 0 else 1
    ensures |InProgress(ds)| == |InProgress(ds) - {n}| + if n in ds && !ds[n].pc.Done? then 1 else 0
  {
    var rest := InProgress(ds) - {n};
    assert InProgress(ds[n := d]) == if d.pc.Done? then rest else rest + {n};
    assert InProgress(ds) == if n in ds && !ds[n].pc.Done? then rest + {n} else rest;
  }

  lemma HoldingUpdate(ds: map<nat, Delivery>, n: nat, d: Delivery)
    ensures |Holding(ds[n := d])| == |Holding(ds) - {n}| + if d.slot then 1 else 0
    ensures |Holding(ds)| == |Holding(ds) - {n}| + if n in ds && ds[n].slot then 1 else 0
  {
    var rest := Holding(ds) - {n};
    assert Holding(ds[n := d]) == if d.slot then rest + {n} else rest;
    assert Holding(ds) == if n in ds && ds[n].slot then rest + {n} else rest;
  }

  /** How a bridge step moves one delivery and the two counters. */
  ghost predicate BridgeMove(w: World, op: Op, v: World)
    requires IsBridge(op) && !op.StopAdmission?
  {
    && v.cfg == w.cfg && op.n in v.deliveries
    && v.deliveries == w.deliveries[op.n := v.deliveries[op.n]]
    && var d := v.deliveries[op.n];
       if op.Admit?
       then op.n !in w.deliveries && d.pc.Waiting? && !d.slot && v.pending == w.pending + 1 && v.slots == w.slots
       else
         && op.n in w.deliveries && !w.deliveries[op.n].pc.Done? && !d.pc.Waiting?
         && (op.TakeSlot? ==>
              w.deliveries[op.n].pc.Waiting? && d.slot && !d.pc.Done? && v.pending == w.pending
                  && v.slots == w.slots + 1 && w.slots < w.cfg.concurrency)
         && (!op.TakeSlot? && !d.pc.Done? ==>
              d.slot == w.deliveries[op.n].slot && v.pending == w.pending && v.slots == w.slots)
         && (d.pc.Done? ==> !d.slot && v.pending == (if w.pending > 0 then w.pending - 1 else 0)
                            && v.slots == (if w.deliveries[op.n].slot && w.slots > 0 then w.slots - 1 else w.slots))
  }

  lemma EntryCounters(w: World, op: Op)
    requires Enabled(w, op) && (op.Admit? || op.TakeSlot? || op.SlotTimeout? || op.Inspect?)
    ensures BridgeMove(w, op, BridgeStep(w, op))
  {
  }

  lemma InboxCounters(w: World, op: Op)
    requires Enabled(w, op) && op.WriteInbox?
    ensures BridgeMove(w, op, BridgeStep(w, op))
  {
  }

  lemma ExitCounters(w: World, op: Op)
    requires Enabled(w, op) && (op.Publish? || op.Park?)
    ensures BridgeMove(w, op, BridgeStep(w, op))
  {
  }

  lemma BridgeCounters(w: World, op: Op)
    requires Enabled(w, op) && IsBridge(op) && !op.StopAdmission?
    ensures BridgeMove(w, op, BridgeStep(w, op))
  {
    if op.WriteInbox? {
      InboxCounters(w, op);
    } else if op.Publish? || op.Park? {
      ExitCounters(w, op);
    } else {
      EntryCounters(w, op);
    }
  }

  lemma CountedBridge(w: World, op: Op)
    requires Counted(w) && Enabled(w, op) && IsBridge(op) && !op.StopAdmission?
    ensures Counted(BridgeStep(w, op))
  {
    BridgeCounters(w, op);
    var d := BridgeStep(w, op).deliveries[op.n];
    InProgressUpdate(w.deliveries, op.n, d);
    HoldingUpdate(w.deliveries, op.n, d);
  }

  lemma BridgeUntouched(w: World, op: Op)
    requires Enabled(w, op) && (!IsBridge(op) || op.StopAdmission?)
    ensures var v := Apply(w, op);
            && v.deliveries == w.deliveries && v.pending == w.pending && v.slots == w.slots && v.cfg == w.cfg
            && v.stopping == (w.stopping || op.StopAdmission?)
  {
  }

  lemma CountedStays(w: World, op: Op)
    requires Counted(w) && Enabled(w, op)
    ensures Counted(Apply(w, op))
  {
    if IsBridge(op) && !op.StopAdmission? {
      CountedBridge(w, op);
    } else {
      BridgeUntouched(w, op);
    }
  }

  // ----- the invariant -------------------------------------------------------

  ghost predicate Inv(w: World) {
    && RowsOk(w.db) && WorkerInv(w) && MarksHonest(w) && OffsetsCovered(w) && Counted(w)
    && forall n <- w.deliveries :: DeliveryInv(w, w.deliveries[n])
  }

  /** The ways a step can change the tables. */
  lemma DbOrigin(w: World, op: Op)
    requires Enabled(w, op)
    ensures var db := Apply(w, op).db;
            || db == w.db
            || (op.WriteInbox? && db == Restored(w.db, w.deliveries[op.n].pc.rec, op.payloadOk))
            || (op.Store? && db == Restored(w.db, w.worker.rec, op.payloadOk))
            || (op.Mark? && db == Written(w.db, w.worker.rec.key))
            || (op.CompensateMark? && db == Written(w.db, w.accepted[op.c].key))
            || (op.RegisterDevice? && db == Registered(w.db, op.device))
  {
  }

  lemma DbStays(w: World, op: Op)
    requires RowsOk(w.db) && Enabled(w, op)
    ensures RowsOk(Apply(w, op).db)
  {
    DbOrigin(w, op);
    match op {
      case WriteInbox(n, payloadOk, _) => RestoredRowsOk(w.db, w.deliveries[n].pc.rec, payloadOk);
      case Store(payloadOk, _) => RestoredRowsOk(w.db, w.worker.rec, payloadOk);
      case Mark(_) => WrittenRowsOk(w.db, w.worker.rec.key);
      case CompensateMark(c, _) => WrittenRowsOk(w.db, w.accepted[c].key);
      case _ =>
    }
  }

  lemma WorkerAndOffsetsStay(w: World, op: Op)
    requires RowsOk(w.db) && WorkerInv(w) && OffsetsCovered(w) && Enabled(w, op)
    ensures WorkerInv(Apply(w, op)) && OffsetsCovered(Apply(w, op))
  {
    StepGrows(w, op);
    if IsWorker(op) {
      WorkerWorks(w, op);
      OffsetsAdvance(w, op);
    } else {
      WorkerStays(w, Apply(w, op));
      OffsetsStay(w, Apply(w, op));
    }
  }

  lemma CallWorksOnOne(w: World, op: Op, n: nat)
    requires Enabled(w, op) && (op.WriteInbox? || op.Publish? || op.Park?) && n != op.n
    requires n in BridgeStep(w, op).deliveries
    ensures n in w.deliveries && BridgeStep(w, op).deliveries[n] == w.deliveries[n]
  {
  }

  lemma BridgeWorksOnOne(w: World, op: Op, n: nat)
    requires Enabled(w, op) && IsBridge(op) && !WorksOn(op, n) && n in BridgeStep(w, op).deliveries
    ensures n in w.deliveries && BridgeStep(w, op).deliveries[n] == w.deliveries[n]
  {
    if op.WriteInbox? || op.Publish? || op.Park? { CallWorksOnOne(w, op, n); }
  }

  /** A step works on at most one delivery. */
  lemma OtherDeliveries(w: World, op: Op, n: nat)
    requires Enabled(w, op) && n in Apply(w, op).deliveries && !WorksOn(op, n)
    ensures n in w.deliveries && Apply(w, op).deliveries[n] == w.deliveries[n]
  {
    if IsBridge(op) { BridgeWorksOnOne(w, op, n); } else { BridgeUntouched(w, op); }
  }

  predicate WorksOn(op: Op, n: nat) {
    IsBridge(op) && !op.StopAdmission? && op.n == n
  }

  lemma DeliveriesStay(w: World, op: Op, n: nat)
    requires RowsOk(w.db) && Enabled(w, op) && n in Apply(w, op).deliveries
    requires n in w.deliveries ==> DeliveryInv(w, w.deliveries[n])
    ensures DeliveryInv(Apply(w, op), Apply(w, op).deliveries[n])
  {
    if WorksOn(op, n) {
      if !op.Admit? { WorkedDelivery(w, op); }
    } else {
      OtherDeliveries(w, op, n);
      StepGrows(w, op);
      DeliveryStays(w, Apply(w, op), w.deliveries[n]);
    }
  }

  lemma InvStays(w: World, op: Op)
    requires Inv(w) && Enabled(w, op)
    ensures Inv(Apply(w, op))
  {
    DbStays(w, op);
    WorkerAndOffsetsStay(w, op);
    MarksStay(w, op);
    CountedStays(w, op);
    forall n | n in Apply(w, op).deliveries ensures DeliveryInv(Apply(w, op), Apply(w, op).deliveries[n]) {
      DeliveriesStay(w, op, n);
    }
  }

  ghost predicate Next(w: World, v: World) {
    exists op :: Enabled(w, op) && v == Apply(w, op)
  }

  lemma InvNext(w: World, v: World)
    requires Inv(w) && Next(w, v)
    ensures Inv(v)
  {
    var op :| Enabled(w, op) && v == Apply(w, op);
    InvStays(w, op);
  }

  lemma InvFirst(cfg: Settings)
    ensures Inv(World(cfg, EmptyDb, [], 0, {}, {}, map[], 0, 0, false, Idle, map[]))
  {
    assert InProgress(map[]) == {} && Holding(map[]) == {};
  }

  lemma {:induction false} InvAlways(ws: seq<World>, i: nat)
    requires Run(ws) && i < |ws|
    ensures Inv(ws[i])
  {
    if i == 0 {
      InvFirst(ws[0].cfg);
    } else {
      InvAlways(ws, i - 1);
      assert Next(ws[i - 1], ws[i]) by { assert StepAt(ws, i - 1); }
      InvNext(ws[i - 1], ws[i]);
    }
  }

  // ----- the theorems --------------------------------------------------------

  /** A delivery is acknowledged at most once, and when its handling ends it was
      acknowledged once or it failed the bridge, never both and never neither. */
  lemma OneOutcome(ws: seq<World>, i: nat, n: nat)
    requires Run(ws) && i < |ws| && n in ws[i].deliveries
    ensures ws[i].deliveries[n].acks <= 1
    ensures ws[i].deliveries[n].pc.Done? ==> (ws[i].deliveries[n].acks == 1) != ws[i].deliveries[n].failed
  {
    InvAlways(ws, i);
    assert DeliveryInv(ws[i], ws[i].deliveries[n]);
  }

  /** Where an acknowledged message is found. */
  ghost predicate Survives(w: World, m: Message) {
    || OfMessage(m) in w.letters
    || (m.rec.Some? && m.rec.value.key in w.db.rows &&
        (!w.db.rows[m.rec.value.key].written || w.db.rows[m.rec.value.key].rec in w.tdengine))
    || (m.rec.Some? && exists o :: 0 <= o < |w.kafka| && Carries(w, o, m.rec.value.key))
  }

  /** The event at offset o has the key and is uncommitted, filtered, or dead-lettered. */
  ghost predicate Carries(w: World, o: nat, key: Key)
    requires o < |w.kafka|
  {
    HasKey(w.kafka[o], key)
        && (w.committed <= o || !Allowed(w.cfg, w.kafka[o].rec.value) || OfEvent(w.kafka[o]) in w.letters)
  }

  lemma NextGrows(w: World, v: World)
    requires Next(w, v)
    ensures Grows(w, v)
  {
    var op :| Enabled(w, op) && v == Apply(w, op);
    StepGrows(w, op);
  }

  lemma GrowsTransitive(u: World, v: World, w: World)
    requires Grows(u, v) && Grows(v, w)
    ensures Grows(u, w)
  {
  }

  lemma {:induction false} RunGrows(ws: seq<World>, i: nat, j: nat)
    requires Run(ws) && i <= j < |ws|
    ensures Grows(ws[i], ws[j])
  {
    if i < j {
      RunGrows(ws, i, j - 1);
      assert Next(ws[j - 1], ws[j]) by { assert StepAt(ws, j - 1); }
      NextGrows(ws[j - 1], ws[j]);
      GrowsTransitive(ws[i], ws[j - 1], ws[j]);
    }
  }

  lemma KeptSurvives(w: World, m: Message)
    requires MarksHonest(w) && OffsetsCovered(w) && Kept(w, m)
    ensures Survives(w, m)
  {
    if OfMessage(m) !in w.letters && m.rec.value.key !in w.db.rows {
      var e :| e in w.kafka && HasKey(e, m.rec.value.key);
      var o :| 0 <= o < |w.kafka| && w.kafka[o] == e;
      if o < w.committed { assert Covered(w, w.kafka[o]); }
      assert Carries(w, o, m.rec.value.key);
    }
  }

  /** Conservation: from the state in which a delivery is acknowledged on, its message survives. */
  lemma AcknowledgedTelemetrySurvives(ws: seq<World>, i: nat, j: nat, n: nat)
    requires Run(ws) && i <= j < |ws| && n in ws[i].deliveries && ws[i].deliveries[n].acks > 0
    ensures Survives(ws[j], ws[i].deliveries[n].message)
  {
    InvAlways(ws, i);
    assert DeliveryInv(ws[i], ws[i].deliveries[n]);
    RunGrows(ws, i, j);
    KeptStays(ws[i], ws[j], ws[i].deliveries[n].message);
    InvAlways(ws, j);
    KeptSurvives(ws[j], ws[i].deliveries[n].message);
  }

  /** The completion mark is set only on rows TDengine accepted. */
  lemma WrittenMeansAccepted(ws: seq<World>, i: nat, k: Key)
    requires Run(ws) && i < |ws| && k in ws[i].db.rows && ws[i].db.rows[k].written
    ensures ws[i].db.rows[k].rec in ws[i].tdengine
  {
    InvAlways(ws, i);
  }

  /** A committed offset belongs to an event that was stored, dead-lettered, or outside the allowlist. */
  lemma CommittedMeansCovered(ws: seq<World>, i: nat, o: nat)
    requires Run(ws) && i < |ws| && o < ws[i].committed
    ensures o < |ws[i].kafka| && Covered(ws[i], ws[i].kafka[o])
  {
    InvAlways(ws, i);
  }

  /** Once admission is closed and the wait group is empty, every delivery has its outcome
      and no later step admits another, holds a slot, or acknowledges anything. */
  lemma {:induction false} DrainedStaysDrained(ws: seq<World>, i: nat, j: nat)
    requires Run(ws) && i <= j < |ws| && ws[i].stopping && ws[i].pending == 0
    ensures ws[j].stopping && ws[j].deliveries == ws[i].deliveries && ws[j].slots == 0
    ensures forall n <- ws[j].deliveries :: ws[j].deliveries[n].pc.Done?
  {
    if i < j {
      DrainedStaysDrained(ws, i, j - 1);
      assert Next(ws[j - 1], ws[j]) by { assert StepAt(ws, j - 1); }
      DrainedNext(ws[j - 1], ws[j]);
    } else {
      assert Inv(ws[i]) by { InvAlways(ws, i); }
      DrainedNow(ws[i]);
    }
  }

  lemma DrainedNext(w: World, v: World)
    requires Next(w, v) && w.stopping && forall n <- w.deliveries :: w.deliveries[n].pc.Done?
    ensures v.stopping && v.deliveries == w.deliveries && v.slots == w.slots
  {
    var op :| Enabled(w, op) && v == Apply(w, op);
    DrainedStep(w, op);
  }

  lemma DrainedNow(w: World)
    requires Inv(w) && w.pending == 0
    ensures w.slots == 0 && forall n <- w.deliveries :: w.deliveries[n].pc.Done?
  {
    forall n | n in w.deliveries ensures w.deliveries[n].pc.Done? {
      assert n !in InProgress(w.deliveries);
    }
    forall n | n in w.deliveries ensures !w.deliveries[n].slot {
      assert DeliveryInv(w, w.deliveries[n]);
    }
    assert Holding(w.deliveries) == {};
  }

  lemma DrainedStep(w: World, op: Op)
    requires Enabled(w, op) && w.stopping && forall n <- w.deliveries :: w.deliveries[n].pc.Done?
    ensures Apply(w, op).stopping && Apply(w, op).deliveries == w.deliveries && Apply(w, op).slots == w.slots
  {
    if !IsBridge(op) || op.StopAdmission? {
      BridgeUntouched(w, op);
    } else {
      assert false;
    }
  }
}
