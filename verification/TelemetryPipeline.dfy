/** Telemetry from an MQTT delivery to its completion mark: the bridge, the
    PostgreSQL inbox, Kafka, the dead-letter topic, the worker, TDengine and the
    compensation scan, interleaved one external call at a time.

    Every external call may succeed, fail without effect, or take effect and
    still report failure.  Kafka and the dead-letter topic only grow, one
    partition has one consumer, and a consumer or bridge that stops is restarted. */
module TelemetryPipeline {
  import opened Wrappers
  import opened TelemetryStore

  datatype Fault = Fine | NotApplied | AppliedUnreported

  predicate Applied(f: Fault) {
    !f.NotApplied?
  }

  /** An MQTT delivery: `rec` is its record when the envelope is valid and matches the topic. */
  datatype Message = Message(body: string, rec: Option<Record>)

  /** A Kafka telemetry event: `rec` is None when its value does not decode; `stamp` is the broker's time. */
  datatype Event = Event(value: string, rec: Option<Record>, stamp: Time)

  datatype Letter = OfMessage(message: Message) | OfEvent(event: Event)

  datatype BridgePc =
    | Waiting                                 // admitted, no publish slot yet
    | Working
    | Recording(rec: Record)
    | Publishing(rec: Record, durable: bool)
    | Parking(durable: bool)
    | Done

  datatype Delivery = Delivery(message: Message, pc: BridgePc, slot: bool, acks: nat, failed: bool)

  datatype WorkerPc =
    | Idle
    | Fetched
    | Storing(rec: Record)
    | NeedWrite(rec: Record)
    | NeedMark(rec: Record)
    | NeedLetter
    | NeedCommit

  datatype Settings = Settings(inbox: bool, tdengine: bool, concurrency: nat, allowlist: set<string>)

  datatype World = World(
    cfg: Settings,
    db: Db,
    kafka: seq<Event>,
    committed: nat,
    letters: set<Letter>,
    tdengine: set<Record>,
    deliveries: map<nat, Delivery>,
    pending: nat,
    slots: nat,
    stopping: bool,
    worker: WorkerPc,
    accepted: map<nat, Record>)   // compensators between the sink write and the mark

  predicate Allowed(s: Settings, r: Record) {
    s.allowlist == {} || r.key.of.tenant in s.allowlist
  }

  datatype Op =
    // the bridge
    | Admit(n: nat, message: Message)
    | TakeSlot(n: nat)
    | SlotTimeout(n: nat)
    | Inspect(n: nat)
    | WriteInbox(n: nat, payloadOk: bool, fault: Fault)
    | Publish(n: nat, stamp: Time, fault: Fault)
    | Park(n: nat, fault: Fault)
    | StopAdmission
    // the worker
    | Fetch
    | Examine
    | Store(payloadOk: bool, fault: Fault)
    | Sink(fault: Fault)
    | Mark(fault: Fault)
    | DeadLetter(fault: Fault)
    | CommitOffset(fault: Fault)
    | Crash
    // compensation, replay and other producers, device registration
    | CompensateWrite(c: nat, key: Key, fault: Fault)
    | CompensateMark(c: nat, fault: Fault)
    | Produce(event: Event)
    | RegisterDevice(device: Device)

  predicate Enabled(w: World, op: Op) {
    match op
    case Admit(n, _) => !w.stopping && n !in w.deliveries
    case TakeSlot(n) => n in w.deliveries && w.deliveries[n].pc.Waiting? && w.slots < w.cfg.concurrency
    case SlotTimeout(n) => n in w.deliveries && w.deliveries[n].pc.Waiting?
    case Inspect(n) => n in w.deliveries && w.deliveries[n].pc.Working?
    case WriteInbox(n, _, _) => n in w.deliveries && w.deliveries[n].pc.Recording?
    case Publish(n, _, _) => n in w.deliveries && w.deliveries[n].pc.Publishing?
    case Park(n, _) => n in w.deliveries && w.deliveries[n].pc.Parking?
    case StopAdmission => true
    case Fetch => w.worker.Idle? && w.committed < |w.kafka|
    case Examine => w.worker.Fetched?
    case Store(_, _) => w.worker.Storing?
    case Sink(_) => w.worker.NeedWrite?
    case Mark(_) => w.worker.NeedMark?
    case DeadLetter(_) => w.worker.NeedLetter?
    case CommitOffset(_) => w.worker.NeedCommit?
    case Crash => true
    case CompensateWrite(c, key, _) => c !in w.accepted && key in w.db.rows && Allowed(w.cfg, w.db.rows[key].rec)
    case CompensateMark(c, _) => c in w.accepted
    case Produce(_) => true
    case RegisterDevice(_) => true
  }

  predicate IsBridge(op: Op) {
    op.Admit? || op.TakeSlot? || op.SlotTimeout? || op.Inspect? || op.WriteInbox? || op.Publish? || op.Park?
        || op.StopAdmission?
  }

  predicate IsWorker(op: Op) {
    op.Fetch? || op.Examine? || op.Store? || op.Sink? || op.Mark? || op.DeadLetter? || op.CommitOffset? || op.Crash?
  }

  // ----- the bridge ----------------------------------------------------------

  function Acked(d: Delivery): Delivery {
    d.(acks := d.acks + 1)
  }

  function Put(w: World, n: nat, d: Delivery): World {
    w.(deliveries := w.deliveries[n := d])
  }

  /** The goroutine ends: the slot, if held, and the pending count are given back. */
  function Finish(w: World, n: nat, d: Delivery): World {
    Put(w, n, d.(pc := Done, slot := false)).(
      pending := if w.pending > 0 then w.pending - 1 else 0,
      slots := if d.slot && w.slots > 0 then w.slots - 1 else w.slots)
  }

  function BridgeStep(w: World, op: Op): World
    requires Enabled(w, op) && IsBridge(op)
  {
    match op
    case Admit(n, m) => Put(w, n, Delivery(m, Waiting, false, 0, false)).(pending := w.pending + 1)
    case TakeSlot(n) => Put(w, n, w.deliveries[n].(pc := Working, slot := true)).(slots := w.slots + 1)
    case SlotTimeout(n) => Put(w, n, w.deliveries[n].(pc := Parking(false)))
    case Inspect(n) =>
      var d := w.deliveries[n];
      Put(w, n, d.(pc := match d.message.rec
                         case None => Parking(false)
                         case Some(r) => if w.cfg.inbox then Recording(r) else Publishing(r, false)))
    case WriteInbox(n, payloadOk, fault) =>
      var d := w.deliveries[n];
      var r := d.pc.rec;
      var reply := RestoreReply(w.db, r, payloadOk);
      var v := if Applied(fault) then w.(db := Restored(w.db, r, payloadOk)) else w;
      if fault.Fine? && reply.Inserted? then Put(v, n, Acked(d).(pc := Publishing(reply.rec, true)))
      else if fault.Fine? && reply.Duplicate? then Put(v, n, Acked(d).(pc := Publishing(reply.row.rec, true)))
      else Put(v, n, d.(pc := Publishing(r, false)))
    case Publish(n, stamp, fault) =>
      var d := w.deliveries[n];
      var v := if Applied(fault) then w.(kafka := w.kafka + [Event(d.message.body, Some(d.pc.rec), stamp)]) else w;
      if fault.Fine? then Finish(v, n, if d.pc.durable then d else Acked(d))
      else Put(v, n, d.(pc := Parking(d.pc.durable)))
    case Park(n, fault) =>
      var d := w.deliveries[n];
      var v := if Applied(fault) then w.(letters := w.letters + {OfMessage(d.message)}) else w;
      Finish(v, n, if d.pc.durable then d else if fault.Fine? then Acked(d) else d.(failed := true))
    case StopAdmission => w.(stopping := true)
  }

  // ----- the worker ----------------------------------------------------------

  /** The record as the worker stores it: a missing receive time is the broker's, never the clock. */
  function Stamped(e: Event): Record
    requires e.rec.Some?
  {
    if e.rec.value.receivedAt.Some? then e.rec.value else e.rec.value.(receivedAt := Some(e.stamp))
  }

  function Current(w: World): Option<Event> {
    if w.committed < |w.kafka| then Some(w.kafka[w.committed]) else None
  }

  function AfterStore(w: World, reply: Reply): WorkerPc {
    match reply
    case Invalid => NeedLetter
    case DeviceNotFound => NeedLetter
    case Duplicate(row) => if row.written then NeedCommit else if w.cfg.tdengine then NeedWrite(row.rec) else NeedCommit
    case Inserted(rec) => if w.cfg.tdengine then NeedWrite(rec) else NeedCommit
  }

  function WorkerStep(w: World, op: Op): World
    requires Enabled(w, op) && IsWorker(op)
  {
    match op
    case Fetch => w.(worker := Fetched)
    case Examine =>
      w.(worker := match Current(w)
                   case None => Idle
                   case Some(e) =>
                     if e.rec.None? then NeedLetter
                     else if !Allowed(w.cfg, e.rec.value) then NeedCommit
                     else Storing(Stamped(e)))
    case Store(payloadOk, fault) =>
      var r := w.worker.rec;
      var v := if Applied(fault) then w.(db := Restored(w.db, r, payloadOk)) else w;
      v.(worker := if fault.Fine? then AfterStore(w, RestoreReply(w.db, r, payloadOk)) else NeedLetter)
    case Sink(fault) =>
      var r := w.worker.rec;
      var v := if Applied(fault) then w.(tdengine := w.tdengine + {r}) else w;
      v.(worker := if fault.Fine? then NeedMark(r) else NeedLetter)
    case Mark(fault) =>
      var v := if Applied(fault) then w.(db := Written(w.db, w.worker.rec.key)) else w;
      v.(worker := NeedCommit)
    case DeadLetter(fault) =>
      var v := match Current(w) {
        case Some(e) => if Applied(fault) then w.(letters := w.letters + {OfEvent(e)}) else w
        case None => w
      };
      v.(worker := if fault.Fine? && Current(w).Some? then NeedCommit else Idle)
    case CommitOffset(fault) =>
      var next := if Applied(fault) && w.committed < |w.kafka| then w.committed + 1 else w.committed;
      w.(committed := next, worker := Idle)
    case Crash => w.(worker := Idle)
  }

  // ----- everything else -----------------------------------------------------

  function OtherStep(w: World, op: Op): World
    requires Enabled(w, op) && !IsBridge(op) && !IsWorker(op)
  {
    match op
    case CompensateWrite(c, key, fault) =>
      var r := w.db.rows[key].rec;
      var v := if Applied(fault) then w.(tdengine := w.tdengine + {r}) else w;
      if fault.Fine? then v.(accepted := v.accepted[c := r]) else v
    case CompensateMark(c, fault) =>
      var v := if Applied(fault) then w.(db := Written(w.db, w.accepted[c].key)) else w;
      v.(accepted := w.accepted - {c})
    case Produce(e) => w.(kafka := w.kafka + [e])
    case RegisterDevice(d) => w.(db := Registered(w.db, d))
  }

  function Apply(w: World, op: Op): World
    requires Enabled(w, op)
  {
    if IsBridge(op) then BridgeStep(w, op) else if IsWorker(op) then WorkerStep(w, op) else OtherStep(w, op)
  }

  ghost predicate StepAt(ws: seq<World>, i: nat)
    requires i + 1 < |ws|
  {
    exists op :: Enabled(ws[i], op) && ws[i + 1] == Apply(ws[i], op)
  }

  /** Start from empty stores; any interleaving of steps. */
  ghost predicate Run(ws: seq<World>) {
    && |ws| > 0
    && ws[0] == World(ws[0].cfg, EmptyDb, [], 0, {}, {}, map[], 0, 0, false, Idle, map[])
    && forall i: nat {:trigger StepAt(ws, i)} :: i + 1 < |ws| ==> StepAt(ws, i)
  }
}
