/** The bridge's handling of one MQTT message and the worker's handling of one
    Kafka event, in place on the storage systems.  Both are runs of the
    transition system in TelemetryPipeline, so its theorems apply to them. */
module TelemetryActors {
  import opened Wrappers
  import opened TelemetryStore
  import opened TelemetryPipeline
  import opened TelemetryConservation

  ghost predicate Path(ws: seq<World>, w: World, v: World) {
    && |ws| > 0 && ws[0] == w && ws[|ws| - 1] == v
    && forall i: nat {:trigger StepAt(ws, i)} :: i + 1 < |ws| ==> StepAt(ws, i)
  }

  ghost predicate Reaches(w: World, v: World) {
    exists ws :: Path(ws, w, v)
  }

  lemma ReachesSelf(w: World)
    ensures Reaches(w, w)
  {
    assert Path([w], w, w);
  }

  lemma ReachesStep(w: World, v: World, op: Op)
    requires Reaches(w, v) && Enabled(v, op)
    ensures Reaches(w, Apply(v, op))
  {
    var ws :| Path(ws, w, v);
    var longer := ws + [Apply(v, op)];
    forall i: nat | i + 1 < |longer| ensures StepAt(longer, i) {
      if i + 1 < |ws| {
        assert StepAt(ws, i);
        assert longer[i] == ws[i] && longer[i + 1] == ws[i + 1];
      } else {
        assert Enabled(longer[i], op) && longer[i + 1] == Apply(longer[i], op);
      }
    }
    assert Path(longer, w, Apply(v, op));
  }

  /** The step, where it applies. */
  function Try(w: World, op: Op): World {
    if Enabled(w, op) then Apply(w, op) else w
  }

  /** What one message meets on its way through the bridge. */
  datatype Passage = Passage(payloadOk: bool, inbox: Fault, stamp: Time, publish: Fault, park: Fault)

  /** What one event meets on its way through the worker. */
  datatype Shift = Shift(payloadOk: bool, store: Fault, sink: Fault, mark: Fault, letter: Fault, commit: Fault)

  /** The bridge's steps for a message, in order; those that do not apply are passed over. */
  function Bridged(w: World, n: nat, p: Passage): World {
    Try(Announced(Try(Try(w, Inspect(n)), WriteInbox(n, p.payloadOk, p.inbox)), n, p), Park(n, p.park))
  }

  function Announced(w: World, n: nat, p: Passage): World {
    Try(w, Publish(n, p.stamp, p.publish))
  }

  /** The worker's steps for an event, in order; those that do not apply are passed over. */
  function Consumed(w: World, shift: Shift): World {
    Closed(Persisted(Try(Try(w, Fetch), Examine), shift), shift)
  }

  function Persisted(w: World, shift: Shift): World {
    Try(Try(Try(w, Store(shift.payloadOk, shift.store)), Sink(shift.sink)), Mark(shift.mark))
  }

  function Closed(w: World, shift: Shift): World {
    Try(Try(w, DeadLetter(shift.letter)), CommitOffset(shift.commit))
  }

  lemma NoInboxStep(w: World, n: nat, p: Passage)
    requires n in w.deliveries && !w.deliveries[n].pc.Recording?
    ensures Try(w, WriteInbox(n, p.payloadOk, p.inbox)) == w
  {
  }

  lemma NothingAnnounced(w: World, n: nat, p: Passage)
    requires n in w.deliveries && !w.deliveries[n].pc.Publishing?
    ensures Announced(w, n, p) == w
  {
  }

  lemma NothingToPersist(w: World, shift: Shift)
    requires w.worker.NeedLetter? || w.worker.NeedCommit?
    ensures Persisted(w, shift) == w
  {
  }

  // ----- what becomes of one event, on the stores alone ----------------------

  /** The stores an event or a message may touch. */
  datatype Stores = Stores(db: Db, kafka: seq<Event>, letters: set<Letter>, tdengine: set<Record>)

  /** The record to store: a missing receive time is the broker's time stamp. */
  function Dated(e: Event): Record
    requires e.rec.Some?
  {
    e.rec.value.(receivedAt := Some(if e.rec.value.receivedAt.Some? then e.rec.value.receivedAt.value else e.stamp))
  }

  /** The record the table holds for a key, or would hold once `rec` is inserted. */
  function Held(db: Db, rec: Record): Record {
    if rec.key in db.rows then db.rows[rec.key].rec else rec
  }

  /** All rows but one are as they were, and no device was added or removed. */
  ghost predicate OnlyKey(a: Db, b: Db, key: Key) {
    && b.devices == a.devices && b.rows.Keys == a.rows.Keys + {key}
    && forall k <- a.rows :: k != key ==> b.rows[k] == a.rows[k]
  }

  /** The event goes to the dead-letter topic: its letter is stored unless that call had no effect. */
  ghost predicate Lettered(a: Stores, e: Event, fault: Fault, b: Stores) {
    b.letters == if fault.NotApplied? then a.letters else a.letters + {OfEvent(e)}
  }

  /** An event of an allowed tenant whose row could be read or inserted. */
  ghost predicate StoredEvent(a: Stores, e: Event, sink: bool, s: Shift, b: Stores)
    requires e.rec.Some?
  {
    var rec := Held(a.db, Dated(e));
    var done := rec.key in a.db.rows && a.db.rows[rec.key].written;
    && OnlyKey(a.db, b.db, rec.key) && b.db.rows[rec.key].rec == rec
    && if done || !sink then
         b.tdengine == a.tdengine && b.db.rows[rec.key].written == done && b.letters == a.letters
       else if s.sink.Fine? then
         && b.tdengine == a.tdengine + {rec} && b.db.rows[rec.key].written == !s.mark.NotApplied?
         && b.letters == a.letters
       else
         && b.tdengine == (if s.sink.NotApplied? then a.tdengine else a.tdengine + {rec})
         && !b.db.rows[rec.key].written && Lettered(a, e, s.letter, b)
  }

  predicate Storable(a: Stores, e: Event, s: Shift)
    requires e.rec.Some?
  {
    s.payloadOk && e.rec.value.key.of in a.db.devices && s.store.Fine?
  }

  /** One event from fetch to commit. A new or unwritten row of a registered device is written to TDengine and marked,
      a row already written causes no write, a filtered event nothing, and whatever fails is dead-lettered. */
  ghost predicate EventHandled(a: Stores, e: Event, allowlist: set<string>, sink: bool, s: Shift, b: Stores) {
    && b.kafka == a.kafka
    && if e.rec.None? then
         b.db == a.db && b.tdengine == a.tdengine && Lettered(a, e, s.letter, b)
       else if allowlist != {} && e.rec.value.key.of.tenant !in allowlist then
         b == a
       else if Storable(a, e, s) then StoredEvent(a, e, sink, s, b)
       else b.tdengine == a.tdengine && Lettered(a, e, s.letter, b) && (!s.store.AppliedUnreported? ==> b.db == a.db)
  }

  /** The offset moves unless the commit, or a dead letter that was needed, is not known to have worked. */
  predicate EventAdvances(a: Stores, e: Event, allowlist: set<string>, sink: bool, s: Shift) {
    var skipped := e.rec.Some? && allowlist != {} && e.rec.value.key.of.tenant !in allowlist;
    var stored := e.rec.Some? && Storable(a, e, s) &&
                    (!sink || s.sink.Fine? || (e.rec.value.key in a.db.rows && a.db.rows[e.rec.value.key].written));
    !s.commit.NotApplied? && (skipped || stored || s.letter.Fine?)
  }

  function StoresOf(w: World): Stores {
    Stores(w.db, w.kafka, w.letters, w.tdengine)
  }

  /** The row is there: what follows a store call that worked. */
  ghost predicate StoredIn(u: World, rec: Record, v: World) {
    var done := rec.key in u.db.rows && u.db.rows[rec.key].written;
    && v == u.(db := v.db, worker := v.worker)
    && OnlyKey(u.db, v.db, rec.key)
    && v.db.rows[rec.key].rec == Held(u.db, rec) && v.db.rows[rec.key].written == done
    && v.worker == if done || !u.cfg.tdengine then NeedCommit else NeedWrite(Held(u.db, rec))
  }

  /** The store call that works: the row is there, and TDengine is still to be written unless it was. */
  lemma StoreWorks(u: World, s: Shift, rec: Record)
    requires u.worker == Storing(rec) && RowsOk(u.db) && rec.receivedAt.Some?
    requires s.payloadOk && rec.key.of in u.db.devices && s.store.Fine?
    ensures StoredIn(u, rec, Try(u, Store(s.payloadOk, s.store)))
  {
  }

  lemma StoreRefuses(u: World, s: Shift, rec: Record)
    requires u.worker == Storing(rec) && !(s.payloadOk && rec.key.of in u.db.devices && s.store.Fine?)
    ensures var v := Try(u, Store(s.payloadOk, s.store));
            && v == u.(db := v.db, worker := NeedLetter) && (!s.store.AppliedUnreported? ==> v.db == u.db)
  {
  }

  lemma SinkAndMark(u: World, s: Shift, rec: Record)
    requires u.worker == NeedWrite(rec) && rec.key in u.db.rows
    ensures var v := Try(Try(u, Sink(s.sink)), Mark(s.mark));
            if s.sink.Fine? then
              && v == u.(db := v.db, tdengine := u.tdengine + {rec}, worker := NeedCommit)
              && v.db == if s.mark.NotApplied? then u.db
                         else u.db.(rows := u.db.rows[rec.key := u.db.rows[rec.key].(written := true)])
            else
              v == u.(tdengine := if s.sink.NotApplied? then u.tdengine else u.tdengine + {rec}, worker := NeedLetter)
  {
  }

  lemma NoSink(u: World, s: Shift)
    requires u.worker.NeedCommit? || u.worker.NeedLetter?
    ensures Try(Try(u, Sink(s.sink)), Mark(s.mark)) == u
  {
  }

  /** What storing, sink and mark leave of an event that can be stored, and what is left to do. */
  ghost predicate Settled(u: World, s: Shift, rec: Record, v: World) {
    var held := Held(u.db, rec);
    var done := rec.key in u.db.rows && u.db.rows[rec.key].written;
    && v == u.(db := v.db, tdengine := v.tdengine, worker := v.worker)
    && OnlyKey(u.db, v.db, rec.key) && v.db.rows[rec.key].rec == held
    && if done || !u.cfg.tdengine then
         v.worker == NeedCommit && v.tdengine == u.tdengine && v.db.rows[rec.key].written == done
       else if s.sink.Fine? then
         && v.worker == NeedCommit && v.tdengine == u.tdengine + {held}
         && v.db.rows[rec.key].written == !s.mark.NotApplied?
       else
         && v.worker == NeedLetter && !v.db.rows[rec.key].written
         && v.tdengine == if s.sink.NotApplied? then u.tdengine else u.tdengine + {held}
  }

  lemma StoredSettles(u: World, v: World, s: Shift, rec: Record)
    requires RowsOk(u.db) && StoredIn(u, rec, v)
    ensures Settled(u, s, rec, Try(Try(v, Sink(s.sink)), Mark(s.mark)))
  {
    if v.worker.NeedCommit? {
      NoSink(v, s);
    } else {
      SinkAndMark(v, s, Held(u.db, rec));
    }
  }

  lemma PersistedWorks(u: World, s: Shift, rec: Record)
    requires u.worker == Storing(rec) && RowsOk(u.db) && rec.receivedAt.Some?
    requires s.payloadOk && rec.key.of in u.db.devices && s.store.Fine?
    ensures Settled(u, s, rec, Persisted(u, s))
  {
    StoreWorks(u, s, rec);
    StoredSettles(u, Try(u, Store(s.payloadOk, s.store)), s, rec);
  }

  lemma CommitStep(w: World, fault: Fault)
    requires w.worker.NeedCommit? && w.committed < |w.kafka|
    ensures Try(w, CommitOffset(fault)) ==
            w.(committed := w.committed + (if fault.NotApplied? then 0 else 1), worker := Idle)
  {
  }

  lemma LetterStep(w: World, fault: Fault)
    requires w.worker.NeedLetter? && w.committed < |w.kafka|
    ensures Try(w, DeadLetter(fault)) ==
            w.(letters := if fault.NotApplied? then w.letters else w.letters + {OfEvent(w.kafka[w.committed])},
               worker := if fault.Fine? then NeedCommit else Idle)
  {
  }

  lemma NoLetterStep(w: World, fault: Fault)
    requires !w.worker.NeedLetter?
    ensures Try(w, DeadLetter(fault)) == w
  {
  }

  lemma NoCommitStep(w: World, fault: Fault)
    requires !w.worker.NeedCommit?
    ensures Try(w, CommitOffset(fault)) == w
  {
  }

  lemma ClosedEvent(w: World, s: Shift)
    requires w.committed < |w.kafka| && (w.worker.NeedLetter? || w.worker.NeedCommit?)
    ensures var v := Closed(w, s);
            && v.db == w.db && v.kafka == w.kafka && v.tdengine == w.tdengine
            && if w.worker.NeedCommit? then
                 v.letters == w.letters && v.committed == w.committed + if s.commit.NotApplied? then 0 else 1
               else
                 && Lettered(StoresOf(w), w.kafka[w.committed], s.letter, StoresOf(v))
                 && v.committed == w.committed + if s.letter.Fine? && !s.commit.NotApplied? then 1 else 0
  {
    if w.worker.NeedCommit? {
      NoLetterStep(w, s.letter);
      CommitStep(w, s.commit);
    } else {
      LetterStep(w, s.letter);
      var u := Try(w, DeadLetter(s.letter));
      if s.letter.Fine? { CommitStep(u, s.commit); } else { NoCommitStep(u, s.commit); }
    }
  }

  lemma ExaminedOther(w: World, e: Event)
    requires w.worker.Idle? && w.committed < |w.kafka| && e == w.kafka[w.committed]
    requires e.rec.None? || !Allowed(w.cfg, e.rec.value)
    ensures Try(Try(w, Fetch), Examine) == w.(worker := if e.rec.None? then NeedLetter else NeedCommit)
  {
  }

  /** An event that is not to be stored: undecodable, or of a tenant that is filtered out. */
  lemma OtherEvent(w: World, s: Shift, e: Event)
    requires w.worker.Idle? && w.committed < |w.kafka| && e == w.kafka[w.committed]
    requires e.rec.None? || !Allowed(w.cfg, e.rec.value)
    ensures var v := Consumed(w, s);
            && v.db == w.db && v.tdengine == w.tdengine && v.kafka == w.kafka
            && if e.rec.None? then
                 && Lettered(StoresOf(w), e, s.letter, StoresOf(v))
                 && v.committed == w.committed + if s.letter.Fine? && !s.commit.NotApplied? then 1 else 0
               else
                 v.letters == w.letters && v.committed == w.committed + if s.commit.NotApplied? then 0 else 1
  {
    ExaminedOther(w, e);
    var u := w.(worker := if e.rec.None? then NeedLetter else NeedCommit);
    NothingToPersist(u, s);
    ClosedEvent(u, s);
  }

  lemma ExaminedEvent(w: World, e: Event)
    requires w.worker.Idle? && w.committed < |w.kafka| && e == w.kafka[w.committed]
    requires e.rec.Some? && Allowed(w.cfg, e.rec.value)
    ensures Try(Try(w, Fetch), Examine) == w.(worker := Storing(Dated(e)))
  {
  }

  lemma StorableEvent(w: World, s: Shift, e: Event)
    requires w.worker.Idle? && w.committed < |w.kafka| && e == w.kafka[w.committed] && RowsOk(w.db)
    requires e.rec.Some? && Allowed(w.cfg, e.rec.value) && Storable(StoresOf(w), e, s)
    ensures var v := Consumed(w, s);
            && EventHandled(StoresOf(w), e, w.cfg.allowlist, w.cfg.tdengine, s, StoresOf(v))
            && v.committed == w.committed +
                 if EventAdvances(StoresOf(w), e, w.cfg.allowlist, w.cfg.tdengine, s) then 1 else 0
  {
    ExaminedEvent(w, e);
    var u := w.(worker := Storing(Dated(e)));
    PersistedWorks(u, s, Dated(e));
    ClosedEvent(Persisted(u, s), s);
  }

  lemma RefusedEvent(w: World, s: Shift, e: Event)
    requires w.worker.Idle? && w.committed < |w.kafka| && e == w.kafka[w.committed]
    requires e.rec.Some? && Allowed(w.cfg, e.rec.value) && !Storable(StoresOf(w), e, s)
    ensures var v := Consumed(w, s);
            && EventHandled(StoresOf(w), e, w.cfg.allowlist, w.cfg.tdengine, s, StoresOf(v))
            && v.committed == w.committed +
                 if EventAdvances(StoresOf(w), e, w.cfg.allowlist, w.cfg.tdengine, s) then 1 else 0
  {
    ExaminedEvent(w, e);
    var u := w.(worker := Storing(Dated(e)));
    StoreRefuses(u, s, Dated(e));
    var v := Try(u, Store(s.payloadOk, s.store));
    NoSink(v, s);
    ClosedEvent(v, s);
  }

  /** Every event the worker consumes is handled so. */
  lemma ConsumedMeaning(w: World, s: Shift)
    requires w.worker.Idle? && w.committed < |w.kafka| && RowsOk(w.db)
    ensures var e, v := w.kafka[w.committed], Consumed(w, s);
            && EventHandled(StoresOf(w), e, w.cfg.allowlist, w.cfg.tdengine, s, StoresOf(v))
            && v.committed == w.committed +
                 if EventAdvances(StoresOf(w), e, w.cfg.allowlist, w.cfg.tdengine, s) then 1 else 0
  {
    var e := w.kafka[w.committed];
    if e.rec.None? || !Allowed(w.cfg, e.rec.value) {
      OtherEvent(w, s, e);
    } else if Storable(StoresOf(w), e, s) {
      StorableEvent(w, s, e);
    } else {
      RefusedEvent(w, s, e);
    }
  }

  // ----- what becomes of one message, on the stores alone --------------------

  /** The inbox holds the message: a row is there, inserted now or before. */
  predicate Durable(a: Stores, m: Message, inbox: bool, p: Passage) {
    inbox && m.rec.Some? && m.rec.value.receivedAt.Some? && p.payloadOk && m.rec.value.key.of in a.db.devices
        && p.inbox.Fine?
  }

  predicate MessageAcked(a: Stores, m: Message, inbox: bool, p: Passage) {
    Durable(a, m, inbox, p) || (m.rec.Some? && p.publish.Fine?) || p.park.Fine?
  }

  ghost predicate Parked(a: Stores, m: Message, fault: Fault, b: Stores) {
    b.letters == if fault.NotApplied? then a.letters else a.letters + {OfMessage(m)}
  }

  /** One message. A readable one is stored if an inbox is configured, and published with the record the inbox holds;
      an unreadable one, or one that Kafka is not known to have taken, is dead-lettered. */
  ghost predicate MessageHandled(a: Stores, m: Message, inbox: bool, p: Passage, b: Stores) {
    && b.tdengine == a.tdengine
    && if m.rec.None? then b.db == a.db && b.kafka == a.kafka && Parked(a, m, p.park, b)
       else
         var r := m.rec.value;
         var out := if Durable(a, m, inbox, p) then Held(a.db, r) else r;
         && (Durable(a, m, inbox, p) ==>
               && OnlyKey(a.db, b.db, r.key) && b.db.rows[r.key].rec == out
               && b.db.rows[r.key].written == (r.key in a.db.rows && a.db.rows[r.key].written))
         && (!inbox || p.inbox.NotApplied? || (p.inbox.Fine? && !Durable(a, m, inbox, p)) ==> b.db == a.db)
         && b.kafka == (if p.publish.NotApplied? then a.kafka else a.kafka + [Event(m.body, Some(out), p.stamp)])
         && if p.publish.Fine? then b.letters == a.letters else Parked(a, m, p.park, b)
  }

  /** One step of the bridge touches the delivery it works on, and of the stores what it says. */
  lemma Inspected(w: World, n: nat)
    requires n in w.deliveries && w.deliveries[n].pc.Working?
    ensures var v, d := Try(w, Inspect(n)), w.deliveries[n];
            && StoresOf(v) == StoresOf(w) && v.cfg == w.cfg
            && n in v.deliveries
            && v.deliveries[n] == d.(pc := if d.message.rec.None? then Parking(false)
                                           else if w.cfg.inbox then Recording(d.message.rec.value)
                                           else Publishing(d.message.rec.value, false))
  {
  }

  lemma Inboxed(w: World, n: nat, p: Passage)
    requires n in w.deliveries && w.deliveries[n].pc.Recording?
    ensures var v, d := Try(w, WriteInbox(n, p.payloadOk, p.inbox)), w.deliveries[n];
            var r := d.pc.rec;
            var works := p.payloadOk && r.receivedAt.Some? && r.key.of in w.db.devices && p.inbox.Fine?;
            && StoresOf(v) == StoresOf(w).(db := v.db) && n in v.deliveries
            && v.deliveries[n] == (if works then d.(acks := d.acks + 1, pc := Publishing(Held(w.db, r), true))
                                   else d.(pc := Publishing(r, false)))
            && (works ==>
                  && OnlyKey(w.db, v.db, r.key) && v.db.rows[r.key].rec == Held(w.db, r)
                  && v.db.rows[r.key].written == (r.key in w.db.rows && w.db.rows[r.key].written))
            && (!works && !p.inbox.AppliedUnreported? ==> v.db == w.db)
  {
  }

  lemma Sent(w: World, n: nat, p: Passage)
    requires n in w.deliveries && w.deliveries[n].pc.Publishing?
    ensures var v, d := Announced(w, n, p), w.deliveries[n];
            && StoresOf(v) == StoresOf(w).(kafka := if p.publish.NotApplied? then w.kafka
                 else w.kafka + [Event(d.message.body, Some(d.pc.rec), p.stamp)])
            && n in v.deliveries
            && v.deliveries[n] == if p.publish.Fine?
                 then d.(acks := d.acks + (if d.pc.durable then 0 else 1), pc := Done, slot := false)
                 else d.(pc := Parking(d.pc.durable))
  {
  }

  lemma Shelved(w: World, n: nat, p: Passage)
    requires n in w.deliveries && w.deliveries[n].pc.Parking?
    ensures var v, d := Try(w, Park(n, p.park)), w.deliveries[n];
            && StoresOf(v) == StoresOf(w).(letters := if p.park.NotApplied? then w.letters
                 else w.letters + {OfMessage(d.message)})
            && n in v.deliveries
            && v.deliveries[n].acks == d.acks + if !d.pc.durable && p.park.Fine? then 1 else 0
  {
  }

  lemma NothingShelved(w: World, n: nat, p: Passage)
    requires n in w.deliveries && w.deliveries[n].pc.Done?
    ensures Try(w, Park(n, p.park)) == w
  {
  }

  /** From the publish call on. */
  lemma SentOrShelved(w: World, n: nat, p: Passage)
    requires n in w.deliveries && w.deliveries[n].pc.Publishing?
    ensures var v, d := Try(Announced(w, n, p), Park(n, p.park)), w.deliveries[n];
            && v.db == w.db && v.tdengine == w.tdengine && n in v.deliveries
            && v.kafka == (if p.publish.NotApplied? then w.kafka
                           else w.kafka + [Event(d.message.body, Some(d.pc.rec), p.stamp)])
            && (if p.publish.Fine? then v.letters == w.letters else Parked(StoresOf(w), d.message, p.park, StoresOf(v)))
            && v.deliveries[n].acks == d.acks + if !d.pc.durable && (p.publish.Fine? || p.park.Fine?) then 1 else 0
  {
    Sent(w, n, p);
    var u := Announced(w, n, p);
    if p.publish.Fine? {
      NothingShelved(u, n, p);
    } else {
      Shelved(u, n, p);
    }
  }

  /** Every message the bridge handles is handled so, and acknowledged exactly when it is held somewhere. */
  lemma BridgedMeaning(w: World, n: nat, p: Passage)
    requires n in w.deliveries && w.deliveries[n].pc.Working? && w.deliveries[n].acks == 0
    ensures var m, v := w.deliveries[n].message, Bridged(w, n, p);
            && MessageHandled(StoresOf(w), m, w.cfg.inbox, p, StoresOf(v))
            && n in v.deliveries
            && v.deliveries[n].acks == if MessageAcked(StoresOf(w), m, w.cfg.inbox, p) then 1 else 0
  {
    var m, u := w.deliveries[n].message, Try(w, Inspect(n));
    Inspected(w, n);
    if m.rec.None? {
      NoInboxStep(u, n, p);
      NothingAnnounced(u, n, p);
      Shelved(u, n, p);
    } else if w.cfg.inbox {
      Inboxed(u, n, p);
      SentOrShelved(Try(u, WriteInbox(n, p.payloadOk, p.inbox)), n, p);
    } else {
      NoInboxStep(u, n, p);
      SentOrShelved(u, n, p);
    }
  }

  class Backends {
    var tables: TelemetryTables
    var kafka: seq<Event>
    var committed: nat
    var letters: set<Letter>
    var tdengine: set<Record>

    ghost predicate Mirrors(w: World)
      reads this, tables
    {
      w.db == tables.Contents() && w.kafka == kafka && w.committed == committed && w.letters == letters
          && w.tdengine == tdengine
    }

    ghost function Contents(): Stores
      reads this, tables
    {
      Stores(tables.Contents(), kafka, letters, tdengine)
    }

    constructor ()
      ensures fresh(tables)
              && Mirrors(World(Settings(true, true, 64, {}), EmptyDb, [], 0, {}, {}, map[], 0, 0, false, Idle, map[]))
    {
      tables := new TelemetryTables();
      kafka, committed, letters, tdengine := [], 0, {}, {};
    }

    /** Publish the message to the dead-letter topic; without a durable row, acknowledge or fail. */
    method BridgeDeadLetter(m: Message, durable: bool, fault: Fault, ghost n: nat, ghost w: World)
      returns (acks: nat, failed: bool, ghost v: World)
      requires Mirrors(w) && n in w.deliveries && w.deliveries[n].message == m
               && w.deliveries[n].pc == Parking(durable) && !w.deliveries[n].failed
      modifies this`letters
      ensures v == Apply(w, Park(n, fault)) && Mirrors(v)
      ensures v.deliveries[n].acks == w.deliveries[n].acks + acks && v.deliveries[n].failed == failed
    {
      acks, failed, v := 0, false, Apply(w, Park(n, fault));
      if fault != NotApplied {
        letters := letters + {OfMessage(m)};
      }
      if fault != Fine {
        failed := !durable;
        return;
      }
      if !durable {
        acks := 1;
      }
    }

    /** The inbox write, when an inbox is configured. */
    method RecordInbox(r: Record, p: Passage, ghost n: nat, ghost w: World)
      returns (rec: Record, durable: bool, ghost v: World)
      requires Mirrors(w) && n in w.deliveries && w.deliveries[n].pc == Recording(r)
      modifies tables
      ensures v == Apply(w, WriteInbox(n, p.payloadOk, p.inbox)) && Mirrors(v)
      ensures n in v.deliveries && v.deliveries[n].message == w.deliveries[n].message
              && v.deliveries[n].failed == w.deliveries[n].failed
      ensures v.deliveries[n].pc == Publishing(rec, durable)
              && v.deliveries[n].acks == w.deliveries[n].acks + if durable then 1 else 0
    {
      v := Apply(w, WriteInbox(n, p.payloadOk, p.inbox));
      rec, durable := r, false;
      if p.inbox != NotApplied {
        var reply := tables.RestoreTelemetry(r, p.payloadOk);
        if p.inbox == Fine && reply.Inserted? {
          rec, durable := reply.rec, true;
        } else if p.inbox == Fine && reply.Duplicate? {
          rec, durable := reply.row.rec, true;
        }
      }
    }

    /** Publish to Kafka, and to the dead-letter topic when that is not reported done. */
    method PublishRecord(m: Message, rec: Record, durable: bool, p: Passage, ghost n: nat, ghost first: World,
                         ghost w: World)
      returns (acks: nat, failed: bool, ghost v: World)
      requires Mirrors(w) && Reaches(first, w)
      requires n in w.deliveries && w.deliveries[n].message == m && w.deliveries[n].pc == Publishing(rec, durable)
               && !w.deliveries[n].failed
      modifies this`kafka, this`letters
      ensures Mirrors(v) && Reaches(first, v)
      ensures n in v.deliveries && v.deliveries[n].pc.Done? && v.deliveries[n].acks == w.deliveries[n].acks + acks
              && v.deliveries[n].failed == failed
      ensures (if durable then 1 else 0) + acks + (if failed then 1 else 0) == 1
      ensures v == Try(Announced(w, n, p), Park(n, p.park))
    {
      ReachesStep(first, w, Publish(n, p.stamp, p.publish));
      v := Apply(w, Publish(n, p.stamp, p.publish));
      if p.publish != NotApplied {
        kafka := kafka + [Event(m.body, Some(rec), p.stamp)];
      }
      if p.publish == Fine {
        return if durable then 0 else 1, false, v;
      }
      ReachesStep(first, v, Park(n, p.park));
      acks, failed, v := BridgeDeadLetter(m, durable, p.park, n, v);
    }

    /** processMessage: record, publish, dead-letter; exactly one acknowledgement or one bridge failure. */
    method ProcessMessage(m: Message, inbox: bool, p: Passage, ghost n: nat, ghost w: World)
      returns (acks: nat, failed: bool, ghost v: World)
      requires Mirrors(w) && w.cfg.inbox == inbox && n in w.deliveries
               && w.deliveries[n] == Delivery(m, Working, true, 0, false)
      modifies this, tables
      ensures tables == old(tables) && Mirrors(v) && Reaches(w, v)
      ensures n in v.deliveries && v.deliveries[n].pc.Done? && v.deliveries[n].acks == acks
              && v.deliveries[n].failed == failed
      ensures acks + (if failed then 1 else 0) == 1
      ensures v == Bridged(w, n, p)
      ensures MessageHandled(old(Contents()), m, inbox, p, Contents())
      ensures acks == 1 <==> MessageAcked(old(Contents()), m, inbox, p)
    {
      BridgedMeaning(w, n, p);
      ReachesSelf(w);
      ReachesStep(w, w, Inspect(n));
      v := Apply(w, Inspect(n));
      if m.rec.None? {
        NoInboxStep(v, n, p);
        NothingAnnounced(v, n, p);
        ReachesStep(w, v, Park(n, p.park));
        acks, failed, v := BridgeDeadLetter(m, false, p.park, n, v);
        return;
      }
      var rec, durable := m.rec.value, false;
      if inbox {
        ReachesStep(w, v, WriteInbox(n, p.payloadOk, p.inbox));
        rec, durable, v := RecordInbox(rec, p, n, v);
      } else {
        NoInboxStep(v, n, p);
      }
      var late;
      late, failed, v := PublishRecord(m, rec, durable, p, n, w, v);
      acks := (if durable then 1 else 0) + late;
    }

    /** commitAfterDeadLetter: the offset moves only past an event whose dead letter is reported stored. */
    method DeadLetterEvent(shift: Shift, ghost w: World) returns (proceed: bool, ghost v: World)
      requires Mirrors(w) && w.worker.NeedLetter? && committed < |kafka|
      modifies this`letters
      ensures v == Apply(w, DeadLetter(shift.letter)) && Mirrors(v)
      ensures proceed == v.worker.NeedCommit? && (!proceed ==> v.worker.Idle?)
    {
      v := Apply(w, DeadLetter(shift.letter));
      if shift.letter != NotApplied {
        letters := letters + {OfEvent(kafka[committed])};
      }
      proceed := shift.letter == Fine;
    }

    /** The sink write and its completion mark; false sends the event to the dead-letter topic. */
    method WriteAndMark(rec: Record, shift: Shift, ghost w: World) returns (ok: bool, ghost v: World)
      requires Mirrors(w) && w.worker == NeedWrite(rec)
      modifies this`tdengine, tables
      ensures tables == old(tables) && Mirrors(v) && Reaches(w, v)
      ensures if ok then v.worker.NeedCommit? else v.worker.NeedLetter?
      ensures v == Try(Try(w, Sink(shift.sink)), Mark(shift.mark))
    {
      ReachesSelf(w);
      ReachesStep(w, w, Sink(shift.sink));
      v := Apply(w, Sink(shift.sink));
      if shift.sink != NotApplied {
        tdengine := tdengine + {rec};
      }
      if shift.sink != Fine {
        return false, v;
      }
      ReachesStep(w, v, Mark(shift.mark));
      v := Apply(v, Mark(shift.mark));
      if shift.mark != NotApplied {
        tables.MarkTelemetryWritten(rec.key);
      }
      return true, v;
    }

    /** Store the record; Some(rec) asks for a sink write, None commits or dead-letters by `ok`. */
    method StoreRecord(rec: Record, sink: bool, shift: Shift, ghost w: World)
      returns (ok: bool, need: Option<Record>, ghost v: World)
      requires Mirrors(w) && w.worker == Storing(rec) && w.cfg.tdengine == sink
      modifies tables
      ensures v == Apply(w, Store(shift.payloadOk, shift.store)) && Mirrors(v)
      ensures v.worker == match need { case Some(r) => NeedWrite(r) case None => if ok then NeedCommit else NeedLetter }
      ensures var db := old(tables.Contents());
              && (ok <==> shift.payloadOk && rec.receivedAt.Some? && rec.key.of in db.devices && shift.store.Fine?)
              && (need.Some? <==> ok && sink && !(rec.key in db.rows && db.rows[rec.key].written))
              && (need.Some? ==> need.value == Held(db, rec))
    {
      v := Apply(w, Store(shift.payloadOk, shift.store));
      ok, need := false, None;
      if shift.store != NotApplied {
        var reply := tables.RestoreTelemetry(rec, shift.payloadOk);
        if shift.store == Fine {
          match reply {
            case Duplicate(row) =>
              ok := true;
              if !row.written && sink { need := Some(row.rec); }
            case Inserted(r) =>
              ok := true;
              if sink { need := Some(r); }
            case _ =>
          }
        }
      }
    }

    /** Fetch and examine: true when the event has to be stored. */
    method Classify(allowlist: set<string>, ghost w: World) returns (store: bool, letter: bool, ghost v: World)
      requires Mirrors(w) && w.worker.Idle? && committed < |kafka| && w.cfg.allowlist == allowlist
      ensures Mirrors(v) && Reaches(w, v) && v.cfg == w.cfg && v == Try(Try(w, Fetch), Examine)
      ensures letter <==> kafka[committed].rec.None?
      ensures store <==> kafka[committed].rec.Some? && Allowed(w.cfg, kafka[committed].rec.value)
      ensures v.worker == if letter then NeedLetter else if store then Storing(Stamped(kafka[committed]))
                          else NeedCommit
    {
      ReachesSelf(w);
      ReachesStep(w, w, Fetch);
      v := Apply(w, Fetch);
      ReachesStep(w, v, Examine);
      v := Apply(v, Examine);
      letter := kafka[committed].rec.None?;
      store := !letter && (allowlist == {} || kafka[committed].rec.value.key.of.tenant in allowlist);
    }

    method CommitEvent(fault: Fault, ghost first: World, ghost w: World) returns (stopped: bool, ghost v: World)
      requires Mirrors(w) && w.worker.NeedCommit? && committed < |kafka| && Reaches(first, w)
      modifies this`committed
      ensures Mirrors(v) && v.worker.Idle? && Reaches(first, v) && v == Apply(w, CommitOffset(fault))
      ensures committed == old(committed) + if fault.NotApplied? then 0 else 1
      ensures stopped <==> !fault.Fine?
      ensures Inv(first) ==> Covered(v, kafka[old(committed)])
    {
      ReachesStep(first, w, CommitOffset(fault));
      CoveredAtCommit(first, w, fault);
      v := Apply(w, CommitOffset(fault));
      if fault != NotApplied {
        committed := committed + 1;
      }
      stopped := fault != Fine;
    }

    /** Dead-letter the event if asked, then commit its offset unless that failed. */
    method CloseEvent(letter: bool, shift: Shift, ghost first: World, ghost w: World)
      returns (stopped: bool, ghost v: World)
      requires Mirrors(w) && committed < |kafka| && Reaches(first, w)
      requires w.worker == if letter then NeedLetter else NeedCommit
      modifies this`letters, this`committed
      ensures Mirrors(v) && v.worker.Idle? && Reaches(first, v) && v == Closed(w, shift)
      ensures old(committed) <= committed <= old(committed) + 1 && (!stopped ==> committed == old(committed) + 1)
      ensures Inv(first) && committed > old(committed) ==> Covered(v, kafka[old(committed)])
    {
      v := w;
      if letter {
        ReachesStep(first, w, DeadLetter(shift.letter));
        var proceed;
        proceed, v := DeadLetterEvent(shift, w);
        if !proceed {
          return true, v;
        }
      }
      stopped, v := CommitEvent(shift.commit, first, v);
    }

    /** One turn of consumeTelemetry.  The offset of an event moves only when the event is stored,
        dead-lettered or outside the allowlist; otherwise the consumer stops and the event is fetched again. */
    method ConsumeTelemetry(allowlist: set<string>, sink: bool, shift: Shift, ghost w: World)
      returns (stopped: bool, ghost v: World)
      requires Mirrors(w) && w.worker.Idle? && committed < |kafka| && w.cfg.tdengine == sink
               && w.cfg.allowlist == allowlist
      modifies this, tables
      ensures tables == old(tables) && Mirrors(v) && v.worker.Idle? && Reaches(w, v)
      ensures kafka == old(kafka) && old(committed) <= committed <= old(committed) + 1
      ensures !stopped ==> committed == old(committed) + 1
      ensures v == Consumed(w, shift)
      ensures Inv(w) && committed > old(committed) ==> Covered(v, old(kafka[committed]))
      ensures RowsOk(old(tables.Contents())) ==>
                EventHandled(old(Contents()), old(kafka[committed]), allowlist, sink, shift, Contents())
      ensures RowsOk(old(tables.Contents())) ==>
                (committed > old(committed) <==>
                   EventAdvances(old(Contents()), old(kafka[committed]), allowlist, sink, shift))
    {
      if RowsOk(w.db) { ConsumedMeaning(w, shift); }
      var store, letter;
      store, letter, v := Classify(allowlist, w);
      if store {
        var ok;
        ok, v := Persist(Stamped(kafka[committed]), sink, shift, w, v);
        letter := !ok;
      } else {
        NothingToPersist(v, shift);
      }
      stopped, v := CloseEvent(letter, shift, w, v);
    }

    method Persist(rec: Record, sink: bool, shift: Shift, ghost first: World, ghost w: World)
      returns (ok: bool, ghost v: World)
      requires Mirrors(w) && w.worker == Storing(rec) && w.cfg.tdengine == sink && Reaches(first, w)
      modifies this`tdengine, tables
      ensures tables == old(tables) && Mirrors(v) && Reaches(first, v)
      ensures if ok then v.worker.NeedCommit? else v.worker.NeedLetter?
      ensures v == Persisted(w, shift)
    {
      var need;
      ReachesStep(first, w, Store(shift.payloadOk, shift.store));
      ok, need, v := StoreRecord(rec, sink, shift, w);
      if need.Some? {
        ghost var u := v;
        ok, v := WriteAndMark(need.value, shift, u);
        ReachesAll(first, u, v);
      }
    }
  }

  lemma ReachesAll(w: World, v: World, v': World)
    requires Reaches(w, v) && Reaches(v, v')
    ensures Reaches(w, v')
  {
    var xs :| Path(xs, w, v);
    var ys :| Path(ys, v, v');
    var zs := xs + ys[1..];
    forall i: nat | i + 1 < |zs| ensures StepAt(zs, i) {
      if i + 1 < |xs| {
        assert StepAt(xs, i);
        assert zs[i] == xs[i] && zs[i + 1] == xs[i + 1];
      } else {
        var j := i + 1 - |xs|;
        assert StepAt(ys, j);
        assert zs[i] == ys[j] && zs[i + 1] == ys[j + 1];
      }
    }
    assert Path(zs, w, v');
  }

  lemma {:induction false} PathKeepsInv(ws: seq<World>, w: World, v: World)
    requires Path(ws, w, v) && Inv(w)
    ensures Inv(v)
    decreases |ws|
  {
    if |ws| > 1 {
      var shorter := ws[..|ws| - 1];
      forall i: nat | i + 1 < |shorter| ensures StepAt(shorter, i) {
        assert StepAt(ws, i);
      }
      PathKeepsInv(shorter, w, ws[|ws| - 2]);
      assert Next(ws[|ws| - 2], v) by { assert StepAt(ws, |ws| - 2); }
      InvNext(ws[|ws| - 2], v);
    }
  }

  /** In any state the worker can reach, the event about to be committed is covered, and stays so. */
  lemma CoveredAtCommit(w: World, v: World, fault: Fault)
    requires Reaches(w, v) && v.worker.NeedCommit? && v.committed < |v.kafka|
    ensures Inv(w) ==> Covered(Apply(v, CommitOffset(fault)), v.kafka[v.committed])
  {
    if Inv(w) {
      var ws :| Path(ws, w, v);
      PathKeepsInv(ws, w, v);
    }
  }
}
