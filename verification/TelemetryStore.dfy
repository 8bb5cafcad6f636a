/** The telemetry tables: records keyed by message, tenant and device, and the
    last time each device was heard from. */
module TelemetryStore {
  import opened Wrappers

  type Time = int

  datatype Device = Device(tenant: string, device: string)

  datatype Key = Key(msgId: string, of: Device)

  /** `receivedAt` is the server receive time, None when a producer left it out. */
  datatype Record = Record(key: Key, ts: int, kind: string, version: string, payload: string, receivedAt: Option<Time>)

  datatype Row = Row(id: nat, rec: Record, written: bool)

  datatype Seen = Seen(lastSeen: Option<Time>, lastMsg: string)

  datatype Db = Db(rows: map<Key, Row>, nextId: nat, devices: set<Device>, seen: map<Device, Seen>)

  datatype Reply = Invalid | DeviceNotFound | Duplicate(row: Row) | Inserted(rec: Record)

  /** The upsert of device_state: only a strictly later receive time replaces the stored one. */
  function Heard(seen: map<Device, Seen>, rec: Record): map<Device, Seen>
    requires rec.receivedAt.Some?
  {
    var d := rec.key.of;
    if d in seen && seen[d].lastSeen.Some? && seen[d].lastSeen.value >= rec.receivedAt.value then seen
    else seen[d := Seen(rec.receivedAt, rec.key.msgId)]
  }

  /** `payloadOk`: the payload and its jsonb normal form both pass the telemetry payload check. */
  function RestoreReply(db: Db, rec: Record, payloadOk: bool): Reply {
    if !payloadOk || rec.receivedAt.None? then Invalid
    else if rec.key.of !in db.devices then DeviceNotFound
    else if rec.key in db.rows then Duplicate(db.rows[rec.key])
    else Inserted(rec)
  }

  function Restored(db: Db, rec: Record, payloadOk: bool): Db {
    if RestoreReply(db, rec, payloadOk).Inserted? then
      db.(rows := db.rows[rec.key := Row(db.nextId, rec, false)], nextId := db.nextId + 1, seen := Heard(db.seen, rec))
    else db
  }

  function Written(db: Db, key: Key): Db {
    if key in db.rows then db.(rows := db.rows[key := db.rows[key].(written := true)]) else db
  }

  /** CreateDevice: a new device starts without a last-seen time. */
  function Registered(db: Db, d: Device): Db {
    if d in db.devices then db
    else db.(devices := db.devices + {d}, seen := if d in db.seen then db.seen else db.seen[d := Seen(None, "")])
  }

  const EmptyDb := Db(map[], 1, {}, map[])

  /** Rows carry their own key and a receive time, belong to a registered device, and have distinct serials. */
  ghost predicate RowsOk(db: Db) {
    && (forall k <- db.rows ::
          && db.rows[k].rec.key == k && db.rows[k].rec.receivedAt.Some?
          && k.of in db.devices && db.rows[k].id < db.nextId)
    && (forall j, k :: j in db.rows && k in db.rows && db.rows[j].id == db.rows[k].id ==> j == k)
  }

  lemma RestoredRowsOk(db: Db, rec: Record, payloadOk: bool)
    requires RowsOk(db)
    ensures RowsOk(Restored(db, rec, payloadOk))
  {
  }

  lemma WrittenRowsOk(db: Db, key: Key)
    requires RowsOk(db)
    ensures RowsOk(Written(db, key))
  {
    var after := Written(db, key);
    assert forall k <- after.rows ::
        k in db.rows && after.rows[k].id == db.rows[k].id && after.rows[k].rec == db.rows[k].rec;
  }

  class TelemetryTables {
    var rows: map<Key, Row>
    var nextId: nat
    var devices: set<Device>
    var seen: map<Device, Seen>

    constructor ()
      ensures Contents() == EmptyDb
    {
      rows, nextId, devices, seen := map[], 1, {}, map[];
    }

    function Contents(): Db
      reads this
    {
      Db(rows, nextId, devices, seen)
    }

    /** One transaction: insert unless the key exists; only a new row touches device_state. */
    method RestoreTelemetry(rec: Record, payloadOk: bool) returns (reply: Reply)
      modifies this
      ensures reply == RestoreReply(old(Contents()), rec, payloadOk)
      ensures Contents() == Restored(old(Contents()), rec, payloadOk)
    {
      if !payloadOk || rec.receivedAt.None? {
        return Invalid;
      }
      if rec.key.of !in devices {
        return DeviceNotFound;
      }
      if rec.key in rows {
        return Duplicate(rows[rec.key]);
      }
      rows := rows[rec.key := Row(nextId, rec, false)];
      nextId := nextId + 1;
      var d := rec.key.of;
      if d !in seen || seen[d].lastSeen.None? || seen[d].lastSeen.value < rec.receivedAt.value {
        seen := seen[d := Seen(rec.receivedAt, rec.key.msgId)];
      }
      return Inserted(rec);
    }

    method MarkTelemetryWritten(key: Key)
      modifies this`rows
      ensures Contents() == Written(old(Contents()), key)
    {
      if key in rows {
        rows := rows[key := rows[key].(written := true)];
      }
    }
  }
}
