/** The PostgreSQL command tables and the statements that change them.

    Each statement or transaction is a function from tables to tables; the class
    PostgresStore runs the same statements in place and is proved to compute
    exactly those functions.  A jsonb value is represented by its normal form. */
module CommandStore {
  import opened Wrappers
  import opened CommandStatus

  type Id = nat
  type Time = int
  type Jsonb = string

  const MAX_DISPATCH_ATTEMPTS: nat := 10
  const SWEEP_LIMIT: nat := 500

  datatype ExecutionResult = ExecutionResult(status: Status, errorCode: string, payload: Jsonb)

  datatype Command = Command(
    tenant: string,
    device: string,
    key: string,
    status: Status,
    payload: Jsonb,
    attempts: nat,
    nextDispatchAt: Time,
    deadline: Option<Time>,
    result: Option<ExecutionResult>,
    createdAt: Time,
    updatedAt: Time)

  datatype EventRow = EventRow(command: Id, event: Event)

  datatype AckRow = AckRow(command: Id, tenant: string, device: string, result: ExecutionResult)

  datatype Tables = Tables(commands: map<Id, Command>, events: seq<EventRow>, acks: seq<AckRow>)

  /** What NormalizeCommandResult guarantees about the status of a device result. */
  predicate Normalized(r: ExecutionResult) {
    r.status.Acked? || r.status.Failed?
  }

  /** What one statement writes: nothing, or one row with its audit and acknowledgement rows. */
  datatype Write =
    | Skip
    | Write(id: Id, row: Command, log: Option<Event>, ack: Option<ExecutionResult>)

  function Commit(t: Tables, w: Write): Tables {
    match w
    case Skip => t
    case Write(id, row, log, ack) =>
      Tables(
        t.commands[id := row],
        match log { case Some(e) => t.events + [EventRow(id, e)] case None => t.events },
        match ack { case Some(r) => t.acks + [AckRow(id, row.tenant, row.device, r)] case None => t.acks })
  }

  // ----- insertion -----------------------------------------------------------

  datatype CreateReply = DeviceNotFound | KeyConflict | Reused(id: Id) | Inserted(id: Id)

  function NewCommand(tenant: string, device: string, key: string, payload: Jsonb, now: Time): Command {
    Command(tenant, device, key, Created, payload, 0, now, None, None, now, now)
  }

  predicate HoldsKey(t: Tables, id: Id, tenant: string, key: string) {
    key != "" && id in t.commands && t.commands[id].tenant == tenant && t.commands[id].key == key
  }

  predicate KeyFree(t: Tables, tenant: string, key: string) {
    forall id <- t.commands :: !HoldsKey(t, id, tenant, key)
  }

  function Insert(id: Id, tenant: string, device: string, key: string, payload: Jsonb, now: Time): Write {
    Write(id, NewCommand(tenant, device, key, payload, now), Some(CreatedEvent), None)
  }

  // ----- statements on one row -----------------------------------------------

  /** The fence of a claim: same attempt, still created, lease still running. */
  predicate ClaimStands(c: Command, attempt: nat, now: Time) {
    c.status.Created? && c.attempts == attempt && c.nextDispatchAt > now
  }

  function MarkPublished(t: Tables, id: Id, attempt: nat, now: Time): Write {
    if id in t.commands && ClaimStands(t.commands[id], attempt, now) then
      Write(id, t.commands[id].(status := Published, updatedAt := now), Some(PublishedEvent), None)
    else Skip
  }

  function Reschedule(t: Tables, id: Id, attempt: nat, retryAfter: Time, now: Time): Write {
    if id in t.commands && ClaimStands(t.commands[id], attempt, now) then
      Write(id, t.commands[id].(nextDispatchAt := now + retryAfter, updatedAt := now), None, None)
    else Skip
  }

  function MarkSent(t: Tables, id: Id, deadline: Time, now: Time): Write {
    if id in t.commands && (t.commands[id].status.Created? || t.commands[id].status.Published?) then
      Write(id, t.commands[id].(status := Sent, deadline := Some(deadline), updatedAt := now), Some(DeliveredEvent),
          None)
    else Skip
  }

  function Requeue(t: Tables, id: Id, retryAfter: Time, now: Time): Write {
    if id in t.commands && t.commands[id].status.Published? then
      Write(id, t.commands[id].(status := Created, nextDispatchAt := now + retryAfter, updatedAt := now),
          Some(RequeuedEvent), None)
    else Skip
  }

  // ----- batch statements ----------------------------------------------------

  /** A statement that selects due rows oldest first, skipping locked ones. */
  datatype Sweep =
    | ClaimDue(now: Time, lease: Time)
    | ExpireDue(at: Time, nullDeadlineGrace: Time)
    | RequeueStale(staleBefore: Time, now: Time, maxAttempts: nat)
    | FailStale(staleBefore: Time, now: Time, maxAttempts: nat)

  predicate Due(s: Sweep, c: Command) {
    match s
    case ClaimDue(now, _) =>
      c.status.Created? && c.nextDispatchAt <= now && c.attempts < MAX_DISPATCH_ATTEMPTS
    case ExpireDue(at, grace) =>
      c.status.Sent? && match c.deadline {
        case Some(d) => d <= at
        case None => grace > 0 && c.updatedAt + grace <= at
      }
    case RequeueStale(staleBefore, _, max) =>
      c.status.Published? && c.updatedAt <= staleBefore && c.attempts < max
    case FailStale(staleBefore, now, max) =>
      c.attempts >= max
          && ((c.status.Created? && c.nextDispatchAt <= now) || (c.status.Published? && c.updatedAt <= staleBefore))
  }

  function Swept(s: Sweep, c: Command): Command {
    match s
    case ClaimDue(now, lease) => c.(attempts := c.attempts + 1, nextDispatchAt := now + lease, updatedAt := now)
    case ExpireDue(at, _) => c.(status := Timeout, updatedAt := at)
    case RequeueStale(_, now, _) => c.(status := Created, nextDispatchAt := now, updatedAt := now)
    case FailStale(_, now, _) => c.(status := Failed, updatedAt := now)
  }

  function Audit(s: Sweep): Option<Event> {
    match s
    case ClaimDue(_, _) => None
    case ExpireDue(_, _) => Some(TimeoutEvent)
    case RequeueStale(_, _, _) => Some(RequeuedEvent)
    case FailStale(_, _, _) => Some(FailedEvent)
  }

  function SweepRow(t: Tables, s: Sweep, id: Id): Write {
    if id in t.commands && Due(s, t.commands[id]) then
      Write(id, Swept(s, t.commands[id]), Audit(s), None)
    else Skip
  }

  function SweepRows(t: Tables, s: Sweep, ids: seq<Id>): Tables {
    if ids == [] then t
    else
      var u := SweepRows(t, s, ids[..|ids| - 1]);
      Commit(u, SweepRow(u, s, ids[|ids| - 1]))
  }

  /** ORDER BY created_at, id. */
  predicate Before(commands: map<Id, Command>, a: Id, b: Id)
    requires a in commands && b in commands
  {
    commands[a].createdAt < commands[b].createdAt ||
    (commands[a].createdAt == commands[b].createdAt && a < b)
  }

  function Candidates(commands: map<Id, Command>, s: Sweep, locked: set<Id>): set<Id> {
    set id | id in commands && id !in locked && Due(s, commands[id])
  }

  /** `ids` is the oldest `limit` candidates, in order; nothing older is passed over. */
  predicate OldestFirst(commands: map<Id, Command>, candidates: set<Id>, limit: nat, ids: seq<Id>) {
    && candidates <= commands.Keys
    && |ids| <= limit
    && (forall i :: 0 <= i < |ids| ==> ids[i] in candidates)
    && (forall i, j :: 0 <= i < j < |ids| ==> Before(commands, ids[i], ids[j]))
    && (forall id <- candidates :: id !in ids ==> |ids| == limit && forall i :: 0 <= i < |ids| ==>
         Before(commands, ids[i], id))
  }

  // ----- what a batch statement means, row by row ----------------------------

  /** Rows that satisfy a condition, oldest first; one is left out only where the limit is reached, or if locked. */
  ghost predicate Chosen(commands: map<Id, Command>, ids: seq<Id>, limit: nat, locked: set<Id>, ok: Command -> bool) {
    && |ids| <= limit
    && (forall i :: 0 <= i < |ids| ==> ids[i] in commands && ids[i] !in locked && ok(commands[ids[i]]))
    && (forall i, j :: 0 <= i < j < |ids| ==>
          || commands[ids[i]].createdAt < commands[ids[j]].createdAt
          || (commands[ids[i]].createdAt == commands[ids[j]].createdAt && ids[i] < ids[j]))
    && (forall id <- commands :: id !in locked && ok(commands[id]) && id !in ids ==>
          && |ids| == limit
          && forall i :: 0 <= i < |ids| ==>
               || commands[ids[i]].createdAt < commands[id].createdAt
               || (commands[ids[i]].createdAt == commands[id].createdAt && ids[i] < id))
  }

  lemma SelectionChosen(commands: map<Id, Command>, ids: seq<Id>, s: Sweep, limit: nat, locked: set<Id>,
                        ok: Command -> bool)
    requires OldestFirst(commands, Candidates(commands, s, locked), limit, ids)
    requires forall c :: ok(c) == Due(s, c)
    ensures Chosen(commands, ids, limit, locked, ok)
  {
    var candidates := Candidates(commands, s, locked);
    forall id | id in commands && id !in locked && ok(commands[id]) ensures id in candidates {
    }
  }

  /** Every chosen row is changed alike and logged once; nothing else is touched. */
  ghost predicate Updated(t: Tables, ids: seq<Id>, change: Command -> Command, log: Option<Event>, t': Tables) {
    && t'.commands.Keys == t.commands.Keys && t'.acks == t.acks
    && (forall id <- t.commands :: t'.commands[id] == if id in ids then change(t.commands[id]) else t.commands[id])
    && t'.events == t.events + LogRows(ids, log)
  }

  function LogRows(ids: seq<Id>, log: Option<Event>): seq<EventRow> {
    if log.None? then [] else seq(|ids|, i requires 0 <= i < |ids| => EventRow(ids[i], log.value))
  }

  predicate Distinct(ids: seq<Id>) {
    forall i, j :: 0 <= i < j < |ids| ==> ids[i] != ids[j]
  }

  lemma {:induction false} SweepUpdates(t: Tables, s: Sweep, ids: seq<Id>, change: Command -> Command)
    requires Distinct(ids) && forall i :: 0 <= i < |ids| ==> ids[i] in t.commands && Due(s, t.commands[ids[i]])
    requires forall c :: change(c) == Swept(s, c)
    ensures Updated(t, ids, change, Audit(s), SweepRows(t, s, ids))
    decreases |ids|
  {
    if ids == [] {
      assert t.events + LogRows(ids, Audit(s)) == t.events;
    } else {
      var rest, last := ids[..|ids| - 1], ids[|ids| - 1];
      SweepUpdates(t, s, rest, change);
      UpdateOneMore(t, s, rest, last, change);
      assert rest + [last] == ids;
    }
  }

  lemma UpdateOneMore(t: Tables, s: Sweep, rest: seq<Id>, last: Id, change: Command -> Command)
    requires last in t.commands && last !in rest && Due(s, t.commands[last])
    requires forall c :: change(c) == Swept(s, c)
    requires Updated(t, rest, change, Audit(s), SweepRows(t, s, rest))
    ensures var u := SweepRows(t, s, rest);
            Updated(t, rest + [last], change, Audit(s), Commit(u, SweepRow(u, s, last)))
  {
    var u := SweepRows(t, s, rest);
    assert u.commands[last] == t.commands[last];
    LogOneMore(rest, last, Audit(s));
    assert t.events + LogRows(rest, Audit(s)) + LogRows([last], Audit(s)) ==
        t.events + (LogRows(rest, Audit(s)) + LogRows([last], Audit(s)));
    assert t.events + LogRows(rest, Audit(s)) + [] == t.events + LogRows(rest, Audit(s));
  }

  lemma LogOneMore(rest: seq<Id>, last: Id, log: Option<Event>)
    ensures LogRows(rest + [last], log) == LogRows(rest, log) + LogRows([last], log)
    ensures LogRows([last], log) == if log.None? then [] else [EventRow(last, log.value)]
  {
  }

  lemma OldestFirstDistinct(commands: map<Id, Command>, candidates: set<Id>, limit: nat, ids: seq<Id>)
    requires OldestFirst(commands, candidates, limit, ids)
    ensures Distinct(ids)
  {
    forall i, j | 0 <= i < j < |ids| ensures ids[i] != ids[j] {
      assert Before(commands, ids[i], ids[j]);
    }
  }

  /** A batch statement, row by row: which rows it takes, and what becomes of them. */
  lemma BatchMeaning(t: Tables, s: Sweep, limit: nat, locked: set<Id>, ids: seq<Id>, ok: Command -> bool,
                     change: Command -> Command)
    requires OldestFirst(t.commands, Candidates(t.commands, s, locked), limit, ids)
    requires forall c :: ok(c) == Due(s, c) && change(c) == Swept(s, c)
    ensures Chosen(t.commands, ids, limit, locked, ok)
    ensures Updated(t, ids, change, Audit(s), SweepRows(t, s, ids))
  {
    SelectionChosen(t.commands, ids, s, limit, locked, ok);
    OldestFirstDistinct(t.commands, Candidates(t.commands, s, locked), limit, ids);
    SweepUpdates(t, s, ids, change);
  }

  /** Recovery, row by row, with the tables between its two statements: stale published rows that have attempts left
      are due again at once, then exhausted rows fail. */
  ghost predicate Recovered(t: Tables, requeued: seq<Id>, locked: set<Id>, mid: Tables, failed: seq<Id>,
                            lockedLater: set<Id>, staleBefore: Time, maxAttempts: nat, now: Time, t': Tables) {
    && Chosen(t.commands, requeued, SWEEP_LIMIT, locked, (c: Command) =>
         c.status.Published? && c.updatedAt <= staleBefore && c.attempts < maxAttempts)
    && Updated(t, requeued, (c: Command) => c.(status := Created, nextDispatchAt := now, updatedAt := now),
         Some(RequeuedEvent), mid)
    && Chosen(mid.commands, failed, SWEEP_LIMIT, lockedLater, (c: Command) =>
         c.attempts >= maxAttempts && ((c.status.Created? && c.nextDispatchAt <= now)
                                       || (c.status.Published? && c.updatedAt <= staleBefore)))
    && Updated(mid, failed, (c: Command) => c.(status := Failed, updatedAt := now), Some(FailedEvent), t')
  }

  lemma RecoveryMeaning(t: Tables, requeued: seq<Id>, locked: set<Id>, failed: seq<Id>, lockedLater: set<Id>,
                        staleBefore: Time, maxAttempts: nat, now: Time)
    requires var requeue, fail := RequeueStale(staleBefore, now, maxAttempts), FailStale(staleBefore, now, maxAttempts);
             var mid := SweepRows(t, requeue, requeued);
             && OldestFirst(t.commands, Candidates(t.commands, requeue, locked), SWEEP_LIMIT, requeued)
             && OldestFirst(mid.commands, Candidates(mid.commands, fail, lockedLater), SWEEP_LIMIT, failed)
    ensures var requeue, fail := RequeueStale(staleBefore, now, maxAttempts), FailStale(staleBefore, now, maxAttempts);
            var mid := SweepRows(t, requeue, requeued);
            Recovered(t, requeued, locked, mid, failed, lockedLater, staleBefore, maxAttempts, now,
                SweepRows(mid, fail, failed))
  {
    var requeue, fail := RequeueStale(staleBefore, now, maxAttempts), FailStale(staleBefore, now, maxAttempts);
    var mid := SweepRows(t, requeue, requeued);
    BatchMeaning(t, requeue, SWEEP_LIMIT, locked, requeued,
        (c: Command) => c.status.Published? && c.updatedAt <= staleBefore && c.attempts < maxAttempts,
        (c: Command) => c.(status := Created, nextDispatchAt := now, updatedAt := now));
    BatchMeaning(mid, fail, SWEEP_LIMIT, lockedLater, failed,
        (c: Command) => c.attempts >= maxAttempts && ((c.status.Created? && c.nextDispatchAt <= now)
                                                      || (c.status.Published? && c.updatedAt <= staleBefore)),
        (c: Command) => c.(status := Failed, updatedAt := now));
  }

  // ----- acknowledgement -----------------------------------------------------

  datatype AckReply = CommandNotFound | AckConflict | AckInvalid | AckStored(command: Command)

  function ResultEvent(s: Status): Event {
    match s
    case Created => CreatedEvent
    case Published => PublishedEvent
    case Sent => DeliveredEvent
    case Acked => AckedEvent
    case Failed => FailedEvent
    case Timeout => TimeoutEvent
  }

  function AckReplyFor(t: Tables, id: Id, tenant: string, device: string, r: ExecutionResult, now: Time): AckReply {
    if id !in t.commands then CommandNotFound
    else
      var c := t.commands[id];
      if c.tenant != tenant || c.device != device then CommandNotFound
      else if Terminal(c.status) then
        if c.result.Some? && c.result.value != r then AckConflict else AckStored(c)
      else
        match AdvanceCommandStatus(c.status, ResultEvent(r.status))
        case None => AckInvalid
        case Some(next) => AckStored(c.(status := next, updatedAt := now, result := Some(r)))
  }

  function Acknowledge(t: Tables, id: Id, tenant: string, device: string, r: ExecutionResult, now: Time): Write {
    match AckReplyFor(t, id, tenant, device, r, now)
    case AckStored(c) =>
      if id in t.commands && !Terminal(t.commands[id].status) then Write(id, c, Some(ResultEvent(r.status)), Some(r))
      else Skip
    case _ => Skip
  }

  // ----- the store, in place -------------------------------------------------

  class PostgresStore {
    var commands: map<Id, Command>
    var events: seq<EventRow>
    var acks: seq<AckRow>

    constructor ()
      ensures Contents() == Tables(map[], [], [])
    {
      commands, events, acks := map[], [], [];
    }

    function Contents(): Tables
      reads this
    {
      Tables(commands, events, acks)
    }

    /** One transaction: device check, insert unless the tenant already used the key. */
    method CreateCommandWithKey(devices: set<(string, string)>, newId: Id, tenant: string, device: string, key: string,
                                payload: Jsonb, now: Time)
      returns (reply: CreateReply)
      requires newId !in commands
      modifies this
      ensures (tenant, device) !in devices ==> reply == DeviceNotFound && Contents() == old(Contents())
      ensures (tenant, device) in devices && KeyFree(old(Contents()), tenant, key) ==>
                reply == Inserted(newId)
                    && Contents() == Commit(old(Contents()), Insert(newId, tenant, device, key, payload, now))
      ensures reply.Inserted? ==>
                && commands == old(commands)[newId :=
                     Command(tenant, device, key, Created, payload, 0, now, None, None, now, now)]
                && events == old(events) + [EventRow(newId, CreatedEvent)] && acks == old(acks)
      ensures (tenant, device) in devices && !KeyFree(old(Contents()), tenant, key) ==>
                && Contents() == old(Contents())
                && exists id :: HoldsKey(old(Contents()), id, tenant, key) &&
                     reply == if old(commands)[id].device == device && old(commands)[id].payload == payload
                              then Reused(id) else KeyConflict
    {
      if (tenant, device) !in devices {
        return DeviceNotFound;
      }
      if id :| id in commands && HoldsKey(Contents(), id, tenant, key) {
        if commands[id].device == device && commands[id].payload == payload {
          return Reused(id);
        }
        return KeyConflict;
      }
      commands := commands[newId := NewCommand(tenant, device, key, payload, now)];
      events := events + [EventRow(newId, CreatedEvent)];
      return Inserted(newId);
    }

    method AckCommandResult(id: Id, tenant: string, device: string, r: ExecutionResult, now: Time)
      returns (reply: AckReply)
      modifies this
      ensures reply == AckReplyFor(old(Contents()), id, tenant, device, r, now)
      ensures Contents() == Commit(old(Contents()), Acknowledge(old(Contents()), id, tenant, device, r, now))
    {
      if id !in commands || commands[id].tenant != tenant || commands[id].device != device {
        return CommandNotFound;
      }
      var c := commands[id];
      if c.status == Acked || c.status == Timeout || c.status == Failed {
        if c.result.Some? && c.result.value != r {
          return AckConflict;
        }
        return AckStored(c);
      }
      var next := AdvanceCommandStatus(c.status, ResultEvent(r.status));
      if next.None? {
        return AckInvalid;
      }
      c := c.(status := next.value, updatedAt := now, result := Some(r));
      commands := commands[id := c];
      acks := acks + [AckRow(id, tenant, device, r)];
      events := events + [EventRow(id, ResultEvent(r.status))];
      return AckStored(c);
    }

    method MarkCommandPublished(id: Id, attempt: nat, now: Time)
      modifies this
      ensures Contents() == Commit(old(Contents()), MarkPublished(old(Contents()), id, attempt, now))
    {
      if id in commands && ClaimStands(commands[id], attempt, now) {
        commands := commands[id := commands[id].(status := Published, updatedAt := now)];
        events := events + [EventRow(id, PublishedEvent)];
      }
    }

    method MarkCommandSent(id: Id, deadline: Time, now: Time)
      modifies this
      ensures Contents() == Commit(old(Contents()), MarkSent(old(Contents()), id, deadline, now))
    {
      if id in commands && (commands[id].status == Created || commands[id].status == Published) {
        commands := commands[id := commands[id].(status := Sent, deadline := Some(deadline), updatedAt := now)];
        events := events + [EventRow(id, DeliveredEvent)];
      }
    }

    method RescheduleCommand(id: Id, attempt: nat, retryAfter: Time, now: Time)
      modifies this`commands
      ensures Contents() == Commit(old(Contents()), Reschedule(old(Contents()), id, attempt, retryAfter, now))
    {
      if id in commands && ClaimStands(commands[id], attempt, now) {
        commands := commands[id := commands[id].(nextDispatchAt := now + retryAfter, updatedAt := now)];
      }
    }

    method RequeueCommand(id: Id, retryAfter: Time, now: Time)
      modifies this
      ensures Contents() == Commit(old(Contents()), Requeue(old(Contents()), id, retryAfter, now))
    {
      if id in commands && commands[id].status == Published {
        commands := commands[id :=
            commands[id].(status := Created, nextDispatchAt := now + retryAfter, updatedAt := now)];
        events := events + [EventRow(id, RequeuedEvent)];
      }
    }

    /** The oldest of a non-empty set of candidates. */
    method Oldest(candidates: set<Id>) returns (first: Id)
      requires candidates != {} && candidates <= commands.Keys
      ensures first in candidates
      ensures forall id <- candidates :: id != first ==> Before(commands, first, id)
    {
      first :| first in candidates;
      var rest := candidates - {first};
      while rest != {}
        invariant rest <= candidates && first in candidates && first !in rest
        invariant forall id <- candidates :: id !in rest && id != first ==> Before(commands, first, id)
        decreases rest
      {
        var id :| id in rest;
        rest := rest - {id};
        if Before(commands, id, first) {
          first := id;
        }
      }
    }

    /** SELECT ... ORDER BY created_at, id LIMIT n FOR UPDATE SKIP LOCKED. */
    method SelectDue(s: Sweep, limit: nat, locked: set<Id>) returns (ids: seq<Id>)
      ensures OldestFirst(commands, Candidates(commands, s, locked), limit, ids)
    {
      ids := [];
      var all := Candidates(commands, s, locked);
      var rest := all;
      while |ids| < limit && rest != {}
        invariant |ids| <= limit && rest <= all <= commands.Keys
        invariant forall i :: 0 <= i < |ids| ==> ids[i] in all && ids[i] !in rest
        invariant forall i, j :: 0 <= i < j < |ids| ==> Before(commands, ids[i], ids[j])
        invariant forall id <- all :: id !in rest ==> id in ids
        invariant forall i, id :: 0 <= i < |ids| && id in rest ==> Before(commands, ids[i], id)
        decreases rest
      {
        var first := Oldest(rest);
        ids := ids + [first];
        rest := rest - {first};
      }
    }

    /** One selected row: its new state and its audit event. */
    method UpdateRow(s: Sweep, id: Id)
      requires id in commands && Due(s, commands[id])
      modifies this
      ensures Contents() == Commit(old(Contents()), SweepRow(old(Contents()), s, id))
    {
      commands := commands[id := Swept(s, commands[id])];
      if Audit(s).Some? {
        events := events + [EventRow(id, Audit(s).value)];
      }
    }

    /** The shared body of the batch statements: state and audit in one statement. */
    method UpdateBatch(s: Sweep, limit: nat, locked: set<Id>) returns (ids: seq<Id>)
      modifies this
      ensures OldestFirst(old(commands), Candidates(old(commands), s, locked), limit, ids)
      ensures Contents() == SweepRows(old(Contents()), s, ids)
    {
      ids := SelectDue(s, limit, locked);
      for i := 0 to |ids|
        invariant Contents() == SweepRows(old(Contents()), s, ids[..i])
        invariant forall j :: i <= j < |ids| ==> ids[j] in commands && commands[ids[j]] == old(commands)[ids[j]]
      {
        assert ids[..i + 1][..i] == ids[..i];
        UpdateRow(s, ids[i]);
      }
      assert ids[..|ids|] == ids;
    }

    method ClaimCommandsForDispatch(limit: nat, lease: Time, now: Time, locked: set<Id>) returns (ids: seq<Id>)
      modifies this
      ensures OldestFirst(old(commands), Candidates(old(commands), ClaimDue(now, lease), locked), limit, ids)
      ensures Contents() == SweepRows(old(Contents()), ClaimDue(now, lease), ids)
      ensures Chosen(old(commands), ids, limit, locked, (c: Command) =>
                c.status.Created? && c.nextDispatchAt <= now && c.attempts < MAX_DISPATCH_ATTEMPTS)
      ensures Updated(old(Contents()), ids, (c: Command) =>
                c.(attempts := c.attempts + 1, nextDispatchAt := now + lease, updatedAt := now), None, Contents())
    {
      ids := UpdateBatch(ClaimDue(now, lease), limit, locked);
      BatchMeaning(old(Contents()), ClaimDue(now, lease), limit, locked, ids,
          (c: Command) => c.status.Created? && c.nextDispatchAt <= now && c.attempts < MAX_DISPATCH_ATTEMPTS,
          (c: Command) => c.(attempts := c.attempts + 1, nextDispatchAt := now + lease, updatedAt := now));
    }

    method ExpireCommands(at: Time, grace: Time, locked: set<Id>) returns (ids: seq<Id>)
      modifies this
      ensures OldestFirst(old(commands), Candidates(old(commands), ExpireDue(at, grace), locked), SWEEP_LIMIT, ids)
      ensures Contents() == SweepRows(old(Contents()), ExpireDue(at, grace), ids)
      ensures Chosen(old(commands), ids, SWEEP_LIMIT, locked, (c: Command) =>
                c.status.Sent? && if c.deadline.Some? then c.deadline.value <= at
                                  else grace > 0 && c.updatedAt + grace <= at)
      ensures Updated(old(Contents()), ids, (c: Command) => c.(status := Timeout, updatedAt := at), Some(TimeoutEvent),
                Contents())
    {
      ids := UpdateBatch(ExpireDue(at, grace), SWEEP_LIMIT, locked);
      BatchMeaning(old(Contents()), ExpireDue(at, grace), SWEEP_LIMIT, locked, ids,
          (c: Command) => c.status.Sent? && if c.deadline.Some? then c.deadline.value <= at
                                            else grace > 0 && c.updatedAt + grace <= at,
          (c: Command) => c.(status := Timeout, updatedAt := at));
    }

    /** Two statements: requeue stale published rows, then fail the exhausted ones. */
    method RecoverStaleCommands(staleBefore: Time, maxAttempts: nat, now: Time, locked: set<Id>, lockedLater: set<Id>)
      returns (requeued: seq<Id>, failed: seq<Id>)
      modifies this
      ensures OldestFirst(old(commands),
              Candidates(old(commands), RequeueStale(staleBefore, now, maxAttempts), locked), SWEEP_LIMIT, requeued)
      ensures var mid := SweepRows(old(Contents()), RequeueStale(staleBefore, now, maxAttempts), requeued);
              && OldestFirst(mid.commands,
                 Candidates(mid.commands, FailStale(staleBefore, now, maxAttempts), lockedLater), SWEEP_LIMIT, failed)
              && Contents() == SweepRows(mid, FailStale(staleBefore, now, maxAttempts), failed)
      ensures exists mid :: Recovered(old(Contents()), requeued, locked, mid, failed, lockedLater, staleBefore,
                maxAttempts, now, Contents())
    {
      requeued := UpdateBatch(RequeueStale(staleBefore, now, maxAttempts), SWEEP_LIMIT, locked);
      failed := UpdateBatch(FailStale(staleBefore, now, maxAttempts), SWEEP_LIMIT, lockedLater);
      RecoveryMeaning(old(Contents()), requeued, locked, failed, lockedLater, staleBefore, maxAttempts, now);
    }
  }
}
