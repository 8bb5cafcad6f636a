/** What the command protocol guarantees over whole runs: lease fencing, the
    audit log, acknowledgements that take effect once, and no delivery after a
    command is settled. */
module CommandSafety {
  import opened Wrappers
  import opened CommandStatus
  import opened CommandStore
  import opened CommandProtocol

  // ----- lease fencing -------------------------------------------------------

  /** A completion call takes effect exactly when its claim is the latest one, the
      row is still created, and the lease has not run out; in every reachable state,
      whatever the other dispatchers did in between. */
  lemma CompletionEffect(ws: seq<World>, i: nat, tok: Token, retryAfter: Time, now: Time)
    requires Run(ws) && ws[0] == Empty && i < |ws| && tok in ws[i].tokens
    ensures tok.id in ws[i].t.commands
    ensures var c := ws[i].t.commands[tok.id];
            var stands := tok.attempt == c.attempts && c.status.Created? && now < tok.leaseEnd;
            && MarkPublished(ws[i].t, tok.id, tok.attempt, now).Write? == stands
            && Reschedule(ws[i].t, tok.id, tok.attempt, retryAfter, now).Write? == stands
  {
    InvAlways(ws, i);
    assert RowInv(ws[i], tok.id);
  }

  /** At most one outstanding claim per command can still take effect, at any two clock readings. */
  lemma OneEffectiveClaim(ws: seq<World>, i: nat, x: Token, y: Token, nowX: Time, nowY: Time)
    requires Run(ws) && ws[0] == Empty && i < |ws| && x in ws[i].tokens && y in ws[i].tokens && x.id == y.id
    requires MarkPublished(ws[i].t, x.id, x.attempt, nowX).Write?
             && MarkPublished(ws[i].t, y.id, y.attempt, nowY).Write?
    ensures x == y && ws[i].tokens[x] == 1
  {
    InvAlways(ws, i);
    assert RowInv(ws[i], x.id);
  }

  /** A superseded claim has run out. */
  ghost predicate LeasesSpent(w: World) {
    forall tok :: tok in w.tokens && tok.id in w.t.commands && tok.attempt < w.t.commands[tok.id].attempts ==>
          tok.leaseEnd <= w.now
  }

  lemma TokenOrigin(w: World, a: Action, tok: Token)
    requires Enabled(w, a) && tok in TokensAfter(w, a) && tok !in w.tokens
    ensures a.op.ClaimOp? && tok == Token(a.op.id, w.t.commands[a.op.id].attempts + 1, a.at + a.op.lease)
  {
  }

  lemma AttemptsStep(w: World, a: Action, id: Id)
    requires Enabled(w, a) && id in w.t.commands && id in Apply(w, a).t.commands
    ensures if a.op.ClaimOp? && a.op.id == id
            then Apply(w, a).t.commands[id].attempts == w.t.commands[id].attempts + 1
                && w.t.commands[id].status.Created? && w.t.commands[id].nextDispatchAt <= a.at
            else Apply(w, a).t.commands[id].attempts == w.t.commands[id].attempts
  {
  }

  lemma LeaseSpentKept(w: World, a: Action, tok: Token)
    requires tok.id in w.t.commands && RowInv(w, tok.id) && LeasesSpent(w) && Enabled(w, a) && w.now <= a.at
    requires tok in TokensAfter(w, a) && tok.id in Apply(w, a).t.commands
             && tok.attempt < Apply(w, a).t.commands[tok.id].attempts
    ensures tok.leaseEnd <= a.at
  {
    AttemptsStep(w, a, tok.id);
    if tok !in w.tokens { TokenOrigin(w, a, tok); }
  }

  lemma LeasesSpentKept(w: World, a: Action)
    requires Inv(w) && LeasesSpent(w) && Enabled(w, a) && w.now <= a.at
    ensures LeasesSpent(Apply(w, a))
  {
    var w' := Apply(w, a);
    forall tok | tok in w'.tokens && tok.id in w'.t.commands && tok.attempt < w'.t.commands[tok.id].attempts
      ensures tok.leaseEnd <= w'.now
    {
      if tok !in w.tokens { TokenOrigin(w, a, tok); }
      LeaseSpentKept(w, a, tok);
    }
  }

  ghost predicate Clocked(ws: seq<World>) {
    forall i: nat {:trigger StepAt(ws, i)} :: i + 1 < |ws| ==> ws[i].now <= ws[i + 1].now
  }

  lemma ActionAt(ws: seq<World>, i: nat) returns (a: Action)
    requires Run(ws) && i + 1 < |ws|
    ensures Enabled(ws[i], a) && ws[i + 1] == Apply(ws[i], a)
  {
    assert StepAt(ws, i);
    a :| Enabled(ws[i], a) && ws[i + 1] == Apply(ws[i], a);
  }

  lemma ClockAt(ws: seq<World>, i: nat)
    requires Clocked(ws) && i + 1 < |ws|
    ensures ws[i].now <= ws[i + 1].now
  {
    var _ := StepAt(ws, i);
  }

  lemma LeasesSpentNext(ws: seq<World>, i: nat)
    requires Run(ws) && ws[0] == Empty && i + 1 < |ws| && LeasesSpent(ws[i]) && ws[i].now <= ws[i + 1].now
    ensures LeasesSpent(ws[i + 1])
  {
    var a := ActionAt(ws, i);
    InvAlways(ws, i);
    LeasesSpentKept(ws[i], a);
  }

  lemma {:induction false} LeasesSpentAlways(ws: seq<World>, i: nat)
    requires Run(ws) && ws[0] == Empty && Clocked(ws) && i < |ws|
    ensures LeasesSpent(ws[i])
  {
    if i > 0 {
      LeasesSpentAlways(ws, i - 1);
      ClockAt(ws, i - 1);
      LeasesSpentNext(ws, i - 1);
    }
  }

  /** Under a nondecreasing clock at most one unexpired claim per command is outstanding. */
  lemma OneUnexpiredClaim(ws: seq<World>, i: nat, x: Token, y: Token)
    requires Run(ws) && ws[0] == Empty && Clocked(ws) && i < |ws|
    requires x in ws[i].tokens && y in ws[i].tokens && x.id == y.id && x.leaseEnd > ws[i].now && y.leaseEnd > ws[i].now
    ensures x == y && ws[i].tokens[x] == 1
  {
    InvAlways(ws, i);
    LeasesSpentAlways(ws, i);
    assert RowInv(ws[i], x.id);
  }

  /** No sweep claims, requeues or fails a command while a dispatcher holds an unexpired claim on it. */
  lemma SweepsWaitForLeases(ws: seq<World>, i: nat, s: Sweep, tok: Token)
    requires Run(ws) && ws[0] == Empty && Clocked(ws) && i < |ws| && tok in ws[i].tokens
    requires !s.ExpireDue? && ws[i].now <= s.now && SweepRow(ws[i].t, s, tok.id).Write?
    ensures tok.leaseEnd <= s.now
  {
    InvAlways(ws, i);
    LeasesSpentAlways(ws, i);
    assert RowInv(ws[i], tok.id);
  }

  // ----- the audit log -------------------------------------------------------

  lemma RecordedAlways(ws: seq<World>, i: nat, id: Id)
    requires Run(ws) && ws[0] == Empty && i < |ws| && id in ws[i].t.commands
    ensures Recorded(id, ws[i].t.commands[id], History(ws[i].t.events, id), AcksOf(ws[i].t.acks, id))
  {
    InvAlways(ws, i);
    assert RowInv(ws[i], id);
  }

  /** Folding the events of a command yields its status; a terminal event is last and there is
      at most one; publications are bounded by the attempts spent, and those by the cap. */
  lemma AuditLogDeterminesStatus(ws: seq<World>, i: nat, id: Id)
    requires Run(ws) && ws[0] == Empty && i < |ws| && id in ws[i].t.commands
    ensures var c, h := ws[i].t.commands[id], History(ws[i].t.events, id);
            && Replay(h) == Some(c.status)
            && h[0].CreatedEvent?
            && (forall k :: 0 <= k < |h| - 1 ==> !TerminalEvent(h[k]))
            && (TerminalEvent(h[|h| - 1]) <==> Terminal(c.status))
            && Count(h, RequeuedEvent) <= Count(h, PublishedEvent) <= Count(h, RequeuedEvent) + 1
            && Count(h, PublishedEvent) <= c.attempts <= MAX_DISPATCH_ATTEMPTS
  {
    RecordedAlways(ws, i, id);
    HistoryShape(History(ws[i].t.events, id));
    PublicationsAlternate(History(ws[i].t.events, id));
  }

  // ----- acknowledgements ----------------------------------------------------

  /** One acknowledgement row exists exactly when the command has a result, it holds that
      result, and the command's status is the status the device reported. */
  lemma AckRowsMatchResults(ws: seq<World>, i: nat, id: Id)
    requires Run(ws) && ws[0] == Empty && i < |ws| && id in ws[i].t.commands
    ensures var c := ws[i].t.commands[id];
            && (c.result.None? ==> AcksOf(ws[i].t.acks, id) == [])
            && (c.result.Some? ==> AcksOf(ws[i].t.acks, id) == [AckRow(id, c.tenant, c.device, c.result.value)])
            && (c.result.Some? ==> c.status == c.result.value.status && Terminal(c.status))
            && (c.status.Acked? ==> c.result.Some?)
  {
    RecordedAlways(ws, i, id);
  }

  lemma TerminalStep(w: World, a: Action, id: Id)
    requires Enabled(w, a) && id in w.t.commands && Terminal(w.t.commands[id].status)
    ensures SameRow(w.t, Apply(w, a).t, id)
  {
    var wr := Statement(w, a);
    if wr.Write? && !a.op.CreateOp? { StatementLegal(w, a); }
    CommitElsewhere(w.t, wr, id);
  }

  /** Once terminal, a command's row, its history and its acknowledgements never change again:
      late, repeated, conflicting or replayed acknowledgements and every sweep leave it alone. */
  lemma {:induction false} TerminalFrozen(ws: seq<World>, i: nat, j: nat, id: Id)
    requires Run(ws) && i <= j < |ws| && id in ws[i].t.commands && Terminal(ws[i].t.commands[id].status)
    ensures SameRow(ws[i].t, ws[j].t, id)
  {
    if i < j {
      TerminalFrozen(ws, i, j - 1, id);
      assert StepAt(ws, j - 1);
      var a :| Enabled(ws[j - 1], a) && ws[j] == Apply(ws[j - 1], a);
      TerminalStep(ws[j - 1], a, id);
    }
  }

  /** A result is written at most once: whatever is delivered again later, it stays. */
  lemma ResultWrittenOnce(ws: seq<World>, i: nat, j: nat, id: Id)
    requires Run(ws) && ws[0] == Empty && i <= j < |ws| && id in ws[i].t.commands && ws[i].t.commands[id].result.Some?
    ensures id in ws[j].t.commands && ws[j].t.commands[id].result == ws[i].t.commands[id].result
    ensures AcksOf(ws[j].t.acks, id) ==
            [AckRow(id, ws[i].t.commands[id].tenant, ws[i].t.commands[id].device, ws[i].t.commands[id].result.value)]
  {
    AckRowsMatchResults(ws, i, id);
    TerminalFrozen(ws, i, j, id);
  }

  predicate ResultFits(c: Command) {
    c.result.Some? ==> Normalized(c.result.value) && c.status == c.result.value.status
  }

  ghost predicate AckMeans(t: Tables, id: Id, tenant: string, device: string, r: ExecutionResult, reply: AckReply,
                           write: Write) {
    var known := id in t.commands && t.commands[id].tenant == tenant && t.commands[id].device == device;
    && (!known <==> reply.CommandNotFound?)
    && !reply.AckInvalid?
    && (reply.AckConflict? <==> known && t.commands[id].result.Some? && t.commands[id].result.value != r)
    && (write.Write? <==> known && !Terminal(t.commands[id].status))
    && (write.Write? ==>
         && Commit(t, write).commands[id].result == Some(r) && Commit(t, write).commands[id].status == r.status
         && reply == AckStored(Commit(t, write).commands[id]) && write.ack == Some(r))
    && (reply.AckStored? && write.Skip? ==>
         reply.command == t.commands[id] && (t.commands[id].result.None? || t.commands[id].result == Some(r)))
  }

  lemma AckReplyMeaning(t: Tables, id: Id, tenant: string, device: string, r: ExecutionResult, now: Time)
    requires Normalized(r) && (id in t.commands ==> ResultFits(t.commands[id]))
    ensures AckMeans(t, id, tenant, device, r, AckReplyFor(t, id, tenant, device, r, now),
            Acknowledge(t, id, tenant, device, r, now))
  {
  }

  /** The reply to an acknowledgement, in every reachable state: unknown or foreign commands are
      not found; the first result is stored; an equal repeat succeeds without a write; a different
      one conflicts without a write; after a timeout or a recovery failure it succeeds without a write. */
  lemma AckReplies(ws: seq<World>, i: nat, id: Id, tenant: string, device: string, r: ExecutionResult, now: Time)
    requires Run(ws) && ws[0] == Empty && i < |ws| && Normalized(r)
    ensures AckMeans(ws[i].t, id, tenant, device, r, AckReplyFor(ws[i].t, id, tenant, device, r, now),
            Acknowledge(ws[i].t, id, tenant, device, r, now))
  {
    if id in ws[i].t.commands { RecordedAlways(ws, i, id); }
    AckReplyMeaning(ws[i].t, id, tenant, device, r, now);
  }

  // ----- delivery ------------------------------------------------------------

  lemma {:induction false} SettledForever(ws: seq<World>, i: nat, j: nat, id: Id)
    requires Run(ws) && i <= j < |ws| && id in ws[i].t.commands && Settled(ws[i].t.commands[id].status)
    ensures id in ws[j].t.commands && Settled(ws[j].t.commands[id].status)
  {
    if i < j {
      SettledForever(ws, i, j - 1, id);
      assert StepAt(ws, j - 1);
      var a :| Enabled(ws[j - 1], a) && ws[j] == Apply(ws[j - 1], a);
      SettledStays(ws[j - 1], a, id);
    }
  }

  /** Every lookup made after a command settled refuses to publish it. */
  lemma NoLookupAfterSettled(ws: seq<World>, i: nat, j: nat, id: Id, tenant: string, device: string)
    requires Run(ws) && i <= j < |ws| && id in ws[i].t.commands && Settled(ws[i].t.commands[id].status)
    ensures !Deliverable(ws[j].t, id, tenant, device)
  {
    SettledForever(ws, i, j, id);
  }

  /** An offset committed on the success path belongs to a settled command. */
  lemma CommittedOffsetIsSettled(ws: seq<World>, i: nat, n: nat)
    requires Run(ws) && ws[0] == Empty && i < |ws| && Enabled(ws[i], Action(ws[i].now, CommitOp(n)))
    ensures var id := ws[i].flights[n].id; id in ws[i].t.commands && Settled(ws[i].t.commands[id].status)
  {
    InvAlways(ws, i);
  }

  function Downlinks(log: seq<Id>, id: Id): nat {
    if log == [] then 0
    else Downlinks(log[..|log| - 1], id) + if log[|log| - 1] == id then 1 else 0
  }

  function InFlight(w: World, id: Id): set<nat> {
    set n | n in w.flights && w.flights[n] == Granted(id)
  }

  lemma SettledDownlinkStep(w: World, a: Action, id: Id)
    requires Enabled(w, a) && id in w.t.commands && Settled(w.t.commands[id].status)
    ensures Downlinks(Apply(w, a).downlinks, id) + |InFlight(Apply(w, a), id)| <= Downlinks(w.downlinks, id) +
            |InFlight(w, id)|
  {
    var w' := Apply(w, a);
    assert InFlight(w', id) <= InFlight(w, id);
    if a.op.DownlinkOp? {
      var n := a.op.flight;
      assert (w.downlinks + [w.flights[n].id])[..|w.downlinks|] == w.downlinks;
      if w.flights[n].id == id {
        assert n in InFlight(w, id) && InFlight(w', id) == InFlight(w, id) - {n};
      }
    }
    SubsetSize(InFlight(w', id), InFlight(w, id));
  }

  lemma {:induction false} SubsetSize(a: set<nat>, b: set<nat>)
    requires a <= b
    ensures |a| <= |b|
  {
    if x :| x in a {
      SubsetSize(a - {x}, b - {x});
    }
  }

  /** After a command settles, it is published at most as many more times as it was already in
      the hands of a worker at that moment. */
  lemma {:induction false} NoRedeliveryAfterSettled(ws: seq<World>, i: nat, j: nat, id: Id)
    requires Run(ws) && i <= j < |ws| && id in ws[i].t.commands && Settled(ws[i].t.commands[id].status)
    ensures Downlinks(ws[j].downlinks, id) + |InFlight(ws[j], id)| <= Downlinks(ws[i].downlinks, id) +
            |InFlight(ws[i], id)|
  {
    if i < j {
      NoRedeliveryAfterSettled(ws, i, j - 1, id);
      SettledForever(ws, i, j - 1, id);
      assert StepAt(ws, j - 1);
      var a :| Enabled(ws[j - 1], a) && ws[j] == Apply(ws[j - 1], a);
      SettledDownlinkStep(ws[j - 1], a, id);
    }
  }

  // ----- requests ------------------------------------------------------------

  /** Retrying a keyed request never creates a second command. */
  lemma OneCommandPerKey(ws: seq<World>, i: nat, x: Id, y: Id)
    requires Run(ws) && ws[0] == Empty && i < |ws| && x in ws[i].t.commands && y in ws[i].t.commands
    requires ws[i].t.commands[x].key != "" && ws[i].t.commands[x].key == ws[i].t.commands[y].key
    requires ws[i].t.commands[x].tenant == ws[i].t.commands[y].tenant
    ensures x == y
  {
    InvAlways(ws, i);
  }
}
