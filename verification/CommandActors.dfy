/** The processes that drive the command store: the dispatcher's claim loop, the
    worker's handling of one Kafka command event, and the handler of one device
    acknowledgement.  Each runs against the store in place, and each is proved to
    be a run of the transition system in CommandProtocol, whatever fails. */
module CommandActors {
  import opened Wrappers
  import opened CommandStatus
  import opened CommandStore
  import opened CommandProtocol

  const SECOND: Time := 1_000_000
  const LEASE: Time := 30 * SECOND
  const BATCH_SIZE: nat := 100
  const ACK_STORE_ATTEMPTS: nat := 3

  /** How a call to the database went: it may fail without effect, or commit and still report failure. */
  datatype Fault = Fine | NotApplied | AppliedUnreported

  function Pow2(n: nat): nat {
    if n == 0 then 1 else 2 * Pow2(n - 1)
  }

  /** One second doubled per attempt, bounded below by a corrupted negative counter and above at 64 seconds. */
  function CommandRetryBackoff(attempt: int): Time {
    SECOND * Pow2(if attempt < 0 then 0 else if attempt < 6 then attempt else 6)
  }

  lemma {:induction false} Pow2Grows(m: nat, n: nat)
    requires m <= n
    ensures 1 <= Pow2(m) <= Pow2(n)
    decreases n
  {
    if m < n {
      Pow2Grows(m, n - 1);
    } else if n > 0 {
      Pow2Grows(m - 1, n - 1);
    }
  }

  lemma BackoffBounds(a: int, b: int)
    requires a <= b
    ensures SECOND <= CommandRetryBackoff(a) <= CommandRetryBackoff(b) <= 64 * SECOND
  {
    var clamp := (x: int) => if x < 0 then 0 else if x < 6 then x else 6;
    Pow2Grows(clamp(a), clamp(b));
    Pow2Grows(clamp(b), 6);
    assert Pow2(6) == 64;
  }

  /** One second for the first attempt, twice as long for each further one up to the sixth, and no longer after. */
  lemma BackoffDoubles(attempt: int)
    ensures attempt <= 0 ==> CommandRetryBackoff(attempt) == SECOND
    ensures 0 <= attempt < 6 ==> CommandRetryBackoff(attempt + 1) == 2 * CommandRetryBackoff(attempt)
    ensures attempt >= 6 ==> CommandRetryBackoff(attempt + 1) == CommandRetryBackoff(attempt)
  {
    var n := if attempt < 0 then 0 else attempt;
    assert Pow2(n + 1) == 2 * Pow2(n);
  }

  // ----- runs ----------------------------------------------------------------

  ghost predicate RunTo(ws: seq<World>, w: World, w': World) {
    Run(ws) && ws[0] == w && ws[|ws| - 1] == w'
  }

  ghost predicate Reaches(w: World, w': World) {
    exists ws :: RunTo(ws, w, w')
  }

  lemma ReachesSelf(w: World)
    ensures Reaches(w, w)
  {
    assert RunTo([w], w, w);
  }

  lemma ReachesStep(w: World, v: World, a: Action)
    requires Reaches(w, v) && Enabled(v, a)
    ensures Reaches(w, Apply(v, a))
  {
    var ws :| RunTo(ws, w, v);
    var longer := ws + [Apply(v, a)];
    forall i: nat | i + 1 < |longer| ensures StepAt(longer, i) {
      if i + 1 < |ws| {
        assert StepAt(ws, i);
        assert longer[i] == ws[i] && longer[i + 1] == ws[i + 1];
      } else {
        assert Enabled(longer[i], a) && longer[i + 1] == Apply(longer[i], a);
      }
    }
    assert RunTo(longer, w, Apply(v, a));
  }

  /** A batch sweep is a run of single-row scans at one instant. */
  lemma {:induction false} BatchIsRun(w: World, s: Sweep, ids: seq<Id>, at: Time)
    requires ScanAllowed(s, at)
    ensures var t := SweepRows(w.t, s, ids); Reaches(w, w.(t := t, now := if ids == [] then w.now else at))
  {
    if ids == [] {
      ReachesSelf(w);
      assert w.(t := SweepRows(w.t, s, []), now := w.now) == w;
    } else {
      var rest, id := ids[..|ids| - 1], ids[|ids| - 1];
      BatchIsRun(w, s, rest, at);
      var v := w.(t := SweepRows(w.t, s, rest), now := if rest == [] then w.now else at);
      ReachesStep(w, v, Action(at, ScanOp(s, id)));
      assert Apply(v, Action(at, ScanOp(s, id))) == w.(t := SweepRows(w.t, s, ids), now := at);
    }
  }

  // ----- the dispatcher ------------------------------------------------------

  /** What one turn of the dispatcher's loop meets. */
  datatype Turn = Turn(claimAt: Time, locked: set<Id>, claim: Fault, publishOk: bool, completeAt: Time, complete: Fault)

  lemma SweepOne(t: Tables, s: Sweep, ids: seq<Id>)
    requires |ids| == 1
    ensures SweepRows(t, s, ids) == Commit(t, SweepRow(t, s, ids[0]))
  {
    assert ids[..0] == [];
  }

  /** The command one claim takes: due, not locked, and older than every other such command. */
  ghost predicate OldestDue(commands: map<Id, Command>, turn: Turn, id: Id) {
    var due := Candidates(commands, ClaimDue(turn.claimAt, LEASE), turn.locked);
    id in due && forall other <- due :: other != id ==> Before(commands, id, other)
  }

  function ClaimAction(turn: Turn, id: Id): Action {
    Action(turn.claimAt, ClaimOp(id, LEASE, turn.claim == Fine))
  }

  function ClaimToken(w: World, turn: Turn, id: Id): Token
    requires id in w.t.commands
  {
    Token(id, w.t.commands[id].attempts + 1, turn.claimAt + LEASE)
  }

  /** Exactly one completion per claim: published, rescheduled with backoff, or lost. */
  function CompletionAction(turn: Turn, tok: Token): Action {
    Action(turn.completeAt,
           if turn.complete == NotApplied then AbandonOp(tok)
           else if turn.publishOk then PublishedOp(tok)
           else RescheduledOp(tok, CommandRetryBackoff(tok.attempt)))
  }

  /** Every command but one is as it was. */
  ghost predicate OnlyRow(t: Tables, t': Tables, id: Id) {
    t'.commands.Keys == t.commands.Keys && forall other <- t.commands :: other != id ==> SameRow(t, t', other)
  }

  lemma WriteElsewhere(t: Tables, wr: Write)
    requires wr.Write? && wr.id in t.commands
    ensures OnlyRow(t, Commit(t, wr), wr.id)
  {
    forall other | other in t.commands && other != wr.id ensures SameRow(t, Commit(t, wr), other) {
      CommitElsewhere(t, wr, other);
    }
  }

  /** A claim that still holds when its completion arrives. */
  predicate Standing(t: Tables, id: Id, attempt: nat, at: Time) {
    id in t.commands && t.commands[id].status.Created? && t.commands[id].attempts == attempt
        && at < t.commands[id].nextDispatchAt
  }

  /** What the completion of a claim does to the tables: a published command is marked so and logged; one that Kafka
      did not take waits out its backoff; a claim that was lost meanwhile changes nothing. */
  ghost predicate Completed(t: Tables, turn: Turn, id: Id, attempt: nat, t': Tables) {
    if turn.complete == NotApplied || !Standing(t, id, attempt, turn.completeAt) then t' == t
    else
      && OnlyRow(t, t', id) && t'.acks == t.acks
      && if turn.publishOk then
           && t'.commands[id] == t.commands[id].(status := Published, updatedAt := turn.completeAt)
           && History(t'.events, id) == History(t.events, id) + [PublishedEvent]
         else
           && t'.commands[id] == t.commands[id].(
                nextDispatchAt := turn.completeAt + CommandRetryBackoff(attempt), updatedAt := turn.completeAt)
           && t'.events == t.events
  }

  lemma CompletionCompletes(w: World, turn: Turn, tok: Token)
    requires tok in w.tokens
    ensures Completed(w.t, turn, tok.id, tok.attempt, Apply(w, CompletionAction(turn, tok)).t)
  {
    var wr := Statement(w, CompletionAction(turn, tok));
    if wr.Write? {
      HistoryAppend(w.t.events, EventRow(tok.id, PublishedEvent), tok.id);
      WriteElsewhere(w.t, wr);
    }
  }

  predicate Claimable(c: Command, at: Time) {
    c.status.Created? && c.nextDispatchAt <= at && c.attempts < MAX_DISPATCH_ATTEMPTS
  }

  /** The row a turn leaves: one more attempt under a lease, then published or rescheduled, unless the completion came
      too late or not at all. */
  function TurnRow(c: Command, turn: Turn): Command {
    var claimed := c.(attempts := c.attempts + 1, nextDispatchAt := turn.claimAt + LEASE, updatedAt := turn.claimAt);
    if turn.complete == NotApplied || turn.completeAt >= turn.claimAt + LEASE then claimed
    else if turn.publishOk then claimed.(status := Published, updatedAt := turn.completeAt)
    else
      claimed.(nextDispatchAt := turn.completeAt + CommandRetryBackoff(c.attempts + 1), updatedAt := turn.completeAt)
  }

  /** One turn, on the tables alone: which command it takes and what becomes of its row and history. */
  ghost predicate TurnOn(t: Tables, turn: Turn, id: Id, t': Tables) {
    && id in t.commands && id !in turn.locked && Claimable(t.commands[id], turn.claimAt)
    && (forall other <- t.commands :: other != id && other !in turn.locked && Claimable(t.commands[other], turn.claimAt)
          ==> t.commands[id].createdAt < t.commands[other].createdAt
              || (t.commands[id].createdAt == t.commands[other].createdAt && id < other))
    && OnlyRow(t, t', id) && t'.commands[id] == TurnRow(t.commands[id], turn)
    && History(t'.events, id) == History(t.events, id) +
         if t'.commands[id].status.Published? then [PublishedEvent] else []
  }

  ghost predicate TurnEffect(t: Tables, turn: Turn, t': Tables) {
    exists id :: TurnOn(t, turn, id, t')
  }

  lemma OldestClaimable(commands: map<Id, Command>, turn: Turn, id: Id, other: Id)
    requires OldestDue(commands, turn, id) && other in commands && other != id && other !in turn.locked
    requires Claimable(commands[other], turn.claimAt)
    ensures commands[id].createdAt < commands[other].createdAt
            || (commands[id].createdAt == commands[other].createdAt && id < other)
  {
    assert other in Candidates(commands, ClaimDue(turn.claimAt, LEASE), turn.locked);
    assert Before(commands, id, other);
  }

  lemma ClaimEffect(w: World, turn: Turn, id: Id)
    requires Enabled(w, ClaimAction(turn, id))
    ensures var v := Apply(w, ClaimAction(turn, id)).t;
            && OnlyRow(w.t, v, id) && v.events == w.t.events
            && v.commands[id] == w.t.commands[id].(
                 attempts := w.t.commands[id].attempts + 1, nextDispatchAt := turn.claimAt + LEASE,
                 updatedAt := turn.claimAt)
  {
    WriteElsewhere(w.t, Statement(w, ClaimAction(turn, id)));
  }

  lemma OnlyRowTwice(t: Tables, u: Tables, v: Tables, id: Id)
    requires OnlyRow(t, u, id) && OnlyRow(u, v, id)
    ensures OnlyRow(t, v, id)
  {
    forall other | other in t.commands && other != id ensures SameRow(t, v, other) {
      assert SameRow(t, u, other);
      assert other in u.commands && SameRow(u, v, other);
    }
  }

  /** Every turn of the protocol's dispatcher has that effect. */
  lemma DispatchedEffect(w: World, turn: Turn, id: Id, w': World)
    requires DispatchedTo(w, turn, id, w')
    ensures TurnOn(w.t, turn, id, w'.t)
  {
    var v, tok := Apply(w, ClaimAction(turn, id)), ClaimToken(w, turn, id);
    ClaimEffect(w, turn, id);
    assert tok in v.tokens;
    CompletionCompletes(v, turn, tok);
    CompletedTurn(w.t, v.t, turn, id, w'.t);
    forall other | other in w.t.commands && other != id && other !in turn.locked
                   && Claimable(w.t.commands[other], turn.claimAt)
      ensures w.t.commands[id].createdAt < w.t.commands[other].createdAt
              || (w.t.commands[id].createdAt == w.t.commands[other].createdAt && id < other)
    {
      OldestClaimable(w.t.commands, turn, id, other);
    }
  }

  lemma CompletedTurn(t: Tables, u: Tables, turn: Turn, id: Id, v: Tables)
    requires id in t.commands && Claimable(t.commands[id], turn.claimAt) && OnlyRow(t, u, id) && u.events == t.events
    requires u.commands[id] == t.commands[id].(
               attempts := t.commands[id].attempts + 1, nextDispatchAt := turn.claimAt + LEASE,
               updatedAt := turn.claimAt)
    requires Completed(u, turn, id, t.commands[id].attempts + 1, v)
    ensures OnlyRow(t, v, id) && v.commands[id] == TurnRow(t.commands[id], turn)
    ensures History(v.events, id) == History(t.events, id) +
              if v.commands[id].status.Published? then [PublishedEvent] else []
  {
    if v != u { OnlyRowTwice(t, u, v, id); }
  }

  /** A turn that claims: the oldest due command is claimed, then completed. */
  ghost predicate Dispatched(w: World, turn: Turn, w': World) {
    exists id :: DispatchedTo(w, turn, id, w')
  }

  ghost predicate DispatchedTo(w: World, turn: Turn, id: Id, w': World) {
    && turn.claim == Fine && OldestDue(w.t.commands, turn, id) && Enabled(w, ClaimAction(turn, id))
    && var v, done := Apply(w, ClaimAction(turn, id)), CompletionAction(turn, ClaimToken(w, turn, id));
       Enabled(v, done) && w' == Apply(v, done)
  }

  /** A turn that ends the loop: nothing is due, or the claim failed, perhaps after it took effect. */
  ghost predicate Unclaimed(w: World, turn: Turn, w': World) {
    || (w' == w && turn.claim == NotApplied)
    || (w' == w && Candidates(w.t.commands, ClaimDue(turn.claimAt, LEASE), turn.locked) == {})
    || (turn.claim == AppliedUnreported
        && exists id ::
          && OldestDue(w.t.commands, turn, id)
          && Enabled(w, ClaimAction(turn, id)) && w' == Apply(w, ClaimAction(turn, id)))
  }

  lemma FirstIsOldest(commands: map<Id, Command>, turn: Turn, ids: seq<Id>)
    requires OldestFirst(commands, Candidates(commands, ClaimDue(turn.claimAt, LEASE), turn.locked), 1, ids)
    ensures if ids == [] then Candidates(commands, ClaimDue(turn.claimAt, LEASE), turn.locked) == {}
            else |ids| == 1 && OldestDue(commands, turn, ids[0])
  {
    var due := Candidates(commands, ClaimDue(turn.claimAt, LEASE), turn.locked);
    if ids == [] {
      assert forall id :: id in due ==> id in ids;
    }
  }

  /** Claim the oldest due command; None when nothing is due or the reply is lost. */
  method ClaimOne(store: PostgresStore, turn: Turn, ghost w: World)
    returns (claimed: Option<(Id, nat)>, ghost w': World)
    requires store.Contents() == w.t
    modifies store
    ensures store.Contents() == w'.t
    ensures claimed.None? ==>
              Unclaimed(w, turn, w') && w'.tokens == w.tokens && w'.flights == w.flights && w'.downlinks == w.downlinks
    ensures claimed.Some? ==>
              var id := claimed.value.0;
              && turn.claim == Fine && OldestDue(w.t.commands, turn, id) && Enabled(w, ClaimAction(turn, id))
                 && w' == Apply(w, ClaimAction(turn, id))
              && ClaimToken(w, turn, id) == Token(id, claimed.value.1, turn.claimAt + LEASE)
    ensures w' == w || exists a :: Enabled(w, a) && w' == Apply(w, a)
  {
    w', claimed := w, None;
    if turn.claim == NotApplied {
      return;
    }
    var ids := store.ClaimCommandsForDispatch(1, LEASE, turn.claimAt, turn.locked);
    FirstIsOldest(w.t.commands, turn, ids);
    if |ids| == 0 {
      return;
    }
    SweepOne(w.t, ClaimDue(turn.claimAt, LEASE), ids);
    ghost var a := ClaimAction(turn, ids[0]);
    assert Enabled(w, a);
    w' := Apply(w, a);
    if turn.claim == Fine {
      claimed := Some((ids[0], store.commands[ids[0]].attempts));
    }
  }

  /** The one completion call of a claim. */
  method CompleteClaim(store: PostgresStore, turn: Turn, id: Id, attempt: nat, ghost tok: Token, ghost w: World)
    returns (ghost w': World)
    requires store.Contents() == w.t && tok in w.tokens && tok.id == id && tok.attempt == attempt
    modifies store
    ensures Enabled(w, CompletionAction(turn, tok)) && w' == Apply(w, CompletionAction(turn, tok))
            && store.Contents() == w'.t
    ensures Completed(w.t, turn, id, attempt, store.Contents())
  {
    CompletionCompletes(w, turn, tok);
    if turn.complete != NotApplied {
      if turn.publishOk {
        store.MarkCommandPublished(id, attempt, turn.completeAt);
      } else {
        store.RescheduleCommand(id, attempt, CommandRetryBackoff(attempt), turn.completeAt);
      }
    }
    w' := Apply(w, CompletionAction(turn, tok));
  }

  lemma ReachesNext(w: World, v: World, v': World)
    requires Reaches(w, v) && (v' == v || exists a :: Enabled(v, a) && v' == Apply(v, a))
    ensures Reaches(w, v')
  {
    if v' != v {
      var a :| Enabled(v, a) && v' == Apply(v, a);
      ReachesStep(w, v, a);
    }
  }

  lemma ClaimThenComplete(w: World, turn: Turn, id: Id)
    requires turn.claim == Fine && OldestDue(w.t.commands, turn, id) && Enabled(w, ClaimAction(turn, id))
    ensures var v, done := Apply(w, ClaimAction(turn, id)), CompletionAction(turn, ClaimToken(w, turn, id));
            && ClaimToken(w, turn, id) in v.tokens && Enabled(v, done)
            && var w' := Apply(v, done);
               Dispatched(w, turn, w') && w'.tokens == w.tokens && w'.flights == w.flights
                   && w'.downlinks == w.downlinks
  {
    var v, tok := Apply(w, ClaimAction(turn, id)), ClaimToken(w, turn, id);
    assert v.tokens == w.tokens + multiset{tok};
    assert w.tokens + multiset{tok} - multiset{tok} == w.tokens;
    assert DispatchedTo(w, turn, id, Apply(v, CompletionAction(turn, tok)));
  }

  /** One turn of the loop. */
  method DispatchOne(store: PostgresStore, turn: Turn, ghost first: World, ghost w: World)
    returns (go: bool, ghost w': World)
    requires store.Contents() == w.t && Reaches(first, w)
    modifies store
    ensures store.Contents() == w'.t && w'.tokens == w.tokens && w'.flights == w.flights
            && w'.downlinks == w.downlinks && Reaches(first, w')
    ensures if go then Dispatched(w, turn, w') && TurnEffect(w.t, turn, w'.t) else Unclaimed(w, turn, w')
  {
    var claimed;
    claimed, w' := ClaimOne(store, turn, w);
    ReachesNext(first, w, w');
    if claimed.None? {
      return false, w';
    }
    ghost var v, tok := w', ClaimToken(w, turn, claimed.value.0);
    ClaimThenComplete(w, turn, claimed.value.0);
    w' := CompleteClaim(store, turn, claimed.value.0, claimed.value.1, tok, v);
    DispatchedEffect(w, turn, claimed.value.0, w');
    ReachesStep(first, v, CompletionAction(turn, tok));
    go := true;
  }

  ghost predicate TurnAt(vs: seq<World>, turns: seq<Turn>, i: nat)
    requires i + 1 < |vs| && i < |turns|
  {
    Dispatched(vs[i], turns[i], vs[i + 1]) && TurnEffect(vs[i].t, turns[i], vs[i + 1].t)
  }

  /** Each state in turn comes from the one before by dispatching the oldest due command, with the effect of a turn. */
  ghost predicate Turns(vs: seq<World>, turns: seq<Turn>) {
    1 <= |vs| <= |turns| + 1 && forall i: nat {:trigger TurnAt(vs, turns, i)} :: i + 1 < |vs| ==> TurnAt(vs, turns, i)
  }

  lemma OneMoreTurn(vs: seq<World>, turns: seq<Turn>, w: World) returns (longer: seq<World>)
    requires Turns(vs, turns) && |vs| <= |turns|
    requires Dispatched(vs[|vs| - 1], turns[|vs| - 1], w) && TurnEffect(vs[|vs| - 1].t, turns[|vs| - 1], w.t)
    ensures |longer| == |vs| + 1 && longer[0] == vs[0] && longer[|vs|] == w && Turns(longer, turns)
  {
    longer := vs + [w];
    forall i: nat | i + 1 < |longer| ensures TurnAt(longer, turns, i) {
      if i + 1 < |vs| {
        assert TurnAt(vs, turns, i);
        assert longer[i] == vs[i] && longer[i + 1] == vs[i + 1];
      }
    }
  }

  /** The turn after those taken so far. */
  method DispatchNext(store: PostgresStore, turns: seq<Turn>, n: nat, ghost first: World, ghost vs: seq<World>)
    returns (go: bool, ghost vs': seq<World>, ghost w': World)
    requires n < |turns| && |vs| == n + 1 && Turns(vs, turns) && store.Contents() == vs[n].t && Reaches(first, vs[n])
    modifies store
    ensures store.Contents() == w'.t && w'.tokens == vs[n].tokens && w'.flights == vs[n].flights
            && w'.downlinks == vs[n].downlinks && Reaches(first, w')
    ensures if go then |vs'| == n + 2 && vs'[0] == vs[0] && vs'[n + 1] == w' && Turns(vs', turns)
            else vs' == vs && Unclaimed(vs[n], turns[n], w')
  {
    vs' := vs;
    go, w' := DispatchOne(store, turns[n], first, vs[n]);
    if go {
      vs' := OneMoreTurn(vs, turns, w');
    }
  }

  /** Claim, publish, complete, at most 100 times: every turn dispatches the oldest due command, and the loop
      stops early only when a claim fails or nothing is due. It leaves no claim outstanding, and the store in
      a state the protocol allows. */
  method DispatchPending(store: PostgresStore, turns: seq<Turn>, ghost w: World)
    returns (n: nat, ghost vs: seq<World>, ghost w': World)
    requires store.Contents() == w.t
    modifies store
    ensures store.Contents() == w'.t && w'.tokens == w.tokens && w'.flights == w.flights && w'.downlinks == w.downlinks
    ensures Reaches(w, w')
    ensures |vs| == n + 1 && vs[0] == w && Turns(vs, turns)
    ensures if n < BATCH_SIZE && n < |turns| then Unclaimed(vs[n], turns[n], w')
            else w' == vs[n] && (n == BATCH_SIZE || n == |turns|)
  {
    w', vs := w, [w];
    ReachesSelf(w);
    n := 0;
    while n < BATCH_SIZE && n < |turns|
      invariant n <= BATCH_SIZE && n <= |turns|
      invariant store.Contents() == w'.t && w'.tokens == w.tokens && w'.flights == w.flights
                && w'.downlinks == w.downlinks
      invariant Reaches(w, w')
      invariant |vs| == n + 1 && vs[0] == w && vs[n] == w' && Turns(vs, turns)
    {
      var go;
      go, vs, w' := DispatchNext(store, turns, n, w, vs);
      if !go {
        return;
      }
      n := n + 1;
    }
  }

  // ----- the delivery worker -------------------------------------------------

  /** What a worker meets while it handles one Kafka command event. */
  datatype Delivery = Delivery(
    decoded: bool,         // a command with a non-negative attempt counter
    allowed: bool,         // its tenant passes the worker's allowlist
    at: Time,              // lookup
    lookup: Fault,
    mqttConfigured: bool,
    encodable: bool,       // topic and downlink body can be built
    downlinkOk: bool,
    requeueAt: Time,
    requeue: Fault,
    deadLetterOk: bool,    // dead letter stored and offset committed
    sentAt: Time,
    sent: Fault,
    ackTimeout: Time,
    commitOk: bool)

  /** How the worker left the event: offset committed, or the consumer stopped with an error. */
  datatype Disposition = Filtered | Duplicate | Undeliverable | Delivered | DeadLettered | Stopped

  function Letter(d: Delivery): Disposition { if d.deadLetterOk then DeadLettered else Stopped }

  function Committing(d: Delivery, out: Disposition): Disposition { if d.commitOk then out else Stopped }

  /** The event reaches the MQTT publish call. */
  predicate Publishes(d: Delivery, deliverable: bool) {
    d.decoded && d.allowed && d.lookup == Fine && deliverable && d.mqttConfigured && d.encodable
  }

  function DispositionOf(d: Delivery, deliverable: bool): Disposition {
    if !d.decoded then Letter(d)
    else if !d.allowed then Committing(d, Filtered)
    else if d.lookup != Fine then Stopped
    else if !deliverable then Committing(d, Duplicate)
    else if !d.mqttConfigured then Committing(d, Undeliverable)
    else if !d.encodable || !d.downlinkOk then Letter(d)
    else if d.sent != Fine then Stopped
    else Committing(d, Delivered)
  }

  /** A failed downlink is requeued with backoff, a confirmed one is marked sent with its deadline. */
  function TablesAfter(t: Tables, id: Id, d: Delivery): Tables
    requires id in t.commands
  {
    if d.downlinkOk then
      if d.sent == NotApplied then t else Commit(t, MarkSent(t, id, d.sentAt + d.ackTimeout, d.sentAt))
    else if d.requeue == NotApplied then t
    else Commit(t, Requeue(t, id, CommandRetryBackoff(t.commands[id].attempts), d.requeueAt))
  }

  /** The command an event names, still waiting to be delivered. */
  predicate Waiting(t: Tables, id: Id, tenant: string, device: string) {
    id in t.commands && t.commands[id].tenant == tenant && t.commands[id].device == device
        && !Settled(t.commands[id].status)
  }

  /** What an event does, on the tables alone; `published` says whether it reached the device. A confirmed downlink
      starts the acknowledgement deadline, a failed one sends a published command back with its backoff. */
  ghost predicate EventEffect(t: Tables, id: Id, tenant: string, device: string, d: Delivery, published: bool,
                              t': Tables) {
    && (published <==>
          d.decoded && d.allowed && d.lookup == Fine && Waiting(t, id, tenant, device) && d.mqttConfigured
          && d.encodable)
    && if published && d.downlinkOk && d.sent != NotApplied then
         && OnlyRow(t, t', id) && t'.acks == t.acks
         && t'.commands[id] == t.commands[id].(
              status := Sent, deadline := Some(d.sentAt + d.ackTimeout), updatedAt := d.sentAt)
         && History(t'.events, id) == History(t.events, id) + [DeliveredEvent]
       else if published && !d.downlinkOk && d.requeue != NotApplied && t.commands[id].status.Published? then
         && OnlyRow(t, t', id) && t'.acks == t.acks
         && t'.commands[id] == t.commands[id].(
              status := Created, nextDispatchAt := d.requeueAt + CommandRetryBackoff(t.commands[id].attempts),
              updatedAt := d.requeueAt)
         && History(t'.events, id) == History(t.events, id) + [RequeuedEvent]
       else t' == t
  }

  /** How an event ends, by what was met; any other way the consumer stops and the event is fetched again. */
  predicate EventOutcome(t: Tables, id: Id, tenant: string, device: string, d: Delivery, out: Disposition) {
    var looked := d.decoded && d.allowed && d.lookup == Fine;
    var waiting := looked && Waiting(t, id, tenant, device);
    && (out.Filtered? <==> d.decoded && !d.allowed && d.commitOk)
    && (out.Duplicate? <==> looked && !waiting && d.commitOk)
    && (out.Undeliverable? <==> waiting && !d.mqttConfigured && d.commitOk)
    && (out.Delivered? <==> waiting && d.mqttConfigured && d.encodable && d.downlinkOk && d.sent == Fine && d.commitOk)
    && (out.DeadLettered? <==>
          d.deadLetterOk && (!d.decoded || (waiting && d.mqttConfigured && !(d.encodable && d.downlinkOk))))
  }

  lemma LoggedWrite(t: Tables, id: Id, row: Command, e: Event)
    requires id in t.commands
    ensures var t' := Commit(t, Write(id, row, Some(e), None));
            && OnlyRow(t, t', id) && t'.acks == t.acks && t'.commands[id] == row
            && History(t'.events, id) == History(t.events, id) + [e]
  {
    WriteElsewhere(t, Write(id, row, Some(e), None));
    HistoryAppend(t.events, EventRow(id, e), id);
  }

  lemma ConfirmedMeans(t: Tables, id: Id, tenant: string, device: string, d: Delivery)
    requires Publishes(d, Deliverable(t, id, tenant, device)) && d.downlinkOk
    ensures EventEffect(t, id, tenant, device, d, true, TablesAfter(t, id, d))
  {
    var c := t.commands[id];
    LoggedWrite(t, id, c.(status := Sent, deadline := Some(d.sentAt + d.ackTimeout), updatedAt := d.sentAt),
        DeliveredEvent);
  }

  lemma UnconfirmedMeans(t: Tables, id: Id, tenant: string, device: string, d: Delivery)
    requires Publishes(d, Deliverable(t, id, tenant, device)) && !d.downlinkOk
    ensures EventEffect(t, id, tenant, device, d, true, TablesAfter(t, id, d))
  {
    var c := t.commands[id];
    LoggedWrite(t, id, c.(status := Created, nextDispatchAt := d.requeueAt + CommandRetryBackoff(c.attempts),
        updatedAt := d.requeueAt), RequeuedEvent);
  }

  lemma UnpublishedMeans(t: Tables, id: Id, tenant: string, device: string, d: Delivery)
    requires !Publishes(d, Deliverable(t, id, tenant, device))
    ensures EventEffect(t, id, tenant, device, d, false, t)
  {
  }

  lemma EventMeans(t: Tables, id: Id, tenant: string, device: string, d: Delivery)
    ensures var published := Publishes(d, Deliverable(t, id, tenant, device));
            EventEffect(t, id, tenant, device, d, published, if published then TablesAfter(t, id, d) else t)
  {
    if !Publishes(d, Deliverable(t, id, tenant, device)) {
      UnpublishedMeans(t, id, tenant, device, d);
    } else if d.downlinkOk {
      ConfirmedMeans(t, id, tenant, device, d);
    } else {
      UnconfirmedMeans(t, id, tenant, device, d);
    }
  }

  lemma EventEnds(t: Tables, id: Id, tenant: string, device: string, d: Delivery)
    ensures EventOutcome(t, id, tenant, device, d, DispositionOf(d, Deliverable(t, id, tenant, device)))
  {
  }

  /** One event. A command is published at most once per event, only if the lookup found it unsettled under the
      event's own identity; the success path commits only an event whose command is settled by then. */
  method ConsumeCommand(store: PostgresStore, id: Id, tenant: string, device: string, d: Delivery, ghost n: nat,
                        ghost w: World)
    returns (out: Disposition, ghost w': World)
    requires store.Contents() == w.t && n !in w.flights
    modifies store
    ensures store.Contents() == w'.t && w'.tokens == w.tokens && w'.flights == w.flights
    ensures Reaches(w, w')
    ensures out == DispositionOf(d, Deliverable(w.t, id, tenant, device))
    ensures if Publishes(d, Deliverable(w.t, id, tenant, device))
            then w'.downlinks == w.downlinks + [id] && w'.t == TablesAfter(w.t, id, d)
            else w'.downlinks == w.downlinks && w'.t == w.t
    ensures out.Delivered? ==> id in w'.t.commands && Settled(w'.t.commands[id].status)
    ensures EventOutcome(w.t, id, tenant, device, d, out)
    ensures EventEffect(w.t, id, tenant, device, d, w'.downlinks != w.downlinks, w'.t)
  {
    w' := w;
    ReachesSelf(w);
    EventMeans(w.t, id, tenant, device, d);
    EventEnds(w.t, id, tenant, device, d);
    if !d.decoded {
      return Letter(d), w';
    }
    if !d.allowed {
      return Committing(d, Filtered), w';
    }
    if d.lookup != Fine {
      return Stopped, w';
    }
    if !Deliverable(store.Contents(), id, tenant, device) {
      return Committing(d, Duplicate), w';
    }
    ReachesStep(w, w', Action(d.at, LookUpOp(n, id, tenant, device)));
    w' := Apply(w', Action(d.at, LookUpOp(n, id, tenant, device)));
    if !d.mqttConfigured || !d.encodable {
      ReachesStep(w, w', Action(d.at, DropOp(n)));
      w' := Apply(w', Action(d.at, DropOp(n)));
      assert w'.flights == w.flights;
      out := if !d.mqttConfigured then Committing(d, Undeliverable) else Letter(d);
      return;
    }
    ghost var v := w';
    if !d.downlinkOk {
      out, w' := FailedDownlink(store, id, d, n, v);
      ReachesAll(w, v, w');
      assert w'.flights == w.flights;
      return;
    }
    out, w' := ConfirmedDownlink(store, id, d, n, v);
    ReachesAll(w, v, w');
    assert w'.flights == w.flights;
  }

  lemma RunsJoin(xs: seq<World>, ys: seq<World>, i: nat)
    requires Run(xs) && Run(ys) && xs[|xs| - 1] == ys[0] && i + 1 < |xs + ys[1..]|
    ensures StepAt(xs + ys[1..], i)
  {
    var zs := xs + ys[1..];
    if i + 1 < |xs| {
      assert StepAt(xs, i);
      assert zs[i] == xs[i] && zs[i + 1] == xs[i + 1];
    } else {
      var j := i + 1 - |xs|;
      assert StepAt(ys, j);
      assert zs[i] == ys[j] && zs[i + 1] == ys[j + 1];
    }
  }

  lemma ReachesAll(w: World, v: World, v': World)
    requires Reaches(w, v) && Reaches(v, v')
    ensures Reaches(w, v')
  {
    var xs :| RunTo(xs, w, v);
    var ys :| RunTo(ys, v, v');
    var zs := xs + ys[1..];
    forall i: nat | i + 1 < |zs| ensures StepAt(zs, i) {
      RunsJoin(xs, ys, i);
    }
    assert RunTo(zs, w, v');
  }

  /** The downlink failed or timed out: requeue with backoff, then dead-letter the event. */
  method FailedDownlink(store: PostgresStore, id: Id, d: Delivery, ghost n: nat, ghost w: World)
    returns (out: Disposition, ghost w': World)
    requires store.Contents() == w.t && n in w.flights && w.flights[n] == Granted(id) && id in w.t.commands
    requires !d.downlinkOk
    modifies store
    ensures store.Contents() == w'.t && w'.tokens == w.tokens && w'.flights == w.flights - {n}
            && w'.downlinks == w.downlinks + [id]
    ensures Reaches(w, w') && out == Letter(d) && w'.t == TablesAfter(w.t, id, d)
  {
    ReachesSelf(w);
    ReachesStep(w, w, Action(d.at, DownlinkOp(n, false)));
    w' := Apply(w, Action(d.at, DownlinkOp(n, false)));
    var backoff := CommandRetryBackoff(store.commands[id].attempts);
    if d.requeue != NotApplied {
      store.RequeueCommand(id, backoff, d.requeueAt);
      ReachesStep(w, w', Action(d.requeueAt, RequeueOp(id, backoff)));
      w' := Apply(w', Action(d.requeueAt, RequeueOp(id, backoff)));
    }
    out := Letter(d);
  }

  /** The downlink succeeded: start the deadline; commit the offset only once that is reported done. */
  method ConfirmedDownlink(store: PostgresStore, id: Id, d: Delivery, ghost n: nat, ghost w: World)
    returns (out: Disposition, ghost w': World)
    requires store.Contents() == w.t && n in w.flights && w.flights[n] == Granted(id) && id in w.t.commands
    requires d.downlinkOk
    modifies store
    ensures store.Contents() == w'.t && w'.tokens == w.tokens && w'.flights == w.flights - {n}
            && w'.downlinks == w.downlinks + [id]
    ensures Reaches(w, w') && w'.t == TablesAfter(w.t, id, d)
    ensures out == if d.sent == Fine then Committing(d, Delivered) else Stopped
    ensures out.Delivered? ==> id in w'.t.commands && Settled(w'.t.commands[id].status)
  {
    ReachesSelf(w);
    ReachesStep(w, w, Action(d.at, DownlinkOp(n, true)));
    w' := Apply(w, Action(d.at, DownlinkOp(n, true)));
    ghost var a := Action(d.sentAt, if d.sent == NotApplied then DropOp(n)
                                    else SentOp(n, d.sentAt + d.ackTimeout, d.sent == Fine));
    if d.sent != NotApplied {
      store.MarkCommandSent(id, d.sentAt + d.ackTimeout, d.sentAt);
    }
    ReachesStep(w, w', a);
    w' := Apply(w', a);
    if d.sent == Fine {
      ghost var last := Action(d.sentAt, if d.commitOk then CommitOp(n) else DropOp(n));
      ReachesStep(w, w', last);
      w' := Apply(w', last);
    }
    out := if d.sent == Fine then Committing(d, Delivered) else Stopped;
  }

  // ----- the acknowledgement handler -----------------------------------------

  datatype AckMessage = AckMessage(id: Id, tenant: string, device: string, result: ExecutionResult)

  /** One try at the store, and whether the handler was cancelled while waiting to try again. */
  datatype Attempt = Attempt(at: Time, fault: Fault, cancelled: bool)

  datatype AckOutcome = NotAdmitted | Rejected | Stored | Parked | Cancelled | Fatal

  /** The outcomes that send PUBACK to the broker. */
  predicate PubAcked(out: AckOutcome) {
    out.Rejected? || out.Stored? || out.Parked?
  }

  /** What a stored acknowledgement leaves behind. */
  predicate Persisted(t: Tables, m: AckMessage) {
    && m.id in t.commands && t.commands[m.id].tenant == m.tenant && t.commands[m.id].device == m.device
    && Terminal(t.commands[m.id].status)
    && (t.commands[m.id].result.Some? ==> t.commands[m.id].result.value == m.result)
  }

  /** A message no retry can ever store: malformed, an invalid result, unknown, or in conflict. */
  predicate Hopeless(t: Tables, msg: Option<AckMessage>) {
    || msg.None?
    || !Normalized(msg.value.result)
    || msg.value.id !in t.commands
    || t.commands[msg.value.id].tenant != msg.value.tenant || t.commands[msg.value.id].device != msg.value.device
    || (Terminal(t.commands[msg.value.id].status) && t.commands[msg.value.id].result.Some?
        && t.commands[msg.value.id].result.value != msg.value.result)
  }

  /** The command carries the message's own result. */
  predicate AckRecorded(t: Tables, m: AckMessage) {
    m.id in t.commands && Terminal(t.commands[m.id].status) && t.commands[m.id].result == Some(m.result)
  }

  predicate NoTryReported(tries: seq<Attempt>) {
    forall i :: 0 <= i < |tries| ==> tries[i].fault != Fine
  }

  /** Up to three tries; PUBACK only for a message that is hopeless, persisted, or dead-lettered. */
  method HandleAckMessage(store: PostgresStore, stopping: bool, msg: Option<AckMessage>, tries: seq<Attempt>,
                          deadLetterOk: bool, ghost w: World)
    returns (out: AckOutcome, ghost w': World)
    requires store.Contents() == w.t && |tries| == ACK_STORE_ATTEMPTS
    modifies store
    ensures store.Contents() == w'.t && w'.tokens == w.tokens && w'.flights == w.flights && w'.downlinks == w.downlinks
    ensures Reaches(w, w')
    ensures PubAcked(out) ==> Hopeless(w'.t, msg) || (msg.Some? && Persisted(w'.t, msg.value)) || deadLetterOk
    ensures out.Rejected? ==> Hopeless(w'.t, msg)
    ensures out.Stored? ==> msg.Some? && Persisted(w'.t, msg.value)
    ensures out.Parked? ==> deadLetterOk && NoTryReported(tries)
    ensures out.Fatal? ==> !deadLetterOk && NoTryReported(tries)
    ensures out.Cancelled? ==> exists i :: 0 <= i < |tries| && tries[i].cancelled
    ensures stopping <==> out.NotAdmitted?
    ensures Hopeless(w.t, msg) ==> w'.t == w.t && !out.Stored?
    ensures !Hopeless(w.t, msg) ==> !out.Rejected? && (w'.t == w.t || AckRecorded(w'.t, msg.value))
    ensures out.Stored? && !Hopeless(w.t, msg) && !Terminal(w.t.commands[msg.value.id].status) ==>
              AckRecorded(w'.t, msg.value)
  {
    w' := w;
    ReachesSelf(w);
    if stopping {
      return NotAdmitted, w';
    }
    if msg.None? || !Normalized(msg.value.result) {
      return Rejected, w';
    }
    var m := msg.value;
    for i := 0 to ACK_STORE_ATTEMPTS
      invariant store.Contents() == w'.t && w'.tokens == w.tokens && w'.flights == w.flights
                && w'.downlinks == w.downlinks
      invariant Reaches(w, w')
      invariant Hopeless(w.t, msg) ==> w'.t == w.t
      invariant w'.t == w.t || (AckRecorded(w'.t, m) && !Hopeless(w'.t, msg))
      invariant forall j :: 0 <= j < i ==> tries[j].fault != Fine
    {
      if tries[i].fault != NotApplied {
        var reply := store.AckCommandResult(m.id, m.tenant, m.device, m.result, tries[i].at);
        ghost var a := Action(tries[i].at, AckOp(m.id, m.tenant, m.device, m.result));
        ReachesStep(w, w', a);
        w' := Apply(w', a);
        if tries[i].fault == Fine {
          if reply.AckStored? {
            return Stored, w';
          }
          if reply.CommandNotFound? || reply.AckConflict? {
            return Rejected, w';
          }
        }
      }
      if i + 1 < ACK_STORE_ATTEMPTS && tries[i].cancelled {
        return Cancelled, w';
      }
    }
    out := if deadLetterOk then Parked else Fatal;
  }
}
