/** The command lifecycle as a transition system: any number of dispatchers,
    delivery workers, recovery and expiry scans, device acknowledgements and
    callers, interleaved one database statement at a time.

    `tokens` are the claims handed to dispatchers and not yet completed; a
    dispatcher completes each claim with one call.  `flights` are Kafka command
    events a worker has looked up and not yet finished.  `now` is the time of
    the latest step; no lemma here needs it to be monotonic unless it says so. */
module CommandProtocol {
  import opened Wrappers
  import opened CommandStatus
  import opened CommandStore

  datatype Token = Token(id: Id, attempt: nat, leaseEnd: Time)

  datatype Flight = Granted(id: Id) | Downlinked(id: Id) | Marked(id: Id)

  datatype World = World(t: Tables, tokens: multiset<Token>, flights: map<nat, Flight>, downlinks: seq<Id>, now: Time)

  datatype Op =
    | CreateOp(id: Id, tenant: string, device: string, key: string, payload: Jsonb)
    | AckOp(id: Id, tenant: string, device: string, result: ExecutionResult)
    | ClaimOp(id: Id, lease: Time, returned: bool)
    | ScanOp(sweep: Sweep, id: Id)
    | PublishedOp(token: Token)
    | RescheduledOp(token: Token, retryAfter: Time)
    | AbandonOp(token: Token)
    | RequeueOp(id: Id, retryAfter: Time)
    | LookUpOp(flight: nat, id: Id, tenant: string, device: string)
    | DownlinkOp(flight: nat, ok: bool)
    | SentOp(flight: nat, deadline: Time, reported: bool)
    | DropOp(flight: nat)
    | CommitOp(flight: nat)

  datatype Action = Action(at: Time, op: Op)

  const Empty := World(Tables(map[], [], []), multiset{}, map[], [], 0)

  /** What the scans of the dispatcher may run: recovery with the attempt cap, expiry with any clock. */
  predicate ScanAllowed(s: Sweep, at: Time) {
    match s
    case ClaimDue(_, _) => false
    case ExpireDue(_, _) => true
    case RequeueStale(_, now, max) => now == at && max == MAX_DISPATCH_ATTEMPTS
    case FailStale(_, now, max) => now == at && max == MAX_DISPATCH_ATTEMPTS
  }

  predicate Enabled(w: World, a: Action) {
    match a.op
    case CreateOp(id, tenant, _, key, _) => id !in w.t.commands && KeyFree(w.t, tenant, key)
    case AckOp(_, _, _, result) => Normalized(result)
    case ClaimOp(id, lease, _) => id in w.t.commands && Due(ClaimDue(a.at, lease), w.t.commands[id])
    case ScanOp(sweep, _) => ScanAllowed(sweep, a.at)
    case PublishedOp(token) => token in w.tokens
    case RescheduledOp(token, _) => token in w.tokens
    case AbandonOp(token) => token in w.tokens
    case RequeueOp(_, _) => true
    case LookUpOp(flight, _, _, _) => flight !in w.flights
    case DownlinkOp(flight, _) => flight in w.flights && w.flights[flight].Granted?
    case SentOp(flight, _, _) => flight in w.flights && w.flights[flight].Downlinked?
    case DropOp(flight) => flight in w.flights
    case CommitOp(flight) => flight in w.flights && w.flights[flight].Marked?
  }

  /** commandForDelivery: only an unsettled row with the event's identity may be published. */
  predicate Deliverable(t: Tables, id: Id, tenant: string, device: string) {
    && id in t.commands
    && t.commands[id].tenant == tenant && t.commands[id].device == device
    && (t.commands[id].status.Created? || t.commands[id].status.Published?)
  }

  /** What the step writes to the command tables. */
  function Statement(w: World, a: Action): Write
    requires Enabled(w, a)
  {
    match a.op
    case CreateOp(id, tenant, device, key, payload) => Insert(id, tenant, device, key, payload, a.at)
    case AckOp(id, tenant, device, result) => Acknowledge(w.t, id, tenant, device, result, a.at)
    case ClaimOp(id, lease, _) => SweepRow(w.t, ClaimDue(a.at, lease), id)
    case ScanOp(sweep, id) => SweepRow(w.t, sweep, id)
    case PublishedOp(tok) => MarkPublished(w.t, tok.id, tok.attempt, a.at)
    case RescheduledOp(tok, retryAfter) => Reschedule(w.t, tok.id, tok.attempt, retryAfter, a.at)
    case RequeueOp(id, retryAfter) => Requeue(w.t, id, retryAfter, a.at)
    case SentOp(flight, deadline, _) => MarkSent(w.t, w.flights[flight].id, deadline, a.at)
    case _ => Skip
  }

  /** A claim hands out a token unless its reply is lost; every completion call uses one up. */
  function TokensAfter(w: World, a: Action): multiset<Token>
    requires Enabled(w, a)
  {
    match a.op
    case ClaimOp(id, lease, returned) =>
      if returned then w.tokens + multiset{Token(id, w.t.commands[id].attempts + 1, a.at + lease)} else w.tokens
    case PublishedOp(tok) => w.tokens - multiset{tok}
    case RescheduledOp(tok, _) => w.tokens - multiset{tok}
    case AbandonOp(tok) => w.tokens - multiset{tok}
    case _ => w.tokens
  }

  /** A worker handles an event in order: look up, publish, mark sent, commit the offset. */
  function FlightsAfter(w: World, a: Action): map<nat, Flight>
    requires Enabled(w, a)
  {
    match a.op
    case LookUpOp(n, id, tenant, device) =>
      if Deliverable(w.t, id, tenant, device) then w.flights[n := Granted(id)] else w.flights
    case DownlinkOp(n, ok) => if ok then w.flights[n := Downlinked(w.flights[n].id)] else w.flights - {n}
    case SentOp(n, _, reported) => if reported then w.flights[n := Marked(w.flights[n].id)] else w.flights - {n}
    case DropOp(n) => w.flights - {n}
    case CommitOp(n) => w.flights - {n}
    case _ => w.flights
  }

  function Apply(w: World, a: Action): World
    requires Enabled(w, a)
  {
    World(
      Commit(w.t, Statement(w, a)),
      TokensAfter(w, a),
      FlightsAfter(w, a),
      if a.op.DownlinkOp? then w.downlinks + [w.flights[a.op.flight].id] else w.downlinks,
      a.at)
  }

  /** State i of a sequence leads to state i + 1 by some enabled action. */
  ghost predicate StepAt(ws: seq<World>, i: nat)
    requires i + 1 < |ws|
  {
    exists a :: Enabled(ws[i], a) && ws[i + 1] == Apply(ws[i], a)
  }

  /** A finite run: any interleaving of steps. */
  ghost predicate Run(ws: seq<World>) {
    && |ws| > 0
    && forall i: nat {:trigger StepAt(ws, i)} :: i + 1 < |ws| ==> StepAt(ws, i)
  }

  // ----- views of one command ------------------------------------------------

  function History(events: seq<EventRow>, id: Id): seq<Event> {
    if events == [] then []
    else
      var last := events[|events| - 1];
      var before := History(events[..|events| - 1], id);
      if last.command == id then before + [last.event] else before
  }

  function AcksOf(acks: seq<AckRow>, id: Id): seq<AckRow> {
    if acks == [] then []
    else
      var last := acks[|acks| - 1];
      var before := AcksOf(acks[..|acks| - 1], id);
      if last.command == id then before + [last] else before
  }

  lemma HistoryAppend(events: seq<EventRow>, row: EventRow, id: Id)
    ensures History(events + [row], id) == if row.command == id then History(events, id) + [row.event]
                                           else History(events, id)
  {
    assert (events + [row])[..|events|] == events;
  }

  lemma AcksAppend(acks: seq<AckRow>, row: AckRow, id: Id)
    ensures AcksOf(acks + [row], id) == if row.command == id then AcksOf(acks, id) + [row] else AcksOf(acks, id)
  {
    assert (acks + [row])[..|acks|] == acks;
  }

  lemma {:induction false} NoHistory(events: seq<EventRow>, id: Id)
    requires forall e <- events :: e.command != id
    ensures History(events, id) == []
  {
    if events != [] {
      NoHistory(events[..|events| - 1], id);
    }
  }

  lemma {:induction false} NoAcks(acks: seq<AckRow>, id: Id)
    requires forall a <- acks :: a.command != id
    ensures AcksOf(acks, id) == []
  {
    if acks != [] {
      NoAcks(acks[..|acks| - 1], id);
    }
  }

  // ----- the invariant -------------------------------------------------------

  /** An outstanding claim is superseded, or is the current one on a row nobody published. */
  predicate Fenced(tok: Token, c: Command, published: nat) {
    && 1 <= tok.attempt <= c.attempts
    && (tok.attempt == c.attempts ==>
          && !c.status.Published?
          && (c.status.Created? ==> c.nextDispatchAt == tok.leaseEnd)
          && published < c.attempts)
  }

  ghost predicate TokensFenced(id: Id, c: Command, published: nat, tokens: multiset<Token>) {
    && (forall tok :: tok in tokens && tok.id == id ==> tokens[tok] == 1 && Fenced(tok, c, published))
    && (forall x, y :: x in tokens && y in tokens && x.id == id && y.id == id && x.attempt == y.attempt ==> x == y)
  }

  predicate Recorded(id: Id, c: Command, history: seq<Event>, acks: seq<AckRow>) {
    && c.attempts <= MAX_DISPATCH_ATTEMPTS
    && Replay(history) == Some(c.status)
    && Count(history, PublishedEvent) <= c.attempts
    && acks == (if c.result.Some? then [AckRow(id, c.tenant, c.device, c.result.value)] else [])
    && (c.result.Some? ==> Normalized(c.result.value) && c.status == c.result.value.status)
    && (c.status.Acked? ==> c.result.Some?)
    && (c.status.Sent? ==> c.deadline.Some?)
    && (c.deadline.Some? ==> Settled(c.status))
  }

  ghost predicate RowInv(w: World, id: Id)
    requires id in w.t.commands
  {
    var c, h := w.t.commands[id], History(w.t.events, id);
    && Recorded(id, c, h, AcksOf(w.t.acks, id))
    && TokensFenced(id, c, Count(h, PublishedEvent), w.tokens)
  }

  /** At most one command per tenant and idempotency key. */
  ghost predicate KeysUnique(commands: map<Id, Command>) {
    forall i, j ::
      && i in commands && j in commands && commands[i].key != ""
      && commands[i].tenant == commands[j].tenant && commands[i].key == commands[j].key
      ==> i == j
  }

  ghost predicate LogsRefer(t: Tables) {
    && (forall e <- t.events :: e.command in t.commands)
    && (forall r <- t.acks :: r.command in t.commands)
  }

  ghost predicate References(w: World) {
    && LogsRefer(w.t)
    && (forall tok <- w.tokens :: tok.id in w.t.commands)
    && (forall n <- w.flights :: w.flights[n].id in w.t.commands)
  }

  ghost predicate Inv(w: World) {
    && References(w)
    && KeysUnique(w.t.commands)
    && (forall id <- w.t.commands :: RowInv(w, id))
    && (forall n <- w.flights :: w.flights[n].Marked? ==> Settled(w.t.commands[w.flights[n].id].status))
  }

  // ----- every step keeps it -------------------------------------------------

  /** The part of the tables that belongs to one command. */
  ghost predicate SameRow(t: Tables, t': Tables, id: Id) {
    && id in t.commands && id in t'.commands
    && t'.commands[id] == t.commands[id]
    && History(t'.events, id) == History(t.events, id)
    && AcksOf(t'.acks, id) == AcksOf(t.acks, id)
  }

  lemma CommitElsewhere(t: Tables, wr: Write, id: Id)
    requires id in t.commands && (wr.Skip? || wr.id != id)
    ensures SameRow(t, Commit(t, wr), id)
  {
    if wr.Write? {
      if wr.log.Some? { HistoryAppend(t.events, EventRow(wr.id, wr.log.value), id); }
      if wr.ack.Some? { AcksAppend(t.acks, AckRow(wr.id, wr.row.tenant, wr.row.device, wr.ack.value), id); }
    }
  }

  lemma CommitHere(t: Tables, wr: Write)
    requires wr.Write?
    ensures var t' := Commit(t, wr);
            && t'.commands == t.commands[wr.id := wr.row]
            && History(t'.events, wr.id) == (if wr.log.Some? then History(t.events, wr.id) + [wr.log.value]
                                             else History(t.events, wr.id))
            && AcksOf(t'.acks, wr.id) ==
                 (if wr.ack.Some?
                  then AcksOf(t.acks, wr.id) + [AckRow(wr.id, wr.row.tenant, wr.row.device, wr.ack.value)]
                  else AcksOf(t.acks, wr.id))
  {
    if wr.log.Some? { HistoryAppend(t.events, EventRow(wr.id, wr.log.value), wr.id); }
    if wr.ack.Some? { AcksAppend(t.acks, AckRow(wr.id, wr.row.tenant, wr.row.device, wr.ack.value), wr.id); }
  }

  lemma NewRowLogs(t: Tables, id: Id, wr: Write)
    requires LogsRefer(t) && id !in t.commands && wr.Write? && wr.id == id && wr.log == Some(CreatedEvent)
             && wr.ack.None?
    ensures var t' := Commit(t, wr);
            && t'.commands == t.commands[id := wr.row]
            && History(t'.events, id) == [CreatedEvent] && AcksOf(t'.acks, id) == []
  {
    CommitHere(t, wr);
    NoHistory(t.events, id);
    NoAcks(t.acks, id);
  }

  lemma NewRowInv(w: World, a: Action)
    requires References(w) && Enabled(w, a) && a.op.CreateOp?
    ensures RowInv(Apply(w, a), a.op.id)
  {
    NewRowLogs(w.t, a.op.id, Statement(w, a));
    assert Count([CreatedEvent], PublishedEvent) == 0;
  }

  /** What any statement may do to an existing row: never touch a terminal one, log every status
      change as an allowed step, write a result once and with its acknowledgement. */
  predicate LegalWrite(c: Command, wr: Write) {
    && wr.Write? && !Terminal(c.status)
    && wr.row.tenant == c.tenant && wr.row.device == c.device && wr.row.key == c.key
    && wr.row.payload == c.payload && wr.row.createdAt == c.createdAt
    && match wr.log {
         case Some(e) => Logged(c.status, e) == Some(wr.row.status)
         case None => wr.row.status == c.status
       }
    && match wr.ack {
         case Some(r) => Normalized(r) && wr.row.result == Some(r) && wr.row.status == r.status
         case None => wr.row.result == c.result && !wr.row.status.Acked?
       }
    && (wr.row.attempts == c.attempts
       || (c.status.Created? && wr.log.None? && c.attempts < MAX_DISPATCH_ATTEMPTS
           && wr.row.attempts == c.attempts + 1))
    && wr.row.deadline == (if wr.log == Some(DeliveredEvent) then wr.row.deadline else c.deadline)
    && (wr.log == Some(DeliveredEvent) ==> wr.row.deadline.Some?)
  }

  lemma StatementLegal(w: World, a: Action)
    requires Enabled(w, a) && !a.op.CreateOp? && Statement(w, a).Write?
    ensures Statement(w, a).id in w.t.commands
    ensures LegalWrite(w.t.commands[Statement(w, a).id], Statement(w, a))
  {
  }

  lemma LegalKeepsRecorded(id: Id, c: Command, h: seq<Event>, acks: seq<AckRow>, wr: Write)
    requires Recorded(id, c, h, acks) && LegalWrite(c, wr) && wr.id == id
    requires wr.log == Some(PublishedEvent) ==> Count(h, PublishedEvent) < wr.row.attempts
    ensures Recorded(id, wr.row, if wr.log.Some? then h + [wr.log.value] else h,
                     if wr.ack.Some? then acks + [AckRow(id, wr.row.tenant, wr.row.device, wr.ack.value)] else acks)
  {
    if wr.log.Some? {
      ReplayAppend(h, wr.log.value);
      CountAppend(h, wr.log.value, PublishedEvent);
    }
  }

  // The claim half, by what happens to the tokens.

  lemma ClaimFences(id: Id, c: Command, row: Command, published: nat, tokens: multiset<Token>, tokens': multiset<Token>)
    requires TokensFenced(id, c, published, tokens) && published <= c.attempts
    requires row.status.Created? && row.attempts == c.attempts + 1
    requires tokens' == tokens || tokens' == tokens + multiset{Token(id, row.attempts, row.nextDispatchAt)}
    ensures TokensFenced(id, row, published, tokens')
  {
  }

  lemma CompletionFences(tok: Token, c: Command, row: Command, published: nat, published': nat, tokens: multiset<Token>)
    requires TokensFenced(tok.id, c, published, tokens) && tok in tokens
    requires tok.attempt == c.attempts == row.attempts
    ensures TokensFenced(tok.id, row, published', tokens - multiset{tok})
  {
  }

  lemma StatusChangeFences(id: Id, c: Command, row: Command, published: nat, tokens: multiset<Token>)
    requires TokensFenced(id, c, published, tokens)
    requires row.attempts == c.attempts && !row.status.Published? && (row.status.Created? ==> c.status.Published?)
    ensures TokensFenced(id, row, published, tokens)
  {
  }

  lemma FewerTokensFenced(id: Id, c: Command, published: nat, tokens: multiset<Token>, tokens': multiset<Token>)
    requires TokensFenced(id, c, published, tokens)
    requires forall tok: Token :: tok.id == id ==> tokens'[tok] <= tokens[tok]
    ensures TokensFenced(id, c, published, tokens')
  {
    forall tok | tok in tokens' && tok.id == id ensures tok in tokens {}
  }

  // How a write to an existing row and the outstanding tokens move together.

  predicate ClaimMove(c: Command, wr: Write, tokens: multiset<Token>, tokens': multiset<Token>) {
    && wr.Write? && wr.log.None? && wr.row.attempts == c.attempts + 1 && wr.row.status.Created?
    && (tokens' == tokens || tokens' == tokens + multiset{Token(wr.id, wr.row.attempts, wr.row.nextDispatchAt)})
  }

  predicate CompletionMove(c: Command, wr: Write, tok: Token, tokens: multiset<Token>, tokens': multiset<Token>) {
    && wr.Write? && (wr.log.None? || wr.log == Some(PublishedEvent)) && c.status.Created?
       && wr.row.attempts == c.attempts
    && tok in tokens && tok.id == wr.id && tok.attempt == c.attempts && tokens' == tokens - multiset{tok}
  }

  predicate StatusMove(c: Command, wr: Write, tokens: multiset<Token>, tokens': multiset<Token>) {
    && wr.Write? && wr.log.Some? && wr.log != Some(PublishedEvent) && wr.row.attempts == c.attempts && tokens' == tokens
    && !wr.row.status.Published? && (wr.row.status.Created? ==> c.status.Published?)
  }

  ghost predicate TokenMove(c: Command, wr: Write, tokens: multiset<Token>, tokens': multiset<Token>) {
    || ClaimMove(c, wr, tokens, tokens')
    || (exists tok :: CompletionMove(c, wr, tok, tokens, tokens'))
    || StatusMove(c, wr, tokens, tokens')
  }

  lemma ClaimMoves(w: World, a: Action)
    requires Enabled(w, a) && a.op.ClaimOp?
    ensures ClaimMove(w.t.commands[a.op.id], Statement(w, a), w.tokens, TokensAfter(w, a))
  {
  }

  lemma CompletionMoves(w: World, a: Action)
    requires Enabled(w, a) && (a.op.PublishedOp? || a.op.RescheduledOp?) && Statement(w, a).Write?
    ensures a.op.token.id in w.t.commands
    ensures CompletionMove(w.t.commands[a.op.token.id], Statement(w, a), a.op.token, w.tokens, TokensAfter(w, a))
  {
  }

  lemma StatusMoves(w: World, a: Action)
    requires Enabled(w, a) && Statement(w, a).Write?
    requires !a.op.CreateOp? && !a.op.ClaimOp? && !a.op.PublishedOp? && !a.op.RescheduledOp?
    ensures Statement(w, a).id in w.t.commands
    ensures StatusMove(w.t.commands[Statement(w, a).id], Statement(w, a), w.tokens, TokensAfter(w, a))
  {
  }

  lemma StatementMovesTokens(w: World, a: Action)
    requires Enabled(w, a) && !a.op.CreateOp? && Statement(w, a).Write?
    ensures var wr := Statement(w, a);
            wr.id in w.t.commands && TokenMove(w.t.commands[wr.id], wr, w.tokens, TokensAfter(w, a))
  {
    if a.op.ClaimOp? {
      ClaimMoves(w, a);
    } else if a.op.PublishedOp? || a.op.RescheduledOp? {
      CompletionMoves(w, a);
    } else {
      StatusMoves(w, a);
    }
  }

  lemma TokensKept(c: Command, h: seq<Event>, wr: Write, tokens: multiset<Token>, tokens': multiset<Token>)
    requires wr.Write? && TokenMove(c, wr, tokens, tokens')
    requires TokensFenced(wr.id, c, Count(h, PublishedEvent), tokens) && Count(h, PublishedEvent) <= c.attempts
    ensures TokensFenced(wr.id, wr.row, Count(if wr.log.Some? then h + [wr.log.value] else h, PublishedEvent), tokens')
    ensures wr.log == Some(PublishedEvent) ==> Count(h, PublishedEvent) < wr.row.attempts
  {
    var n := Count(h, PublishedEvent);
    if wr.log.Some? { CountAppend(h, wr.log.value, PublishedEvent); }
    if ClaimMove(c, wr, tokens, tokens') {
      ClaimFences(wr.id, c, wr.row, n, tokens, tokens');
    } else if tok :| CompletionMove(c, wr, tok, tokens, tokens') {
      var longer := if wr.log.Some? then h + [wr.log.value] else h;
      CompletionFences(tok, c, wr.row, n, Count(longer, PublishedEvent), tokens);
    } else {
      StatusChangeFences(wr.id, c, wr.row, n, tokens);
    }
  }

  /** A write keeps the invariant of its own row. */
  lemma WrittenRowInv(w: World, w': World, wr: Write)
    requires wr.Write? && wr.id in w.t.commands && w'.t == Commit(w.t, wr)
    requires RowInv(w, wr.id)
    requires LegalWrite(w.t.commands[wr.id], wr) && TokenMove(w.t.commands[wr.id], wr, w.tokens, w'.tokens)
    ensures RowInv(w', wr.id)
  {
    var id, c, h := wr.id, w.t.commands[wr.id], History(w.t.events, wr.id);
    CommitHere(w.t, wr);
    TokensKept(c, h, wr, w.tokens, w'.tokens);
    LegalKeepsRecorded(id, c, h, AcksOf(w.t.acks, id), wr);
  }

  /** A step keeps the invariant of every row it does not write. */
  lemma OtherRowInv(w: World, w': World, wr: Write, id: Id)
    requires id in w.t.commands && (wr.Skip? || wr.id != id) && w'.t == Commit(w.t, wr)
    requires RowInv(w, id) && forall tok: Token :: tok.id == id ==> w'.tokens[tok] <= w.tokens[tok]
    ensures id in w'.t.commands && RowInv(w', id)
  {
    CommitElsewhere(w.t, wr, id);
    FewerTokensFenced(id, w.t.commands[id], Count(History(w.t.events, id), PublishedEvent), w.tokens, w'.tokens);
  }

  lemma TokensElsewhere(w: World, a: Action, id: Id)
    requires Enabled(w, a) && (Statement(w, a).Skip? || Statement(w, a).id != id)
    ensures forall tok: Token :: tok.id == id ==> TokensAfter(w, a)[tok] <= w.tokens[tok]
  {
  }

  lemma RowsKept(w: World, a: Action, id: Id)
    requires Inv(w) && Enabled(w, a) && id in w.t.commands
    ensures id in Apply(w, a).t.commands && RowInv(Apply(w, a), id)
  {
    var wr, w' := Statement(w, a), Apply(w, a);
    assert RowInv(w, id);
    if wr.Write? && wr.id == id {
      StatementLegal(w, a);
      StatementMovesTokens(w, a);
      WrittenRowInv(w, w', wr);
    } else {
      TokensElsewhere(w, a, id);
      OtherRowInv(w, w', wr, id);
    }
  }

  /** A write keeps every row and names its own; what it logs names it too. */
  lemma WriteKeepsReferences(t: Tables, wr: Write)
    requires LogsRefer(t)
    ensures t.commands.Keys <= Commit(t, wr).commands.Keys && LogsRefer(Commit(t, wr))
  {
  }

  lemma TokenReferences(w: World, a: Action)
    requires Enabled(w, a) && forall tok <- w.tokens :: tok.id in w.t.commands
    ensures forall tok <- TokensAfter(w, a) :: tok.id in w.t.commands
  {
    assert forall tok <- TokensAfter(w, a) :: tok in w.tokens || (a.op.ClaimOp? && tok.id == a.op.id);
  }

  lemma FlightReferences(w: World, a: Action)
    requires Enabled(w, a) && forall n <- w.flights :: w.flights[n].id in w.t.commands
    ensures forall n <- FlightsAfter(w, a) :: FlightsAfter(w, a)[n].id in w.t.commands
  {
  }

  lemma ReferencesKept(w: World, a: Action)
    requires References(w) && Enabled(w, a)
    ensures References(Apply(w, a)) && w.t.commands.Keys <= Apply(w, a).t.commands.Keys
  {
    WriteKeepsReferences(w.t, Statement(w, a));
    TokenReferences(w, a);
    FlightReferences(w, a);
  }

  lemma KeysKept(w: World, a: Action)
    requires KeysUnique(w.t.commands) && Enabled(w, a)
    ensures KeysUnique(Apply(w, a).t.commands)
  {
    var wr, rows := Statement(w, a), Apply(w, a).t.commands;
    if a.op.CreateOp? {
      forall i | i in w.t.commands && a.op.key != "" && w.t.commands[i].tenant == a.op.tenant
        ensures w.t.commands[i].key != a.op.key
      {
        assert !HoldsKey(w.t, i, a.op.tenant, a.op.key);
      }
    } else if wr.Write? {
      StatementLegal(w, a);
      assert forall i <- rows ::
          i in w.t.commands && rows[i].tenant == w.t.commands[i].tenant && rows[i].key == w.t.commands[i].key;
    }
  }

  /** Settled statuses are closed under every statement. */
  lemma SettledStays(w: World, a: Action, id: Id)
    requires Enabled(w, a) && id in w.t.commands
    requires Settled(w.t.commands[id].status)
    ensures id in Apply(w, a).t.commands && Settled(Apply(w, a).t.commands[id].status)
  {
    if Statement(w, a).Write? && Statement(w, a).id == id { StatementLegal(w, a); }
  }

  /** A flight is marked only by a reported mark-sent call, and then its command is settled for good. */
  lemma FlightsKept(w: World, a: Action, n: nat)
    requires References(w) && Enabled(w, a) && n in Apply(w, a).flights && Apply(w, a).flights[n].Marked?
    requires forall m <- w.flights :: w.flights[m].Marked? ==> Settled(w.t.commands[w.flights[m].id].status)
    ensures var id := Apply(w, a).flights[n].id;
            id in Apply(w, a).t.commands && Settled(Apply(w, a).t.commands[id].status)
  {
    assert n in w.flights && FlightsAfter(w, a)[n].id == w.flights[n].id;
    var id := w.flights[n].id;
    if Settled(w.t.commands[id].status) {
      SettledStays(w, a, id);
    } else {
      assert Statement(w, a) == MarkSent(w.t, id, a.op.deadline, a.at);
    }
  }

  lemma OnlyCreateAdds(w: World, a: Action, id: Id)
    requires Enabled(w, a) && id !in w.t.commands && id in Apply(w, a).t.commands
    ensures a.op.CreateOp? && a.op.id == id
  {
  }

  lemma AllRowsKept(w: World, a: Action)
    requires Inv(w) && Enabled(w, a)
    ensures forall id <- Apply(w, a).t.commands :: RowInv(Apply(w, a), id)
  {
    forall id | id in Apply(w, a).t.commands ensures RowInv(Apply(w, a), id) {
      if id in w.t.commands {
        RowsKept(w, a, id);
      } else {
        OnlyCreateAdds(w, a, id);
        NewRowInv(w, a);
      }
    }
  }

  lemma InvKept(w: World, a: Action)
    requires Inv(w) && Enabled(w, a)
    ensures Inv(Apply(w, a))
  {
    var w' := Apply(w, a);
    ReferencesKept(w, a);
    KeysKept(w, a);
    AllRowsKept(w, a);
    forall n | n in w'.flights && w'.flights[n].Marked? ensures Settled(w'.t.commands[w'.flights[n].id].status) {
      FlightsKept(w, a, n);
    }
  }

  /** The invariant holds in every state of every run from the empty store. */
  lemma {:induction false} InvAlways(ws: seq<World>, i: nat)
    requires Run(ws) && ws[0] == Empty && i < |ws|
    ensures Inv(ws[i])
  {
    if i > 0 {
      InvAlways(ws, i - 1);
      assert StepAt(ws, i - 1);
      var a :| Enabled(ws[i - 1], a) && ws[i] == Apply(ws[i - 1], a);
      InvKept(ws[i - 1], a);
    }
  }
}
