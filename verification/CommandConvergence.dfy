/** Every command converges: a row changes a bounded number of times, and a
    non-terminal row always has a moment from which a scan will move it on. */
module CommandConvergence {
  import opened Wrappers
  import opened CommandStatus
  import opened CommandStore
  import opened CommandProtocol

  // ----- the measure ---------------------------------------------------------

  ghost predicate CurrentClaim(id: Id, c: Command, tokens: multiset<Token>) {
    exists tok :: tok in tokens && tok.id == id && tok.attempt == c.attempts
  }

  ghost function Measure(id: Id, c: Command, tokens: multiset<Token>): int {
    if Terminal(c.status) then 0
    else if c.status.Sent? then 1
    else
      3 * (MAX_DISPATCH_ATTEMPTS - c.attempts) + 2 +
      if CurrentClaim(id, c, tokens) then 2 else if c.status.Published? then 1 else 0
  }

  lemma ClaimShrinks(c: Command, wr: Write, tokens: multiset<Token>, tokens': multiset<Token>)
    requires LegalWrite(c, wr) && c.attempts <= MAX_DISPATCH_ATTEMPTS && ClaimMove(c, wr, tokens, tokens')
    ensures Measure(wr.id, wr.row, tokens') < Measure(wr.id, c, tokens)
  {
  }

  lemma CompletionShrinks(c: Command, published: nat, wr: Write, tok: Token, tokens: multiset<Token>,
                          tokens': multiset<Token>)
    requires LegalWrite(c, wr) && c.attempts <= MAX_DISPATCH_ATTEMPTS && CompletionMove(c, wr, tok, tokens, tokens')
    requires TokensFenced(wr.id, c, published, tokens)
    ensures Measure(wr.id, wr.row, tokens') < Measure(wr.id, c, tokens)
  {
    assert CurrentClaim(wr.id, c, tokens);
    forall x | x in tokens' && x.id == wr.id ensures x.attempt != wr.row.attempts {
      assert x in tokens && tokens[tok] == 1;
    }
  }

  lemma StatusShrinks(c: Command, published: nat, wr: Write, tokens: multiset<Token>, tokens': multiset<Token>)
    requires LegalWrite(c, wr) && c.attempts <= MAX_DISPATCH_ATTEMPTS && StatusMove(c, wr, tokens, tokens')
    requires TokensFenced(wr.id, c, published, tokens)
    ensures Measure(wr.id, wr.row, tokens') < Measure(wr.id, c, tokens)
  {
  }

  lemma WriteShrinks(c: Command, published: nat, wr: Write, tokens: multiset<Token>, tokens': multiset<Token>)
    requires LegalWrite(c, wr) && c.attempts <= MAX_DISPATCH_ATTEMPTS && TokenMove(c, wr, tokens, tokens')
    requires TokensFenced(wr.id, c, published, tokens)
    ensures Measure(wr.id, wr.row, tokens') < Measure(wr.id, c, tokens)
  {
    if ClaimMove(c, wr, tokens, tokens') {
      ClaimShrinks(c, wr, tokens, tokens');
    } else if tok :| CompletionMove(c, wr, tok, tokens, tokens') {
      CompletionShrinks(c, published, wr, tok, tokens, tokens');
    } else {
      StatusShrinks(c, published, wr, tokens, tokens');
    }
  }

  ghost function MeasureAt(w: World, id: Id): int {
    if id in w.t.commands then Measure(id, w.t.commands[id], w.tokens) else 0
  }

  lemma UnwrittenStep(w: World, a: Action, id: Id)
    requires Enabled(w, a) && id in w.t.commands && (Statement(w, a).Skip? || Statement(w, a).id != id)
    ensures id in Apply(w, a).t.commands && Apply(w, a).t.commands[id] == w.t.commands[id]
    ensures MeasureAt(Apply(w, a), id) <= MeasureAt(w, id)
  {
    TokensElsewhere(w, a, id);
    assert forall tok :: tok in Apply(w, a).tokens && tok.id == id ==> tok in w.tokens;
  }

  lemma WrittenStep(w: World, a: Action, id: Id)
    requires Enabled(w, a) && id in w.t.commands && RowInv(w, id) && Statement(w, a).Write? && Statement(w, a).id == id
    ensures id in Apply(w, a).t.commands
    ensures MeasureAt(Apply(w, a), id) < MeasureAt(w, id)
  {
    var wr := Statement(w, a);
    StatementLegal(w, a);
    StatementMovesTokens(w, a);
    WriteShrinks(w.t.commands[id], Count(History(w.t.events, id), PublishedEvent), wr, w.tokens, TokensAfter(w, a));
  }

  lemma MeasureBounds(w: World, id: Id)
    requires id in w.t.commands && RowInv(w, id)
    ensures 0 <= MeasureAt(w, id) <= 34
    ensures MeasureAt(w, id) == 0 <==> Terminal(w.t.commands[id].status)
  {
  }

  lemma BoundsAlways(ws: seq<World>, i: nat, id: Id)
    requires Run(ws) && ws[0] == Empty && i < |ws| && id in ws[i].t.commands
    ensures 0 <= MeasureAt(ws[i], id) <= 34
    ensures MeasureAt(ws[i], id) == 0 <==> Terminal(ws[i].t.commands[id].status)
  {
    InvAlways(ws, i);
    MeasureBounds(ws[i], id);
  }

  /** No step raises the measure of a command, and a step that changes its row lowers it. */
  lemma MeasureStep(ws: seq<World>, i: nat, id: Id)
    requires Run(ws) && ws[0] == Empty && i + 1 < |ws| && id in ws[i].t.commands
    ensures id in ws[i + 1].t.commands
    ensures MeasureAt(ws[i + 1], id) <= MeasureAt(ws[i], id)
    ensures ws[i + 1].t.commands[id] != ws[i].t.commands[id] ==> MeasureAt(ws[i + 1], id) < MeasureAt(ws[i], id)
  {
    assert StepAt(ws, i);
    var a :| Enabled(ws[i], a) && ws[i + 1] == Apply(ws[i], a);
    if Statement(ws[i], a).Write? && Statement(ws[i], a).id == id {
      InvAlways(ws, i);
      WrittenStep(ws[i], a, id);
    } else {
      UnwrittenStep(ws[i], a, id);
    }
  }

  // ----- bounded change ------------------------------------------------------

  function RowAt(w: World, id: Id): Option<Command> {
    if id in w.t.commands then Some(w.t.commands[id]) else None
  }

  /** How often the row of a command changes between two states of a run. */
  function Changes(ws: seq<World>, i: nat, j: nat, id: Id): nat
    requires i <= j < |ws|
  {
    if i == j then 0
    else Changes(ws, i, j - 1, id) + if RowAt(ws[j], id) != RowAt(ws[j - 1], id) then 1 else 0
  }

  lemma {:induction false} ChangesSpendMeasure(ws: seq<World>, i: nat, j: nat, id: Id)
    requires Run(ws) && ws[0] == Empty && i <= j < |ws| && id in ws[i].t.commands
    ensures id in ws[j].t.commands
    ensures Changes(ws, i, j, id) + MeasureAt(ws[j], id) <= MeasureAt(ws[i], id)
  {
    if i < j {
      ChangesSpendMeasure(ws, i, j - 1, id);
      MeasureStep(ws, j - 1, id);
    }
  }

  lemma {:induction false} UnchangedBetween(ws: seq<World>, i: nat, k: nat, j: nat, id: Id)
    requires i <= k <= j < |ws| && Changes(ws, i, j, id) == 0
    ensures RowAt(ws[k], id) == RowAt(ws[i], id)
    decreases j
  {
    if k < j {
      UnchangedBetween(ws, i, k, j - 1, id);
    } else if i < k {
      UnchangedBetween(ws, i, k - 1, j - 1, id);
    }
  }

  lemma NewCommandMeasure(ws: seq<World>, i: nat, id: Id)
    requires Run(ws) && ws[0] == Empty && i + 1 < |ws| && id !in ws[i].t.commands && id in ws[i + 1].t.commands
    ensures MeasureAt(ws[i + 1], id) == 32
  {
    assert References(ws[i]) by { InvAlways(ws, i); }
    assert StepAt(ws, i);
    var a :| Enabled(ws[i], a) && ws[i + 1] == Apply(ws[i], a);
    OnlyCreateAdds(ws[i], a, id);
    assert ws[i + 1].t.commands[id] == NewCommand(a.op.tenant, a.op.device, a.op.key, a.op.payload, a.at);
  }

  /** After its insertion a command's row changes at most 32 times in any run. */
  lemma BoundedChange(ws: seq<World>, i: nat, j: nat, id: Id)
    requires Run(ws) && ws[0] == Empty && i < j < |ws| && id !in ws[i].t.commands && id in ws[i + 1].t.commands
    ensures Changes(ws, i + 1, j, id) <= 32
  {
    NewCommandMeasure(ws, i, id);
    ChangesSpendMeasure(ws, i + 1, j, id);
    BoundsAlways(ws, j, id);
  }

  // ----- scans that keep a command moving ------------------------------------

  /** The scan that is responsible for a row, as the dispatcher runs it at time `now`. */
  function Scan(c: Command, now: Time, lease: Time, timeout: Time): Sweep {
    match c.status
    case Created => if c.attempts < MAX_DISPATCH_ATTEMPTS then ClaimDue(now, lease)
                    else FailStale(now - timeout, now, MAX_DISPATCH_ATTEMPTS)
    case Published => if c.attempts < MAX_DISPATCH_ATTEMPTS then RequeueStale(now - timeout, now, MAX_DISPATCH_ATTEMPTS)
                      else FailStale(now - timeout, now, MAX_DISPATCH_ATTEMPTS)
    case _ => ExpireDue(now, timeout)
  }

  /** The moment from which that scan selects the row. */
  function Wake(c: Command, timeout: Time): Time {
    match c.status
    case Created => c.nextDispatchAt
    case Published => c.updatedAt + timeout
    case _ => if c.deadline.Some? then c.deadline.value else c.updatedAt + timeout
  }

  lemma DueFromWake(c: Command, now: Time, lease: Time, timeout: Time)
    requires !Terminal(c.status) && (c.status.Sent? ==> c.deadline.Some?)
    ensures Due(Scan(c, now, lease, timeout), c) <==> Wake(c, timeout) <= now
    ensures now < Wake(c, timeout) ==>
              && !Due(ClaimDue(now, lease), c) && !Due(ExpireDue(now, timeout), c)
              && !Due(RequeueStale(now - timeout, now, MAX_DISPATCH_ATTEMPTS), c)
              && !Due(FailStale(now - timeout, now, MAX_DISPATCH_ATTEMPTS), c)
  {
  }

  lemma SentHasDeadline(ws: seq<World>, i: nat, id: Id)
    requires Run(ws) && ws[0] == Empty && i < |ws| && id in ws[i].t.commands && ws[i].t.commands[id].status.Sent?
    ensures ws[i].t.commands[id].deadline.Some?
  {
    InvAlways(ws, i);
    assert RowInv(ws[i], id);
  }

  /** In every reachable state, a non-terminal row is due for its scan exactly from its wake time on,
      and no scan at all moves it earlier. */
  lemma DueExactlyFromWake(ws: seq<World>, i: nat, id: Id, now: Time, lease: Time, timeout: Time)
    requires Run(ws) && ws[0] == Empty && i < |ws| && id in ws[i].t.commands && !Terminal(ws[i].t.commands[id].status)
    ensures var c := ws[i].t.commands[id];
            && (Due(Scan(c, now, lease, timeout), c) <==> Wake(c, timeout) <= now)
            && (now < Wake(c, timeout) ==>
                  && !Due(ClaimDue(now, lease), c) && !Due(ExpireDue(now, timeout), c)
                  && !Due(RequeueStale(now - timeout, now, MAX_DISPATCH_ATTEMPTS), c)
                  && !Due(FailStale(now - timeout, now, MAX_DISPATCH_ATTEMPTS), c))
  {
    var c := ws[i].t.commands[id];
    if c.status.Sent? { SentHasDeadline(ws, i, id); }
    DueFromWake(c, now, lease, timeout);
  }

  /** Between states i and j the scan responsible for the row at i was tried on it, past its wake time.
      If other steps changed the row first, the try may select nothing. */
  ghost predicate Serviced(ws: seq<World>, i: nat, j: nat, id: Id, lease: Time, timeout: Time)
    requires i < j < |ws|
  {
    id in ws[i].t.commands &&
    exists k :: i <= k < j && Tried(ws, i, k, id, lease, timeout)
  }

  predicate Tried(ws: seq<World>, i: nat, k: nat, id: Id, lease: Time, timeout: Time)
    requires i < |ws| && k + 1 < |ws| && id in ws[i].t.commands
  {
    var c, now := ws[i].t.commands[id], ws[k + 1].now;
    Wake(c, timeout) <= now && ws[k + 1].t == Commit(ws[k].t, SweepRow(ws[k].t, Scan(c, now, lease, timeout), id))
  }

  lemma ServiceChanges(ws: seq<World>, i: nat, j: nat, id: Id, lease: Time, timeout: Time)
    requires Run(ws) && ws[0] == Empty && i < j < |ws| && Serviced(ws, i, j, id, lease, timeout)
    requires !Terminal(ws[i].t.commands[id].status)
    ensures Changes(ws, i, j, id) > 0
  {
    if Changes(ws, i, j, id) == 0 {
      var k :| i <= k < j && Tried(ws, i, k, id, lease, timeout);
      UnchangedBetween(ws, i, k, j, id);
      UnchangedBetween(ws, i, k + 1, j, id);
      DueExactlyFromWake(ws, i, id, ws[k + 1].now, lease, timeout);
      assert false;
    }
  }

  lemma ServiceShrinks(ws: seq<World>, i: nat, j: nat, id: Id, lease: Time, timeout: Time)
    requires Run(ws) && ws[0] == Empty && i < j < |ws| && Serviced(ws, i, j, id, lease, timeout)
    ensures id in ws[j].t.commands && 0 <= MeasureAt(ws[j], id) <= MeasureAt(ws[i], id)
    ensures MeasureAt(ws[i], id) == 0 || MeasureAt(ws[j], id) < MeasureAt(ws[i], id)
  {
    ChangesSpendMeasure(ws, i, j, id);
    BoundsAlways(ws, i, id);
    BoundsAlways(ws, j, id);
    if !Terminal(ws[i].t.commands[id].status) {
      ServiceChanges(ws, i, j, id, lease, timeout);
    }
  }

  ghost predicate Rounds(ws: seq<World>, cuts: seq<nat>, id: Id, lease: Time, timeout: Time) {
    && |cuts| > 0 && (forall n :: 0 <= n < |cuts| ==> cuts[n] < |ws|)
    && (forall n :: 0 <= n < |cuts| - 1 ==>
         cuts[n] < cuts[n + 1] && Serviced(ws, cuts[n], cuts[n + 1], id, lease, timeout))
  }

  lemma {:induction false} RoundsShrink(ws: seq<World>, cuts: seq<nat>, n: nat, id: Id, lease: Time, timeout: Time)
    requires Run(ws) && ws[0] == Empty && Rounds(ws, cuts, id, lease, timeout) && n < |cuts|
             && id in ws[cuts[0]].t.commands
    ensures id in ws[cuts[n]].t.commands
    ensures MeasureAt(ws[cuts[n]], id) == 0 || MeasureAt(ws[cuts[n]], id) + n <= MeasureAt(ws[cuts[0]], id)
  {
    if n > 0 {
      RoundsShrink(ws, cuts, n - 1, id, lease, timeout);
      assert cuts[n - 1] < cuts[n - 1 + 1];
      ServiceShrinks(ws, cuts[n - 1], cuts[n], id, lease, timeout);
    }
  }

  /** Any run in which the scans reach a command in 34 successive rounds ends with it acked, failed
      or timed out, whatever dispatchers, workers and devices do in between. */
  lemma ServicedCommandsTerminate(ws: seq<World>, cuts: seq<nat>, id: Id, lease: Time, timeout: Time)
    requires Run(ws) && ws[0] == Empty && Rounds(ws, cuts, id, lease, timeout) && id in ws[cuts[0]].t.commands
    requires |cuts| > 34
    ensures var w := ws[cuts[|cuts| - 1]]; id in w.t.commands && Terminal(w.t.commands[id].status)
  {
    RoundsShrink(ws, cuts, |cuts| - 1, id, lease, timeout);
    BoundsAlways(ws, cuts[0], id);
    BoundsAlways(ws, cuts[|cuts| - 1], id);
  }
}
