/** The periodic scans take the oldest due rows, at most 500 at a time.  Repeated,
    they reach every due command, so a round of them services all of them. */
module CommandSweeps {
  import opened Wrappers
  import opened CommandStatus
  import opened CommandStore
  import opened CommandProtocol
  import opened CommandConvergence

  /** A row a scan has swept is not due for it again. */
  ghost predicate Settles(s: Sweep) {
    forall c :: Due(s, c) ==> !Due(s, Swept(s, c))
  }

  lemma SweepSettles(s: Sweep)
    requires s.ClaimDue? ==> s.lease > 0
    ensures Settles(s)
  {
  }

  /** Successive scans with nothing locked: each takes the oldest due rows of the tables the one before left. */
  ghost predicate Sweeps(t: Tables, s: Sweep, limit: nat, batches: seq<seq<Id>>)
    decreases |batches|
  {
    batches == [] ||
    (&& OldestFirst(t.commands, Candidates(t.commands, s, {}), limit, batches[0])
     && Sweeps(SweepRows(t, s, batches[0]), s, limit, batches[1..]))
  }

  function Flatten(batches: seq<seq<Id>>): seq<Id> {
    if batches == [] then [] else batches[0] + Flatten(batches[1..])
  }

  function Members(ids: seq<Id>): set<Id> {
    set id | id in ids
  }

  // ----- a scan removes what it takes ----------------------------------------

  lemma SweepOneRow(t: Tables, s: Sweep, id: Id)
    requires Settles(s) && id in Candidates(t.commands, s, {})
    ensures Candidates(Commit(t, SweepRow(t, s, id)).commands, s, {}) == Candidates(t.commands, s, {}) - {id}
  {
    var after := Commit(t, SweepRow(t, s, id)).commands;
    assert after == t.commands[id := Swept(s, t.commands[id])];
    assert !Due(s, after[id]);
  }

  lemma {:induction false} SweepRemoves(t: Tables, s: Sweep, ids: seq<Id>)
    requires Settles(s) && (forall i :: 0 <= i < |ids| ==> ids[i] in Candidates(t.commands, s, {}))
    requires forall i, j :: 0 <= i < j < |ids| ==> ids[i] != ids[j]
    ensures Candidates(SweepRows(t, s, ids).commands, s, {}) == Candidates(t.commands, s, {}) - Members(ids)
  {
    if ids == [] {
      assert Members(ids) == {};
    } else {
      var init, last := ids[..|ids| - 1], ids[|ids| - 1];
      SweepRemoves(t, s, init);
      assert last !in Members(init);
      SweepOneRow(SweepRows(t, s, init), s, last);
      assert Members(ids) == Members(init) + {last} by { assert ids == init + [last]; }
    }
  }

  lemma {:induction false} MembersSize(ids: seq<Id>)
    requires forall i, j :: 0 <= i < j < |ids| ==> ids[i] != ids[j]
    ensures |Members(ids)| == |ids|
  {
    if ids == [] {
      assert Members(ids) == {};
    } else {
      var init, last := ids[..|ids| - 1], ids[|ids| - 1];
      MembersSize(init);
      assert last !in Members(init);
      assert Members(ids) == Members(init) + {last} by { assert ids == init + [last]; }
    }
  }

  lemma OldestDistinct(commands: map<Id, Command>, candidates: set<Id>, limit: nat, ids: seq<Id>)
    requires OldestFirst(commands, candidates, limit, ids)
    ensures forall i, j :: 0 <= i < j < |ids| ==> ids[i] != ids[j]
  {
    forall i, j | 0 <= i < j < |ids| ensures ids[i] != ids[j] {
      assert Before(commands, ids[i], ids[j]);
    }
  }

  /** One scan: it takes the limit, or all there is. */
  lemma ScanTakes(t: Tables, s: Sweep, limit: nat, ids: seq<Id>, id: Id)
    requires Settles(s) && OldestFirst(t.commands, Candidates(t.commands, s, {}), limit, ids)
    requires id in Candidates(t.commands, s, {}) && id !in ids
    ensures var after := Candidates(SweepRows(t, s, ids).commands, s, {});
            id in after && |after| + limit == |Candidates(t.commands, s, {})|
  {
    OldestDistinct(t.commands, Candidates(t.commands, s, {}), limit, ids);
    SweepRemoves(t, s, ids);
    MembersSize(ids);
    assert Members(ids) <= Candidates(t.commands, s, {});
    assert id !in Members(ids);
  }

  lemma NotEmpty(ids: set<Id>, id: Id)
    requires id in ids
    ensures |ids| > 0
  {
  }

  /** With n due rows and no arrivals, ceil(n / limit) scans select every one of them. */
  lemma {:induction false} SweepsReachAll(t: Tables, s: Sweep, limit: nat, batches: seq<seq<Id>>, id: Id)
    requires Settles(s) && Sweeps(t, s, limit, batches) && id in Candidates(t.commands, s, {})
    requires |Candidates(t.commands, s, {})| <= limit * |batches|
    ensures id in Flatten(batches)
    decreases |batches|
  {
    NotEmpty(Candidates(t.commands, s, {}), id);
    if batches == [] {
      assert false;
    } else if id !in batches[0] {
      ScanTakes(t, s, limit, batches[0], id);
      assert limit * |batches| == limit + limit * |batches[1..]|;
      SweepsReachAll(SweepRows(t, s, batches[0]), s, limit, batches[1..], id);
    }
  }

  // ----- each selected row is due when its turn comes ------------------------

  lemma {:induction false} SweepRowsAppend(t: Tables, s: Sweep, xs: seq<Id>, ys: seq<Id>)
    ensures SweepRows(t, s, xs + ys) == SweepRows(SweepRows(t, s, xs), s, ys)
  {
    if ys == [] {
      assert xs + ys == xs;
    } else {
      var init := ys[..|ys| - 1];
      assert (xs + ys)[..|xs + ys| - 1] == xs + init;
      SweepRowsAppend(t, s, xs, init);
    }
  }

  lemma DueWithin(t: Tables, s: Sweep, limit: nat, ids: seq<Id>, k: nat)
    requires Settles(s) && OldestFirst(t.commands, Candidates(t.commands, s, {}), limit, ids) && k < |ids|
    ensures ids[k] in Candidates(SweepRows(t, s, ids[..k]).commands, s, {})
  {
    OldestDistinct(t.commands, Candidates(t.commands, s, {}), limit, ids);
    SweepRemoves(t, s, ids[..k]);
    assert ids[k] !in Members(ids[..k]);
  }

  lemma {:induction false} EachDue(t: Tables, s: Sweep, limit: nat, batches: seq<seq<Id>>, k: nat)
    requires Settles(s) && Sweeps(t, s, limit, batches) && k < |Flatten(batches)|
    ensures var ids := Flatten(batches); ids[k] in Candidates(SweepRows(t, s, ids[..k]).commands, s, {})
    decreases |batches|
  {
    var first, rest := batches[0], Flatten(batches[1..]);
    Prefixes(first, rest, k);
    if k < |first| {
      DueWithin(t, s, limit, first, k);
    } else {
      EachDue(SweepRows(t, s, first), s, limit, batches[1..], k - |first|);
      SweepRowsAppend(t, s, first, rest[..k - |first|]);
    }
  }

  lemma Prefixes(xs: seq<Id>, ys: seq<Id>, k: nat)
    requires k < |xs + ys|
    ensures if k < |xs| then (xs + ys)[k] == xs[k] && (xs + ys)[..k] == xs[..k]
            else (xs + ys)[k] == ys[k - |xs|] && (xs + ys)[..k] == xs + ys[..k - |xs|]
  {
  }

  // ----- a round of scans services every due command -------------------------

  /** The scan as the dispatcher runs it at a time: claims stamp that time and lease for a while. */
  predicate ScanAt(s: Sweep, at: Time) {
    if s.ClaimDue? then s.now == at && s.lease > 0 else ScanAllowed(s, at)
  }

  function ScanAction(s: Sweep, at: Time, id: Id): Action {
    Action(at, if s.ClaimDue? then ClaimOp(id, s.lease, true) else ScanOp(s, id))
  }

  function ScanRow(w: World, s: Sweep, at: Time, id: Id): World {
    if Enabled(w, ScanAction(s, at, id)) then Apply(w, ScanAction(s, at, id)) else w
  }

  function SweepRun(w: World, s: Sweep, at: Time, ids: seq<Id>): (ws: seq<World>)
    ensures |ws| == |ids| + 1
  {
    if ids == [] then [w]
    else
      var before := SweepRun(w, s, at, ids[..|ids| - 1]);
      before + [ScanRow(before[|ids| - 1], s, at, ids[|ids| - 1])]
  }

  function Last(w: World, s: Sweep, at: Time, ids: seq<Id>): World {
    SweepRun(w, s, at, ids)[|ids|]
  }

  lemma {:induction false} SweepRunPrefix(w: World, s: Sweep, at: Time, ids: seq<Id>, k: nat)
    requires k <= |ids|
    ensures SweepRun(w, s, at, ids)[k] == Last(w, s, at, ids[..k])
    decreases |ids|
  {
    if k == |ids| {
      assert ids[..k] == ids;
    } else {
      var init := ids[..|ids| - 1];
      SweepRunPrefix(w, s, at, init, k);
      assert init[..k] == ids[..k];
    }
  }

  lemma LastStep(w: World, s: Sweep, at: Time, ids: seq<Id>, k: nat)
    requires k < |ids|
    ensures Last(w, s, at, ids[..k + 1]) == ScanRow(Last(w, s, at, ids[..k]), s, at, ids[k])
  {
    assert ids[..k + 1][..k] == ids[..k];
  }

  lemma {:induction false} LastTables(w: World, s: Sweep, at: Time, ids: seq<Id>)
    requires ScanAt(s, at)
    ensures Last(w, s, at, ids).t == SweepRows(w.t, s, ids)
  {
    if ids != [] {
      var init := ids[..|ids| - 1];
      LastTables(w, s, at, init);
      ScanRowTables(Last(w, s, at, init), s, at, ids[|ids| - 1]);
    }
  }

  /** State k of the run holds the tables after the first k rows; state k + 1 comes from it by scanning the next. */
  lemma SweepRunStep(w: World, s: Sweep, at: Time, ids: seq<Id>, k: nat)
    requires ScanAt(s, at) && k <= |ids|
    ensures var ws := SweepRun(w, s, at, ids);
            && ws[0] == w && ws[k].t == SweepRows(w.t, s, ids[..k])
            && (k < |ids| ==> ws[k + 1] == ScanRow(ws[k], s, at, ids[k]))
  {
    SweepRunPrefix(w, s, at, ids, 0);
    SweepRunPrefix(w, s, at, ids, k);
    LastTables(w, s, at, ids[..k]);
    if k < |ids| {
      SweepRunPrefix(w, s, at, ids, k + 1);
      LastStep(w, s, at, ids, k);
    }
  }

  lemma ScanRowTables(w: World, s: Sweep, at: Time, id: Id)
    requires ScanAt(s, at)
    ensures ScanRow(w, s, at, id).t == Commit(w.t, SweepRow(w.t, s, id))
  {
  }

  lemma SweepRunIsRun(w: World, s: Sweep, at: Time, limit: nat, batches: seq<seq<Id>>)
    requires ScanAt(s, at) && Settles(s) && Sweeps(w.t, s, limit, batches)
    ensures var ws := SweepRun(w, s, at, Flatten(batches)); Run(ws) && ws[0] == w
  {
    var ids := Flatten(batches);
    var ws := SweepRun(w, s, at, ids);
    SweepRunStep(w, s, at, ids, 0);
    forall i: nat | i + 1 < |ws| ensures StepAt(ws, i) {
      SweepRunStep(w, s, at, ids, i);
      EachDue(w.t, s, limit, batches, i);
      assert Enabled(ws[i], ScanAction(s, at, ids[i]));
    }
  }

  lemma DueIsAwake(c: Command, now: Time, lease: Time, timeout: Time)
    requires Due(Scan(c, now, lease, timeout), c)
    ensures Wake(c, timeout) <= now
  {
  }

  lemma ScannedIsTried(w: World, s: Sweep, at: Time, ids: seq<Id>, k: nat, lease: Time, timeout: Time)
    requires ScanAt(s, at) && k < |ids| && ids[k] in w.t.commands && s == Scan(w.t.commands[ids[k]], at, lease, timeout)
    requires Due(s, w.t.commands[ids[k]]) && Enabled(SweepRun(w, s, at, ids)[k], ScanAction(s, at, ids[k]))
    ensures var ws := SweepRun(w, s, at, ids); ws[0] == w && Tried(ws, 0, k, ids[k], lease, timeout)
  {
    var ws := SweepRun(w, s, at, ids);
    SweepRunStep(w, s, at, ids, k);
    ScanRowTables(ws[k], s, at, ids[k]);
    DueIsAwake(w.t.commands[ids[k]], at, lease, timeout);
  }

  /** After ceil(n / limit) scans of n due rows, claims included, the run of those scans has serviced each of the rows:
      the service that the convergence theorem asks for in every round. */
  lemma RoundServicesAll(w: World, s: Sweep, at: Time, limit: nat, batches: seq<seq<Id>>, id: Id, lease: Time,
                         timeout: Time)
    requires ScanAt(s, at) && Sweeps(w.t, s, limit, batches)
    requires |Candidates(w.t.commands, s, {})| <= limit * |batches|
    requires id in Candidates(w.t.commands, s, {}) && s == Scan(w.t.commands[id], at, lease, timeout)
    ensures var ws := SweepRun(w, s, at, Flatten(batches));
            && Run(ws) && ws[0] == w && ws[|ws| - 1].t == SweepRows(w.t, s, Flatten(batches))
            && |ws| > 1 && Serviced(ws, 0, |ws| - 1, id, lease, timeout)
  {
    var ids := Flatten(batches);
    var ws := SweepRun(w, s, at, ids);
    SweepSettles(s);
    SweepsReachAll(w.t, s, limit, batches, id);
    SweepRunIsRun(w, s, at, limit, batches);
    SweepRunStep(w, s, at, ids, |ids|);
    assert ids[..|ids|] == ids;
    var k :| 0 <= k < |ids| && ids[k] == id;
    SweepRunStep(w, s, at, ids, k);
    EachDue(w.t, s, limit, batches, k);
    ScannedIsTried(w, s, at, ids, k, lease, timeout);
  }

  // ----- rounds end every command --------------------------------------------

  /** One scan, repeated until it has covered all commands: states from..to of a run. */
  datatype Pass = Pass(from: nat, to: nat, s: Sweep, at: Time, limit: nat, batches: seq<seq<Id>>)

  /** The pass is this stretch of the run: oldest-first batches, enough of them for the number of commands. */
  ghost predicate PassIn(ws: seq<World>, i: nat, j: nat, g: Pass) {
    && i <= g.from <= g.to <= j < |ws| && ScanAt(g.s, g.at)
    && Sweeps(ws[g.from].t, g.s, g.limit, g.batches) && |ws[g.from].t.commands| <= g.limit * |g.batches|
    && ws[g.from..g.to + 1] == SweepRun(ws[g.from], g.s, g.at, Flatten(g.batches))
  }

  /** All four scans of the dispatcher, in any order. */
  datatype Round = Round(claim: Pass, requeue: Pass, fail: Pass, expire: Pass)

  /** The pass that is responsible for a row. */
  function PassFor(r: Round, c: Command): Pass {
    match c.status
    case Created => if c.attempts < MAX_DISPATCH_ATTEMPTS then r.claim else r.fail
    case Published => if c.attempts < MAX_DISPATCH_ATTEMPTS then r.requeue else r.fail
    case _ => r.expire
  }

  /** Between states i and j each scan makes a pass, once the clock is past the wake time of every unfinished command of
      state i; dispatchers, workers and devices may take any other steps before, between and after the passes. */
  ghost predicate RoundIn(ws: seq<World>, i: nat, j: nat, r: Round, lease: Time, timeout: Time) {
    && i <= j < |ws|
    && PassIn(ws, i, j, r.claim) && r.claim.s == ClaimDue(r.claim.at, lease)
    && PassIn(ws, i, j, r.requeue)
       && r.requeue.s == RequeueStale(r.requeue.at - timeout, r.requeue.at, MAX_DISPATCH_ATTEMPTS)
    && PassIn(ws, i, j, r.fail) && r.fail.s == FailStale(r.fail.at - timeout, r.fail.at, MAX_DISPATCH_ATTEMPTS)
    && PassIn(ws, i, j, r.expire) && r.expire.s == ExpireDue(r.expire.at, timeout)
    && forall id <- ws[i].t.commands ::
         var c := ws[i].t.commands[id]; !Terminal(c.status) ==> Wake(c, timeout) <= PassFor(r, c).at
  }

  lemma CandidatesFew(commands: map<Id, Command>, s: Sweep)
    ensures |Candidates(commands, s, {})| <= |commands|
  {
    SubsetFew(Candidates(commands, s, {}), commands.Keys);
    assert |commands.Keys| == |commands|;
  }

  lemma {:induction false} SubsetFew(a: set<Id>, b: set<Id>)
    requires a <= b
    ensures |a| <= |b|
  {
    if a != {} {
      var x :| x in a;
      SubsetFew(a - {x}, b - {x});
    }
  }

  /** In the run of enough scans, every row that is due at the start changes at some step. */
  lemma SweepRunChanges(w: World, s: Sweep, at: Time, limit: nat, batches: seq<seq<Id>>, id: Id) returns (m: nat)
    requires ScanAt(s, at) && Sweeps(w.t, s, limit, batches) && |w.t.commands| <= limit * |batches|
    requires id in Candidates(w.t.commands, s, {})
    ensures m < |Flatten(batches)|
    ensures var sub := SweepRun(w, s, at, Flatten(batches)); RowAt(sub[m], id) != RowAt(sub[m + 1], id)
  {
    var ids := Flatten(batches);
    var sub := SweepRun(w, s, at, ids);
    SweepSettles(s);
    CandidatesFew(w.t.commands, s);
    SweepsReachAll(w.t, s, limit, batches, id);
    m :| 0 <= m < |ids| && ids[m] == id;
    EachDue(w.t, s, limit, batches, m);
    SweepRunStep(w, s, at, ids, m);
    ScanRowTables(sub[m], s, at, id);
    SweptDiffers(sub[m].t, s, id);
  }

  /** So a pass changes every row that is due when it starts. */
  lemma PassChanges(ws: seq<World>, i: nat, j: nat, g: Pass, id: Id) returns (k: nat)
    requires PassIn(ws, i, j, g) && id in Candidates(ws[g.from].t.commands, g.s, {})
    ensures i <= k < j && RowAt(ws[k], id) != RowAt(ws[k + 1], id)
  {
    var m := SweepRunChanges(ws[g.from], g.s, g.at, g.limit, g.batches, id);
    k := StretchAt(ws, g.from, g.to, SweepRun(ws[g.from], g.s, g.at, Flatten(g.batches)), m);
  }

  lemma StretchAt(ws: seq<World>, from: nat, to: nat, sub: seq<World>, m: nat) returns (k: nat)
    requires from <= to < |ws| && ws[from..to + 1] == sub && m + 1 < |sub|
    ensures from <= k < to && ws[k] == sub[m] && ws[k + 1] == sub[m + 1]
  {
    k := from + m;
  }

  lemma PassCounts(ws: seq<World>, i: nat, j: nat, g: Pass, id: Id)
    requires PassIn(ws, i, j, g) && id in ws[i].t.commands && Due(g.s, ws[i].t.commands[id])
    ensures Changes(ws, i, j, id) > 0
  {
    if Changes(ws, i, j, id) == 0 {
      UnchangedBetween(ws, i, g.from, j, id);
      var k := PassChanges(ws, i, j, g, id);
      UnchangedBetween(ws, i, k, j, id);
      UnchangedBetween(ws, i, k + 1, j, id);
      assert false;
    }
  }

  lemma SweptDiffers(t: Tables, s: Sweep, id: Id)
    requires Settles(s) && id in Candidates(t.commands, s, {})
    ensures var after := Commit(t, SweepRow(t, s, id)).commands; id in after && after[id] != t.commands[id]
  {
    assert !Due(s, Swept(s, t.commands[id]));
  }

  lemma RoundChanges(ws: seq<World>, i: nat, j: nat, r: Round, id: Id, lease: Time, timeout: Time)
    requires Run(ws) && ws[0] == Empty && RoundIn(ws, i, j, r, lease, timeout)
    requires id in ws[i].t.commands && !Terminal(ws[i].t.commands[id].status)
    ensures Changes(ws, i, j, id) > 0
  {
    var c := ws[i].t.commands[id];
    var g := PassFor(r, c);
    assert g.s == Scan(c, g.at, lease, timeout);
    DueExactlyFromWake(ws, i, id, g.at, lease, timeout);
    PassCounts(ws, i, j, g, id);
  }

  lemma RoundShrinks(ws: seq<World>, i: nat, j: nat, r: Round, id: Id, lease: Time, timeout: Time)
    requires Run(ws) && ws[0] == Empty && RoundIn(ws, i, j, r, lease, timeout) && id in ws[i].t.commands
    ensures id in ws[j].t.commands && 0 <= MeasureAt(ws[j], id)
    ensures MeasureAt(ws[j], id) == 0 || MeasureAt(ws[j], id) < MeasureAt(ws[i], id)
  {
    ChangesSpendMeasure(ws, i, j, id);
    BoundsAlways(ws, i, id);
    BoundsAlways(ws, j, id);
    if !Terminal(ws[i].t.commands[id].status) { RoundChanges(ws, i, j, r, id, lease, timeout); }
  }

  ghost predicate RoundAt(ws: seq<World>, cuts: seq<nat>, rounds: seq<Round>, n: nat, lease: Time, timeout: Time)
    requires n < |rounds| < |cuts|
  {
    RoundIn(ws, cuts[n], cuts[n + 1], rounds[n], lease, timeout)
  }

  ghost predicate RoundsIn(ws: seq<World>, cuts: seq<nat>, rounds: seq<Round>, lease: Time, timeout: Time) {
    && |cuts| == |rounds| + 1 && (forall n :: 0 <= n < |cuts| ==> cuts[n] < |ws|)
    && forall n: nat {:trigger RoundAt(ws, cuts, rounds, n, lease, timeout)} :: n < |rounds| ==>
         RoundAt(ws, cuts, rounds, n, lease, timeout)
  }

  lemma NextCut(ws: seq<World>, cuts: seq<nat>, rounds: seq<Round>, n: nat, id: Id, lease: Time, timeout: Time)
    requires Run(ws) && ws[0] == Empty && RoundsIn(ws, cuts, rounds, lease, timeout)
    requires n < |rounds| && cuts[n] < |ws| && id in ws[cuts[n]].t.commands
    ensures cuts[n + 1] < |ws| && id in ws[cuts[n + 1]].t.commands && 0 <= MeasureAt(ws[cuts[n + 1]], id)
    ensures MeasureAt(ws[cuts[n + 1]], id) == 0 || MeasureAt(ws[cuts[n + 1]], id) < MeasureAt(ws[cuts[n]], id)
  {
    assert RoundAt(ws, cuts, rounds, n, lease, timeout);
    RoundShrinks(ws, cuts[n], cuts[n + 1], rounds[n], id, lease, timeout);
  }

  lemma {:induction false} RoundsSpend(ws: seq<World>, cuts: seq<nat>, rounds: seq<Round>, n: nat, id: Id, lease: Time,
                                       timeout: Time)
    requires Run(ws) && ws[0] == Empty && RoundsIn(ws, cuts, rounds, lease, timeout)
    requires n <= |rounds| && id in ws[cuts[0]].t.commands
    ensures cuts[n] < |ws| && id in ws[cuts[n]].t.commands
    ensures MeasureAt(ws[cuts[n]], id) == 0 || MeasureAt(ws[cuts[n]], id) + n <= MeasureAt(ws[cuts[0]], id)
  {
    if n > 0 {
      RoundsSpend(ws, cuts, rounds, n - 1, id, lease, timeout);
      NextCut(ws, cuts, rounds, n - 1, id, lease, timeout);
    }
  }

  /** After 34 rounds in which each scan makes enough oldest-first batches for the commands there are, every command
      that existed at the start is acked, failed or timed out, whatever else happened in between. */
  lemma RoundsEndAll(ws: seq<World>, cuts: seq<nat>, rounds: seq<Round>, lease: Time, timeout: Time)
    requires Run(ws) && ws[0] == Empty && RoundsIn(ws, cuts, rounds, lease, timeout) && |rounds| >= 34
    ensures var first, last := ws[cuts[0]], cuts[|rounds|];
            && last < |ws|
            && forall id <- first.t.commands :: id in ws[last].t.commands && Terminal(ws[last].t.commands[id].status)
  {
    var last := cuts[|rounds|];
    forall id <- ws[cuts[0]].t.commands ensures id in ws[last].t.commands && Terminal(ws[last].t.commands[id].status) {
      RoundsSpend(ws, cuts, rounds, |rounds|, id, lease, timeout);
      BoundsAlways(ws, cuts[0], id);
      BoundsAlways(ws, last, id);
    }
  }
}
