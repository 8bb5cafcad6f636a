/** The dead-letter replay command: what it republishes, and how far it lets a
    consumer group move. One partition of the dead-letter topic is one log. */
module DlqReplay {
  import opened Wrappers
  import opened TelemetryStore
  import TopicCodec

  const MQTT_DECODE := "mqtt.decode"
  const MQTT_IDENTITY := "mqtt.identity"
  const MQTT_KAFKA := "mqtt.kafka"
  const TELEMETRY_POSTGRES := "telemetry.postgres"
  const TELEMETRY_TDENGINE := "telemetry.tdengine"
  const COMMAND_ACK := "command.ack"

  /** The dead letter's own time stamp, as RFC 3339 parsing sees it; Parsed(None) is the zero time. */
  datatype Stamp = Absent | Unparsable | Parsed(at: Option<Time>)

  datatype Item = Item(stage: string, sourceTopic: string, occurredAt: Stamp)

  datatype Ack = Ack(of: Device, command: string, result: string)

  /** A decoded payload: its bytes, and what they hold when read as a telemetry record or as an
      acknowledgement whose result passes normalisation. */
  datatype Value = Value(raw: string, rec: Option<Record>, ack: Option<Ack>)

  datatype Entry = Malformed | Letter(item: Item, value: Option<Value>)

  datatype Sent = Raw(topic: string, raw: string) | Telemetry(topic: string, rec: Record) | Acknowledge(ack: Ack)

  // ----- what is republished -------------------------------------------------

  function EventTime(ts: int): Time { ts * 1_000_000 }

  function ReplayReceivedAt(item: Item, ts: int): Option<Time> {
    match item.occurredAt
    case Parsed(at) => at
    case Unparsable => None
    case Absent => if ts <= 0 then None else Some(EventTime(ts))
  }

  function WithReceiveTime(item: Item, rec: Record, topic: string): Option<Sent> {
    match ReplayReceivedAt(item, rec.ts)
    case None => None
    case Some(at) => Some(Telemetry(topic, rec.(receivedAt := Some(at))))
  }

  predicate FromTopic(item: Item, of: Device, suffix: string) {
    TopicCodec.ParseDeviceTopic(item.sourceTopic) == Some(TopicCodec.Address(of.tenant, of.device, suffix))
  }

  /** None is an error that ends the run. `telemetryTopic` is the configured telemetry topic. */
  function ReplayKafkaPayload(item: Item, v: Value, telemetryTopic: string): Option<Sent> {
    if item.stage == MQTT_DECODE || item.stage == MQTT_IDENTITY then None
    else if item.stage == MQTT_KAFKA then
      if v.rec.None? || !FromTopic(item, v.rec.value.key.of, "telemetry") then None
      else WithReceiveTime(item, v.rec.value, telemetryTopic)
    else if item.stage == TELEMETRY_POSTGRES || item.stage == TELEMETRY_TDENGINE then
      if v.rec.None? then None
      else if v.rec.value.receivedAt.None? then WithReceiveTime(item, v.rec.value, item.sourceTopic)
      else Some(Raw(item.sourceTopic, v.raw))
    else Some(Raw(item.sourceTopic, v.raw))
  }

  function Plan(item: Item, v: Value, telemetryTopic: string): Option<Sent> {
    if item.stage != COMMAND_ACK then ReplayKafkaPayload(item, v, telemetryTopic)
    else if v.ack.None? || v.ack.value.command == "" || !FromTopic(item, v.ack.value.of, "ack") then None
    else Some(Acknowledge(v.ack.value))
  }

  lemma ReceiveTimeSources(item: Item, rec: Record, topic: string)
    requires WithReceiveTime(item, rec, topic).Some?
    ensures var r := WithReceiveTime(item, rec, topic).value.rec;
            && r.receivedAt.Some? && r.(receivedAt := rec.receivedAt) == rec
            && match item.occurredAt {
                 case Parsed(at) => r.receivedAt == at
                 case Unparsable => false
                 case Absent => r.ts > 0 && r.receivedAt == Some(r.ts * 1_000_000)
               }
  {
  }

  /** A receive time can be supplied: the dead letter's own, or the event's where it has none. */
  predicate Datable(item: Item, ts: int) {
    match item.occurredAt
    case Parsed(at) => at.Some?
    case Unparsable => false
    case Absent => ts > 0
  }

  /** A message that never reached Kafka is replayed exactly if it came from its own device's topic and can be dated. */
  lemma BridgeLetterReplayable(item: Item, v: Value, telemetryTopic: string)
    requires item.stage == MQTT_KAFKA
    ensures Plan(item, v, telemetryTopic).Some? <==>
            && v.rec.Some? && Datable(item, v.rec.value.ts)
            && TopicCodec.BuildDeviceTopic(TopicCodec.Address(v.rec.value.key.of.tenant, v.rec.value.key.of.device,
                   "telemetry")) == Some(item.sourceTopic)
  {
    BridgeLetter(item, v, telemetryTopic);
    if v.rec.Some? { OwnTopic(item, v.rec.value.key.of, "telemetry"); }
  }

  lemma BridgeLetter(item: Item, v: Value, telemetryTopic: string)
    requires item.stage == MQTT_KAFKA
    ensures Plan(item, v, telemetryTopic).Some? <==>
            v.rec.Some? && FromTopic(item, v.rec.value.key.of, "telemetry") && Datable(item, v.rec.value.ts)
  {
    BridgeStage();
    if v.rec.Some? { DatableExactly(item, v.rec.value, telemetryTopic); }
  }

  lemma BridgeStage()
    ensures MQTT_KAFKA != MQTT_DECODE && MQTT_KAFKA != MQTT_IDENTITY && MQTT_KAFKA != COMMAND_ACK
  {
    assert MQTT_KAFKA[5] != MQTT_DECODE[5] && MQTT_KAFKA[5] != MQTT_IDENTITY[5] && MQTT_KAFKA[0] != COMMAND_ACK[0];
  }

  lemma DatableExactly(item: Item, rec: Record, topic: string)
    ensures WithReceiveTime(item, rec, topic).Some? <==> Datable(item, rec.ts)
  {
  }

  lemma OwnTopic(item: Item, of: Device, suffix: string)
    ensures FromTopic(item, of, suffix) <==>
            TopicCodec.BuildDeviceTopic(TopicCodec.Address(of.tenant, of.device, suffix)) == Some(item.sourceTopic)
  {
    TopicCodec.TopicCodecInverse(TopicCodec.Address(of.tenant, of.device, suffix), item.sourceTopic);
  }

  /** Any other letter but an acknowledgement: not if its source has to be corrected; a stored record only if it can be
      dated, where it has no receive time; everything else always. */
  lemma OtherLetterReplayable(item: Item, v: Value, telemetryTopic: string)
    requires item.stage != MQTT_KAFKA && item.stage != COMMAND_ACK
    ensures Plan(item, v, telemetryTopic).Some? <==>
            && item.stage != MQTT_DECODE && item.stage != MQTT_IDENTITY
            && (item.stage == TELEMETRY_POSTGRES || item.stage == TELEMETRY_TDENGINE ==>
                  v.rec.Some? && (v.rec.value.receivedAt.Some? || Datable(item, v.rec.value.ts)))
  {
  }

  /** What is sent is what was dead-lettered, except for a missing receive time, which becomes the dead letter's
      time where it has one, and the event time otherwise: no clock of the replay enters, so replay cannot make a
      device look live. It goes to the topic it came from, or to the telemetry topic if it never reached Kafka. */
  predicate Keeps(item: Item, v: Value, telemetryTopic: string, s: Sent) {
    match s
    case Raw(topic, raw) => topic == item.sourceTopic && raw == v.raw && item.stage != MQTT_KAFKA
    case Acknowledge(ack) => v.ack == Some(ack) && item.stage == COMMAND_ACK
    case Telemetry(topic, rec) =>
      && topic == (if item.stage == MQTT_KAFKA then telemetryTopic else item.sourceTopic)
      && v.rec.Some? && rec.receivedAt.Some? && rec.(receivedAt := v.rec.value.receivedAt) == v.rec.value
      && (item.stage != MQTT_KAFKA ==> v.rec.value.receivedAt.None?)
      && match item.occurredAt {
           case Parsed(at) => rec.receivedAt == at
           case Unparsable => false
           case Absent => rec.ts > 0 && rec.receivedAt == Some(rec.ts * 1_000_000)
         }
  }

  lemma ReplayKeepsRecord(item: Item, v: Value, telemetryTopic: string)
    requires Plan(item, v, telemetryTopic).Some?
    ensures Keeps(item, v, telemetryTopic, Plan(item, v, telemetryTopic).value)
  {
    if v.rec.Some? {
      if WithReceiveTime(item, v.rec.value, item.sourceTopic).Some? {
        ReceiveTimeSources(item, v.rec.value, item.sourceTopic);
      }
      if WithReceiveTime(item, v.rec.value, telemetryTopic).Some? {
        ReceiveTimeSources(item, v.rec.value, telemetryTopic);
      }
    }
  }

  /** An acknowledgement is replayed exactly for the device whose topic it was sent to. */
  lemma ReplayedAckOwnsTopic(item: Item, v: Value, telemetryTopic: string)
    requires item.stage == COMMAND_ACK && v.ack.Some?
    ensures Plan(item, v, telemetryTopic).Some? <==>
            v.ack.value.command != "" &&
            TopicCodec.BuildDeviceTopic(TopicCodec.Address(v.ack.value.of.tenant, v.ack.value.of.device, "ack")) ==
                Some(item.sourceTopic)
  {
    OwnTopic(item, v.ack.value.of, "ack");
  }

  // ----- one run -------------------------------------------------------------

  /** A call either succeeds, or fails with or without having taken effect. */
  datatype Outcome = Good | Bad(applied: bool)

  /** What the broker does around one record: fetching it, sending its replay, committing its offset. */
  datatype Attempt = Attempt(fetched: bool, send: Outcome, commit: Outcome)

  /** `plan` decides what a dead letter is sent as; None ends the run. */
  datatype Job = Job(stage: string, limit: int, dryRun: bool, plan: (Item, Value) -> Option<Sent>)

  /** The plan of the command, for a configured telemetry topic. */
  function Planner(telemetryTopic: string): (Item, Value) -> Option<Sent> {
    (item, v) => Plan(item, v, telemetryTopic)
  }

  /** The group's committed offset, what has been sent from each offset, and how many records the run counted. */
  datatype Progress = Progress(committed: nat, sent: map<nat, Sent>, count: nat)

  datatype Stop = Finished(at: nat) | Fatal

  function Applied(o: Outcome): bool { o.Good? || o.applied }

  function Commit(p: Progress, offset: nat, o: Outcome): Progress {
    if Applied(o) then p.(committed := offset + 1) else p
  }

  predicate Wanted(stage: string, e: Entry) {
    e.Letter? && (stage == "" || e.item.stage == stage)
  }

  /** One record: the new progress, and whether the run goes on. */
  function Handle(job: Job, e: Entry, offset: nat, a: Attempt, p: Progress): (Progress, bool) {
    if e.Letter? && !Wanted(job.stage, e) then (p, true)
    else if job.dryRun then (if e.Letter? then p.(count := p.count + 1) else p, true)
    else if e.Malformed? || e.value.None? then (Commit(p, offset, a.commit), a.commit.Good?)
    else
      match job.plan(e.item, e.value.value)
      case None => (p, false)
      case Some(s) =>
        var q := if Applied(a.send) then p.(sent := p.sent[offset := s]) else p;
        if a.send.Bad? then (q, false)
        else if a.commit.Bad? then (Commit(q, offset, a.commit), false)
        else (Commit(q, offset, a.commit).(count := q.count + 1), true)
  }

  /** The fetch loop from an offset: it ends at the limit, at the end of the log or at an idle fetch
      (the attempts run out), or fatally. */
  function Loop(job: Job, log: seq<Entry>, at: nat, plan: seq<Attempt>, p: Progress): (Progress, Stop)
    decreases |plan|
  {
    if p.count >= job.limit || at >= |log| || plan == [] then (p, Finished(at))
    else if !plan[0].fetched then (p, Fatal)
    else
      var (q, go) := Handle(job, log[at], at, plan[0], p);
      if go then Loop(job, log, at + 1, plan[1..], q) else (q, Fatal)
  }

  /** Every well-formed record of the stage below the committed offset was sent as planned, or cannot be decoded. */
  ghost predicate Safe(job: Job, log: seq<Entry>, below: nat, sent: map<nat, Sent>) {
    forall o :: 0 <= o < below && o < |log| && Wanted(job.stage, log[o]) && log[o].value.Some? ==>
      o in sent && job.plan(log[o].item, log[o].value.value) == Some(sent[o])
  }

  lemma HandleSafe(job: Job, log: seq<Entry>, at: nat, a: Attempt, p: Progress)
    requires at < |log| && !job.dryRun && p.committed <= at && Safe(job, log, at, p.sent)
    ensures var (q, go) := Handle(job, log[at], at, a, p);
            && p.committed <= q.committed <= at + 1 && Safe(job, log, q.committed, q.sent)
            && (go ==> Safe(job, log, at + 1, q.sent))
  {
  }

  lemma {:induction false} LoopSafe(job: Job, log: seq<Entry>, at: nat, plan: seq<Attempt>, p: Progress)
    requires at <= |log| && !job.dryRun && p.committed <= at && Safe(job, log, at, p.sent)
    ensures var (q, stop) := Loop(job, log, at, plan, p);
            && p.committed <= q.committed <= |log| && Safe(job, log, q.committed, q.sent)
            && (stop.Finished? ==> at <= stop.at <= |log| && q.committed <= stop.at && Safe(job, log, stop.at, q.sent))
    decreases |plan|
  {
    if !(p.count >= job.limit || at >= |log| || plan == [] || !plan[0].fetched) {
      HandleSafe(job, log, at, plan[0], p);
      var (q, go) := Handle(job, log[at], at, plan[0], p);
      if go { LoopSafe(job, log, at + 1, plan[1..], q); }
    }
  }

  /** What a run sends lies at or past where it started; if it was not cut short, it lies below what it committed,
      so the next run does not send it again. Nothing already sent is forgotten. */
  lemma {:induction false} LoopDurable(job: Job, log: seq<Entry>, at: nat, plan: seq<Attempt>, p: Progress, o: nat)
    requires at <= |log| && p.committed <= at
    ensures var (q, stop) := Loop(job, log, at, plan, p);
            && p.sent.Keys <= q.sent.Keys && (o < at && o in p.sent ==> q.sent[o] == p.sent[o])
            && p.committed <= q.committed && p.count <= q.count && (q.count <= job.limit || q.count == p.count)
            && (o in q.sent && o !in p.sent ==> at <= o < |log| && Wanted(job.stage, log[o]))
            && (o in q.sent && o !in p.sent && stop.Finished? ==> o < q.committed)
    decreases |plan|
  {
    if !(p.count >= job.limit || at >= |log| || plan == [] || !plan[0].fetched) {
      var (q, go) := Handle(job, log[at], at, plan[0], p);
      if go { LoopDurable(job, log, at + 1, plan[1..], q, o); }
    }
  }

  /** How many records of a stretch of the log a run counts: those of its stage, and in a real run only the ones that
      can be decoded. */
  function Counted(job: Job, log: seq<Entry>, at: nat, end: nat): nat
    requires at <= end <= |log|
    decreases end - at
  {
    if at == end then 0
    else
      (if Wanted(job.stage, log[at]) && (job.dryRun || log[at].value.Some?) then 1 else 0) +
      Counted(job, log, at + 1, end)
  }

  /** A run that is not cut short counts exactly those, and stops before the end of the log only at its limit or when no
      more records come. */
  lemma {:induction false} LoopCounts(job: Job, log: seq<Entry>, at: nat, plan: seq<Attempt>, p: Progress)
    requires at <= |log|
    ensures var (q, stop) := Loop(job, log, at, plan, p);
            stop.Finished? ==>
              && at <= stop.at <= |log| && q.count == p.count + Counted(job, log, at, stop.at)
              && (stop.at == |log| || q.count >= job.limit || stop.at - at == |plan|)
    decreases |plan|
  {
    if !(p.count >= job.limit || at >= |log| || plan == [] || !plan[0].fetched) {
      var (q, go) := Handle(job, log[at], at, plan[0], p);
      if go { LoopCounts(job, log, at + 1, plan[1..], q); }
    }
  }

  /** A run in which nothing fails, with a limit and attempts enough for the log, replays every record of the stage that
      can be decoded, and ends at the end of the log. */
  lemma {:induction false} CalmRunReplaysAll(job: Job, log: seq<Entry>, at: nat, plan: seq<Attempt>, p: Progress)
    requires at <= |log| && !job.dryRun && p.committed <= at && Safe(job, log, at, p.sent)
    requires |log| - at <= |plan| && p.count + (|log| - at) <= job.limit
    requires forall a <- plan :: a == Attempt(true, Good, Good)
    requires forall o :: at <= o < |log| && Wanted(job.stage, log[o]) && log[o].value.Some? ==>
               job.plan(log[o].item, log[o].value.value).Some?
    ensures var (q, stop) := Loop(job, log, at, plan, p); stop == Finished(|log|) && Safe(job, log, |log|, q.sent)
    decreases |plan|
  {
    if at < |log| {
      assert plan[0] in plan;
      HandleSafe(job, log, at, plan[0], p);
      var (q, go) := Handle(job, log[at], at, plan[0], p);
      assert forall a <- plan[1..] :: a in plan;
      CalmRunReplaysAll(job, log, at + 1, plan[1..], q);
    }
  }

  lemma {:induction false} DryRunChangesNothing(job: Job, log: seq<Entry>, at: nat, plan: seq<Attempt>, p: Progress)
    requires job.dryRun
    ensures var (q, _) := Loop(job, log, at, plan, p); q.committed == p.committed && q.sent == p.sent
    decreases |plan|
  {
    if !(p.count >= job.limit || at >= |log| || plan == [] || !plan[0].fetched) {
      var (q, go) := Handle(job, log[at], at, plan[0], p);
      if go { DryRunChangesNothing(job, log, at + 1, plan[1..], q); }
    }
  }

  // ----- many runs -----------------------------------------------------------

  function ReplayGroupId(stage: string): string {
    if stage == "" then "iot-dlq-replay-all" else "iot-dlq-replay-" + stage
  }

  /** Default groups of two stages collide only for no stage and a stage called "all". */
  lemma GroupsDistinct(s: string, t: string)
    ensures ReplayGroupId(s) == ReplayGroupId(t) <==> s == t || (s == "" && t == "all") || (s == "all" && t == "")
  {
    var prefix := "iot-dlq-replay-";
    assert ReplayGroupId("") == prefix + "all";
    var a, b := if s == "" then "all" else s, if t == "" then "all" else t;
    assert (prefix + a)[|prefix|..] == a && (prefix + b)[|prefix|..] == b;
  }

  /** The log, each group's committed offset, and everything sent, by group and offset. */
  datatype Broker = Broker(log: seq<Entry>, offsets: map<string, nat>, sent: map<string, map<nat, Sent>>)

  datatype Event = Arrive(entry: Entry) | Run(group: string, job: Job, plan: seq<Attempt>)

  function GroupOf(e: Event): string
    requires e.Run?
  {
    if e.group == "" then ReplayGroupId(e.job.stage) else e.group
  }

  function Committed(b: Broker, g: string): nat { if g in b.offsets then b.offsets[g] else 0 }

  function SentBy(b: Broker, g: string): map<nat, Sent> { if g in b.sent then b.sent[g] else map[] }

  function After(b: Broker, e: Event): Broker {
    match e
    case Arrive(entry) => b.(log := b.log + [entry])
    case Run(_, job, plan) =>
      var g := GroupOf(e);
      var (q, _) := Loop(job, b.log, Committed(b, g), plan, Progress(Committed(b, g), SentBy(b, g), 0));
      b.(offsets := b.offsets[g := q.committed], sent := b.sent[g := q.sent])
  }

  function AfterAll(b: Broker, es: seq<Event>): Broker {
    if es == [] then b else After(AfterAll(b, es[..|es| - 1]), es[|es| - 1])
  }

  const EmptyBroker := Broker([], map[], map[])

  /** The jobs that ran for real in the group all replay (at least) the stage, under one plan. */
  ghost predicate OnlyStage(es: seq<Event>, g: string, job: Job) {
    forall e <- es :: e.Run? && GroupOf(e) == g && !e.job.dryRun ==>
      (e.job.stage == job.stage || e.job.stage == "") && e.job.plan == job.plan
  }

  ghost predicate GroupSafe(b: Broker, g: string, job: Job) {
    Committed(b, g) <= |b.log| && Safe(job, b.log, Committed(b, g), SentBy(b, g))
  }

  /** Whatever job the group ran, its committed offset stays within the log. */
  lemma {:induction false} LoopWithinLog(job: Job, log: seq<Entry>, at: nat, plan: seq<Attempt>, p: Progress)
    requires p.committed <= at <= |log|
    ensures Loop(job, log, at, plan, p).0.committed <= |log|
    decreases |plan|
  {
    if !(p.count >= job.limit || at >= |log| || plan == [] || !plan[0].fetched) {
      var (q, go) := Handle(job, log[at], at, plan[0], p);
      if go { LoopWithinLog(job, log, at + 1, plan[1..], q); }
    }
  }

  lemma CoveringHandleSafe(job: Job, narrow: Job, log: seq<Entry>, at: nat, a: Attempt, p: Progress)
    requires at < |log| && !job.dryRun && p.committed <= at && Safe(narrow, log, at, p.sent)
    requires (job.stage == narrow.stage || job.stage == "") && job.plan == narrow.plan
    ensures var (q, go) := Handle(job, log[at], at, a, p);
            && q.committed <= at + 1 && Safe(narrow, log, q.committed, q.sent)
            && (go ==> Safe(narrow, log, at + 1, q.sent))
  {
  }

  /** A run of a covering job keeps the narrower stage safe as well. */
  lemma {:induction false} CoveringLoopSafe(job: Job, narrow: Job, log: seq<Entry>, at: nat, plan: seq<Attempt>,
                                            p: Progress)
    requires !job.dryRun && p.committed <= at <= |log| && Safe(narrow, log, at, p.sent)
    requires (job.stage == narrow.stage || job.stage == "") && job.plan == narrow.plan
    ensures var q := Loop(job, log, at, plan, p).0; Safe(narrow, log, q.committed, q.sent)
    decreases |plan|
  {
    if !(p.count >= job.limit || at >= |log| || plan == [] || !plan[0].fetched) {
      CoveringHandleSafe(job, narrow, log, at, plan[0], p);
      var (q, go) := Handle(job, log[at], at, plan[0], p);
      if go { CoveringLoopSafe(job, narrow, log, at + 1, plan[1..], q); }
    }
  }

  lemma EventKeepsGroup(b: Broker, e: Event, g: string, job: Job)
    requires GroupSafe(b, g, job)
    requires e.Run? && GroupOf(e) == g && !e.job.dryRun ==>
               (e.job.stage == job.stage || e.job.stage == "") && e.job.plan == job.plan
    ensures GroupSafe(After(b, e), g, job)
  {
    if e.Run? && GroupOf(e) == g {
      var p := Progress(Committed(b, g), SentBy(b, g), 0);
      LoopWithinLog(e.job, b.log, p.committed, e.plan, p);
      if e.job.dryRun {
        DryRunChangesNothing(e.job, b.log, p.committed, e.plan, p);
      } else {
        CoveringLoopSafe(e.job, job, b.log, p.committed, e.plan, p);
      }
    }
  }

  /** Replay never hides a record: in any history of arrivals and runs, with dry runs, limits and aborts, a group
      whose real runs all take the stage has sent, as planned, every decodable record of that stage below its offset. */
  lemma {:induction false} ReplayHidesNothing(es: seq<Event>, g: string, job: Job)
    requires OnlyStage(es, g, job)
    ensures GroupSafe(AfterAll(EmptyBroker, es), g, job)
  {
    if es != [] {
      var before := es[..|es| - 1];
      assert forall e <- before :: e in es;
      ReplayHidesNothing(before, g, job);
      EventKeepsGroup(AfterAll(EmptyBroker, before), es[|es| - 1], g, job);
    }
  }

  /** Every run uses the default group of its own stage, under one plan. */
  ghost predicate DefaultRuns(es: seq<Event>, plan: (Item, Value) -> Option<Sent>) {
    forall e <- es :: e.Run? ==> e.group == "" && e.job.plan == plan
  }

  /** The same for default groups: under any mix of stages, each named stage is safe; so is "no stage" in a history
      whose runs never name a stage "all", with which it shares its group. */
  lemma DefaultGroupsHideNothing(es: seq<Event>, job: Job)
    requires DefaultRuns(es, job.plan)
    requires job.stage != "" || forall e <- es :: e.Run? ==> e.job.stage != "all"
    ensures GroupSafe(AfterAll(EmptyBroker, es), ReplayGroupId(job.stage), job)
  {
    forall e <- es | e.Run? && GroupOf(e) == ReplayGroupId(job.stage)
      ensures e.job.stage == job.stage || e.job.stage == ""
    {
      GroupsDistinct(e.job.stage, job.stage);
    }
    ReplayHidesNothing(es, ReplayGroupId(job.stage), job);
  }

  /** Under the command's own plan, each of those records was sent with its content and its times intact. */
  lemma HiddenOnlyOnceSent(es: seq<Event>, job: Job, telemetryTopic: string, o: nat)
    requires DefaultRuns(es, job.plan) && job.plan == Planner(telemetryTopic)
    requires job.stage != "" || forall e <- es :: e.Run? ==> e.job.stage != "all"
    requires var b := AfterAll(EmptyBroker, es); o < Committed(b, ReplayGroupId(job.stage)) && o < |b.log|
    ensures var b := AfterAll(EmptyBroker, es);
            Wanted(job.stage, b.log[o]) && b.log[o].value.Some? ==>
              var sent := SentBy(b, ReplayGroupId(job.stage));
              o in sent && Keeps(b.log[o].item, b.log[o].value.value, telemetryTopic, sent[o])
  {
    DefaultGroupsHideNothing(es, job);
    var e := AfterAll(EmptyBroker, es).log[o];
    if Wanted(job.stage, e) && e.value.Some? {
      ReplayKeepsRecord(e.item, e.value.value, telemetryTopic);
    }
  }

  const GOOD := Attempt(true, Good, Good)

  /** A letter of one stage, a malformed record, then a run of another stage that passes over both. */
  function HidingHistory(mine: string, group: string, other: Job): seq<Event> {
    [Arrive(Letter(Item(mine, "", Absent), Some(Value("", None, None)))), Arrive(Malformed),
        Run(group, other, [GOOD, GOOD])]
  }

  lemma HistoryHides(mine: string, group: string, job: Job, other: Job)
    requires other.stage != "" && other.stage != mine && other.limit >= 1 && !other.dryRun
    requires job.stage == "" || job.stage == mine
    ensures var es := HidingHistory(mine, group, other); !GroupSafe(AfterAll(EmptyBroker, es), GroupOf(es[2]), job)
  {
    var es := HidingHistory(mine, group, other);
    var first, run := es[0].entry, es[2];
    var g := GroupOf(run);
    assert AfterAll(EmptyBroker, es[..1]) == Broker([first], map[], map[]) by {
      assert es[..1][..0] == [];
    }
    var b := Broker([first, Malformed], map[], map[]);
    assert AfterAll(EmptyBroker, es[..2]) == b by { assert es[..2][..1] == es[..1]; }
    assert AfterAll(EmptyBroker, es) == After(b, run);
    var p := Progress(0, map[], 0);
    assert [GOOD, GOOD][1..] == [GOOD];
    assert Loop(other, b.log, 0, [GOOD, GOOD], p) == Loop(other, b.log, 1, [GOOD], p);
    assert Loop(other, b.log, 1, [GOOD], p) == Loop(other, b.log, 2, [], p.(committed := 2));
    assert Committed(After(b, run), g) == 2;
    assert Wanted(job.stage, b.log[0]) && 0 !in SentBy(After(b, run), g);
  }

  /** The condition is needed: one run of any other stage in the group can hide a record of this one. */
  lemma OtherStageHides(g: string, job: Job, other: Job)
    requires g != "" && other.stage != "" && other.stage != job.stage
    requires other.limit >= 1 && !other.dryRun
    ensures exists es: seq<Event> ::
              (forall e <- es :: e.Run? ==> e.group == g && e.job == other)
                  && !GroupSafe(AfterAll(EmptyBroker, es), g, job)
  {
    var mine := if job.stage != "" then job.stage else other.stage + "x";
    assert mine != other.stage by { if job.stage == "" { assert |mine| == |other.stage| + 1; } }
    HistoryHides(mine, g, job, other);
  }

  /** Exactly when default groups are safe for a job, over every history: if and only if it names a stage. Without one,
      a run with stage "all" shares the group and can hide a record. */
  lemma DefaultGroupsSafeIff(job: Job)
    ensures (forall es :: DefaultRuns(es, job.plan) ==>
              GroupSafe(AfterAll(EmptyBroker, es), ReplayGroupId(job.stage), job))
            <==> job.stage != ""
  {
    if job.stage != "" {
      forall es | DefaultRuns(es, job.plan)
        ensures GroupSafe(AfterAll(EmptyBroker, es), ReplayGroupId(job.stage), job)
      {
        DefaultGroupsHideNothing(es, job);
      }
    } else {
      AllStageHides(job);
    }
  }

  lemma AllStageHides(job: Job)
    requires job.stage == ""
    ensures var es := HidingHistory("mqtt.kafka", "", Job("all", 1, false, job.plan));
            DefaultRuns(es, job.plan) && !GroupSafe(AfterAll(EmptyBroker, es), ReplayGroupId(job.stage), job)
  {
    GroupsDistinct("", "all");
    HistoryHides("mqtt.kafka", "", job, Job("all", 1, false, job.plan));
  }

  /** The command itself, as a loop over the log. */
  class Replayer {
    const log: seq<Entry>
    var committed: nat
    var sent: map<nat, Sent>

    constructor (log: seq<Entry>, committed: nat, sent: map<nat, Sent>)
      ensures this.log == log && this.committed == committed && this.sent == sent
    {
      this.log, this.committed, this.sent := log, committed, sent;
    }

    /** Replays one record: false when the command exits on an error. */
    method ReplayRecord(job: Job, at: nat, a: Attempt, replayed: nat) returns (go: bool, count: nat)
      requires at < |log|
      modifies this
      ensures (Progress(committed, sent, count), go) ==
              Handle(job, log[at], at, a, old(Progress(committed, sent, replayed)))
    {
      count := replayed;
      var e := log[at];
      if e.Malformed? {
        if !job.dryRun {
          if Applied(a.commit) { committed := at + 1; }
          return a.commit.Good?, count;
        }
        return true, count;
      }
      if job.stage != "" && e.item.stage != job.stage {
        return true, count;
      }
      if job.dryRun {
        return true, count + 1;
      }
      if e.value.None? {
        if Applied(a.commit) { committed := at + 1; }
        return a.commit.Good?, count;
      }
      var s := job.plan(e.item, e.value.value);
      if s.None? {
        return false, count;
      }
      if Applied(a.send) { sent := sent[at := s.value]; }
      if a.send.Bad? {
        return false, count;
      }
      if Applied(a.commit) { committed := at + 1; }
      if a.commit.Bad? {
        return false, count;
      }
      return true, count + 1;
    }

    method Replay(job: Job, plan: seq<Attempt>) returns (stop: Stop, replayed: nat)
      requires committed <= |log|
      modifies this
      ensures (Progress(committed, sent, replayed), stop) ==
              Loop(job, log, old(committed), plan, old(Progress(committed, sent, 0)))
      ensures replayed <= job.limit || replayed == 0
      ensures job.dryRun ==> committed == old(committed) && sent == old(sent)
      ensures old(Safe(job, log, committed, sent)) ==> Safe(job, log, committed, sent)
      ensures stop.Finished? && stop.at == |log| && !job.dryRun && old(Safe(job, log, committed, sent)) ==>
                Safe(job, log, |log|, sent)
    {
      var at: nat, i := committed, 0;
      replayed := 0;
      stop := Finished(at);
      ghost var start := Progress(committed, sent, 0);
      while replayed < job.limit && at < |log| && i < |plan|
        invariant i <= |plan| && stop == Finished(at)
        invariant Loop(job, log, old(committed), plan, start) ==
                  Loop(job, log, at, plan[i..], Progress(committed, sent, replayed))
      {
        if !plan[i].fetched {
          stop := Fatal;
          break;
        }
        ghost var p := Progress(committed, sent, replayed);
        var go;
        go, replayed := ReplayRecord(job, at, plan[i], replayed);
        assert plan[i..][0] == plan[i] && plan[i..][1..] == plan[i + 1..];
        if !go {
          stop := Fatal;
          break;
        }
        at, i := at + 1, i + 1;
        stop := Finished(at);
      }
      LoopDurable(job, log, old(committed), plan, start, 0);
      if job.dryRun {
        DryRunChangesNothing(job, log, old(committed), plan, start);
      } else if old(Safe(job, log, committed, sent)) {
        LoopSafe(job, log, old(committed), plan, start);
      }
    }
  }
}
