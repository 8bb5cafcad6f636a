/** The command state table and the meaning of the append-only audit log.

    The store takes two transitions the pure table does not have: a downlink
    confirmed before the published mark lands (created to sent) and a requeue
    (published to created).  `Logged` is the union; `Replay` folds a history. */
module CommandStatus {
  import opened Wrappers

  datatype Status = Created | Published | Sent | Acked | Failed | Timeout

  datatype Event =
    | CreatedEvent
    | PublishedEvent
    | DeliveredEvent
    | RequeuedEvent
    | AckedEvent
    | FailedEvent
    | TimeoutEvent

  predicate Terminal(s: Status) {
    s.Acked? || s.Failed? || s.Timeout?
  }

  /** The statuses after which a command must never be published to a device again. */
  predicate Settled(s: Status) {
    s.Sent? || Terminal(s)
  }

  predicate TerminalEvent(e: Event) {
    e.AckedEvent? || e.FailedEvent? || e.TimeoutEvent?
  }

  function AdvanceCommandStatus(current: Status, event: Event): Option<Status> {
    match current
    case Created => (
      match event
      case FailedEvent => Some(Failed)
      case PublishedEvent => Some(Published)
      case AckedEvent => Some(Acked)
      case _ => None
    )
    case Published => (
      match event
      case DeliveredEvent => Some(Sent)
      case AckedEvent => Some(Acked)
      case FailedEvent => Some(Failed)
      case _ => None
    )
    case Sent => (
      match event
      case AckedEvent => Some(Acked)
      case FailedEvent => Some(Failed)
      case TimeoutEvent => Some(Timeout)
      case _ => None
    )
    case _ => None
  }

  /** Every status change the store may log. */
  function Logged(current: Status, event: Event): Option<Status> {
    if current.Created? && event.DeliveredEvent? then Some(Sent)
    else if current.Published? && event.RequeuedEvent? then Some(Created)
    else AdvanceCommandStatus(current, event)
  }

  /** The status a history leads to, or None when no run of the store can log it. */
  function Replay(history: seq<Event>): Option<Status> {
    if history == [] then None
    else
      var last := history[|history| - 1];
      var before := history[..|history| - 1];
      if before == [] then
        if last.CreatedEvent? then Some(Created) else None
      else
        match Replay(before)
        case None => None
        case Some(s) => Logged(s, last)
  }

  function Count(history: seq<Event>, e: Event): nat {
    if history == [] then 0
    else Count(history[..|history| - 1], e) + if history[|history| - 1] == e then 1 else 0
  }

  lemma ReplayAppend(history: seq<Event>, e: Event)
    requires Replay(history).Some?
    ensures Replay(history + [e]) == Logged(Replay(history).value, e)
  {
    assert (history + [e])[..|history|] == history;
  }

  lemma CountAppend(history: seq<Event>, e: Event, x: Event)
    ensures Count(history + [e], x) == Count(history, x) + if e == x then 1 else 0
  {
    assert (history + [e])[..|history|] == history;
  }

  /** Only the first event creates, and a terminal event is the last one. */
  lemma {:induction false} HistoryShape(history: seq<Event>)
    requires Replay(history).Some?
    ensures history[0].CreatedEvent?
    ensures forall i :: 0 < i < |history| ==> !history[i].CreatedEvent?
    ensures forall i :: 0 <= i < |history| - 1 ==> !TerminalEvent(history[i])
    ensures TerminalEvent(history[|history| - 1]) <==> Terminal(Replay(history).value)
  {
    if |history| > 1 {
      HistoryShape(history[..|history| - 1]);
    }
  }

  /** Publications and requeues alternate, starting with a publication. */
  lemma {:induction false} PublicationsAlternate(history: seq<Event>)
    requires Replay(history).Some?
    ensures Count(history, RequeuedEvent) <= Count(history, PublishedEvent) <= Count(history, RequeuedEvent) + 1
    ensures Replay(history).value.Created? ==> Count(history, PublishedEvent) == Count(history, RequeuedEvent)
    ensures Replay(history).value.Published? ==> Count(history, PublishedEvent) == Count(history, RequeuedEvent) + 1
  {
    if |history| > 1 {
      PublicationsAlternate(history[..|history| - 1]);
    }
  }
}
