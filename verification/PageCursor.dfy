/** Page requests and their opaque cursors.

    A cursor on the wire is its decoded content: base64 and JSON are taken as
    lossless and the scope hash as injective.  Times are nanoseconds since 1970. */
module PageCursor {
  import opened Wrappers
  import opened Fields
  import opened TopicCodec

  type Time = int

  const MICRO: int := 1_000
  const MILLI: int := 1_000_000
  const SECOND: int := 1_000_000_000
  /** The zero time, 0001-01-01, stands for "absent". */
  const ZERO_TIME: Time := -62_135_596_800 * SECOND
  const YEAR_0: Time := -62_167_219_200 * SECOND
  const YEAR_10000: Time := 253_402_300_800 * SECOND

  const DEFAULT_PAGE_SIZE: int := 50
  const MAX_PAGE_SIZE: int := 100
  const MAX_CURSOR_BYTES: nat := 4096

  datatype Kind = Commands | Telemetry

  datatype Cursor = NoCursor | Wire(length: nat, content: Option<Content>)

  /** `time` is None when the text does not parse. */
  datatype Content = Content(version: int, scope: Scope, time: Option<Time>, id: string)

  /** What the scope hash covers: the kind and every filter, but neither size nor cursor. */
  datatype Scope = Scope(kind: Kind, tenant: string, device: string, start: Option<Time>, end: Option<Time>,
      category: string, sort: string)

  /** `category` is the status filter for commands and the type filter for telemetry. */
  datatype Request = Request(
    size: int,
    cursor: Cursor,
    tenant: string,
    device: string,
    start: Option<Time>,
    end: Option<Time>,
    category: string,
    sort: string)

  datatype PageError = InvalidPage | InvalidCursor | ItemTooLarge

  predicate CursorFits(c: Cursor) {
    c.Wire? ==> c.length <= MAX_CURSOR_BYTES
  }

  predicate StampOk(t: Time) {
    t == ZERO_TIME || (ZERO_TIME <= t < YEAR_10000 && t % MILLI == 0)
  }

  /** Tenant, device and category pass their own checks; a telemetry listing is always of one device. */
  predicate FieldsOk(p: Request, kind: Kind) {
    && ValidTenantId(p.tenant)
    && (kind.Telemetry? || p.device != "" ==> ValidTopicPart(p.device))
    && (p.category == "" ||
        match kind
        case Telemetry => ValidStorageField(p.category, FIELD_MAX_BYTES)
        case Commands => p.category in {"created", "published", "sent", "acked", "failed", "timeout"})
  }

  function NormalizeListRequest(p: Request, kind: Kind): Result<Request, PageError> {
    if !CursorFits(p.cursor) then Err(InvalidCursor)
    else
      var size := if p.size == 0 then DEFAULT_PAGE_SIZE else p.size;
      var sort := if p.sort == "" then "desc" else p.sort;
      if size < 1 || size > MAX_PAGE_SIZE || !FieldsOk(p, kind) then Err(InvalidPage)
      else if sort != "asc" && sort != "desc" then Err(InvalidPage)
      else if p.start.Some? && p.end.Some? && p.start.value >= p.end.value then Err(InvalidPage)
      else if (p.start.Some? && !StampOk(p.start.value)) || (p.end.Some? && !StampOk(p.end.value)) then Err(InvalidPage)
      else Ok(p.(size := size, sort := sort))
  }

  predicate Normal(p: Request, kind: Kind) {
    NormalizeListRequest(p, kind) == Ok(p)
  }

  function CursorScope(p: Request, kind: Kind): Scope {
    Scope(kind, p.tenant, p.device, p.start, p.end, p.category, p.sort)
  }

  /** The longest JSON form of one character inside a string. */
  function JsonLen(c: char): nat {
    if c == '"' || c == '\\' then 2
    else if Control(c) || c == '<' || c == '>' || c == '&' || c as int == 0x2028 || c as int == 0x2029 then 6
    else Utf8Len(c)
  }

  function JsonBytes(s: string): nat {
    if s == "" then 0 else JsonLen(s[0]) + JsonBytes(s[1..])
  }

  /** Unpadded base64 of the fixed members, a 64-digit scope, a time of at most 30 characters, and the id. */
  function CursorLength(id: string): nat {
    (4 * (36 + 64 + 30 + JsonBytes(id)) + 2) / 3
  }

  function EncodePageCursor(p: Request, kind: Kind, at: Time, id: string): Cursor {
    var time := if YEAR_0 <= at < YEAR_10000 then Some(at) else None;
    Wire(CursorLength(id), Some(Content(1, CursorScope(p, kind), time, id)))
  }

  function Precision(kind: Kind): int {
    match kind
    case Commands => MICRO
    case Telemetry => MILLI
  }

  /** The position a page starts after: None at the beginning. */
  function DecodePageCursor(p: Request, kind: Kind): Result<Option<(Time, string)>, PageError> {
    match p.cursor
    case NoCursor => Ok(None)
    case Wire(length, content) =>
      if length > MAX_CURSOR_BYTES || content.None? then Err(InvalidCursor)
      else
        var c := content.value;
        if c.version != 1 || c.scope != CursorScope(p, kind) || !ValidStorageField(c.id, FIELD_MAX_BYTES)
        then Err(InvalidCursor)
        else if c.time.None? || c.time.value % Precision(kind) != 0 then Err(InvalidCursor)
        else Ok(Some((c.time.value, c.id)))
  }

  /** The keys a cursor can carry. */
  predicate CursorKey(kind: Kind, at: Time, id: string) {
    YEAR_0 <= at < YEAR_10000 && at % Precision(kind) == 0 && ValidStorageField(id, FIELD_MAX_BYTES)
  }

  lemma {:induction false} JsonBytesBound(s: string)
    ensures JsonBytes(s) <= 6 * Utf8Bytes(s)
  {
    if s != "" { JsonBytesBound(s[1..]); }
  }

  /** A cursor issued for a page is accepted by every request with the same filters, whatever its
      size, and stands for the same position, exactly when its key can be carried. */
  lemma IssuedCursorAccepted(p: Request, q: Request, kind: Kind, at: Time, id: string)
    requires CursorScope(p, kind) == CursorScope(q, kind)
    ensures var d := DecodePageCursor(q.(cursor := EncodePageCursor(p, kind, at, id)), kind);
            if CursorKey(kind, at, id) then d == Ok(Some((at, id))) else d == Err(InvalidCursor)
  {
    JsonBytesBound(id);
  }

  /** A cursor is refused by a request with any other filter, order or kind. */
  lemma ForeignCursorRefused(p: Request, q: Request, kind: Kind, other: Kind, at: Time, id: string)
    requires CursorScope(p, kind) != CursorScope(q, other)
    ensures DecodePageCursor(q.(cursor := EncodePageCursor(p, kind, at, id)), other) == Err(InvalidCursor)
  {
  }

  /** Exactly which cursors a request accepts: those issued for its own kind, filters and order, at a key a cursor can
      carry, whatever the page sizes. */
  lemma CursorBelongs(p: Request, q: Request, kind: Kind, other: Kind, at: Time, id: string)
    ensures DecodePageCursor(q.(cursor := EncodePageCursor(p, kind, at, id)), other).Ok? <==>
            && kind == other && p.tenant == q.tenant && p.device == q.device && p.category == q.category
            && p.start == q.start && p.end == q.end && p.sort == q.sort
            && YEAR_0 <= at < YEAR_10000 && at % (if kind.Commands? then 1_000 else 1_000_000) == 0
            && ValidStorageField(id, FIELD_MAX_BYTES)
  {
    JsonBytesBound(id);
  }

  /** Normalising fills in the page size and the order, changes nothing else, and refuses exactly the requests out of
      bounds. */
  lemma NormalizeMeaning(p: Request, kind: Kind)
    ensures var r := NormalizeListRequest(p, kind);
            && (r.Ok? <==>
                  && CursorFits(p.cursor) && 0 <= p.size <= 100 && p.sort in {"", "asc", "desc"} && FieldsOk(p, kind)
                  && (p.start.Some? && p.end.Some? ==> p.start.value < p.end.value)
                  && (p.start.Some? ==> StampOk(p.start.value)) && (p.end.Some? ==> StampOk(p.end.value)))
            && (r.Ok? ==>
                  r.value == p.(size := if p.size == 0 then 50 else p.size,
                                sort := if p.sort == "asc" then "asc" else "desc"))
            && (r.Err? ==> r.error == if CursorFits(p.cursor) then InvalidPage else InvalidCursor)
  {
  }

  /** Normalising is idempotent, so repeating a request with the issued cursor keeps its scope. */
  lemma NormalizeIdempotent(p: Request, kind: Kind)
    requires NormalizeListRequest(p, kind).Ok?
    ensures Normal(NormalizeListRequest(p, kind).value, kind)
  {
  }

  /** A nanosecond creation time, as the in-memory store keeps it, yields a cursor that is refused. */
  lemma NanosecondCursorRefused(p: Request)
    ensures DecodePageCursor(p.(cursor := EncodePageCursor(p, Commands, 1, "cmd-1")), Commands) == Err(InvalidCursor)
  {
  }
}
