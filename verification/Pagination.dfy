/** Keyset pagination under a row count and a byte budget.

    The simple form sorts every matching row and scans past the cursor; the fast
    form asks the database for the first size + 1 rows after the cursor.  Text
    collation is any strict total order: ids are compared by an injective rank. */
module Pagination {
  import opened Wrappers
  import opened PageCursor

  const MAX_LIST_RESPONSE_BYTES: nat := 0x20_0000
  const LIST_CONTENT_BYTES: nat := MAX_LIST_RESPONSE_BYTES - 4096

  /** A stored command or telemetry record, with the bytes it is charged in a list response. */
  datatype Row = Row(tenant: string, device: string, category: string, time: Time, id: string, bytes: nat)

  type Rank = string -> real

  ghost predicate Collation(rank: Rank) {
    forall a, b :: rank(a) == rank(b) ==> a == b
  }

  predicate KeyBefore(rank: Rank, asc: bool, t: Time, i: string, u: Time, j: string) {
    if t == u then (if asc then rank(i) < rank(j) else rank(i) > rank(j))
    else if asc then t < u else t > u
  }

  predicate Before(rank: Rank, asc: bool, a: Row, b: Row) {
    KeyBefore(rank, asc, a.time, a.id, b.time, b.id)
  }

  predicate Ordered(rank: Rank, asc: bool, xs: seq<Row>) {
    forall i, j :: 0 <= i < j < |xs| ==> Before(rank, asc, xs[i], xs[j])
  }

  predicate DistinctKeys(xs: seq<Row>) {
    forall i, j :: 0 <= i < j < |xs| ==> (xs[i].time, xs[i].id) != (xs[j].time, xs[j].id)
  }

  // ----- filters -------------------------------------------------------------

  /** The in-memory filter; a telemetry row's time is its whole-millisecond event time. */
  predicate Matches(p: Request, kind: Kind, r: Row) {
    && r.tenant == p.tenant
    && (if kind.Telemetry? then r.device == p.device else p.device == "" || r.device == p.device)
    && (p.category == "" || r.category == p.category)
    && (p.start.Some? ==> r.time >= p.start.value)
    && (p.end.Some? ==> r.time < p.end.value)
  }

  /** The WHERE clause; telemetry bounds are truncated to milliseconds. */
  predicate SqlMatches(p: Request, kind: Kind, r: Row) {
    && r.tenant == p.tenant
    && (if kind.Telemetry? then r.device == p.device else p.device == "" || r.device == p.device)
    && (p.category == "" || r.category == p.category)
    && (p.start.Some? ==> if kind.Telemetry? then r.time / MILLI >= p.start.value / MILLI else r.time >= p.start.value)
    && (p.end.Some? ==> if kind.Telemetry? then r.time / MILLI < p.end.value / MILLI else r.time < p.end.value)
  }

  /** Truncation changes nothing for a normalised request, whose bounds are whole milliseconds. */
  lemma FiltersAgree(p: Request, kind: Kind, r: Row)
    requires Normal(p, kind) && (kind.Telemetry? ==> r.time % MILLI == 0)
    ensures Matches(p, kind, r) <==> SqlMatches(p, kind, r)
  {
    assert ZERO_TIME % MILLI == 0;
  }

  /** Rows strictly after a cursor position, in page order. */
  predicate After(rank: Rank, asc: bool, from: Option<(Time, string)>, r: Row) {
    from.None? || KeyBefore(rank, asc, from.value.0, from.value.1, r.time, r.id)
  }

  function Select(xs: seq<Row>, f: Row -> bool): seq<Row> {
    if xs == [] then []
    else
      var rest := Select(xs[1..], f);
      if f(xs[0]) then [xs[0]] + rest else rest
  }

  // ----- sorting -------------------------------------------------------------

  function Insert(rank: Rank, asc: bool, xs: seq<Row>, x: Row): seq<Row> {
    if xs == [] || Before(rank, asc, x, xs[0]) then [x] + xs
    else [xs[0]] + Insert(rank, asc, xs[1..], x)
  }

  function Sort(rank: Rank, asc: bool, xs: seq<Row>): seq<Row> {
    if xs == [] then [] else Insert(rank, asc, Sort(rank, asc, xs[1..]), xs[0])
  }

  lemma {:induction false} InsertContents(rank: Rank, asc: bool, xs: seq<Row>, x: Row)
    ensures multiset(Insert(rank, asc, xs, x)) == multiset(xs) + multiset{x}
  {
    if xs != [] && !Before(rank, asc, x, xs[0]) {
      InsertContents(rank, asc, xs[1..], x);
      assert xs == [xs[0]] + xs[1..];
    }
  }

  lemma {:induction false} SortContents(rank: Rank, asc: bool, xs: seq<Row>)
    ensures multiset(Sort(rank, asc, xs)) == multiset(xs)
  {
    if xs != [] {
      SortContents(rank, asc, xs[1..]);
      InsertContents(rank, asc, Sort(rank, asc, xs[1..]), xs[0]);
      assert xs == [xs[0]] + xs[1..];
    }
  }

  lemma SameMembers(xs: seq<Row>, ys: seq<Row>)
    requires multiset(xs) == multiset(ys)
    ensures forall r :: r in xs <==> r in ys
    ensures |xs| == |ys|
  {
    assert forall r :: r in xs <==> r in multiset(xs);
    assert |xs| == |multiset(xs)|;
    assert |ys| == |multiset(ys)|;
  }

  lemma {:induction false} InsertOrdered(rank: Rank, asc: bool, xs: seq<Row>, x: Row)
    requires Collation(rank) && Ordered(rank, asc, xs)
    requires forall y <- xs :: (y.time, y.id) != (x.time, x.id)
    ensures Ordered(rank, asc, Insert(rank, asc, xs, x))
  {
    if xs != [] && !Before(rank, asc, x, xs[0]) {
      var rest := Insert(rank, asc, xs[1..], x);
      assert forall y <- xs[1..] :: y in xs;
      InsertOrdered(rank, asc, xs[1..], x);
      forall j | 0 <= j < |rest| ensures Before(rank, asc, xs[0], rest[j]) {
        InsertMember(rank, asc, xs[1..], x, j);
        if rest[j] == x { BeforeTotal(rank, asc, x, xs[0]); }
      }
    }
  }

  lemma InsertMember(rank: Rank, asc: bool, xs: seq<Row>, x: Row, j: nat)
    requires j < |Insert(rank, asc, xs, x)|
    ensures var y := Insert(rank, asc, xs, x)[j]; y == x || exists i :: 0 <= i < |xs| && xs[i] == y
  {
    var longer := Insert(rank, asc, xs, x);
    InsertContents(rank, asc, xs, x);
    assert longer[j] in multiset(longer);
  }

  lemma BeforeTotal(rank: Rank, asc: bool, a: Row, b: Row)
    requires Collation(rank) && (a.time, a.id) != (b.time, b.id) && !Before(rank, asc, a, b)
    ensures Before(rank, asc, b, a)
  {
  }

  lemma {:induction false} SortOrdered(rank: Rank, asc: bool, xs: seq<Row>)
    requires Collation(rank) && DistinctKeys(xs)
    ensures Ordered(rank, asc, Sort(rank, asc, xs))
  {
    if xs != [] {
      SortOrdered(rank, asc, xs[1..]);
      SortContents(rank, asc, xs[1..]);
      SameMembers(Sort(rank, asc, xs[1..]), xs[1..]);
      InsertOrdered(rank, asc, Sort(rank, asc, xs[1..]), xs[0]);
    }
  }

  // Selecting commutes with sorting.

  lemma {:induction false} SelectMembers(xs: seq<Row>, f: Row -> bool)
    ensures forall r :: r in Select(xs, f) <==> r in xs && f(r)
  {
    if xs != [] {
      SelectMembers(xs[1..], f);
      assert forall r :: r in xs <==> r == xs[0] || r in xs[1..];
    }
  }

  lemma {:induction false} SelectInsert(rank: Rank, asc: bool, xs: seq<Row>, x: Row, f: Row -> bool)
    requires Ordered(rank, asc, xs)
    ensures Select(Insert(rank, asc, xs, x), f) == if f(x) then Insert(rank, asc, Select(xs, f), x) else Select(xs, f)
  {
    if xs == [] {
    } else if Before(rank, asc, x, xs[0]) {
      assert ([x] + xs)[1..] == xs;
      SelectMembers(xs, f);
      if f(x) && Select(xs, f) != [] {
        var first := Select(xs, f)[0];
        assert first in xs;
        assert Before(rank, asc, x, first);
      }
    } else {
      SelectInsert(rank, asc, xs[1..], x, f);
      assert ([xs[0]] + Insert(rank, asc, xs[1..], x))[1..] == Insert(rank, asc, xs[1..], x);
      if f(x) && !f(xs[0]) {
        SelectInsertFront(rank, asc, xs, x, f);
      }
    }
  }

  lemma SelectInsertFront(rank: Rank, asc: bool, xs: seq<Row>, x: Row, f: Row -> bool)
    requires xs != [] && !f(xs[0])
    ensures Insert(rank, asc, Select(xs, f), x) == Insert(rank, asc, Select(xs[1..], f), x)
  {
  }

  lemma {:induction false} SelectSort(rank: Rank, asc: bool, xs: seq<Row>, f: Row -> bool)
    requires Collation(rank) && DistinctKeys(xs)
    ensures Select(Sort(rank, asc, xs), f) == Sort(rank, asc, Select(xs, f))
  {
    if xs != [] {
      SelectSort(rank, asc, xs[1..], f);
      SortOrdered(rank, asc, xs[1..]);
      SelectInsert(rank, asc, Sort(rank, asc, xs[1..]), xs[0], f);
      if f(xs[0]) {
        assert ([xs[0]] + Select(xs[1..], f))[1..] == Select(xs[1..], f);
      }
    }
  }

  // ----- the budget ----------------------------------------------------------

  datatype Verdict = Accepted | Full | TooLarge

  class ResponsePageBudget {
    var used: nat

    constructor ()
      ensures used == 0
    {
      used := 0;
    }

    method Accept(bytes: nat, count: nat, limit: nat) returns (v: Verdict)
      modifies this
      ensures v == Judge(bytes, count, limit, old(used))
      ensures used == old(used) + if v.Accepted? then bytes else 0
    {
      if count >= limit {
        return Full;
      }
      if bytes > LIST_CONTENT_BYTES - used {
        if count == 0 {
          return TooLarge;
        }
        return Full;
      }
      used := used + bytes;
      return Accepted;
    }
  }

  function Judge(bytes: nat, count: nat, limit: nat, used: nat): Verdict {
    if count >= limit then Full
    else if bytes > LIST_CONTENT_BYTES - used then if count == 0 then TooLarge else Full
    else Accepted
  }

  function Bytes(xs: seq<Row>): nat {
    if xs == [] then 0 else xs[0].bytes + Bytes(xs[1..])
  }

  /** How many of the rows the page still takes. */
  function Fill(xs: seq<Row>, limit: nat, count: nat, used: nat): (r: Result<nat, PageError>)
    ensures r.Ok? ==> r.value <= |xs|
    ensures r.Ok? && xs != [] && count == 0 && limit > 0 ==> r.value > 0
  {
    if xs == [] then Ok(0)
    else
      match Judge(xs[0].bytes, count, limit, used)
      case Full => Ok(0)
      case TooLarge => Err(ItemTooLarge)
      case Accepted =>
        match Fill(xs[1..], limit, count + 1, used + xs[0].bytes)
        case Ok(n) => Ok(n + 1)
        case Err(e) => Err(e)
  }

  /** A page takes the longest prefix that fits both bounds; it fails exactly when its first row
      alone is over the byte budget. */
  lemma {:induction false} FillMeaning(xs: seq<Row>, limit: nat, count: nat, used: nat)
    requires count <= limit && used <= LIST_CONTENT_BYTES && limit > 0
    ensures var r := Fill(xs, limit, count, used);
            && (r.Err? <==> count == 0 && xs != [] && xs[0].bytes > LIST_CONTENT_BYTES - used)
            && (r.Err? ==> r.error == ItemTooLarge)
            && (r.Ok? ==>
                  && count + r.value <= limit
                  && used + Bytes(xs[..r.value]) <= LIST_CONTENT_BYTES
                  && (r.value < |xs| ==>
                       count + r.value == limit || used + Bytes(xs[..r.value + 1]) > LIST_CONTENT_BYTES))
  {
    if xs != [] && Judge(xs[0].bytes, count, limit, used).Accepted? {
      FillMeaning(xs[1..], limit, count + 1, used + xs[0].bytes);
      var n := Fill(xs[1..], limit, count + 1, used + xs[0].bytes).value;
      assert xs[..n + 1][1..] == xs[1..][..n];
      if n + 1 < |xs| { assert xs[..n + 2][1..] == xs[1..][..n + 1]; }
    } else if xs != [] {
      assert xs[..1][1..] == [];
    }
  }

  /** Rows past the first limit + 1 never influence a page. */
  lemma {:induction false} FillLooksAhead(xs: seq<Row>, limit: nat, count: nat, used: nat, m: nat)
    requires count <= limit && m <= |xs| && (m == |xs| || m > limit - count)
    ensures Fill(xs[..m], limit, count, used) == Fill(xs, limit, count, used)
  {
    if xs != [] && m > 0 && Judge(xs[0].bytes, count, limit, used).Accepted? {
      assert xs[..m][1..] == xs[1..][..m - 1];
      FillLooksAhead(xs[1..], limit, count + 1, used + xs[0].bytes, m - 1);
    }
  }

  // ----- pages ---------------------------------------------------------------

  datatype Page = Page(rows: seq<Row>, next: Cursor)

  /** The page cut from the rows after the cursor, in order. */
  function PageOf(p: Request, kind: Kind, xs: seq<Row>): Result<Page, PageError>
    requires p.size > 0
  {
    match Fill(xs, p.size, 0, 0)
    case Err(e) => Err(e)
    case Ok(n) =>
      Ok(Page(xs[..n], if n < |xs| then EncodePageCursor(p, kind, xs[n - 1].time, xs[n - 1].id) else NoCursor))
  }

  function Asc(p: Request): bool {
    p.sort == "asc"
  }

  function Matching(p: Request, kind: Kind): Row -> bool {
    r => Matches(p, kind, r)
  }

  function Following(rank: Rank, p: Request, from: Option<(Time, string)>): Row -> bool {
    r => After(rank, Asc(p), from, r)
  }

  /** All rows the request lists, in page order. */
  function Listing(rank: Rank, p: Request, kind: Kind, rows: seq<Row>): seq<Row> {
    Sort(rank, Asc(p), Select(rows, Matching(p, kind)))
  }

  /** The simple form: decode, sort everything, drop what is not after the cursor, cut a page. */
  function SimplePage(rank: Rank, p: Request, kind: Kind, rows: seq<Row>): Result<Page, PageError>
    requires p.size > 0
  {
    match DecodePageCursor(p, kind)
    case Err(e) => Err(e)
    case Ok(from) => PageOf(p, kind, Select(Listing(rank, p, kind, rows), Following(rank, p, from)))
  }

  lemma {:induction false} SelectAppend(xs: seq<Row>, ys: seq<Row>, f: Row -> bool)
    ensures Select(xs + ys, f) == Select(xs, f) + Select(ys, f)
  {
    if xs == [] {
      assert xs + ys == ys;
    } else {
      assert (xs + ys)[1..] == xs[1..] + ys;
      SelectAppend(xs[1..], ys, f);
    }
  }

  /** One turn of a page loop: with `out` taken, the rest decides what the whole page takes. */
  ghost predicate Progress(xs: seq<Row>, limit: nat, out: seq<Row>, rest: seq<Row>, used: nat) {
    && xs == out + rest
    && Fill(xs, limit, 0, 0) == match Fill(rest, limit, |out|, used) {
         case Ok(n) => Ok(|out| + n)
         case Err(e) => Err(e)
       }
  }

  lemma ProgressStep(xs: seq<Row>, limit: nat, out: seq<Row>, row: Row, rest: seq<Row>, used: nat)
    requires Progress(xs, limit, out, [row] + rest, used)
    ensures var v := Judge(row.bytes, |out|, limit, used);
            && (v.Accepted? ==> Progress(xs, limit, out + [row], rest, used + row.bytes))
            && (v.TooLarge? ==> Fill(xs, limit, 0, 0) == Err(ItemTooLarge))
            && (v.Full? ==> Fill(xs, limit, 0, 0) == Ok(|out|) && |out| < |xs| && xs[..|out|] == out)
  {
    assert ([row] + rest)[1..] == rest;
    assert out + [row] + rest == out + ([row] + rest);
  }

  lemma PageEndsFull(p: Request, kind: Kind, xs: seq<Row>, out: seq<Row>)
    requires p.size > 0 && Fill(xs, p.size, 0, 0) == Ok(|out|) && |out| < |xs| && xs[..|out|] == out
    ensures out != []
            && PageOf(p, kind, xs) == Ok(Page(out, EncodePageCursor(p, kind, out[|out| - 1].time, out[|out| - 1].id)))
  {
    assert xs[|out| - 1] == out[|out| - 1];
  }

  lemma PageEndsList(p: Request, kind: Kind, xs: seq<Row>, out: seq<Row>, used: nat)
    requires p.size > 0 && Progress(xs, p.size, out, [], used)
    ensures PageOf(p, kind, xs) == Ok(Page(out, NoCursor))
  {
    assert xs[..|xs|] == xs == out;
  }

  /** What the page loop returns from a state: `out` is taken, `used` bytes are spent, `rows` are still ahead. */
  ghost function Scanned(p: Request, kind: Kind, rows: seq<Row>, after: Row -> bool, out: seq<Row>, used: nat)
    : Result<Page, PageError>
    requires p.size > 0
  {
    if rows == [] then Ok(Page(out, NoCursor))
    else if !after(rows[0]) then Scanned(p, kind, rows[1..], after, out, used)
    else
      match Judge(rows[0].bytes, |out|, p.size, used)
      case TooLarge => Err(ItemTooLarge)
      case Full => Ok(Page(out, EncodePageCursor(p, kind, out[|out| - 1].time, out[|out| - 1].id)))
      case Accepted => Scanned(p, kind, rows[1..], after, out + [rows[0]], used + rows[0].bytes)
  }

  lemma {:induction false} ScannedPage(p: Request, kind: Kind, rows: seq<Row>, after: Row -> bool, xs: seq<Row>,
                                       out: seq<Row>, used: nat)
    requires p.size > 0 && Progress(xs, p.size, out, Select(rows, after), used)
    ensures Scanned(p, kind, rows, after, out, used) == PageOf(p, kind, xs)
    decreases |rows|
  {
    if rows == [] {
      PageEndsList(p, kind, xs, out, used);
    } else if !after(rows[0]) {
      ScannedPage(p, kind, rows[1..], after, xs, out, used);
    } else {
      ProgressStep(xs, p.size, out, rows[0], Select(rows[1..], after), used);
      match Judge(rows[0].bytes, |out|, p.size, used)
      case TooLarge =>
      case Full => PageEndsFull(p, kind, xs, out);
      case Accepted => ScannedPage(p, kind, rows[1..], after, xs, out + [rows[0]], used + rows[0].bytes);
    }
  }

  /** The loop of a page: skip rows before the cursor, take the rest while the budget lasts. */
  method ScanPage(p: Request, kind: Kind, rows: seq<Row>, after: Row -> bool) returns (r: Result<Page, PageError>)
    requires p.size > 0
    ensures r == PageOf(p, kind, Select(rows, after))
  {
    ScannedPage(p, kind, rows, after, Select(rows, after), [], 0);
    var out := [];
    var budget := new ResponsePageBudget();
    assert rows[0..] == rows;
    for i := 0 to |rows|
      invariant Scanned(p, kind, rows[i..], after, out, budget.used) == PageOf(p, kind, Select(rows, after))
    {
      assert rows[i..][1..] == rows[i + 1..];
      if after(rows[i]) {
        var v := budget.Accept(rows[i].bytes, |out|, p.size);
        if v.TooLarge? {
          return Err(ItemTooLarge);
        }
        if v.Full? {
          var last := out[|out| - 1];
          return Ok(Page(out, EncodePageCursor(p, kind, last.time, last.id)));
        }
        out := out + [rows[i]];
      }
    }
    return Ok(Page(out, NoCursor));
  }

  // ----- what a listing is ---------------------------------------------------

  /** The row a request asks for: its tenant, its device and category where named, its time window. */
  predicate Asked(p: Request, kind: Kind, r: Row) {
    && r.tenant == p.tenant
    && (r.device == p.device || (kind.Commands? && p.device == ""))
    && (p.category in {"", r.category})
    && (p.start.None? || p.start.value <= r.time)
    && (p.end.None? || r.time < p.end.value)
  }

  /** One position comes before another: oldest first when ascending, newest first otherwise, ids breaking ties. */
  predicate Precedes(rank: Rank, p: Request, t: Time, i: string, u: Time, j: string) {
    if p.sort == "asc" then t < u || (t == u && rank(i) < rank(j)) else t > u || (t == u && rank(i) > rank(j))
  }

  ghost predicate InOrder(rank: Rank, p: Request, xs: seq<Row>) {
    forall i, j :: 0 <= i < j < |xs| ==> Precedes(rank, p, xs[i].time, xs[i].id, xs[j].time, xs[j].id)
  }

  /** The rows a request asks for, each as often as it is stored, in order. */
  ghost predicate Lists(rank: Rank, p: Request, kind: Kind, rows: seq<Row>, xs: seq<Row>) {
    && InOrder(rank, p, xs)
    && forall r :: multiset(xs)[r] == if Asked(p, kind, r) then multiset(rows)[r] else 0
  }

  lemma {:induction false} SelectCount(xs: seq<Row>, f: Row -> bool, r: Row)
    ensures multiset(Select(xs, f))[r] == if f(r) then multiset(xs)[r] else 0
  {
    if xs != [] {
      SelectCount(xs[1..], f, r);
      assert xs == [xs[0]] + xs[1..];
    }
  }

  lemma OrderedInOrder(rank: Rank, p: Request, xs: seq<Row>)
    requires Ordered(rank, Asc(p), xs)
    ensures InOrder(rank, p, xs)
  {
    forall i, j | 0 <= i < j < |xs| ensures Precedes(rank, p, xs[i].time, xs[i].id, xs[j].time, xs[j].id) {
      assert Before(rank, Asc(p), xs[i], xs[j]);
    }
  }

  /** Sorting and filtering give exactly that. */
  lemma ListingMeaning(rank: Rank, p: Request, kind: Kind, rows: seq<Row>)
    requires Collation(rank) && DistinctKeys(Select(rows, Matching(p, kind)))
    ensures Lists(rank, p, kind, rows, Listing(rank, p, kind, rows))
  {
    var matching := Select(rows, Matching(p, kind));
    SortOrdered(rank, Asc(p), matching);
    SortContents(rank, Asc(p), matching);
    OrderedInOrder(rank, p, Listing(rank, p, kind, rows));
    forall r ensures multiset(matching)[r] == if Asked(p, kind, r) then multiset(rows)[r] else 0 {
      SelectCount(rows, Matching(p, kind), r);
    }
  }

  /** A page: rows asked for that lie behind the cursor, in order and within both bounds; what it leaves out comes
      later, and there is a next cursor exactly if something is left out. */
  ghost predicate PageMeans(rank: Rank, p: Request, kind: Kind, rows: seq<Row>, from: Option<(Time, string)>,
                            page: Page) {
    && InOrder(rank, p, page.rows) && |page.rows| <= p.size && Bytes(page.rows) <= LIST_CONTENT_BYTES
    && (forall r <- page.rows :: r in rows && Due(rank, p, kind, from, r))
    && (forall r <- rows :: Due(rank, p, kind, from, r) && r !in page.rows ==>
          page.next.Wire? && forall x <- page.rows :: Precedes(rank, p, x.time, x.id, r.time, r.id))
    && (page.next.Wire? ==> exists r <- rows :: Due(rank, p, kind, from, r) && r !in page.rows)
  }

  /** Asked for, and behind the cursor. */
  predicate Due(rank: Rank, p: Request, kind: Kind, from: Option<(Time, string)>, r: Row) {
    Asked(p, kind, r) && (from.None? || Precedes(rank, p, from.value.0, from.value.1, r.time, r.id))
  }

  lemma {:induction false} SelectOrdered(rank: Rank, asc: bool, xs: seq<Row>, f: Row -> bool)
    requires Ordered(rank, asc, xs)
    ensures Ordered(rank, asc, Select(xs, f))
  {
    if xs != [] {
      SelectOrdered(rank, asc, xs[1..], f);
      SelectMembers(xs[1..], f);
      var rest := Select(xs[1..], f);
      forall j | 0 <= j < |rest| ensures Before(rank, asc, xs[0], rest[j]) {
        assert rest[j] in xs[1..];
      }
    }
  }

  lemma ListingMembers(rank: Rank, p: Request, kind: Kind, rows: seq<Row>, r: Row)
    ensures r in Listing(rank, p, kind, rows) <==> r in rows && Asked(p, kind, r)
  {
    var matching := Select(rows, Matching(p, kind));
    SortContents(rank, Asc(p), matching);
    SameMembers(Listing(rank, p, kind, rows), matching);
    SelectMembers(rows, Matching(p, kind));
  }

  lemma RestMembers(rank: Rank, p: Request, kind: Kind, rows: seq<Row>, from: Option<(Time, string)>, r: Row)
    ensures r in Select(Listing(rank, p, kind, rows), Following(rank, p, from)) <==>
            r in rows && Due(rank, p, kind, from, r)
  {
    SelectMembers(Listing(rank, p, kind, rows), Following(rank, p, from));
    ListingMembers(rank, p, kind, rows, r);
  }

  /** The rows behind the cursor, in order. */
  lemma RestOfListing(rank: Rank, p: Request, kind: Kind, rows: seq<Row>, from: Option<(Time, string)>)
    requires Collation(rank) && DistinctKeys(Select(rows, Matching(p, kind)))
    ensures var ys := Select(Listing(rank, p, kind, rows), Following(rank, p, from));
            InOrder(rank, p, ys) && forall r :: r in ys <==> r in rows && Due(rank, p, kind, from, r)
  {
    var xs := Listing(rank, p, kind, rows);
    SortOrdered(rank, Asc(p), Select(rows, Matching(p, kind)));
    SelectOrdered(rank, Asc(p), xs, Following(rank, p, from));
    OrderedInOrder(rank, p, Select(xs, Following(rank, p, from)));
    forall r ensures r in Select(xs, Following(rank, p, from)) <==> r in rows && Due(rank, p, kind, from, r) {
      RestMembers(rank, p, kind, rows, from, r);
    }
  }

  lemma CutMeans(rank: Rank, p: Request, xs: seq<Row>, n: nat)
    requires InOrder(rank, p, xs) && n <= |xs|
    ensures InOrder(rank, p, xs[..n])
    ensures forall r <- xs :: r !in xs[..n] ==> forall x <- xs[..n] :: Precedes(rank, p, x.time, x.id, r.time, r.id)
    ensures n < |xs| ==> xs[n] !in xs[..n]
  {
    forall r, x | r in xs && r !in xs[..n] && x in xs[..n] ensures Precedes(rank, p, x.time, x.id, r.time, r.id) {
      var j :| 0 <= j < |xs| && xs[j] == r;
      var i :| 0 <= i < n && xs[i] == x;
      assert forall k :: 0 <= k < n ==> xs[k] in xs[..n];
    }
    if n < |xs| {
      forall i | 0 <= i < n ensures xs[i] != xs[n] {
        assert Precedes(rank, p, xs[i].time, xs[i].id, xs[n].time, xs[n].id);
      }
    }
  }

  /** Every page of the simple form is one. */
  lemma SimplePageMeans(rank: Rank, p: Request, kind: Kind, rows: seq<Row>)
    requires p.size > 0 && Collation(rank) && DistinctKeys(Select(rows, Matching(p, kind)))
    requires SimplePage(rank, p, kind, rows).Ok?
    ensures PageMeans(rank, p, kind, rows, DecodePageCursor(p, kind).value, SimplePage(rank, p, kind, rows).value)
  {
    var from := DecodePageCursor(p, kind).value;
    var ys := Select(Listing(rank, p, kind, rows), Following(rank, p, from));
    RestOfListing(rank, p, kind, rows, from);
    FillMeaning(ys, p.size, 0, 0);
    var n := Fill(ys, p.size, 0, 0).value;
    CutMeans(rank, p, ys, n);
    if n < |ys| { assert ys[n] in ys; }
    if n == |ys| { assert ys[..n] == ys; }
  }

  /** memoryPage: sort, then scan with the budget. */
  method MemoryPage(rank: Rank, p: Request, kind: Kind, rows: seq<Row>) returns (r: Result<Page, PageError>)
    requires p.size > 0
    ensures r == SimplePage(rank, p, kind, rows)
    ensures Collation(rank) && DistinctKeys(Select(rows, Matching(p, kind))) && r.Ok? ==>
              PageMeans(rank, p, kind, rows, DecodePageCursor(p, kind).value, r.value)
  {
    if Collation(rank) && DistinctKeys(Select(rows, Matching(p, kind))) && SimplePage(rank, p, kind, rows).Ok? {
      SimplePageMeans(rank, p, kind, rows);
    }
    var d := DecodePageCursor(p, kind);
    if d.Err? {
      return Err(d.error);
    }
    r := ScanPage(p, kind, Listing(rank, p, kind, rows), Following(rank, p, d.value));
  }
}
