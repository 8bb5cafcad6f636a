/** The keyset query refines the simple page, and following cursors lists
    everything exactly once. */
module PageTraversal {
  import opened Wrappers
  import opened PageCursor
  import opened Pagination

  // ----- the fast form -------------------------------------------------------

  /** nullTime: for commands a zero time in the cursor is passed as NULL, that is, as no cursor. */
  function SqlFrom(kind: Kind, from: Option<(Time, string)>): Option<(Time, string)> {
    if kind.Commands? && from.Some? && from.value.0 == ZERO_TIME then None else from
  }

  function SqlWhere(rank: Rank, p: Request, kind: Kind, from: Option<(Time, string)>): Row -> bool {
    r => SqlMatches(p, kind, r) && After(rank, Asc(p), SqlFrom(kind, from), r)
  }

  /** What ORDER BY ... LIMIT promises: in order, from the candidates, nothing earlier left out. */
  predicate OrderedLimit(rank: Rank, asc: bool, out: seq<Row>, candidates: seq<Row>, limit: nat) {
    && Ordered(rank, asc, out)
    && |out| == (if |candidates| < limit then |candidates| else limit)
    && (forall r <- out :: r in candidates)
    && (forall r <- candidates :: r !in out ==> forall x <- out :: Before(rank, asc, x, r))
  }

  lemma {:induction false} SelectSame(xs: seq<Row>, f: Row -> bool, g: Row -> bool)
    requires forall r <- xs :: f(r) == g(r)
    ensures Select(xs, f) == Select(xs, g)
  {
    if xs != [] {
      assert xs[0] in xs;
      SelectSame(xs[1..], f, g);
    }
  }

  lemma {:induction false} SelectTwice(xs: seq<Row>, f: Row -> bool, g: Row -> bool)
    ensures Select(Select(xs, f), g) == Select(xs, r => f(r) && g(r))
  {
    if xs != [] {
      SelectTwice(xs[1..], f, g);
      if f(xs[0]) {
        assert ([xs[0]] + Select(xs[1..], f))[1..] == Select(xs[1..], f);
      }
    }
  }

  lemma {:induction false} SelectKeepsDistinct(xs: seq<Row>, f: Row -> bool)
    requires DistinctKeys(xs)
    ensures DistinctKeys(Select(xs, f))
  {
    if xs != [] {
      var rest := Select(xs[1..], f);
      SelectKeepsDistinct(xs[1..], f);
      SelectMembers(xs[1..], f);
      forall j | 0 <= j < |rest| ensures (rest[j].time, rest[j].id) != (xs[0].time, xs[0].id) {
        assert rest[j] in xs[1..];
      }
    }
  }

  /** A candidate other than the i-th row and not among the earlier ones comes after it. */
  lemma NotYet(rank: Rank, asc: bool, out: seq<Row>, candidates: seq<Row>, limit: nat, i: nat, r: Row)
    requires OrderedLimit(rank, asc, out, candidates, limit) && i < |out| && r in candidates && r != out[i]
    requires forall j :: 0 <= j < i ==> out[j] != r
    ensures Before(rank, asc, out[i], r)
  {
    if r in out {
      var m :| 0 <= m < |out| && out[m] == r;
    } else {
      assert out[i] in out;
    }
  }

  /** Position by position, an ordered limit can only be the sorted candidates' prefix. */
  lemma {:induction false} LimitPosition(rank: Rank, asc: bool, out: seq<Row>, candidates: seq<Row>, limit: nat, i: nat)
    requires Collation(rank) && DistinctKeys(candidates) && OrderedLimit(rank, asc, out, candidates, limit) && i < |out|
    ensures |Sort(rank, asc, candidates)| == |candidates|
    ensures forall j :: 0 <= j <= i ==> out[j] == Sort(rank, asc, candidates)[j]
  {
    var s := Sort(rank, asc, candidates);
    SortOrdered(rank, asc, candidates);
    SortContents(rank, asc, candidates);
    SameMembers(s, candidates);
    if i > 0 { LimitPosition(rank, asc, out, candidates, limit, i - 1); }
    if out[i] != s[i] {
      assert out[i] in candidates && s[i] in candidates by { assert out[i] in out; assert s[i] in s; }
      var j :| 0 <= j < |s| && s[j] == out[i];
      assert j >= i;
      assert Before(rank, asc, s[i], out[i]);
      NotYet(rank, asc, out, candidates, limit, i, s[i]);
      assert false;
    }
  }

  lemma LimitIsPrefix(rank: Rank, asc: bool, out: seq<Row>, candidates: seq<Row>, limit: nat)
    requires Collation(rank) && DistinctKeys(candidates) && OrderedLimit(rank, asc, out, candidates, limit)
    ensures |out| <= |Sort(rank, asc, candidates)| == |candidates| && out == Sort(rank, asc, candidates)[..|out|]
  {
    SortContents(rank, asc, candidates);
    SameMembers(Sort(rank, asc, candidates), candidates);
    if |out| > 0 { LimitPosition(rank, asc, out, candidates, limit, |out| - 1); }
  }

  /** The query's rows, scanned with the budget; `fetched` is the database's answer. */
  method SqlPage(ghost rank: Rank, p: Request, kind: Kind, ghost rows: seq<Row>, fetched: seq<Row>)
    returns (r: Result<Page, PageError>)
    requires p.size > 0
    requires DecodePageCursor(p, kind).Ok? ==>
               OrderedLimit(rank, Asc(p), fetched,
                   Select(rows, SqlWhere(rank, p, kind, DecodePageCursor(p, kind).value)), p.size + 1)
    ensures r == match DecodePageCursor(p, kind) { case Err(e) => Err(e) case Ok(_) => PageOf(p, kind, fetched) }
  {
    var d := DecodePageCursor(p, kind);
    if d.Err? {
      return Err(d.error);
    }
    SelectAll(fetched);
    r := ScanPage(p, kind, fetched, Everything());
  }

  function Everything(): Row -> bool {
    (r: Row) => true
  }

  lemma {:induction false} SelectAll(xs: seq<Row>)
    ensures Select(xs, Everything()) == xs
  {
    if xs != [] { SelectAll(xs[1..]); }
  }

  /** Reading one row beyond the page gives the same page and the same next cursor as reading all. */
  lemma PageOfLimit(p: Request, kind: Kind, xs: seq<Row>, m: nat)
    requires p.size > 0 && m == if |xs| < p.size + 1 then |xs| else p.size + 1
    ensures PageOf(p, kind, xs[..m]) == PageOf(p, kind, xs)
  {
    FillLooksAhead(xs, p.size, 0, 0, m);
    FillMeaning(xs, p.size, 0, 0);
    var r := Fill(xs, p.size, 0, 0);
    if r.Ok? { assert xs[..m][..r.value] == xs[..r.value]; }
  }

  /** The fast form refines the simple one, in both directions, for every normalised request, any
      collation and any cursor whose time is not the zero time. */
  lemma FastRefinesSimple(rank: Rank, p: Request, kind: Kind, rows: seq<Row>, fetched: seq<Row>)
    requires Normal(p, kind) && Collation(rank) && DistinctKeys(Select(rows, Matching(p, kind)))
    requires kind.Telemetry? ==> forall r <- rows :: r.time % MILLI == 0
    requires DecodePageCursor(p, kind).Ok?
             && SqlFrom(kind, DecodePageCursor(p, kind).value) == DecodePageCursor(p, kind).value
    requires OrderedLimit(rank, Asc(p), fetched,
             Select(rows, SqlWhere(rank, p, kind, DecodePageCursor(p, kind).value)), p.size + 1)
    ensures PageOf(p, kind, fetched) == SimplePage(rank, p, kind, rows)
  {
    var from := DecodePageCursor(p, kind).value;
    var matching := Select(rows, Matching(p, kind));
    var candidates := Select(rows, SqlWhere(rank, p, kind, from));
    CandidatesAreMatching(rank, p, kind, rows, from);
    SelectKeepsDistinct(matching, Following(rank, p, from));
    LimitIsPrefix(rank, Asc(p), fetched, candidates, p.size + 1);
    SelectSort(rank, Asc(p), matching, Following(rank, p, from));
    PageOfLimit(p, kind, Sort(rank, Asc(p), candidates), |fetched|);
  }

  lemma CandidatesAreMatching(rank: Rank, p: Request, kind: Kind, rows: seq<Row>, from: Option<(Time, string)>)
    requires Normal(p, kind) && SqlFrom(kind, from) == from
             && (kind.Telemetry? ==> forall r <- rows :: r.time % MILLI == 0)
    ensures Select(rows, SqlWhere(rank, p, kind, from)) ==
            Select(Select(rows, Matching(p, kind)), Following(rank, p, from))
  {
    var f, g := Matching(p, kind), Following(rank, p, from);
    SelectTwice(rows, f, g);
    forall r | r in rows ensures (f(r) && g(r)) == SqlWhere(rank, p, kind, from)(r) {
      FiltersAgree(p, kind, r);
    }
    SelectSame(rows, SqlWhere(rank, p, kind, from), r => f(r) && g(r));
  }

  /** A command cursor at the zero time is ignored by the query, which then starts over. */
  lemma ZeroTimeCursorRestarts(rank: Rank, p: Request, rows: seq<Row>, id: string)
    ensures Select(rows, SqlWhere(rank, p, Commands, Some((ZERO_TIME, id)))) ==
            Select(rows, SqlWhere(rank, p, Commands, None))
  {
    SelectSame(rows, SqlWhere(rank, p, Commands, Some((ZERO_TIME, id))), SqlWhere(rank, p, Commands, None));
  }

  /** With such a cursor the query answers the first page of the listing. */
  lemma ZeroTimeGivesFirstPage(rank: Rank, p: Request, rows: seq<Row>, fetched: seq<Row>, id: string)
    requires Normal(p, Commands) && Collation(rank) && DistinctKeys(Select(rows, Matching(p, Commands)))
    requires OrderedLimit(rank, Asc(p), fetched, Select(rows, SqlWhere(rank, p, Commands, Some((ZERO_TIME, id)))),
             p.size + 1)
    ensures PageOf(p, Commands, fetched) == PageOf(p, Commands, Listing(rank, p, Commands, rows))
  {
    var matching := Select(rows, Matching(p, Commands));
    ZeroTimeCursorRestarts(rank, p, rows, id);
    CandidatesAreMatching(rank, p, Commands, rows, None);
    SelectEach(matching, Following(rank, p, None));
    LimitIsPrefix(rank, Asc(p), fetched, matching, p.size + 1);
    PageOfLimit(p, Commands, Sort(rank, Asc(p), matching), |fetched|);
  }

  /** What follows a position in an ordered list, if it starts like the list, is the whole list. */
  lemma FollowingAll(rank: Rank, p: Request, xs: seq<Row>, from: Option<(Time, string)>)
    requires Ordered(rank, Asc(p), xs)
    ensures var ys := Select(xs, Following(rank, p, from)); xs != [] && ys != [] && ys[0] == xs[0] ==> ys == xs
  {
    var f := Following(rank, p, from);
    var ys := Select(xs, f);
    if xs != [] && ys != [] && ys[0] == xs[0] {
      SelectMembers(xs, f);
      assert f(xs[0]) by { assert ys[0] in ys; }
      forall i | 0 <= i < |xs| ensures f(xs[i]) {
        if i > 0 { assert Before(rank, Asc(p), xs[0], xs[i]); }
      }
      SelectEach(xs, f);
    }
  }

  /** Two lists have the same first page exactly when they are the same, or both start with a row that fits no page;
      ys is what follows a position in xs. */
  lemma SamePage(rank: Rank, p: Request, kind: Kind, xs: seq<Row>, from: Option<(Time, string)>)
    requires p.size > 0 && Ordered(rank, Asc(p), xs)
    ensures var ys := Select(xs, Following(rank, p, from));
            PageOf(p, kind, xs) == PageOf(p, kind, ys) <==>
                  ys == xs || (xs != [] && ys != [] && !Fits(xs[0]) && !Fits(ys[0]))
  {
    var ys := Select(xs, Following(rank, p, from));
    FollowingAll(rank, p, xs, from);
    FirstPage(p, kind, xs);
    FirstPage(p, kind, ys);
    if PageOf(p, kind, xs) == PageOf(p, kind, ys) && PageOf(p, kind, xs).Ok? && xs != [] {
      assert ys[0] == PageOf(p, kind, ys).value.rows[0] == xs[0];
    }
  }

  lemma FirstPage(p: Request, kind: Kind, xs: seq<Row>)
    requires p.size > 0
    ensures match PageOf(p, kind, xs) {
              case Err(e) => e == ItemTooLarge && xs != [] && !Fits(xs[0])
              case Ok(page) => (xs == [] <==> page.rows == []) && (xs != [] ==> Fits(xs[0]) && page.rows[0] == xs[0])
            }
  {
    PageStep(p, kind, xs, 0);
    assert xs[0..] == xs;
  }

  /** Exactly when the fast form agrees with the simple one: always, unless a command cursor holds the zero time; and
      then if and only if every listed row follows that cursor anyway, or both listings start with a row that fits no
      page. */
  lemma FastAgreesExactly(rank: Rank, p: Request, kind: Kind, rows: seq<Row>, fetched: seq<Row>)
    requires Normal(p, kind) && Collation(rank) && DistinctKeys(Select(rows, Matching(p, kind)))
    requires kind.Telemetry? ==> forall r <- rows :: r.time % MILLI == 0
    requires DecodePageCursor(p, kind).Ok?
    requires OrderedLimit(rank, Asc(p), fetched,
             Select(rows, SqlWhere(rank, p, kind, DecodePageCursor(p, kind).value)), p.size + 1)
    ensures var from, xs := DecodePageCursor(p, kind).value, Listing(rank, p, kind, rows);
            var ys := Select(xs, Following(rank, p, from));
            PageOf(p, kind, fetched) == SimplePage(rank, p, kind, rows) <==>
              SqlFrom(kind, from) == from || ys == xs || (xs != [] && ys != [] && !Fits(xs[0]) && !Fits(ys[0]))
  {
    var from := DecodePageCursor(p, kind).value;
    if SqlFrom(kind, from) == from {
      FastRefinesSimple(rank, p, kind, rows, fetched);
    } else {
      ZeroTimeGivesFirstPage(rank, p, rows, fetched, from.value.1);
      SortOrdered(rank, Asc(p), Select(rows, Matching(p, kind)));
      SamePage(rank, p, kind, Listing(rank, p, kind, rows), from);
    }
  }

  /** A cursor a client can write: at the zero time, newest first, over commands with ordinary times. The query starts
      over at page one, the simple form ends; they disagree for every non-empty listing. */
  lemma ZeroTimeCursorLoops(rank: Rank, p: Request, rows: seq<Row>, fetched: seq<Row>, id: string)
    requires Normal(p, Commands) && p.sort == "desc" && Collation(rank)
             && DistinctKeys(Select(rows, Matching(p, Commands)))
    requires CursorKey(Commands, ZERO_TIME, id) && forall r <- rows :: r.time > ZERO_TIME
    requires OrderedLimit(rank, false, fetched, Select(rows, SqlWhere(rank, p, Commands, Some((ZERO_TIME, id)))),
             p.size + 1)
    ensures var q, xs := p.(cursor := EncodePageCursor(p, Commands, ZERO_TIME, id)), Listing(rank, p, Commands, rows);
            && DecodePageCursor(q, Commands) == Ok(Some((ZERO_TIME, id)))
            && SimplePage(rank, q, Commands, rows) == Ok(Page([], NoCursor))
            && PageOf(q, Commands, fetched) == PageOf(q, Commands, xs)
            && (xs != [] ==> PageOf(q, Commands, fetched) != SimplePage(rank, q, Commands, rows))
  {
    var q, xs := p.(cursor := EncodePageCursor(p, Commands, ZERO_TIME, id)), Listing(rank, p, Commands, rows);
    IssuedCursorAccepted(p, p, Commands, ZERO_TIME, id);
    SelectSame(rows, Matching(p, Commands), Matching(q, Commands));
    assert Listing(rank, q, Commands, rows) == xs;
    ZeroTimeGivesFirstPage(rank, p, rows, fetched, id);
    SamePages(p, q, Commands, fetched, xs);
    NothingOlder(rank, q, rows, xs, id);
    FirstPage(q, Commands, xs);
  }

  lemma SamePages(p: Request, q: Request, kind: Kind, xs: seq<Row>, ys: seq<Row>)
    requires p.size > 0 && q == p.(cursor := q.cursor) && PageOf(p, kind, xs) == PageOf(p, kind, ys)
    ensures PageOf(q, kind, xs) == PageOf(q, kind, ys)
  {
  }

  lemma NothingOlder(rank: Rank, q: Request, rows: seq<Row>, xs: seq<Row>, id: string)
    requires q.sort == "desc" && xs == Listing(rank, q, Commands, rows) && forall r <- rows :: r.time > ZERO_TIME
    ensures Select(xs, Following(rank, q, Some((ZERO_TIME, id)))) == []
  {
    SortContents(rank, Asc(q), Select(rows, Matching(q, Commands)));
    SameMembers(xs, Select(rows, Matching(q, Commands)));
    SelectMembers(rows, Matching(q, Commands));
    SelectNone(xs, Following(rank, q, Some((ZERO_TIME, id))));
  }

  // ----- following cursors ---------------------------------------------------

  /** The rows after the k-th of an ordered list are the ones that follow it. */
  lemma FollowingKth(rank: Rank, p: Request, xs: seq<Row>, k: nat)
    requires Collation(rank) && Ordered(rank, Asc(p), xs) && 0 < k <= |xs|
    ensures Select(xs, Following(rank, p, Some((xs[k - 1].time, xs[k - 1].id)))) == xs[k..]
  {
    var f := Following(rank, p, Some((xs[k - 1].time, xs[k - 1].id)));
    forall i | 0 <= i < k ensures !f(xs[i]) {
      if i < k - 1 { assert Before(rank, Asc(p), xs[i], xs[k - 1]); }
    }
    forall i | k <= i < |xs| ensures f(xs[i]) {
      assert Before(rank, Asc(p), xs[k - 1], xs[i]);
    }
    assert xs == xs[..k] + xs[k..];
    SelectAppend(xs[..k], xs[k..], f);
    SelectNone(xs[..k], f);
    SelectEach(xs[k..], f);
  }

  lemma {:induction false} SelectNone(xs: seq<Row>, f: Row -> bool)
    requires forall r <- xs :: !f(r)
    ensures Select(xs, f) == []
  {
    if xs != [] { SelectNone(xs[1..], f); }
  }

  lemma {:induction false} SelectEach(xs: seq<Row>, f: Row -> bool)
    requires forall r <- xs :: f(r)
    ensures Select(xs, f) == xs
  {
    if xs != [] { SelectEach(xs[1..], f); }
  }

  function Flatten(pages: seq<seq<Row>>): seq<Row> {
    if pages == [] then [] else Flatten(pages[..|pages| - 1]) + pages[|pages| - 1]
  }

  predicate Fits(r: Row) {
    r.bytes <= LIST_CONTENT_BYTES
  }

  /** Start of a traversal, or the cursor issued for the first k rows. */
  ghost predicate At(p: Request, q: Request, kind: Kind, xs: seq<Row>, k: nat) {
    && k <= |xs|
    && q == if k == 0 then p else p.(cursor := EncodePageCursor(p, kind, xs[k - 1].time, xs[k - 1].id))
  }

  /** The page requested at position k is cut from the rows still to come; its cursor is accepted. */
  lemma PageAt(rank: Rank, p: Request, q: Request, kind: Kind, rows: seq<Row>, k: nat)
    requires Normal(p, kind) && p.cursor.NoCursor? && Collation(rank) && DistinctKeys(Select(rows, Matching(p, kind)))
    requires forall r <- Listing(rank, p, kind, rows) :: CursorKey(kind, r.time, r.id)
    requires At(p, q, kind, Listing(rank, p, kind, rows), k)
    ensures SimplePage(rank, q, kind, rows) == PageOf(p, kind, Listing(rank, p, kind, rows)[k..])
  {
    var xs := Listing(rank, p, kind, rows);
    SelectSame(rows, Matching(p, kind), Matching(q, kind));
    assert Listing(rank, q, kind, rows) == xs;
    SortOrdered(rank, Asc(p), Select(rows, Matching(p, kind)));
    if k == 0 {
      SelectEach(xs, Following(rank, q, None));
    } else {
      IssuedCursorAccepted(p, p, kind, xs[k - 1].time, xs[k - 1].id);
      FollowingKth(rank, q, xs, k);
    }
    assert forall ys :: PageOf(q, kind, ys) == PageOf(p, kind, ys);
  }

  /** What a page at position k delivers. */
  lemma PageStep(p: Request, kind: Kind, xs: seq<Row>, k: nat)
    requires p.size > 0 && k <= |xs|
    ensures match PageOf(p, kind, xs[k..]) {
              case Err(e) => e == ItemTooLarge && k < |xs| && !Fits(xs[k])
              case Ok(page) =>
                var m := k + |page.rows|;
                && m <= |xs| && page.rows == xs[k..m] && |page.rows| <= p.size && Bytes(page.rows) <= LIST_CONTENT_BYTES
                && (forall i :: k <= i < m ==> Fits(xs[i]))
                && (page.next.NoCursor? <==> m == |xs|)
                && (m < |xs| ==> k < m && page.next == EncodePageCursor(p, kind, xs[m - 1].time, xs[m - 1].id))
                && (k < |xs| ==> page.rows != [])
            }
  {
    FillMeaning(xs[k..], p.size, 0, 0);
    var r := PageOf(p, kind, xs[k..]);
    if r.Ok? {
      var n := |r.value.rows|;
      PrefixFits(xs[k..], n);
      forall i | k <= i < k + n ensures Fits(xs[i]) {
        assert xs[i] == xs[k..][i - k];
      }
    }
  }

  /** A page keeps both bounds, and is empty only if there is nothing to list. */
  predicate PageOk(p: Request, xs: seq<Row>, page: seq<Row>) {
    |page| <= p.size && Bytes(page) <= LIST_CONTENT_BYTES && (page == [] ==> xs == [])
  }

  /** The first k rows were delivered, in sound pages. */
  ghost predicate Delivered(p: Request, xs: seq<Row>, pages: seq<seq<Row>>, k: nat) {
    && k <= |xs| && Flatten(pages) == xs[..k]
    && (forall i :: 0 <= i < |pages| ==> PageOk(p, xs, pages[i]))
    && (forall i :: 0 <= i < k ==> Fits(xs[i]))
  }

  lemma DeliverNext(p: Request, xs: seq<Row>, pages: seq<seq<Row>>, k: nat, page: seq<Row>)
    requires Delivered(p, xs, pages, k) && k + |page| <= |xs| && page == xs[k..k + |page|]
    requires PageOk(p, xs, page) && forall i :: k <= i < k + |page| ==> Fits(xs[i])
    ensures Delivered(p, xs, pages + [page], k + |page|)
  {
    assert (pages + [page])[..|pages|] == pages;
    assert xs[..k + |page|] == xs[..k] + page;
  }

  /** Either everything was delivered, or everything before the first row that is over the budget by itself. */
  ghost predicate Complete(p: Request, xs: seq<Row>, pages: seq<seq<Row>>, failure: Option<PageError>) {
    var k := |Flatten(pages)|;
    && Delivered(p, xs, pages, k)
    && (failure.None? ==> k == |xs|)
    && (failure.Some? ==> failure.value == ItemTooLarge && k < |xs| && !Fits(xs[k]))
  }

  /** Where pages come from: all rows in memory, or a database that answers the keyset query. */
  datatype Source = InMemory | Keyset(answer: Option<(Time, string)> -> seq<Row>)

  ghost predicate Listable(rank: Rank, p: Request, kind: Kind, rows: seq<Row>) {
    && Normal(p, kind) && p.cursor.NoCursor? && Collation(rank) && DistinctKeys(Select(rows, Matching(p, kind)))
    && forall r <- Listing(rank, p, kind, rows) :: CursorKey(kind, r.time, r.id)
  }

  /** The database orders and limits; event times are whole milliseconds, and no listed command was created at the zero
      time. */
  ghost predicate Answers(rank: Rank, p: Request, kind: Kind, rows: seq<Row>, source: Source) {
    source.Keyset? ==>
      && p.size > 0
      && (kind.Telemetry? ==> forall r <- rows :: r.time % MILLI == 0)
      && (kind.Commands? ==> forall r <- Listing(rank, p, kind, rows) :: r.time != ZERO_TIME)
      && forall from ::
           OrderedLimit(rank, Asc(p), source.answer(from), Select(rows, SqlWhere(rank, p, kind, from)), p.size + 1)
  }

  /** A later request of the traversal asks for the same rows. */
  lemma SameRequest(rank: Rank, p: Request, q: Request, kind: Kind, rows: seq<Row>, from: Option<(Time, string)>)
    requires q == p.(cursor := q.cursor) && CursorFits(q.cursor) && Normal(p, kind)
    ensures Normal(q, kind) && Select(rows, Matching(q, kind)) == Select(rows, Matching(p, kind))
    ensures Select(rows, SqlWhere(rank, q, kind, from)) == Select(rows, SqlWhere(rank, p, kind, from))
  {
    SelectSame(rows, Matching(q, kind), Matching(p, kind));
    SelectSame(rows, SqlWhere(rank, q, kind, from), SqlWhere(rank, p, kind, from));
  }

  /** The cursor behind the k-th row is accepted, and does not hold the zero time. */
  lemma PositionAt(p: Request, q: Request, kind: Kind, xs: seq<Row>, k: nat)
    requires At(p, q, kind, xs, k) && p.cursor.NoCursor?
    requires forall r <- xs :: CursorKey(kind, r.time, r.id)
    requires kind.Commands? ==> forall r <- xs :: r.time != ZERO_TIME
    ensures var d := DecodePageCursor(q, kind); d.Ok? && SqlFrom(kind, d.value) == d.value
  {
    if k > 0 {
      assert xs[k - 1] in xs;
      IssuedCursorAccepted(p, p, kind, xs[k - 1].time, xs[k - 1].id);
    }
  }

  /** At every position of a traversal, the database's answer gives the simple page. */
  lemma KeysetAt(rank: Rank, p: Request, q: Request, kind: Kind, rows: seq<Row>, source: Source, k: nat)
    requires Listable(rank, p, kind, rows) && source.Keyset? && Answers(rank, p, kind, rows, source)
    requires At(p, q, kind, Listing(rank, p, kind, rows), k)
    ensures var d := DecodePageCursor(q, kind);
            && d.Ok? && OrderedLimit(rank, Asc(q), source.answer(d.value),
               Select(rows, SqlWhere(rank, q, kind, d.value)), q.size + 1)
            && PageOf(q, kind, source.answer(d.value)) == SimplePage(rank, q, kind, rows)
  {
    PositionAt(p, q, kind, Listing(rank, p, kind, rows), k);
    var from := DecodePageCursor(q, kind).value;
    SameRequest(rank, p, q, kind, rows, from);
    FastRefinesSimple(rank, q, kind, rows, source.answer(from));
  }

  /** The page at position k of the listing, from either source. */
  method NextPage(source: Source, rank: Rank, p: Request, q: Request, kind: Kind, rows: seq<Row>, ghost k: nat)
    returns (r: Result<Page, PageError>)
    requires Listable(rank, p, kind, rows) && Answers(rank, p, kind, rows, source)
    requires At(p, q, kind, Listing(rank, p, kind, rows), k)
    ensures r == PageOf(p, kind, Listing(rank, p, kind, rows)[k..])
  {
    PageAt(rank, p, q, kind, rows, k);
    if source.InMemory? {
      r := MemoryPage(rank, q, kind, rows);
    } else {
      KeysetAt(rank, p, q, kind, rows, source, k);
      var from := DecodePageCursor(q, kind).value;
      r := SqlPage(rank, q, kind, rows, source.answer(from));
    }
  }

  /** Add a page to those delivered; `more` says whether a next cursor was issued. */
  lemma TurnPage(p: Request, kind: Kind, xs: seq<Row>, pages: seq<seq<Row>>, k: nat, page: Page)
    requires p.size > 0 && Delivered(p, xs, pages, k) && PageOf(p, kind, xs[k..]) == Ok(page) && (k < |xs| || xs == [])
    ensures var m := k + |page.rows|;
            && Delivered(p, xs, pages + [page.rows], m) && |Flatten(pages + [page.rows])| == m
            && (page.next.NoCursor? ==> m == |xs|)
            && (page.next.Wire? ==> k < m < |xs| && At(p, p.(cursor := page.next), kind, xs, m))
  {
    PageStep(p, kind, xs, k);
    DeliverNext(p, xs, pages, k, page.rows);
  }

  /** A traversal that has delivered k rows and fetched the page after them. */
  ghost predicate Turning(p: Request, q: Request, kind: Kind, xs: seq<Row>, pages: seq<seq<Row>>, k: nat,
                          r: Result<Page, PageError>) {
    p.size > 0 && At(p, q, kind, xs, k) && Delivered(p, xs, pages, k) && (k < |xs| || xs == [])
        && r == PageOf(p, kind, xs[k..])
  }

  lemma LastTurn(p: Request, q: Request, kind: Kind, xs: seq<Row>, pages: seq<seq<Row>>, k: nat,
                 r: Result<Page, PageError>)
    requires Turning(p, q, kind, xs, pages, k, r) && (r.Ok? ==> r.value.next.NoCursor?)
    ensures r.Err? ==> Complete(p, xs, pages, Some(r.error))
    ensures r.Ok? ==> Complete(p, xs, pages + [r.value.rows], None)
  {
    if r.Err? {
      PageStep(p, kind, xs, k);
    } else {
      TurnPage(p, kind, xs, pages, k, r.value);
    }
  }

  method FirstTurn(source: Source, rank: Rank, p: Request, kind: Kind, rows: seq<Row>)
    returns (r: Result<Page, PageError>)
    requires Listable(rank, p, kind, rows) && Answers(rank, p, kind, rows, source)
    ensures Turning(p, p, kind, Listing(rank, p, kind, rows), [], 0, r)
  {
    r := NextPage(source, rank, p, p, kind, rows, 0);
  }

  method NextTurn(source: Source, rank: Rank, p: Request, q: Request, kind: Kind, rows: seq<Row>, pages: seq<seq<Row>>,
                  ghost k: nat, page: Page)
    returns (next: Request, longer: seq<seq<Row>>, ghost m: nat, r: Result<Page, PageError>)
    requires Listable(rank, p, kind, rows) && Answers(rank, p, kind, rows, source) && page.next.Wire?
    requires Turning(p, q, kind, Listing(rank, p, kind, rows), pages, k, Ok(page))
    ensures longer == pages + [page.rows] && k < m < |Listing(rank, p, kind, rows)|
    ensures Turning(p, next, kind, Listing(rank, p, kind, rows), longer, m, r)
  {
    TurnPage(p, kind, Listing(rank, p, kind, rows), pages, k, page);
    next, longer, m := p.(cursor := page.next), pages + [page.rows], k + |page.rows|;
    r := NextPage(source, rank, p, next, kind, rows, m);
  }

  /** Follow cursors from the empty one, in memory or through the keyset query.  The pages concatenate to the whole
      listing, nothing lost or repeated, and each keeps both bounds; the traversal stops early exactly at the first row
      that is over the budget by itself, after delivering every row before it. */
  method Traverse(source: Source, rank: Rank, p: Request, kind: Kind, rows: seq<Row>)
    returns (pages: seq<seq<Row>>, failure: Option<PageError>)
    requires Listable(rank, p, kind, rows) && Answers(rank, p, kind, rows, source)
    ensures Complete(p, Listing(rank, p, kind, rows), pages, failure)
    ensures InOrder(rank, p, Flatten(pages)) && forall r <- Flatten(pages) :: r in rows && Asked(p, kind, r)
    ensures failure.None? ==> Lists(rank, p, kind, rows, Flatten(pages))
  {
    ghost var xs := Listing(rank, p, kind, rows);
    ghost var k := 0;
    pages, failure := [], None;
    var q := p;
    var r := FirstTurn(source, rank, p, kind, rows);
    while r.Ok? && r.value.next.Wire?
      invariant Turning(p, q, kind, xs, pages, k, r)
      decreases |xs| - k
    {
      q, pages, k, r := NextTurn(source, rank, p, q, kind, rows, pages, k, r.value);
    }
    LastTurn(p, q, kind, xs, pages, k, r);
    if r.Err? {
      failure := Some(r.error);
    } else {
      pages := pages + [r.value.rows];
    }
    DeliveredMeans(rank, p, kind, rows, pages, failure);
  }

  lemma DeliveredMeans(rank: Rank, p: Request, kind: Kind, rows: seq<Row>, pages: seq<seq<Row>>,
                       failure: Option<PageError>)
    requires Listable(rank, p, kind, rows) && Complete(p, Listing(rank, p, kind, rows), pages, failure)
    ensures InOrder(rank, p, Flatten(pages)) && forall r <- Flatten(pages) :: r in rows && Asked(p, kind, r)
    ensures failure.None? ==> Lists(rank, p, kind, rows, Flatten(pages))
  {
    var xs := Listing(rank, p, kind, rows);
    var k := |Flatten(pages)|;
    ListingMeaning(rank, p, kind, rows);
    CutMeans(rank, p, xs, k);
    forall r | r in xs[..k] ensures r in rows && Asked(p, kind, r) {
      assert r in multiset(xs);
      assert r in multiset(rows);
    }
    if failure.None? { assert xs[..k] == xs; }
  }

  /** What a traversal promises its client: it fails exactly when some listed row is over the budget
      by itself; otherwise the pages are the listing, cut up. */
  lemma TraversalMeaning(p: Request, xs: seq<Row>, pages: seq<seq<Row>>, failure: Option<PageError>)
    requires Complete(p, xs, pages, failure)
    ensures failure.None? <==> forall r <- xs :: Fits(r)
    ensures failure.None? ==> Flatten(pages) == xs
    ensures failure.Some? ==>
              Flatten(pages) < xs && !Fits(xs[|Flatten(pages)|]) && forall r <- Flatten(pages) :: Fits(r)
    ensures forall i :: 0 <= i < |pages| ==>
              |pages[i]| <= p.size && Bytes(pages[i]) <= LIST_CONTENT_BYTES && (xs != [] ==> pages[i] != [])
  {
    if failure.Some? {
      assert xs[|Flatten(pages)|] in xs;
    }
  }

  /** Rows on a page within the byte budget fit it one by one. */
  lemma {:induction false} PrefixFits(xs: seq<Row>, n: nat)
    requires n <= |xs| && Bytes(xs[..n]) <= LIST_CONTENT_BYTES
    ensures forall i :: 0 <= i < n ==> Fits(xs[i])
    decreases n
  {
    if n > 0 {
      assert xs[..n][1..] == xs[1..][..n - 1];
      PrefixFits(xs[1..], n - 1);
      assert forall i :: 0 < i < n ==> xs[i] == xs[1..][i - 1];
    }
  }
}
