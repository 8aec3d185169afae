/** internal/bscinbound/service.go: listing an address's transactions newest first, page by page,
    with opaque page tokens, while the scanner keeps appending. */
module InboundPages {
  import opened Prelude
  import opened Bytes
  import opened InboundScanner
  import opened InboundStore
  import InboundRuns

  const ADDRESS_LENGTH := 20
  const TOKEN_SIZE := 1 + ADDRESS_LENGTH + 8 + 8
  const TOKEN_VERSION := 1
  const DEFAULT_PAGE_SIZE := 100
  const MAX_PAGE_SIZE := 300

  /** A position; both parts are 64-bit unsigned integers. */
  datatype Cursor = Cursor(number: nat, index: nat)

  predicate Fits64(c: Cursor) {
    c.number < Power256(8) && c.index < Power256(8)
  }

  // ----- page tokens -----

  function TokenBytes(address: Address, c: Cursor): seq<Byte> {
    [1] + address + BigEndian(c.number, 8) + BigEndian(c.index, 8)
  }

  function EncodeToken(address: Address, c: Cursor): string {
    Encode(TokenBytes(address, c))
  }

  /** encodePageToken: fills a fixed buffer field by field. */
  method EncodePageToken(address: Address, c: Cursor) returns (token: string)
    requires |address| == ADDRESS_LENGTH
    ensures token == EncodeToken(address, c)
  {
    var data := new Byte[TOKEN_SIZE](i => 0);
    data[0] := TOKEN_VERSION;
    forall k | 0 <= k < ADDRESS_LENGTH {
      data[1 + k] := address[k];
    }
    PutUint64(data, 1 + ADDRESS_LENGTH, c.number);
    assert data[..29] == [TOKEN_VERSION] + address + BigEndian(c.number, 8);
    ghost var head := data[..29];
    PutUint64(data, 1 + ADDRESS_LENGTH + 8, c.index);
    assert data[..29] == head;
    assert data[..] == data[..29] + data[29..37] == TokenBytes(address, c);
    return Encode(data[..]);
  }

  /** binary.BigEndian.PutUint64 on eight bytes of a buffer. */
  method PutUint64(data: array<Byte>, at: nat, value: nat)
    requires at + 8 <= data.Length
    modifies data
    ensures data[at..at + 8] == BigEndian(value, 8)
    ensures forall k :: 0 <= k < data.Length && !(at <= k < at + 8) ==> data[k] == old(data[k])
  {
    var rest, n := value, 8;
    while n > 0
      invariant 0 <= n <= 8 && rest >= 0
      invariant BigEndian(value, 8) == BigEndian(rest, n) + data[at + n..at + 8]
      invariant forall k :: 0 <= k < data.Length && !(at <= k < at + 8) ==> data[k] == old(data[k])
    {
      ghost var tail := data[at + n..at + 8];
      n := n - 1;
      data[at + n] := rest % 256;
      assert data[at + n..at + 8] == [(rest % 256) as Byte] + tail;
      rest := rest / 256;
    }
  }

  function DecodeToken(token: string): Option<(Cursor, Address)> {
    match Decode(token)
    case None => None
    case Some(data) =>
      if |data| != TOKEN_SIZE || data[0] != TOKEN_VERSION then None
      else Some((Cursor(FromBigEndian(data[21..29]), FromBigEndian(data[29..])), data[1..21]))
  }

  /** A token gives back the address and the position it was made from, for every address and every
      64-bit position. */
  lemma TokenRoundTrip(address: Address, c: Cursor)
    requires |address| == ADDRESS_LENGTH && Fits64(c)
    ensures DecodeToken(EncodeToken(address, c)) == Some((c, address))
    ensures EncodeToken(address, c) != ""
  {
    var data := TokenBytes(address, c);
    DecodeEncode(data);
    BigEndianRoundTrip(c.number, 8);
    BigEndianRoundTrip(c.index, 8);
    assert data[21..29] == BigEndian(c.number, 8) && data[29..] == BigEndian(c.index, 8) && data[1..21] == address;
    assert Decode("") == Some([]);
  }

  /** A text is a token of an address and a position exactly when it is a base64url form of their bytes. */
  lemma TokenIff(token: string, address: Address, c: Cursor)
    ensures DecodeToken(token) == Some((c, address)) <==>
      |address| == 20 && Fits64(c) && Decode(token) == Some(TokenBytes(address, c))
  {
    if Decode(token).Some? {
      var data := Decode(token).value;
      if |data| == 37 {
        FromBigEndianRoundTrip(data[21..29]);
        FromBigEndianRoundTrip(data[29..]);
        assert data == [data[0]] + data[1..21] + data[21..29] + data[29..];
      }
      if |address| == 20 && Fits64(c) && data == TokenBytes(address, c) {
        BigEndianRoundTrip(c.number, 8);
        BigEndianRoundTrip(c.index, 8);
        assert data[21..29] == BigEndian(c.number, 8) && data[29..] == BigEndian(c.index, 8) && data[1..21] == address;
      }
    }
  }

  // ----- one request -----

  /** `address` is the parsed address, if the text was one. */
  datatype Request = Request(address: Option<Address>, pageSize: int, token: string, before: Option<Cursor>)
  datatype Page = Page(items: seq<Row>, next: string)
  datatype Error = InvalidArgument | NotInitialized

  datatype Query = Query(address: Address, size: nat, cursor: Option<Cursor>)

  predicate Int64Position(c: Cursor) {
    c.number <= MAX_INT64 && c.index <= MAX_INT64
  }

  function Normalize(r: Request): (n: Result<Query, Error>)
    ensures n.Ok? ==> 1 <= n.value.size <= MAX_PAGE_SIZE
  {
    if r.address.None? then Err(InvalidArgument)
    else
      var size := if r.pageSize == 0 then DEFAULT_PAGE_SIZE else r.pageSize;
      if size < 1 || size > MAX_PAGE_SIZE then Err(InvalidArgument)
      else if r.token != "" && r.before.Some? then Err(InvalidArgument)
      else if r.before.Some? then
        if Int64Position(r.before.value) then Ok(Query(r.address.value, size, r.before)) else Err(InvalidArgument)
      else if r.token == "" then Ok(Query(r.address.value, size, None))
      else match DecodeToken(r.token)
           case None => Err(InvalidArgument)
           case Some((cursor, owner)) =>
             if owner != r.address.value || !Int64Position(cursor) then Err(InvalidArgument)
             else Ok(Query(r.address.value, size, Some(cursor)))
  }

  predicate Wanted(row: Row, address: Address, cursor: Option<Cursor>) {
    row.to == address && (cursor.None? || Before(row.number, row.index, cursor.value.number, cursor.value.index))
  }

  /** All rows of `address` before `cursor`, newest first; `rows` are stored in ascending position. */
  function Listing(rows: seq<Row>, address: Address, cursor: Option<Cursor>): seq<Row> {
    if rows == [] then []
    else
      var last := rows[|rows| - 1];
      (if Wanted(last, address, cursor) then [last] else []) + Listing(rows[..|rows| - 1], address, cursor)
  }

  /** The SELECT with ORDER BY position DESC and a LIMIT. */
  function Select(rows: seq<Row>, q: Query, limit: nat): seq<Row> {
    var all := Listing(rows, q.address, q.cursor);
    if |all| <= limit then all else all[..limit]
  }

  function Position(row: Row): Cursor {
    Cursor(row.number, row.index)
  }

  /** One row more than the page is selected to learn whether a next page exists. */
  function PageOf(rows: seq<Row>, q: Query): Page
    requires q.size > 0
  {
    var found := Select(rows, q, q.size + 1);
    if |found| > q.size
    then Page(found[..q.size], EncodeToken(q.address, Position(found[q.size - 1])))
    else Page(found, "")
  }

  function List(db: Db, r: Request): Result<Page, Error> {
    match Normalize(r)
    case Err(e) => Err(e)
    case Ok(q) => if db.checkpoint.None? then Err(NotInitialized) else Ok(PageOf(db.rows, q))
  }

  // ----- listings -----

  lemma {:induction false} ListingMembers(rows: seq<Row>, address: Address, cursor: Option<Cursor>)
    ensures forall row :: row in Listing(rows, address, cursor) <==> row in rows && Wanted(row, address, cursor)
  {
    if rows != [] {
      var init, last := rows[..|rows| - 1], rows[|rows| - 1];
      ListingMembers(init, address, cursor);
      assert rows == init + [last];
    }
  }

  /** Rows at or after the cursor play no part, so appending such rows changes no listing. */
  lemma {:induction false} ListingIgnoresNewer(rows: seq<Row>, more: seq<Row>, address: Address, c: Cursor)
    requires forall row :: row in more ==> !Before(row.number, row.index, c.number, c.index)
    ensures Listing(rows + more, address, Some(c)) == Listing(rows, address, Some(c))
    decreases |more|
  {
    if more == [] {
      assert rows + more == rows;
    } else {
      var init := more[..|more| - 1];
      assert (rows + more)[..|rows + more| - 1] == rows + init;
      assert more[|more| - 1] in more;
      ListingIgnoresNewer(rows, init, address, c);
    }
  }

  /** Whatever is listed among the earlier rows lies before the last row. */
  lemma ListedBeforeLast(rows: seq<Row>, address: Address, cursor: Option<Cursor>, j: nat)
    requires Ascending(rows) && rows != [] && j < |Listing(rows[..|rows| - 1], address, cursor)|
    ensures var x, last := Listing(rows[..|rows| - 1], address, cursor)[j], rows[|rows| - 1];
      Before(x.number, x.index, last.number, last.index)
  {
    var init := rows[..|rows| - 1];
    var x := Listing(init, address, cursor)[j];
    ListingMembers(init, address, cursor);
    assert x in init;
    var i :| 0 <= i < |init| && init[i] == x;
    assert Before(rows[i].number, rows[i].index, rows[|init|].number, rows[|init|].index);
  }

  lemma DropLast(rows: seq<Row>, address: Address, c: Cursor)
    requires rows != [] && Before(c.number, c.index, rows[|rows| - 1].number, rows[|rows| - 1].index)
    ensures Listing(rows, address, Some(c)) == Listing(rows[..|rows| - 1], address, Some(c))
  {
    assert !Wanted(rows[|rows| - 1], address, Some(c));
  }

  /** Cutting a listing after an item is listing before that item's position. */
  lemma {:induction false} ListingSplits(rows: seq<Row>, address: Address, cursor: Option<Cursor>, k: nat)
    requires Ascending(rows) && 0 < k <= |Listing(rows, address, cursor)|
    ensures var all := Listing(rows, address, cursor); all[k..] == Listing(rows, address, Some(Position(all[k - 1])))
  {
    var init, last := rows[..|rows| - 1], rows[|rows| - 1];
    var all, older := Listing(rows, address, cursor), Listing(init, address, cursor);
    var head := if Wanted(last, address, cursor) then 1 else 0;
    assert all == (if head == 1 then [last] else []) + older;
    if head == 1 && k == 1 {
      ListingBelowLast(rows, address, cursor);
    } else {
      var j := k - head;
      assert all[k - 1] == older[j - 1] && all[k..] == older[j..];
      ListingSplits(init, address, cursor, j);
      ListedBeforeLast(rows, address, cursor, j - 1);
      DropLast(rows, address, Position(older[j - 1]));
    }
  }

  /** All earlier rows lie before the last one, so listing before it loses nothing of them. */
  lemma ListingBelowLast(rows: seq<Row>, address: Address, cursor: Option<Cursor>)
    requires Ascending(rows) && rows != [] && Wanted(rows[|rows| - 1], address, cursor)
    ensures var init, last := rows[..|rows| - 1], rows[|rows| - 1];
      Listing(init, address, cursor) == Listing(rows, address, Some(Position(last)))
  {
    var init, last := rows[..|rows| - 1], rows[|rows| - 1];
    forall i | 0 <= i < |init|
      ensures Wanted(init[i], address, cursor) <==> Wanted(init[i], address, Some(Position(last)))
    {
      assert Before(rows[i].number, rows[i].index, rows[|init|].number, rows[|init|].index);
    }
    SameListing(init, address, cursor, Some(Position(last)));
  }

  lemma {:induction false} SameListing(rows: seq<Row>, address: Address, one: Option<Cursor>, other: Option<Cursor>)
    requires forall i :: 0 <= i < |rows| ==> (Wanted(rows[i], address, one) <==> Wanted(rows[i], address, other))
    ensures Listing(rows, address, one) == Listing(rows, address, other)
  {
    if rows != [] {
      SameListing(rows[..|rows| - 1], address, one, other);
    }
  }

  // ----- which requests are answered -----

  /** The position that a request starts from: its `before` position or the one in its token. */
  ghost predicate Positioned(r: Request, address: Address, cursor: Option<Cursor>) {
    || (r.token == "" && r.before.None? && cursor.None?)
    || (r.token == "" && r.before.Some? && cursor == r.before)
    || (r.token != "" && r.before.None? && cursor.Some? && DecodeToken(r.token) == Some((cursor.value, address)))
  }

  /** A request is answered exactly when it names an address, a page size from 0 to 300 and at most one position,
      which fits the columns and, if it comes from a token, belongs to the address; on an initialized index. The page
      is then the first items of the listing before that position, 100 of them when no size is given, and it has a
      token exactly when items remain. */
  lemma AnsweredIff(db: Db, r: Request)
    ensures List(db, r).Ok? <==>
      && r.address.Some? && 0 <= r.pageSize <= 300 && db.checkpoint.Some?
      && exists cursor :: Positioned(r, r.address.value, cursor) && Fitting(cursor)
    ensures List(db, r) == Err(NotInitialized) ==> db.checkpoint.None?
    ensures forall cursor :: List(db, r).Ok? && Positioned(r, r.address.value, cursor) ==>
      Shows(List(db, r).value, Listing(db.rows, r.address.value, cursor), if r.pageSize == 0 then 100 else r.pageSize)
  {
    if r.address.Some? {
      NormalizedIff(r, r.address.value);
      if Normalize(r).Ok? {
        PageShape(db.rows, Normalize(r).value);
        PageShows(db.rows, Normalize(r).value);
      }
    }
  }

  ghost predicate Fitting(cursor: Option<Cursor>) {
    cursor.None? || (cursor.value.number <= 0x7fff_ffff_ffff_ffff && cursor.value.index <= 0x7fff_ffff_ffff_ffff)
  }

  lemma NormalizedIff(r: Request, address: Address)
    requires r.address == Some(address)
    ensures Normalize(r).Ok? <==>
      0 <= r.pageSize <= 300 && exists cursor :: Positioned(r, address, cursor) && Fitting(cursor)
    ensures Normalize(r).Ok? ==>
      && Normalize(r).value.address == address
      && Normalize(r).value.size == (if r.pageSize == 0 then 100 else r.pageSize)
      && forall cursor :: Positioned(r, address, cursor) ==> Normalize(r).value.cursor == cursor
    ensures Normalize(r).Err? ==> Normalize(r).error == InvalidArgument
  {
    var cursor := if r.before.Some? || r.token == "" || DecodeToken(r.token).None? then r.before
                  else Some(DecodeToken(r.token).value.0);
    assert forall c :: Positioned(r, address, c) ==> c == cursor;
    assert Normalize(r).Ok? ==> Positioned(r, address, cursor) && Fitting(cursor);
    assert 0 <= r.pageSize <= 300 && Positioned(r, address, cursor) && Fitting(cursor) ==> Normalize(r).Ok?;
  }

  lemma PageShows(rows: seq<Row>, q: Query)
    requires q.size > 0
    ensures Shows(PageOf(rows, q), Listing(rows, q.address, q.cursor), q.size)
  {
    PageShape(rows, q);
  }

  /** A page of at most `size` items from the front of `left`; it has a token exactly when items remain. */
  ghost predicate Shows(page: Page, left: seq<Row>, size: int) {
    && page.items <= left && |page.items| == (if |left| <= size then |left| else size)
    && (page.next == "" <==> page.items == left)
  }

  /** A token of another address is refused. */
  lemma ForeignTokenIsRefused(db: Db, address: Address, other: Address, c: Cursor, size: int)
    requires |other| == ADDRESS_LENGTH && Fits64(c) && address != other
    ensures List(db, Request(Some(address), size, EncodeToken(other, c), None)) == Err(InvalidArgument)
  {
    TokenRoundTrip(other, c);
  }

  // ----- following page tokens to the end -----

  /** One request of a client: the database at that moment and the page size asked for. */
  datatype Visit = Visit(db: Db, size: int)

  datatype Progress = Finished(items: seq<Row>) | Unfinished(items: seq<Row>, token: string) | Rejected

  /** A client that repeats the request with each returned token until there is none. */
  function Walk(address: Address, visits: seq<Visit>, token: string): Progress {
    if visits == [] then Unfinished([], token)
    else match List(visits[0].db, Request(Some(address), visits[0].size, token, None))
         case Err(_) => Rejected
         case Ok(page) =>
           if page.next == "" then Finished(page.items)
           else match Walk(address, visits[1..], page.next)
                case Finished(rest) => Finished(page.items + rest)
                case Unfinished(rest, next) => Unfinished(page.items + rest, next)
                case Rejected => Rejected
  }

  predicate Servable(db: Db) {
    db.checkpoint.Some? && forall k :: 0 <= k < |db.rows| ==> Storable(db.rows[k])
  }

  /** Requests with permitted page sizes against a database that only grows. */
  ghost predicate Growing(rows: seq<Row>, visits: seq<Visit>) {
    && (forall k :: 0 <= k < |visits| ==>
          Servable(visits[k].db) && Ascending(visits[k].db.rows) && rows <= visits[k].db.rows
            && 0 <= visits[k].size <= 300)
    && (forall i, j :: 0 <= i <= j < |visits| ==> visits[i].db.rows <= visits[j].db.rows)
  }

  /** The client's position: at the very start, or behind a row of `rows` that its token names. */
  ghost predicate At(rows: seq<Row>, address: Address, cursor: Option<Cursor>, token: string) {
    if cursor.None? then token == ""
    else token == EncodeToken(address, cursor.value) && exists row :: row in rows && Position(row) == cursor.value
  }

  /** `page` is the next piece of the listing, and its token leads to the remainder. */
  ghost predicate Continues(page: Page, rows: seq<Row>, address: Address, cursor: Option<Cursor>) {
    var left, k := Listing(rows, address, cursor), |page.items|;
    if page.next == "" then page.items == left
    else
      && 0 < k < |left| && page.items == left[..k]
      && var c := Position(left[k - 1]);
         At(rows, address, Some(c), page.next) && left[k..] == Listing(rows, address, Some(c))
  }

  function Effective(size: int): int {
    if size == 0 then DEFAULT_PAGE_SIZE else size
  }

  lemma NormalizeAt(rows: seq<Row>, db: Db, size: int, address: Address, cursor: Option<Cursor>, token: string)
    requires |address| == ADDRESS_LENGTH && 0 <= size <= MAX_PAGE_SIZE
    requires Servable(db) && Ascending(db.rows) && rows <= db.rows && At(rows, address, cursor, token)
    ensures Normalize(Request(Some(address), size, token, None)) == Ok(Query(address, Effective(size), cursor))
  {
    if cursor.Some? {
      KnownPosition(rows, db, cursor.value);
      TokenRoundTrip(address, cursor.value);
    }
  }

  /** Later rows do not show up behind a position that was already there. */
  lemma SameLeft(rows: seq<Row>, db: Db, address: Address, cursor: Option<Cursor>, token: string)
    requires Servable(db) && Ascending(db.rows) && rows <= db.rows && At(rows, address, cursor, token)
    requires cursor.None? ==> rows == db.rows
    ensures Listing(db.rows, address, cursor) == Listing(rows, address, cursor)
  {
    if cursor.Some? {
      KnownPosition(rows, db, cursor.value);
      ListingIgnoresNewer(rows, db.rows[|rows|..], address, cursor.value);
      assert rows + db.rows[|rows|..] == db.rows;
    }
  }

  lemma PageShape(rows: seq<Row>, q: Query)
    requires q.size > 0
    ensures var left := Listing(rows, q.address, q.cursor);
      PageOf(rows, q) == if |left| <= q.size then Page(left, "")
                         else Page(left[..q.size], EncodeToken(q.address, Position(left[q.size - 1])))
  {
    var left := Listing(rows, q.address, q.cursor);
    if |left| > q.size {
      assert left[..q.size + 1][..q.size] == left[..q.size];
    }
  }

  lemma PageContinues(rows: seq<Row>, db: Db, address: Address, cursor: Option<Cursor>, size: nat)
    requires |address| == ADDRESS_LENGTH && size > 0
    requires Servable(db) && Ascending(rows) && Ascending(db.rows) && rows <= db.rows
    requires Listing(db.rows, address, cursor) == Listing(rows, address, cursor)
    ensures Continues(PageOf(db.rows, Query(address, size, cursor)), rows, address, cursor)
  {
    var left := Listing(rows, address, cursor);
    PageShape(db.rows, Query(address, size, cursor));
    if |left| > size {
      var c := Position(left[size - 1]);
      assert left[size..] == Listing(rows, address, Some(c)) by { ListingSplits(rows, address, cursor, size); }
      assert left[size - 1] in rows by { ListingMembers(rows, address, cursor); }
      assert EncodeToken(address, c) != "" by {
        KnownPosition(rows, db, c);
        TokenRoundTrip(address, c);
      }
    }
  }

  /** The page that answers a request is the next piece of the listing of `rows`, however many rows
      have been stored since. */
  lemma NextPage(rows: seq<Row>, visit: Visit, address: Address, cursor: Option<Cursor>, token: string)
    requires |address| == ADDRESS_LENGTH && 0 <= visit.size <= MAX_PAGE_SIZE
    requires Servable(visit.db) && Ascending(visit.db.rows) && rows <= visit.db.rows && At(rows, address, cursor, token)
    requires cursor.None? ==> rows == visit.db.rows
    ensures var r := List(visit.db, Request(Some(address), visit.size, token, None));
      r.Ok? && Continues(r.value, rows, address, cursor)
  {
    assert Ascending(rows) by {
      assert forall k :: 0 <= k < |rows| ==> rows[k] == visit.db.rows[k];
    }
    NormalizeAt(rows, visit.db, visit.size, address, cursor, token);
    SameLeft(rows, visit.db, address, cursor, token);
    PageContinues(rows, visit.db, address, cursor, Effective(visit.size));
  }

  /** A position taken from `rows` fits the token, and later rows are not before it. */
  lemma KnownPosition(rows: seq<Row>, db: Db, c: Cursor)
    requires Servable(db) && Ascending(db.rows) && rows <= db.rows && exists row :: row in rows && Position(row) == c
    ensures Int64Position(c) && Fits64(c)
    ensures forall row :: row in db.rows[|rows|..] ==> !Before(row.number, row.index, c.number, c.index)
  {
    var row :| row in rows && Position(row) == c;
    var i :| 0 <= i < |rows| && rows[i] == row;
    assert db.rows[i] == row;
    assert MAX_INT64 < Power256(8);
    forall later | later in db.rows[|rows|..] ensures !Before(later.number, later.index, c.number, c.index) {
      var j :| |rows| <= j < |db.rows| && db.rows[j] == later;
      assert Before(db.rows[i].number, db.rows[i].index, db.rows[j].number, db.rows[j].index);
    }
  }

  /** What a walk has collected against the listing it started on. */
  ghost predicate Covers(p: Progress, left: seq<Row>, requests: nat) {
    match p
    case Finished(items) => items == left
    case Unfinished(items, _) => items <= left && |items| >= requests
    case Rejected => false
  }

  lemma GrowingTail(rows: seq<Row>, visits: seq<Visit>)
    requires Growing(rows, visits) && visits != []
    ensures Growing(rows, visits[1..])
  {
    var rest := visits[1..];
    assert forall k :: 0 <= k < |rest| ==> rest[k] == visits[k + 1];
  }

  lemma {:induction false} WalkCovers(rows: seq<Row>, visits: seq<Visit>, address: Address,
          cursor: Option<Cursor>, token: string)
    requires |address| == ADDRESS_LENGTH && Growing(rows, visits) && At(rows, address, cursor, token)
    requires cursor.None? && visits != [] ==> rows == visits[0].db.rows
    ensures Covers(Walk(address, visits, token), Listing(rows, address, cursor), |visits|)
    decreases |visits|
  {
    if visits != [] {
      NextPage(rows, visits[0], address, cursor, token);
      var page := List(visits[0].db, Request(Some(address), visits[0].size, token, None)).value;
      if page.next != "" {
        var left, k := Listing(rows, address, cursor), |page.items|;
        var c := Position(left[k - 1]);
        GrowingTail(rows, visits);
        WalkCovers(rows, visits[1..], address, Some(c), page.next);
        CoversMore(Walk(address, visits[1..], page.next), left, k, |visits| - 1);
      }
    }
  }

  lemma CoversMore(p: Progress, left: seq<Row>, k: nat, requests: nat)
    requires 0 < k <= |left| && Covers(p, left[k..], requests)
    ensures p.Finished? ==> left[..k] + p.items == left
    ensures p.Unfinished? ==> left[..k] + p.items <= left && |left[..k] + p.items| >= requests + 1
  {
  }

  /** Following the tokens with any page sizes, while new blocks are committed between requests, never
      fails, ends after at most one request more than there are items, and returns exactly the
      address's transactions stored at the first request, newest first and each once. */
  lemma WalkIsComplete(visits: seq<Visit>, address: Address)
    requires |address| == ADDRESS_LENGTH && visits != [] && Growing(visits[0].db.rows, visits)
    ensures var p, stored := Walk(address, visits, ""), Listing(visits[0].db.rows, address, None);
      && !p.Rejected?
      && (p.Finished? ==> p.items == stored)
      && (p.Unfinished? ==> p.items <= stored)
      && (|visits| > |stored| ==> p.Finished?)
  {
    WalkCovers(visits[0].db.rows, visits, address, None, "");
  }

  /** A listing holds exactly the address's rows, in strictly descending position. */
  lemma {:induction false} ListingIsDescending(rows: seq<Row>, address: Address)
    requires Ascending(rows)
    ensures var all := Listing(rows, address, None);
      && (forall row :: row in all <==> row in rows && row.to == address)
      && (forall i, j :: 0 <= i < j < |all| ==> Before(all[j].number, all[j].index, all[i].number, all[i].index))
  {
    ListingMembers(rows, address, None);
    var all := Listing(rows, address, None);
    forall i, j | 0 <= i < j < |all| ensures Before(all[j].number, all[j].index, all[i].number, all[i].index) {
      ListingSplits(rows, address, None, i + 1);
      ListingMembers(rows, address, Some(Position(all[i])));
      var tail := all[i + 1..];
      assert tail[j - i - 1] == all[j] && all[j] in tail;
    }
  }

  /** `row` describes a transaction to `address` in a block that the scanners accepted. */
  ghost predicate SentTo(batches: seq<InboundRuns.Accepted>, row: Row, address: Address, k: int, block: Block,
          index: nat)
  {
    && 0 <= k < |batches| && block in batches[k].blocks && Reports(row, batches[k].node, block, index)
    && block.txs[index].to == Some(address)
  }

  /** Whatever an address lists was sent to it in an accepted block. */
  lemma ListedWereSent(events: seq<InboundRuns.Event>, address: Address, row: Row)
    requires row in Listing(InboundRuns.Run(events).db.rows, address, None)
    ensures exists k, block, index :: SentTo(InboundRuns.Run(events).batches, row, address, k, block, index)
  {
    var s := InboundRuns.Run(events);
    ListingMembers(s.db.rows, address, None);
    InboundRuns.StoredRows(events);
    InboundRuns.CollectedAreQualifying(events, row);
    var k :| 0 <= k < |s.batches| && InboundRuns.QualifiedIn(s.batches[k], row);
    var block, index: nat :| block in s.batches[k].blocks && Reports(row, s.batches[k].node, block, index);
    assert SentTo(s.batches, row, address, k, block, index);
  }

  /** And as long as no transaction hash was collected twice, it lists everything that was. */
  lemma SentAreListed(events: seq<InboundRuns.Event>, address: Address, row: Row, k: nat, block: Block, index: nat)
    requires InboundRuns.DistinctHashes(InboundRuns.Rows(InboundRuns.Run(events).batches))
    requires SentTo(InboundRuns.Run(events).batches, row, address, k, block, index)
    ensures row in Listing(InboundRuns.Run(events).db.rows, address, None)
  {
    var s := InboundRuns.Run(events);
    assert InboundRuns.QualifiedIn(s.batches[k], row);
    InboundRuns.CollectedAreQualifying(events, row);
    InboundRuns.StoredRows(events);
    ListingMembers(s.db.rows, address, None);
  }

  /** The databases of one run of the scanners, at growing moments, are such visits. */
  lemma RunsAreGrowing(events: seq<InboundRuns.Event>, moments: seq<nat>, sizes: seq<int>)
    requires |moments| == |sizes| && (forall k :: 0 <= k < |sizes| ==> 0 <= sizes[k] <= MAX_PAGE_SIZE)
    requires forall k :: 0 <= k < |moments| ==>
      moments[k] <= |events| && InboundRuns.Run(events[..moments[k]]).db.checkpoint.Some?
    requires forall i, j :: 0 <= i <= j < |moments| ==> moments[i] <= moments[j]
    requires moments != []
    ensures var visits :=
      seq(|moments|, k requires 0 <= k < |moments| => Visit(InboundRuns.Run(events[..moments[k]]).db, sizes[k]));
      Growing(visits[0].db.rows, visits)
  {
    var visits :=
      seq(|moments|, k requires 0 <= k < |moments| => Visit(InboundRuns.Run(events[..moments[k]]).db, sizes[k]));
    forall k | 0 <= k < |visits| ensures Ascending(visits[k].db.rows) && Servable(visits[k].db) {
      InboundRuns.StoredRows(events[..moments[k]]);
      InboundRuns.RowsRun(events[..moments[k]]);
      InboundRuns.StoredAreStorable(InboundRuns.Rows(InboundRuns.Run(events[..moments[k]]).batches));
    }
    forall i, j | 0 <= i <= j < |visits| ensures visits[i].db.rows <= visits[j].db.rows {
      var early, late := events[..moments[i]], events[..moments[j]];
      InboundRuns.NeverRetreats(early, late[moments[i]..]);
      assert early + late[moments[i]..] == late;
    }
  }
}
