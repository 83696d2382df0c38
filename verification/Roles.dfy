/** Cursor pagination over roles, `routes/roles.ts`. Ids are numbered in the database's order, and
    `rows` are the roles the query's filter matches, in that order. */
module Roles {
  import opened Wrappers

  datatype Role = Role(id: nat, name: string)

  datatype Auth = Auth(roles: set<string>, permissions: set<string>)

  datatype Response = BadRequest | Forbidden | Page(items: seq<Role>, next: Option<nat>)

  predicate Sorted(rows: seq<Role>) {
    forall i, j :: 0 <= i < j < |rows| ==> rows[i].id < rows[j].id
  }

  predicate Beyond(r: Role, cursor: Option<nat>) {
    cursor.None? || cursor.value < r.id
  }

  /** `where.id = { gt: cursor }`, among the first `n` rows. */
  function After(rows: seq<Role>, cursor: Option<nat>, n: nat): seq<Role>
    requires n <= |rows|
  {
    if n == 0 then []
    else After(rows, cursor, n - 1) + (if Beyond(rows[n - 1], cursor) then [rows[n - 1]] else [])
  }

  function Take(rows: seq<Role>, n: nat): seq<Role> {
    if |rows| <= n then rows else rows[..n]
  }

  /** One page: of `limit + 1` fetched rows the first `limit` are shown, and `next` is the id of the
      first row that is not. */
  function PageOf(rows: seq<Role>, cursor: Option<nat>, limit: nat): (page: Response)
    ensures page.Page?
  {
    var list := Take(After(rows, cursor, |rows|), limit + 1);
    Page(Take(list, limit), if |list| > limit then Some(list[limit].id) else None)
  }

  /** `listRoles`, for a limit that is a number. */
  function ListRoles(rows: seq<Role>, auth: Auth, cursor: Option<nat>, limit: int): Response {
    if !(1 <= limit <= 100) then BadRequest
    else if "admin" in auth.roles || "iam:roles:read" in auth.permissions then PageOf(rows, cursor, limit)
    else Forbidden
  }

  /** What a client sees of the listing: a page for each cursor. */
  type Server = Option<nat> -> Response

  function Listing(rows: seq<Role>, limit: nat): Server {
    cursor => PageOf(rows, cursor, limit)
  }

  /** What a client collected, and whether it came to the end. */
  datatype Walked = Walked(rows: seq<Role>, ended: bool)

  function Behind(page: seq<Role>, rest: Walked): Walked {
    Walked(page + rest.rows, rest.ended)
  }

  /** A client that follows `next` for at most `pages` pages. */
  function Walk(server: Server, cursor: Option<nat>, pages: nat): Walked
    decreases pages
  {
    if pages == 0 || !server(cursor).Page? then Walked([], false)
    else
      var page := server(cursor);
      if page.next.None? then Walked(page.items, true)
      else Behind(page.items, Walk(server, page.next, pages - 1))
  }

  /** The same client with the id of the last row shown as its cursor. */
  function WalkFromLastShown(server: Server, cursor: Option<nat>, pages: nat): Walked
    decreases pages
  {
    if pages == 0 || !server(cursor).Page? then Walked([], false)
    else
      var page := server(cursor);
      if page.next.None? || page.items == [] then Walked(page.items, true)
      else Behind(page.items, WalkFromLastShown(server, Some(page.items[|page.items| - 1].id), pages - 1))
  }

  /** Of the first `n` rows, those whose index, modulo one more than the limit, is not the limit. */
  function Kept(rows: seq<Role>, limit: nat, n: nat): seq<Role>
    requires n <= |rows|
  {
    if n == 0 then []
    else Kept(rows, limit, n - 1) + (if (n - 1) % (limit + 1) == limit then [] else [rows[n - 1]])
  }

  // ----- Cursors -----------------------------------------------------------------------------------

  lemma {:induction false} AfterNone(rows: seq<Role>, n: nat)
    requires n <= |rows|
    ensures After(rows, None, n) == rows[..n]
  {
    if n == 0 {
    } else {
      AfterNone(rows, n - 1);
    }
  }

  lemma {:induction false} AfterNothing(rows: seq<Role>, i: nat, n: nat)
    requires Sorted(rows) && n <= i + 1 && i < |rows|
    ensures After(rows, Some(rows[i].id), n) == []
    decreases n
  {
    if n == 0 {
    } else {
      AfterNothing(rows, i, n - 1);
      assert n - 1 < i ==> rows[n - 1].id < rows[i].id;
    }
  }

  /** In an ordered table, the rows beyond the id of row `i` are those behind it. */
  lemma {:induction false} AfterRow(rows: seq<Role>, i: nat, n: nat)
    requires Sorted(rows) && i < n <= |rows|
    ensures After(rows, Some(rows[i].id), n) == rows[i + 1..n]
    decreases n
  {
    if n == i + 1 {
      AfterNothing(rows, i, n);
    } else {
      AfterRow(rows, i, n - 1);
      assert rows[i].id < rows[n - 1].id;
      assert rows[i + 1..n] == rows[i + 1..n - 1] + [rows[n - 1]];
    }
  }

  /** The cursor stands before row `k`. */
  predicate StandsAt(rows: seq<Role>, cursor: Option<nat>, k: nat) {
    k <= |rows| && After(rows, cursor, |rows|) == rows[k..]
  }

  /** The page that shows rows `k` and following. */
  function PageFrom(rows: seq<Role>, k: nat, limit: nat): Response
    requires k <= |rows|
  {
    if |rows| - k <= limit then Page(rows[k..], None) else Page(rows[k..k + limit], Some(rows[k + limit].id))
  }

  predicate IsRow(rows: seq<Role>, i: int) {
    0 <= i < |rows|
  }

  /** Without a cursor this server starts with row 0; with the id of a row, behind that row. */
  ghost predicate Serves(server: Server, rows: seq<Role>, limit: nat) {
    && server(None) == PageFrom(rows, 0, limit)
    && forall i {:trigger IsRow(rows, i)} :: IsRow(rows, i) ==> server(Some(rows[i].id)) == PageFrom(rows, i + 1, limit)
  }

  lemma PageAt(rows: seq<Role>, cursor: Option<nat>, k: nat, limit: nat)
    requires StandsAt(rows, cursor, k)
    ensures PageOf(rows, cursor, limit) == PageFrom(rows, k, limit)
  {
    if |rows| - k > limit {
      assert rows[k..][..limit + 1][..limit] == rows[k..k + limit];
      assert rows[k..][..limit + 1][limit] == rows[k + limit];
    }
  }

  /** In an ordered table the id of row `i`, used as a cursor, stands before the next row. */
  lemma CursorStands(rows: seq<Role>, i: nat)
    requires Sorted(rows) && i < |rows|
    ensures StandsAt(rows, Some(rows[i].id), i + 1)
  {
    AfterRow(rows, i, |rows|);
  }

  lemma NoCursorStands(rows: seq<Role>)
    ensures StandsAt(rows, None, 0)
  {
    AfterNone(rows, |rows|);
    assert rows[0..] == rows[..|rows|];
  }

  /** Rows up to `k` are not beyond the cursor, and those from there on are. */
  predicate SplitsAt(rows: seq<Role>, cursor: Option<nat>, k: nat) {
    && k <= |rows| && (cursor.None? ==> k == 0)
    && (cursor.Some? ==> forall i :: 0 <= i < |rows| ==> (k <= i <==> cursor.value < rows[i].id))
  }

  lemma {:induction false} SplitStands(rows: seq<Role>, cursor: Option<nat>, k: nat, n: nat)
    requires SplitsAt(rows, cursor, k) && n <= |rows|
    ensures After(rows, cursor, n) == if n <= k then [] else rows[k..n]
    decreases n
  {
    if n == 0 {
    } else {
      SplitStands(rows, cursor, k, n - 1);
      assert n > k ==> rows[k..n] == (if n - 1 <= k then [] else rows[k..n - 1]) + [rows[n - 1]];
    }
  }

  /** One request, with whatever cursor: an invalid limit and a missing permission are told apart, and a
      page shows the rows beyond the cursor up to the limit, with the first one not shown as `next`. */
  lemma ListRolesIs(rows: seq<Role>, auth: Auth, cursor: Option<nat>, limit: int, k: nat)
    requires SplitsAt(rows, cursor, k)
    ensures var page := ListRoles(rows, auth, cursor, limit);
            && (page == BadRequest <==> limit < 1 || 100 < limit)
            && (page == Forbidden <==>
                  1 <= limit <= 100 && "admin" !in auth.roles && "iam:roles:read" !in auth.permissions)
            && (page.Page? && |rows| <= k + limit ==> page == Page(rows[k..], None))
            && (page.Page? && k + limit < |rows| ==> page == Page(rows[k..k + limit], Some(rows[k + limit].id)))
  {
    SplitStands(rows, cursor, k, |rows|);
    assert rows[k..|rows|] == rows[k..];
    if 1 <= limit {
      PageAt(rows, cursor, k, limit);
    }
  }

  lemma ListingServes(rows: seq<Role>, limit: nat)
    requires Sorted(rows)
    ensures Serves(Listing(rows, limit), rows, limit)
  {
    NoCursorStands(rows);
    PageAt(rows, None, 0, limit);
    forall i | IsRow(rows, i) ensures Listing(rows, limit)(Some(rows[i].id)) == PageFrom(rows, i + 1, limit) {
      CursorStands(rows, i);
      PageAt(rows, Some(rows[i].id), i + 1, limit);
    }
  }

  // ----- What the walk returns ---------------------------------------------------------------------

  lemma Quotient(x: nat, q: nat, r: nat, m: nat)
    requires m > 0 && r < m && x == q * m + r
    ensures x % m == r
  {
    assert x == x / m * m + x % m;
    if x / m < q {
      Scale(q - x / m, m);
    }
    if x / m > q {
      Scale(x / m - q, m);
    }
  }

  lemma Scale(k: nat, m: nat)
    requires k >= 1
    ensures k * m >= m
  {}

  lemma Offset(k: nat, m: nat, j: nat)
    requires m > 0 && k % m == 0 && j <= m
    ensures (k + j) % m == if j < m then j else 0
  {
    var q := k / m;
    assert k == q * m;
    if j < m {
      Quotient(k + j, q, j, m);
    } else {
      assert k + j == (q + 1) * m;
      Quotient(k + j, q + 1, 0, m);
    }
  }

  /** Within one page everything is kept. */
  lemma {:induction false} KeptPage(rows: seq<Role>, k: nat, j: nat, limit: nat)
    requires k % (limit + 1) == 0 && j <= limit && k + j <= |rows|
    ensures Kept(rows, limit, k + j) == Kept(rows, limit, k) + rows[k..k + j]
    decreases j
  {
    if j == 0 {
    } else {
      KeptPage(rows, k, j - 1, limit);
      Offset(k, limit + 1, j - 1);
      assert rows[k..k + j] == rows[k..k + j - 1] + [rows[k + j - 1]];
    }
  }

  /** The row between two pages is not. */
  lemma KeptBoundary(rows: seq<Role>, k: nat, limit: nat)
    requires k % (limit + 1) == 0 && k + limit + 1 <= |rows|
    ensures (k + limit + 1) % (limit + 1) == 0
    ensures Kept(rows, limit, k + limit + 1) == Kept(rows, limit, k) + rows[k..k + limit]
  {
    KeptPage(rows, k, limit, limit);
    Offset(k, limit + 1, limit);
    Offset(k, limit + 1, limit + 1);
  }

  lemma WalkPage(server: Server, rows: seq<Role>, cursor: Option<nat>, k: nat, limit: nat, pages: nat)
    requires k + limit < |rows| && server(cursor) == PageFrom(rows, k, limit) && pages > 0
    requires Walk(server, Some(rows[k + limit].id), pages - 1) == Walked(PagesFrom(rows, k + limit + 1, limit), true)
    ensures Walk(server, cursor, pages) == Walked(PagesFrom(rows, k, limit), true)
  {}

  lemma WalkEnd(server: Server, rows: seq<Role>, cursor: Option<nat>, k: nat, limit: nat, pages: nat)
    requires k <= |rows| <= k + limit && server(cursor) == PageFrom(rows, k, limit) && pages > 0
    ensures Walk(server, cursor, pages) == Walked(rows[k..], true) == WalkFromLastShown(server, cursor, pages)
  {}

  /** All pages from row `k` on, by row numbers. */
  function PagesFrom(rows: seq<Role>, k: nat, limit: nat): seq<Role>
    requires k <= |rows|
    decreases |rows| - k
  {
    if |rows| - k <= limit then rows[k..] else rows[k..k + limit] + PagesFrom(rows, k + limit + 1, limit)
  }

  lemma {:induction false} WalkIsPages(server: Server, rows: seq<Role>, cursor: Option<nat>, k: nat, limit: nat,
                                       pages: nat)
    requires Serves(server, rows, limit) && k <= |rows| && server(cursor) == PageFrom(rows, k, limit)
    requires |rows| - k < pages
    ensures Walk(server, cursor, pages) == Walked(PagesFrom(rows, k, limit), true)
    decreases pages
  {
    if |rows| - k <= limit {
      WalkEnd(server, rows, cursor, k, limit, pages);
    } else {
      assert IsRow(rows, k + limit);
      WalkIsPages(server, rows, Some(rows[k + limit].id), k + limit + 1, limit, pages - 1);
      WalkPage(server, rows, cursor, k, limit, pages);
    }
  }

  lemma Regroup(kept: seq<Role>, page: seq<Role>, rest: seq<Role>)
    ensures (kept + page) + rest == kept + (page + rest)
  {}

  /** From a page boundary on, the pages hold what is kept behind it. */
  lemma {:induction false} PagesKeep(rows: seq<Role>, k: nat, limit: nat)
    requires k <= |rows| && k % (limit + 1) == 0
    ensures Kept(rows, limit, k) + PagesFrom(rows, k, limit) == Kept(rows, limit, |rows|)
    decreases |rows| - k
  {
    if |rows| - k <= limit {
      KeptPage(rows, k, |rows| - k, limit);
      assert rows[k..|rows|] == rows[k..];
    } else {
      KeptBoundary(rows, k, limit);
      PagesKeep(rows, k + limit + 1, limit);
      Regroup(Kept(rows, limit, k), rows[k..k + limit], PagesFrom(rows, k + limit + 1, limit));
    }
  }

  lemma AllPages(rows: seq<Role>, limit: nat)
    ensures PagesFrom(rows, 0, limit) == Kept(rows, limit, |rows|)
  {
    PagesKeep(rows, 0, limit);
    assert [] + PagesFrom(rows, 0, limit) == PagesFrom(rows, 0, limit);
  }

  /** Following `next` until it is null ends, and returns, in order and once each, exactly the rows whose
      index modulo `limit + 1` is not `limit`: one row per page boundary is skipped. */
  lemma WalkReturnsKept(rows: seq<Role>, limit: nat)
    requires Sorted(rows)
    ensures Walk(Listing(rows, limit), None, |rows| + 1) == Walked(Kept(rows, limit, |rows|), true)
  {
    ListingServes(rows, limit);
    WalkIsPages(Listing(rows, limit), rows, None, 0, limit, |rows| + 1);
    AllPages(rows, limit);
  }

  lemma {:induction false} KeptLength(rows: seq<Role>, limit: nat, n: nat)
    requires n <= |rows|
    ensures |Kept(rows, limit, n)| <= n
    ensures n <= limit ==> Kept(rows, limit, n) == rows[..n]
    ensures n > limit ==> |Kept(rows, limit, n)| < n
    decreases n
  {
    if n == 0 {
    } else {
      KeptLength(rows, limit, n - 1);
      if n - 1 <= limit {
        Offset(0, limit + 1, n - 1);
      }
    }
  }

  predicate Permitted(auth: Auth, limit: int) {
    1 <= limit <= 100 && ("admin" in auth.roles || "iam:roles:read" in auth.permissions)
  }

  /** The listing as this client sees it. */
  function RoleServer(rows: seq<Role>, auth: Auth, limit: int): Server {
    cursor => ListRoles(rows, auth, cursor, limit)
  }

  lemma PermittedServes(rows: seq<Role>, auth: Auth, limit: nat)
    requires Sorted(rows) && Permitted(auth, limit)
    ensures Serves(RoleServer(rows, auth, limit), rows, limit)
  {
    ListingServes(rows, limit);
    forall cursor ensures RoleServer(rows, auth, limit)(cursor) == Listing(rows, limit)(cursor) {}
  }

  /** What a client with a permission and a valid limit can see by following `next`; others see nothing. */
  lemma VisibleRoles(rows: seq<Role>, auth: Auth, limit: nat)
    requires Sorted(rows)
    ensures Walk(RoleServer(rows, auth, limit), None, |rows| + 1) ==
            if 1 <= limit <= 100 && ("admin" in auth.roles || "iam:roles:read" in auth.permissions)
            then Walked(Kept(rows, limit, |rows|), true) else Walked([], false)
  {
    if Permitted(auth, limit) {
      PermittedServes(rows, auth, limit);
      WalkIsPages(RoleServer(rows, auth, limit), rows, None, 0, limit, |rows| + 1);
      AllPages(rows, limit);
    } else {
      assert !RoleServer(rows, auth, limit)(None).Page?;
    }
  }

  /** So the walk returns every row exactly when they all fit on the first page. */
  lemma WalkIsCompleteIff(rows: seq<Role>, limit: nat)
    requires Sorted(rows)
    ensures Walk(Listing(rows, limit), None, |rows| + 1).rows == rows <==> |rows| <= limit
  {
    WalkReturnsKept(rows, limit);
    KeptLength(rows, limit, |rows|);
    assert rows[..|rows|] == rows;
  }

  lemma LastShownPage(server: Server, rows: seq<Role>, cursor: Option<nat>, k: nat, limit: nat, pages: nat)
    requires k + limit < |rows| && server(cursor) == PageFrom(rows, k, limit) && pages > 0 && limit > 0
    requires WalkFromLastShown(server, Some(rows[k + limit - 1].id), pages - 1) == Walked(rows[k + limit..], true)
    ensures WalkFromLastShown(server, cursor, pages) == Walked(rows[k..], true)
  {
    var page := rows[k..k + limit];
    assert page[limit - 1] == rows[k + limit - 1];
    assert page + rows[k + limit..] == rows[k..];
  }

  lemma {:induction false} LastShownFrom(server: Server, rows: seq<Role>, cursor: Option<nat>, k: nat, limit: nat,
                                         pages: nat)
    requires Serves(server, rows, limit) && limit >= 1 && k <= |rows| && server(cursor) == PageFrom(rows, k, limit)
    requires |rows| - k < pages
    ensures WalkFromLastShown(server, cursor, pages) == Walked(rows[k..], true)
    decreases pages
  {
    if k + limit < |rows| {
      assert IsRow(rows, k + limit - 1);
      LastShownFrom(server, rows, Some(rows[k + limit - 1].id), k + limit, limit, pages - 1);
      LastShownPage(server, rows, cursor, k, limit, pages);
    } else {
      WalkEnd(server, rows, cursor, k, limit, pages);
    }
  }

  /** With the last row shown as the cursor the same walk returns every row. */
  lemma LastShownIsComplete(rows: seq<Role>, limit: nat)
    requires Sorted(rows) && limit >= 1
    ensures WalkFromLastShown(Listing(rows, limit), None, |rows| + 1) == Walked(rows, true)
  {
    ListingServes(rows, limit);
    LastShownFrom(Listing(rows, limit), rows, None, 0, limit, |rows| + 1);
    assert rows[0..] == rows;
  }
}
