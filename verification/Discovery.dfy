// Pages of the network's repositories, newest first.
module Discovery {
  import opened Options
  import opened DiscoveryCursor
  import FederationLocks

  datatype Error = InvalidLimit | InvalidCursor

  const DEFAULT_LIMIT := 30
  const MAX_LIMIT := 100

  // The order of the listing.
  predicate Precedes(a: Repository, b: Repository) {
    a.indexedAt > b.indexedAt || (a.indexedAt == b.indexedAt && FederationLocks.Less(b.uri, a.uri))
  }

  ghost predicate Ordered(all: seq<Repository>) { forall i, j | 0 <= i < j < |all| :: Precedes(all[i], all[j]) }

  // WHERE (indexed_at, uri) < cursor, in order.
  function After(all: seq<Repository>, cursor: Option<Repository>): seq<Repository> {
    if all == [] then []
    else (if cursor.None? || Precedes(cursor.value, all[0]) then [all[0]] else []) + After(all[1..], cursor)
  }

  function Take<T>(s: seq<T>, n: nat): seq<T> { if |s| <= n then s else s[..n] }

  datatype Page = Page(repositories: seq<Repository>, next: Option<string>)

  // How cursors are written and read.
  datatype Codec = Codec(encode: Repository -> Option<string>, decode: string -> Option<Repository>)

  // The page that starts the rest of the listing.
  function PageOf(c: Codec, rest: seq<Repository>, n: nat): Result<Page, Error>
    requires n > 0
  {
    var found := Take(rest, n + 1);
    if |found| <= n then Ok(Page(found, None))
    else match c.encode(found[n - 1])
      case None => Err(InvalidCursor)
      case Some(next) => Ok(Page(found[..n], Some(next)))
  }

  function Limit(limit: int): int { if limit == 0 then DEFAULT_LIMIT else limit }

  function List(c: Codec, all: seq<Repository>, limit: int, encoded: string): Result<Page, Error> {
    var n := Limit(limit);
    if n < 1 || n > MAX_LIMIT then Err(InvalidLimit)
    else
      var cursor := if encoded == "" then None else c.decode(encoded);
      if encoded != "" && cursor.None? then Err(InvalidCursor) else PageOf(c, After(all, cursor), n)
  }

  // All pages, each from the cursor of the one before it.
  function Walk(c: Codec, all: seq<Repository>, limit: int, encoded: string, pages: nat): seq<Repository>
    decreases pages
  {
    if pages == 0 then []
    else match List(c, all, limit, encoded)
      case Err(_) => []
      case Ok(page) => page.repositories + (if page.next.Some? then Walk(c, all, limit, page.next.value, pages - 1) else [])
  }

  // --- Following the cursors -----------------------------------------------------------

  lemma PrecedesIsStrict(a: Repository, b: Repository)
    requires Precedes(a, b)
    ensures !Precedes(b, a) && a != b
  {
    FederationLocks.LessIsIrreflexive(a.uri);
    if FederationLocks.Less(b.uri, a.uri) && FederationLocks.Less(a.uri, b.uri) {
      FederationLocks.LessIsTransitive(a.uri, b.uri, a.uri);
    }
  }

  lemma {:induction false} AfterNothing(all: seq<Repository>)
    ensures After(all, None) == all
  {
    if all != [] {
      AfterNothing(all[1..]);
      assert all == [all[0]] + all[1..];
    }
  }

  lemma {:induction false} AfterAll(all: seq<Repository>, r: Repository)
    requires forall i | 0 <= i < |all| :: Precedes(r, all[i])
    ensures After(all, Some(r)) == all
  {
    if all != [] {
      AfterAll(all[1..], r);
      assert all == [all[0]] + all[1..];
    }
  }

  // What follows the k-th repository of the listing.
  lemma {:induction false} AfterMember(all: seq<Repository>, k: nat)
    requires Ordered(all) && k < |all|
    ensures After(all, Some(all[k])) == all[k + 1..]
  {
    if k == 0 {
      FederationLocks.LessIsIrreflexive(all[0].uri);
      AfterAll(all[1..], all[0]);
    } else {
      PrecedesIsStrict(all[0], all[k]);
      AfterMember(all[1..], k - 1);
      assert all[1..][k - 1] == all[k] && all[1..][k..] == all[k + 1..];
    }
  }

  // Every repository's cursor can be written and reads back.
  ghost predicate Invertible(c: Codec, all: seq<Repository>) {
    forall r | r in all :: c.encode(r).Some? && c.encode(r).value != "" && c.decode(c.encode(r).value) == Some(r)
  }

  // The cursor that stands before the k-th repository.
  ghost predicate StandsAt(c: Codec, all: seq<Repository>, encoded: string, k: nat) {
    k <= |all| && if k == 0 then encoded == "" else encoded != "" && c.encode(all[k - 1]) == Some(encoded)
  }

  lemma RestAt(c: Codec, all: seq<Repository>, encoded: string, k: nat)
    requires Invertible(c, all) && Ordered(all) && StandsAt(c, all, encoded, k)
    ensures encoded == "" || c.decode(encoded).Some?
    ensures After(all, if encoded == "" then None else c.decode(encoded)) == all[k..]
  {
    if k == 0 {
      AfterNothing(all);
      assert all[0..] == all;
    } else {
      assert all[k - 1] in all;
      AfterMember(all, k - 1);
    }
  }

  // The page holds the listing from `k` to `m`, and its cursor stands there.
  ghost predicate Reaches(c: Codec, all: seq<Repository>, page: Result<Page, Error>, k: nat, m: nat) {
    && page.Ok? && k <= m <= |all| && page.value.repositories == all[k..m]
    && (page.value.next.Some? ==> k < m && StandsAt(c, all, page.value.next.value, m))
    && (page.value.next.None? ==> m == |all|)
  }

  lemma PageReaches(c: Codec, all: seq<Repository>, k: nat, n: nat) returns (m: nat)
    requires Invertible(c, all) && k <= |all| && n > 0
    ensures Reaches(c, all, PageOf(c, all[k..], n), k, m)
  {
    var rest := all[k..];
    if k + n < |all| {
      m := k + n;
      assert all[m - 1] in all;
      assert Take(rest, n + 1)[n - 1] == all[m - 1];
      assert Take(rest, n + 1)[..n] == all[k..m];
    } else {
      m := |all|;
    }
  }

  lemma NextPage(c: Codec, all: seq<Repository>, limit: int, encoded: string, k: nat) returns (m: nat)
    requires Invertible(c, all) && Ordered(all) && 1 <= Limit(limit) <= MAX_LIMIT && StandsAt(c, all, encoded, k)
    ensures Reaches(c, all, List(c, all, limit, encoded), k, m)
  {
    RestAt(c, all, encoded, k);
    m := PageReaches(c, all, k, Limit(limit));
  }

  lemma {:induction false} WalkFrom(c: Codec, all: seq<Repository>, limit: int, encoded: string, k: nat, pages: nat)
    requires Invertible(c, all) && Ordered(all) && 1 <= Limit(limit) <= MAX_LIMIT
    requires StandsAt(c, all, encoded, k) && pages > |all| - k
    ensures Walk(c, all, limit, encoded, pages) == all[k..]
    decreases pages
  {
    var m := NextPage(c, all, limit, encoded, k);
    var page := List(c, all, limit, encoded).value;
    if page.next.Some? {
      WalkFrom(c, all, limit, page.next.value, m, pages - 1);
    }
    WalkJoins(c, all, limit, encoded, k, m, pages);
  }

  lemma WalkJoins(c: Codec, all: seq<Repository>, limit: int, encoded: string, k: nat, m: nat, pages: nat)
    requires pages > 0 && Reaches(c, all, List(c, all, limit, encoded), k, m)
    requires
      var next := List(c, all, limit, encoded).value.next;
      next.Some? ==> Walk(c, all, limit, next.value, pages - 1) == all[m..]
    ensures Walk(c, all, limit, encoded, pages) == all[k..]
  {
    RestSplits(all, k, m);
  }

  lemma RestSplits(all: seq<Repository>, k: nat, m: nat)
    requires k <= m <= |all|
    ensures all[k..] == all[k..m] + all[m..] && all[|all|..] == []
  {
  }

  // A page with a next cursor is full, a last one is no longer; limits are from 1
  // to 100, and 30 if none is given.
  lemma PageSize(c: Codec, all: seq<Repository>, limit: int, encoded: string)
    ensures List(c, all, limit, encoded) == Err(InvalidLimit) <==> limit < 0 || limit > 100
    ensures
      var page := List(c, all, limit, encoded);
      page.Ok? ==>
        && (page.value.next.Some? ==> |page.value.repositories| == if limit == 0 then 30 else limit)
        && |page.value.repositories| <= if limit == 0 then 30 else limit
  {
  }

  // The listing is newest first.
  lemma NewestFirst(all: seq<Repository>, i: nat, j: nat)
    requires Ordered(all) && i < j < |all|
    ensures all[i].indexedAt >= all[j].indexedAt && (all[i].indexedAt == all[j].indexedAt ==> FederationLocks.Less(all[j].uri, all[i].uri))
  {
    assert Precedes(all[i], all[j]);
  }

  // --- The listing as it is served -------------------------------------------------------

  function CursorCodec(f: Formats): Codec { Codec(r => EncodeCursor(f, r), s => DecodeCursor(f, s)) }

  // For any limit, following the cursors to the end lists every repository once
  // and in order, as long as no cursor is too long.
  lemma WalkIsExact(f: Formats, all: seq<Repository>, limit: int)
    requires Faithful(f) && Ordered(all) && 1 <= Limit(limit) <= MAX_LIMIT
    requires forall r | r in all :: f.canonical(r.uri) && EncodeCursor(f, r).Some?
    ensures Walk(CursorCodec(f), all, limit, "", |all| + 1) == all
  {
    forall r | r in all ensures EncodeCursor(f, r).value != "" && DecodeCursor(f, EncodeCursor(f, r).value) == Some(r) {
      CursorRoundTrip(f, r);
    }
    WalkFrom(CursorCodec(f), all, limit, "", 0, |all| + 1);
    assert all[0..] == all;
  }
}
