/**
 The paged product listing and the four loops that crawl it. The filtered listing, ordered by id, is a
 fixed sequence while a crawl runs; a request may fail at any page.
 */
module Crawl {

  // ---------- The listing ----------

  datatype Reply<T> = Reply(items: seq<T>, page: nat, pageSize: nat, total: nat, hasMore: bool, totalPages: nat)

  function ClampPage(page: int): (r: nat)
    ensures r >= 1 && (page >= 1 ==> r == page) && (page < 1 ==> r == 1)
  {
    if page < 1 then 1 else page
  }

  function ClampSize(size: int): (r: nat)
    ensures 1 <= r <= 100 && (1 <= size <= 100 ==> r == size) && (!(1 <= size <= 100) ==> r == 20)
  {
    if size < 1 || size > 100 then 20 else size
  }

  function Min(a: nat, b: nat): nat {
    if a <= b then a else b
  }

  /** How many items n pages hold. */
  function Room(n: nat, size: nat): nat {
    n * size
  }

  /** LIMIT and OFFSET over the ordered rows. */
  function Window<T>(all: seq<T>, offset: nat, limit: nat): seq<T> {
    all[Min(offset, |all|)..Min(offset + limit, |all|)]
  }

  function LastPage(total: nat, size: nat): nat
    requires size >= 1
  {
    (total + size - 1) / size
  }

  /** One answer; a request for given ids is not limited to a page. */
  function Serve<T>(all: seq<T>, included: bool, page: int, size: int): Reply<T> {
    var p, s := ClampPage(page), ClampSize(size);
    var items := if included then all else Window(all, Room(p - 1, s), s);
    Reply(items, p, s, |all|, Room(p, s) < |all|, LastPage(|all|, s))
  }

  /** A page below the first is answered as the first, and a size out of bounds as 20. */
  lemma OutOfBoundsIsDefault<T>(all: seq<T>, included: bool, page: int, size: int)
    ensures page < 1 ==> Serve(all, included, page, size) == Serve(all, included, 1, size)
    ensures !(1 <= size <= 100) ==> Serve(all, included, page, size) == Serve(all, included, page, 20)
    ensures included ==> Serve(all, included, page, size).items == all
    ensures !included ==> |Serve(all, included, page, size).items| <= if 1 <= size <= 100 then size else 20
    ensures Serve(all, included, page, size).total == |all|
    ensures Serve(all, included, page, size).page == if page < 1 then 1 else page
    ensures Serve(all, included, page, size).pageSize == if 1 <= size <= 100 then size else 20
  {
    hide Room;
  }

  /** The pages 1 to n, one after the other. */
  function Pages<T>(all: seq<T>, size: int, n: nat): seq<T> {
    if n == 0 then [] else Pages(all, size, n - 1) + Serve(all, false, n, size).items
  }

  /** The pages neither lose nor repeat an item: the first n of them are the first n * size items. */
  lemma {:induction false} PagesTile<T>(all: seq<T>, size: int, n: nat)
    ensures Pages(all, size, n) == all[..Min(Room(n, ClampSize(size)), |all|)]
  {
    hide Room;
    if n == 0 {
      NoRoom(ClampSize(size));
    } else {
      var s := ClampSize(size);
      PagesTile(all, size, n - 1);
      RoomGrows(n, s);
      OnePage(all, size, n);
      hide Serve;
      Glue(all, Min(Room(n - 1, s), |all|), Min(Room(n, s), |all|));
    }
  }

  lemma OnePage<T>(all: seq<T>, size: int, n: nat)
    requires n >= 1
    ensures var s := ClampSize(size);
            Min(Room(n - 1, s), |all|) <= Min(Room(n, s), |all|) &&
            Serve(all, false, n, size).items == all[Min(Room(n - 1, s), |all|)..Min(Room(n, s), |all|)]
  {
    RoomGrows(n, ClampSize(size));
    hide Room;
  }

  lemma Glue<T>(all: seq<T>, a: nat, b: nat)
    requires a <= b <= |all|
    ensures all[..a] + all[a..b] == all[..b]
  {
  }

  lemma NoRoom(size: nat)
    ensures Room(0, size) == 0
  {
  }

  lemma RoomGrows(n: nat, size: nat)
    requires n > 0
    ensures Room(n, size) == Room(n - 1, size) + size
  {
    assert n * size == (n - 1) * size + size;
  }

  lemma RoomMono(a: nat, b: nat, size: nat)
    requires a <= b
    ensures Room(a, size) <= Room(b, size)
  {
    assert b * size == a * size + (b - a) * size;
  }

  /** Without an include list, has_more says exactly that the next page has items, and total_pages is the
      number of the last page that has any. */
  lemma PagingIsExact<T>(all: seq<T>, page: int, size: int)
    ensures var r := Serve(all, false, page, size);
            && (r.hasMore <==> Serve(all, false, r.page + 1, size).items != [])
            && (r.items != [] <==> r.page <= r.totalPages)
            && Pages(all, size, r.totalPages) == all
  {
    hide Room, Pages;
    var p, s := ClampPage(page), ClampSize(size);
    var n := LastPage(|all|, s);
    DivBounds(|all|, s);
    PagesTile(all, size, n);
    RoomGrows(p, s);
    RoomGrows(p + 1, s);
    if p <= n { RoomMono(p - 1, n - 1, s); } else { RoomMono(n, p - 1, s); }
    hide LastPage;
  }

  lemma DivBounds(total: nat, size: nat)
    requires size >= 1
    ensures var n := LastPage(total, size); Room(n, size) >= total && (n == 0 || Room(n - 1, size) < total)
  {
    var n := LastPage(total, size);
    assert total + size - 1 == n * size + (total + size - 1) % size;
    if n > 0 { RoomGrows(n, size); }
  }

  // ---------- Include lists ----------

  /** What a loop driven by has_more collects from one page on. */
  function Driven<T>(all: seq<T>, included: bool, page: nat, size: int): seq<T>
    requires page >= 1
    decreases |all| - page
  {
    var r := Serve(all, included, page, size);
    if r.hasMore then
      PageInListing(|all|, page, size);
      r.items + Driven(all, included, page + 1, size)
    else r.items
  }

  lemma PageInListing(total: nat, page: nat, size: int)
    requires Room(page, ClampSize(size)) < total
    ensures page < total
  {
    assert page <= page * ClampSize(size);
  }

  function Copies<T>(all: seq<T>, n: nat): (r: seq<T>)
    ensures |r| == Room(n, |all|)
  {
    if n == 0 then [] else
      RoomGrows(n, |all|);
      all + Copies(all, n - 1)
  }

  lemma {:induction false} DrivenIncluded<T>(all: seq<T>, page: nat, size: int)
    requires page >= 1
    ensures var last := LastPage(|all|, ClampSize(size));
            Driven(all, true, page, size) == Copies(all, if page < last then last - page + 1 else 1)
    decreases |all| - page
  {
    hide Room;
    var s := ClampSize(size);
    DivBounds(|all|, s);
    RoomGrows(page + 1, s);
    PageBound(|all|, page + 1, s);
    assert Copies(all, 0) == [] && Copies(all, 1) == all;
    if Serve(all, true, page, size).hasMore {
      PageInListing(|all|, page, size);
      DrivenIncluded(all, page + 1, size);
    }
  }

  lemma {:induction false} PageBound(total: nat, p: nat, size: nat)
    requires p >= 1 && size >= 1
    ensures Room(p - 1, size) < total <==> p <= LastPage(total, size)
  {
    hide Room;
    DivBounds(total, size);
    var n := LastPage(total, size);
    if p <= n { RoomMono(p - 1, n - 1, size); } else { RoomMono(n, p - 1, size); }
  }

  lemma PageStep<T>(all: seq<T>, page: nat, size: int)
    requires page >= 1
    ensures var r := Serve(all, false, page, size);
            && Pages(all, size, page) == Pages(all, size, page - 1) + r.items
            && (r.hasMore <==> Room(page, ClampSize(size)) < |all|)
            && (!r.hasMore ==> Pages(all, size, page) == all)
  {
    PagesTile(all, size, page);
    hide Room, Window, LastPage;
  }

  lemma {:induction false} DrivenPaged<T>(all: seq<T>, page: nat, size: int)
    requires page >= 1
    ensures Pages(all, size, page - 1) + Driven(all, false, page, size) == all
    decreases |all| - page
  {
    hide Room, Pages, Serve;
    var r := Serve(all, false, page, size);
    PageStep(all, page, size);
    if r.hasMore {
      PageInListing(|all|, page, size);
      DrivenPaged(all, page + 1, size);
      assert Driven(all, false, page, size) == r.items + Driven(all, false, page + 1, size);
    } else {
      assert Driven(all, false, page, size) == r.items;
    }
  }

  /**
   A loop that follows has_more collects an ordinary listing exactly once. An include list is served whole on every
   page while has_more goes on counting pages, so the loop collects it once per page of its length: once, as it
   should, exactly when it fits one page.
   */
  lemma IncludeOverstatesExactly<T>(all: seq<T>, size: int)
    ensures Driven(all, false, 1, size) == all
    ensures var last := LastPage(|all|, ClampSize(size));
            Driven(all, true, 1, size) == Copies(all, if last >= 1 then last else 1)
    ensures Driven(all, true, 1, size) == all <==> |all| <= ClampSize(size)
  {
    hide Driven;
    var s := ClampSize(size);
    var last := LastPage(|all|, s);
    DrivenPaged(all, 1, size);
    assert Pages(all, size, 0) + Driven(all, false, 1, size) == Driven(all, false, 1, size);
    DrivenIncluded(all, 1, size);
    PageBound(|all|, 2, s);
    NoRoom(s);
    RoomGrows(1, s);
    RoomGrows(1, |all|);
    NoRoom(|all|);
    assert Copies(all, 1) == all by { assert Copies(all, 0) == []; }
    if last >= 2 {
      RoomMono(2, last, |all|);
      RoomGrows(2, |all|);
      hide Room;
      assert |Copies(all, last)| > |all|;
    }
  }

  // ---------- The crawlers ----------

  /** How many pages a crawl brings home, once it has n of them: it goes on until the listing is over, its cap
      is reached or a request fails. */
  function Reach(total: nat, size: nat, cap: nat, fails: nat -> bool, n: nat): (r: nat)
    requires size >= 1
    ensures r >= n
    decreases cap - n
  {
    if n >= cap || Room(n, size) >= total || fails(n + 1) then n else Reach(total, size, cap, fails, n + 1)
  }

  function Brought<T>(all: seq<T>, size: nat, cap: nat, fails: nat -> bool): seq<T>
    requires size >= 1
  {
    all[..Min(Room(Reach(|all|, size, cap, fails, 0), size), |all|)]
  }

  predicate Sound(total: nat, size: nat, fails: nat -> bool, from: nat, last: nat) {
    forall p: nat :: from <= p < last && Room(p, size) < total ==> !fails(p + 1)
  }

  lemma {:induction false} ReachExactly(total: nat, size: nat, cap: nat, fails: nat -> bool, n: nat)
    requires size >= 1 && n <= cap
    ensures Room(Reach(total, size, cap, fails, n), size) >= total <==>
            Room(cap, size) >= total && Sound(total, size, fails, n, cap)
    decreases cap - n
  {
    hide Room;
    if n == cap {
    } else if Room(n, size) >= total {
      RoomMono(n, cap, size);
      forall p: nat | n <= p < cap ensures Room(p, size) >= total { RoomMono(n, p, size); }
    } else if !fails(n + 1) {
      ReachExactly(total, size, cap, fails, n + 1);
    }
  }

  /** A crawl brings the whole listing home exactly when its cap leaves room for it and no page of it fails;
      otherwise it brings a proper prefix. */
  lemma CrawlIsWholeExactly<T>(all: seq<T>, size: nat, cap: nat, fails: nat -> bool)
    requires size >= 1
    ensures Brought(all, size, cap, fails) <= all
    ensures Brought(all, size, cap, fails) == all <==> Room(cap, size) >= |all| && Sound(|all|, size, fails, 0, cap)
  {
    ReachExactly(|all|, size, cap, fails, 0);
    var r := Room(Reach(|all|, size, cap, fails, 0), size);
    if r < |all| { assert |Brought(all, size, cap, fails)| == r; }
  }

  /** An uncapped crawl of pages of 100: no cap above this one is ever reached. */
  function Uncapped(total: nat): nat {
    total + 1
  }

  lemma FullPage<T>(all: seq<T>, page: nat)
    requires page >= 1
    ensures var data := Serve(all, false, page, 100);
            && Room(page, 100) == Room(page - 1, 100) + 100
            && data.items == Window(all, Room(page - 1, 100), 100)
            && (data.hasMore <==> Room(page, 100) < |all|)
            && page <= Room(page, 100)
            && all[..Min(Room(page - 1, 100), |all|)] + data.items == all[..Min(Room(page, 100), |all|)]
            && (|data.items| < 100 <==> Room(page, 100) > |all|)
            && (data.items == [] <==> Room(page - 1, 100) >= |all|)
  {
    RoomGrows(page, 100);
    hide Room;
    OnePage(all, 100, page);
    Glue(all, Min(Room(page - 1, 100), |all|), Min(Room(page, 100), |all|));
    assert page <= Room(page, 100) by { PageInRoom(page); }
  }

  lemma PageInRoom(page: nat)
    ensures page <= Room(page, 100)
  {
  }

  /** What a request comes to: a page, a refusing status (or an unreadable page where the code reads that as an
      empty one), or an exception. */
  datatype Fetch = Fine | NotOk | Thrown

  /** What the caller of a crawl gets: the items, or the exception itself. */
  datatype Crawled<T> = Got(items: seq<T>) | Rejected

  function Failing(answers: nat -> Fetch): nat -> bool {
    (p: nat) => answers(p) != Fine
  }

  /** sitemap.ts: no cap; stops at an empty page, at has_more false or at a short page, and swallows exceptions. */
  method FetchAllCatalog<T>(all: seq<T>, answers: nat -> Fetch) returns (results: seq<T>)
    ensures results == Brought(all, 100, Uncapped(|all|), Failing(answers))
  {
    hide Room, Serve, Window;
    ghost var fails := Failing(answers);
    results := [];
    var page := 1;
    NoRoom(100);
    while true
      invariant page >= 1 && results == all[..Min(Room(page - 1, 100), |all|)]
      invariant page == 1 || Room(page - 1, 100) < |all|
      invariant page <= |all| + 1
      invariant Reach(|all|, 100, Uncapped(|all|), fails, 0) == Reach(|all|, 100, Uncapped(|all|), fails, page - 1)
      decreases |all| + 1 - page
    {
      if answers(page) != Fine {
        break;
      }
      var data := Serve(all, false, page, 100);
      FullPage(all, page);
      if data.items == [] {
        break;
      }
      results := results + data.items;
      if !data.hasMore || |data.items| < 100 {
        break;
      }
      page := page + 1;
    }
  }

  /** catalog-feed.ts: at most 50 pages; stops at has_more false or at a short page. An exception on a page it
      asks for is the caller's, whatever was collected before. */
  method FetchAllProducts<T>(all: seq<T>, answers: nat -> Fetch) returns (r: Crawled<T>)
    ensures var n := Reach(|all|, 100, 50, Failing(answers), 0);
            r == if n < 50 && (n == 0 || Room(n, 100) < |all|) && answers(n + 1) == Thrown then Rejected
                 else Got(Brought(all, 100, 50, Failing(answers)))
  {
    hide Room, Serve, Window;
    ghost var fails := Failing(answers);
    var products: seq<T> := [];
    NoRoom(100);
    for page := 1 to 51
      invariant products == all[..Min(Room(page - 1, 100), |all|)]
      invariant page == 1 || Room(page - 1, 100) < |all|
      invariant Reach(|all|, 100, 50, fails, 0) == Reach(|all|, 100, 50, fails, page - 1)
    {
      if answers(page) == Thrown {
        return Rejected;
      }
      if answers(page) == NotOk {
        break;
      }
      var data := Serve(all, false, page, 100);
      FullPage(all, page);
      products := products + data.items;
      if !data.hasMore || |data.items| < 100 {
        break;
      }
    }
    return Got(products);
  }

  /** woo-catalog.ts: no cap and no has_more; stops at an empty or a short page, so it asks for one page more when
      the listing fills its last one. An exception, there too, is the caller's. */
  method FetchAllPublished<T>(all: seq<T>, answers: nat -> Fetch) returns (r: Crawled<T>)
    ensures var n := Reach(|all|, 100, Uncapped(|all|), Failing(answers), 0);
            r == if Room(n, 100) <= |all| && answers(n + 1) == Thrown then Rejected
                 else Got(Brought(all, 100, Uncapped(|all|), Failing(answers)))
  {
    hide Room, Serve, Window;
    ghost var fails := Failing(answers);
    var products: seq<T> := [];
    var page := 1;
    NoRoom(100);
    while true
      invariant page >= 1 && products == all[..Min(Room(page - 1, 100), |all|)]
      invariant Room(page - 1, 100) <= |all| && page <= |all| + 1
      invariant Reach(|all|, 100, Uncapped(|all|), fails, 0) == Reach(|all|, 100, Uncapped(|all|), fails, page - 1)
      decreases |all| + 1 - page
    {
      if answers(page) == Thrown {
        return Rejected;
      }
      if answers(page) == NotOk {
        break;
      }
      var batch := Serve(all, false, page, 100).items;
      FullPage(all, page);
      if batch == [] {
        break;
      }
      products := products + batch;
      if |batch| < 100 {
        break;
      }
      page := page + 1;
    }
    return Got(products);
  }

  /** admin-svc's fetchAllPages over pages of 100: at most 20; stops at has_more false or at an empty page, and
      returns what it has beside the error of a failed request. */
  method FetchAllPages<T>(all: seq<T>, answers: nat -> Fetch) returns (items: seq<T>, failed: bool)
    ensures items == Brought(all, 100, 20, Failing(answers))
    ensures var n := Reach(|all|, 100, 20, Failing(answers), 0);
            failed <==> n < 20 && answers(n + 1) != Fine && (n == 0 || Room(n, 100) < |all|)
  {
    hide Room, Serve, Window;
    ghost var fails := Failing(answers);
    items, failed := [], false;
    NoRoom(100);
    for page := 1 to 21
      invariant items == all[..Min(Room(page - 1, 100), |all|)] && !failed
      invariant page == 1 || Room(page - 1, 100) < |all|
      invariant Reach(|all|, 100, 20, fails, 0) == Reach(|all|, 100, 20, fails, page - 1)
    {
      if answers(page) != Fine {
        failed := true;
        break;
      }
      var data := Serve(all, false, page, 100);
      FullPage(all, page);
      items := items + data.items;
      if !data.hasMore || data.items == [] {
        break;
      }
    }
  }

  /** With no failure, the sitemap and the shop bring everything; the feed and the back office exactly up to
      5000 and 2000 items. */
  lemma CrawlsAreWholeExactly<T>(all: seq<T>, answers: nat -> Fetch)
    requires forall p :: answers(p) == Fine
    ensures Brought(all, 100, Uncapped(|all|), Failing(answers)) == all
    ensures Brought(all, 100, 50, Failing(answers)) == all <==> |all| <= 5000
    ensures Brought(all, 100, 20, Failing(answers)) == all <==> |all| <= 2000
  {
    var fails := Failing(answers);
    CrawlIsWholeExactly(all, 100, Uncapped(|all|), fails);
    CrawlIsWholeExactly(all, 100, 50, fails);
    CrawlIsWholeExactly(all, 100, 20, fails);
  }

  /** The first page that is not answered well, whatever is wrong with it, ends a crawl with the pages before it. */
  lemma FirstFailureStops<T>(all: seq<T>, cap: nat, answers: nat -> Fetch, page: nat)
    requires page >= 1 && answers(page) != Fine && forall p :: 1 <= p < page ==> answers(p) == Fine
    ensures Brought(all, 100, cap, Failing(answers)) == all[..Min(Room(Min(page - 1, cap), 100), |all|)]
  {
    ReachStops(|all|, 100, cap, answers, 0, page);
  }

  lemma {:induction false} ReachStops(total: nat, size: nat, cap: nat, answers: nat -> Fetch, n: nat, page: nat)
    requires size >= 1 && n < page && n <= cap
    requires answers(page) != Fine && forall p :: 1 <= p < page ==> answers(p) == Fine
    ensures Min(Room(Reach(total, size, cap, Failing(answers), n), size), total) ==
            Min(Room(Min(page - 1, cap), size), total)
    decreases cap - n
  {
    hide Room;
    if n < cap && Room(n, size) < total && n + 1 < page {
      ReachStops(total, size, cap, answers, n + 1, page);
    } else {
      RoomMono(n, Min(page - 1, cap), size);
    }
  }
}
