/** Lists read a page at a time, against a server whose list does not change
    while it is read. */
module Paging {
  import opened Basics

  const CLOUDFLARE_MOST_PAGES := 50
  const GITHUB_LIST_PAGE := 100
  const GITHUB_MOST_PAGES := 100

  /** How many items that many pages hold. */
  function Held(pages: nat, size: nat): nat
  {
    pages * size
  }

  lemma HeldMore(pages: nat, size: nat)
    ensures Held(pages + 1, size) == Held(pages, size) + size && Held(0, size) == 0
  {
  }

  lemma {:induction false} HeldRises(pages: nat, more: nat, size: nat)
    requires pages <= more
    ensures Held(pages, size) <= Held(more, size)
    decreases more
  {
    hide Held;
    if pages < more {
      HeldRises(pages, more - 1, size);
      HeldMore(more - 1, size);
    }
  }

  /** The nth page, from one: so many items, the last page what is left. */
  function Page<T>(items: seq<T>, page: nat, size: nat): (batch: seq<T>)
    requires page > 0
  {
    HeldMore(page - 1, size);
    items[Least(Held(page - 1, size), |items|)..Least(Held(page, size), |items|)]
  }

  /** How many pages a list has. */
  function PagesOf(count: nat, size: nat): nat
    requires size > 0
    decreases count
  {
    if count == 0 then 0 else 1 + PagesOf(count - Least(count, size), size)
  }

  /** A list has at most so many pages exactly when they hold it all. */
  lemma {:induction false} PagesHold(count: nat, size: nat, pages: nat)
    requires size > 0
    ensures PagesOf(count, size) <= pages <==> count <= Held(pages, size)
    decreases count
  {
    HeldMore(0, size);
    if count == 0 {
      HeldRises(0, pages, size);
    } else if pages > 0 {
      HeldMore(pages - 1, size);
      hide Held;
      PagesHold(count - Least(count, size), size, pages - 1);
      HeldRises(0, pages - 1, size);
      HeldMore(0, size);
    }
  }

  /** A server's list: what it holds, how many items a page of its holds though
      more were asked for, and whether it says how many pages there are. */
  datatype Server<T> = Server(items: seq<T>, size: nat, total: bool)

  lemma PageGrows<T>(items: seq<T>, page: nat, size: nat)
    ensures items[..Least(Held(page, size), |items|)] + Page(items, page + 1, size) == items[..Least(Held(page + 1, size), |items|)]
    ensures |Page(items, page + 1, size)| == Least(size, |items| - Least(Held(page, size), |items|))
  {
    HeldMore(page, size);
    hide Held;
  }

  /** Whether any page that was read could not be. */
  ghost predicate Reads(fails: nat -> bool, pages: nat)
  {
    forall page :: 1 <= page <= pages ==> !fails(page)
  }

  /** The pages that are asked for: the first, and each that the ones before it
      leave something for, or, where no total is given, were all full. */
  predicate Reached<T>(server: Server<T>, perPage: nat, page: nat)
  {
    page == 1
    || (page > 1 && if server.total then Held(page - 1, server.size) < |server.items|
                    else server.size == perPage && Held(page - 1, server.size) <= |server.items|)
  }

  lemma ReachedNoMore<T>(server: Server<T>, perPage: nat, page: nat)
    requires page > 0 && !Reached(server, perPage, page + 1)
    ensures forall more :: more > page ==> !Reached(server, perPage, more)
  {
    forall more | more > page
      ensures !Reached(server, perPage, more)
    {
      HeldRises(page, more - 1, server.size);
    }
  }

  /** Pages are asked for until as many items are there as the server's total
      says, or, of one that gives none, until a page is not full. */
  method CloudflareList<T>(server: Server<T>, perPage: nat, fails: nat -> bool) returns (list: Option<seq<T>>)
    requires 0 < server.size <= perPage
    // The whole list or an error, never a part, when the server gives its
    // total or full pages.
    ensures server.total || server.size == perPage ==> list == None || list == Some(server.items)
    ensures server.total && Reads(fails, CLOUDFLARE_MOST_PAGES) ==>
              (list.Some? <==> PagesOf(|server.items|, server.size) <= CLOUDFLARE_MOST_PAGES)
    // Without a total a list that fills its last page needs one more to end.
    ensures !server.total && server.size == perPage && Reads(fails, CLOUDFLARE_MOST_PAGES) ==>
              (list.Some? <==> |server.items| < Held(CLOUDFLARE_MOST_PAGES, perPage))
    // A smaller page and no total is where a list is cut short.
    ensures !server.total && server.size < perPage && !fails(1) ==>
              list == Some(server.items[..Least(server.size, |server.items|)])
    // Whatever the server: a list is given exactly when every page that is
    // asked for comes, and the last page allowed ends it.
    ensures list.Some? <==>
              !Reached(server, perPage, CLOUDFLARE_MOST_PAGES + 1)
              && forall page :: 1 <= page <= CLOUDFLARE_MOST_PAGES && Reached(server, perPage, page) ==> !fails(page)
  {
    var collected: seq<T> := [];
    var items, size := server.items, server.size;
    var all := PagesOf(|items|, size);
    HeldMore(0, size);
    HeldMore(CLOUDFLARE_MOST_PAGES - 1, size);
    PagesHold(|items|, size, CLOUDFLARE_MOST_PAGES);
    hide Held, PagesOf;
    for page := 1 to CLOUDFLARE_MOST_PAGES + 1
      invariant collected == items[..Least(Held(page - 1, size), |items|)]
      invariant server.total ==> page == 1 || page <= all
      invariant !server.total ==> page == 1 || (size == perPage && Held(page - 1, size) <= |items|)
      invariant Reached(server, perPage, page) && Reads(fails, page - 1)
    {
      if fails(page) {
        return None;
      }
      var batch := Page(items, page, size);
      PageGrows(items, page - 1, size);
      PagesHold(|items|, size, page);
      PagesHold(|items|, size, 0);
      HeldMore(page - 1, size);
      HeldMore(0, size);
      collected := collected + batch;
      var totalPages := if server.total then all else 0;
      if (totalPages != 0 && page >= totalPages) || (totalPages == 0 && |batch| < perPage) {
        Ended(server, perPage, page, all, collected);
        ReachedNoMore(server, perPage, page);
        return Some(collected);
      }
      NotEnded(server, perPage, page, all);
    }
    return None;
  }

  lemma Ended<T>(server: Server<T>, perPage: nat, page: nat, all: nat, collected: seq<T>)
    requires 0 < server.size <= perPage && 0 < page <= CLOUDFLARE_MOST_PAGES && all == PagesOf(|server.items|, server.size)
    requires collected == server.items[..Least(Held(page, server.size), |server.items|)]
    requires if server.total && all != 0 then page >= all
             else |Page(server.items, page, server.size)| < perPage && (all == 0 || !server.total)
    requires !server.total ==> page == 1 || (server.size == perPage && Held(page - 1, server.size) <= |server.items|)
    ensures server.total || server.size == perPage ==> collected == server.items
    ensures server.total ==> all <= CLOUDFLARE_MOST_PAGES
    ensures !server.total && server.size == perPage ==> |server.items| < Held(CLOUDFLARE_MOST_PAGES, perPage)
    ensures !server.total && server.size < perPage ==> collected == server.items[..Least(server.size, |server.items|)]
    ensures !Reached(server, perPage, page + 1)
  {
    PagesHold(|server.items|, server.size, page);
    PagesHold(|server.items|, server.size, 0);
    HeldMore(page - 1, server.size);
    HeldMore(0, server.size);
    PageGrows(server.items, page - 1, server.size);
    HeldRises(page, CLOUDFLARE_MOST_PAGES, server.size);
    hide Held, PagesOf;
  }

  lemma NotEnded<T>(server: Server<T>, perPage: nat, page: nat, all: nat)
    requires 0 < server.size <= perPage && 0 < page && all == PagesOf(|server.items|, server.size)
    requires Reached(server, perPage, page)
    requires if server.total && all != 0 then page < all else |Page(server.items, page, server.size)| >= perPage
    ensures Reached(server, perPage, page + 1)
  {
    PagesHold(|server.items|, server.size, page);
    HeldMore(page - 1, server.size);
    HeldMore(0, server.size);
    PagesHold(|server.items|, server.size, 0);
    PageGrows(server.items, page - 1, server.size);
    hide Held, PagesOf;
  }

  /** A list still full at the last page allowed is an error. */
  method GithubPaged<T>(items: seq<T>, fails: nat -> bool) returns (list: Option<seq<T>>)
    ensures list == None || list == Some(items)
    ensures Reads(fails, GITHUB_MOST_PAGES) ==> (list.Some? <==> |items| < Held(GITHUB_MOST_PAGES, GITHUB_LIST_PAGE))
    // And exactly when every page that the full ones before it lead to comes.
    ensures list.Some? <==>
              |items| < Held(GITHUB_MOST_PAGES, GITHUB_LIST_PAGE)
              && forall page :: 1 <= page <= GITHUB_MOST_PAGES && Held(page - 1, GITHUB_LIST_PAGE) <= |items| ==> !fails(page)
  {
    var found: seq<T> := [];
    HeldMore(0, GITHUB_LIST_PAGE);
    hide Held;
    for page := 1 to GITHUB_MOST_PAGES + 1
      invariant found == items[..Least(Held(page - 1, GITHUB_LIST_PAGE), |items|)]
      invariant Held(page - 1, GITHUB_LIST_PAGE) <= |items| && Reads(fails, page - 1)
    {
      if fails(page) {
        return None;
      }
      var batch := Page(items, page, GITHUB_LIST_PAGE);
      PageGrows(items, page - 1, GITHUB_LIST_PAGE);
      HeldMore(page - 1, GITHUB_LIST_PAGE);
      found := found + batch;
      if |batch| < GITHUB_LIST_PAGE {
        HeldRises(page, GITHUB_MOST_PAGES, GITHUB_LIST_PAGE);
        forall more: nat | more >= page
          ensures Held(more, GITHUB_LIST_PAGE) > |items|
        {
          HeldRises(page, more, GITHUB_LIST_PAGE);
        }
        assert items[..|items|] == items;
        return Some(found);
      }
    }
    return None;
  }
}
