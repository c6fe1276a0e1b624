/** The crawl that saves the demo: pages by their links, and copies of the
    addresses with a query that they offer, up to so many copies from a page. */
module DemoCrawl {
  import opened Basics
  import opened Sorting
  import opened Texts
  import opened Totals

  datatype Path = Path(text: string)
  datatype Address = Address(text: string)
  /** An address however its query was written. */
  datatype Key = Key(text: string)
  datatype Part = Part(text: string)

  const COPY_DEPTH := 2
  const MOST_VARIANTS := 1500
  const MOST_PAGES := 800
  // What a copy that answered a move is refused with.
  const MOVED := 302

  /** What is found in a text at its path: the addresses with a query its links,
      its lists and its filters offer, what it links, and what its scripts read. */
  datatype Text = Text(offers: set<Address>, links: seq<Path>, scripted: set<Address>)

  /** A partial load a page makes: the address and part it is kept under, and
      what it answers, if it does. */
  datatype Region = Region(part: Part, answer: Option<Text>)

  datatype Answer = Page(text: Text, regions: seq<Region>) | Moved(target: Path) | Refused(status: nat)

  /** HQ as the crawl finds it. It answers every spelling of one query alike,
      and the same for as long as the crawl lasts. */
  datatype Site = Site(
    page: Path -> Answer,
    copy: Key -> Answer,
    read: Address -> Region,
    pagesOf: Address -> seq<Address>,
    keyOf: Address -> Key,
    wanted: Path -> bool,
    worth: Address -> bool,
    // What the command center answers each search with, in order.
    palette: seq<Region>)

  /** Who asked for a partial load that is kept: a page, a copy that was so far
      from a page when it was saved, the command center or a script. */
  datatype Asker = OfPage(path: Path) | OfCopy(key: Key, depth: nat) | OfPalette | OfScript(address: Address)

  predicate Worthy(site: Site, text: Text, address: Address)
  {
    address in text.offers && site.worth(address)
  }

  /** All a text offers is known, no further than `depth` copies from a page. */
  ghost predicate Offers(site: Site, variants: map<Address, nat>, text: Text, depth: nat)
  {
    forall address :: Worthy(site, text, address) ==> address in variants && variants[address] <= depth
  }

  ghost predicate Knows(site: Site, variants: map<Address, nat>, text: Text)
  {
    forall address :: Worthy(site, text, address) ==> address in variants
  }

  predicate Nearer(after: map<Address, nat>, before: map<Address, nat>)
  {
    forall address :: address in before ==> address in after && after[address] <= before[address]
  }

  /** A way to an address by text links: from what a saved page offers, or a
      search, by what one copy after another says. */
  ghost predicate Way(site: Site, seen: set<Path>, searches: seq<Address>, way: seq<Address>)
  {
    && way != []
    && (way[0] in searches || OnAPage(site, seen, way[0]))
    && forall i :: 0 < i < |way| ==> CopyLinks(site, way[i - 1], way[i])
  }

  ghost predicate OnAPage(site: Site, seen: set<Path>, address: Address)
  {
    exists path :: path in seen && site.page(path).Page? && Worthy(site, site.page(path).text, address)
  }

  /** An address's copy says another. */
  predicate CopyLinks(site: Site, nearer: Address, address: Address)
  {
    var answer := site.copy(site.keyOf(nearer));
    answer.Page? && Worthy(site, answer.text, address)
  }

  /** Where the crawl has got to, with what it remembers of who asked. */
  datatype State = State(
    // The addresses with a query that are known, each by how few copies from a page.
    variants: map<Address, nat>,
    // What scripts read with a query.
    scripted: set<Address>,
    refused: map<Key, nat>,
    // The addresses asked for, each by how far it was when it was last.
    tried: map<Address, nat>,
    saved: map<Key, Text>,
    seen: set<Path>,
    // The partial loads kept.
    fragments: map<Part, Text>,
    // Who asked for each of those, and which address each copy was saved for.
    askers: map<Part, Asker>,
    owners: map<Key, Address>)

  const EMPTY := State(map[], {}, map[], map[], map[], {}, map[], map[], map[])

  // ------------------------------------------------- what every step keeps

  /** An address that answers no page is refused with what it answered. */
  predicate RefusedWith(site: Site, key: Key, status: nat)
  {
    match site.copy(key)
    case Page(_, _) => false
    case Moved(_) => status == MOVED
    case Refused(answered) => status == answered
  }

  /** What is saved is what HQ answered, and all it offers is known. */
  ghost predicate Holds(site: Site, now: State)
  {
    && (forall key :: key in now.saved ==>
          site.copy(key).Page? && now.saved[key] == site.copy(key).text && now.saved[key].scripted <= now.scripted)
    && (forall key :: key in now.refused ==> RefusedWith(site, key, now.refused[key]))
    && (forall key :: key in now.saved ==> Knows(site, now.variants, now.saved[key]))
  }

  /** All a text offers is known, no further than `depth`, and what its scripts read. */
  ghost predicate Told(site: Site, now: State, text: Text, depth: nat)
  {
    Offers(site, now.variants, text, depth) && text.scripted <= now.scripted
  }

  /** Everything the saved pages offer is known as one copy from a page. */
  ghost predicate PagesOffer(site: Site, now: State)
  {
    forall path :: path in now.seen && site.page(path).Page? ==> Told(site, now, site.page(path).text, 1)
  }

  ghost predicate Tried(now: State)
  {
    forall address :: address in now.tried ==> address in now.variants && now.variants[address] <= now.tried[address] <= COPY_DEPTH
  }

  /** An address asked for at `depth`: its copy is saved and all it offers known
      as one copy further, or it was refused, or no more copies are kept. */
  ghost predicate Settled(site: Site, now: State, address: Address, depth: nat)
  {
    var key := site.keyOf(address);
    if key in now.saved then Offers(site, now.variants, now.saved[key], depth + 1)
    else key in now.refused || |now.saved| >= MOST_VARIANTS
  }

  ghost predicate SettledBut(site: Site, now: State, left: seq<Address>)
  {
    forall address :: address in now.tried && address !in left ==> Settled(site, now, address, now.tried[address])
  }

  /** An address was asked for: it is saved or was refused, or no more copies are kept. */
  predicate Covered(site: Site, now: State, address: Address)
  {
    site.keyOf(address) in now.saved || site.keyOf(address) in now.refused || |now.saved| >= MOST_VARIANTS
  }

  /** Each page of a list that was copied is known and was asked for, but for
      the ones still left of a round. */
  ghost predicate ListedBut(site: Site, now: State, left: seq<Address>)
  {
    forall key :: key in now.saved ==>
      key in now.owners && site.keyOf(now.owners[key]) == key
      && forall page :: page in site.pagesOf(now.owners[key]) ==> page in now.variants && (page in left || Covered(site, now, page))
  }

  /** Each address tried is settled, and each page of a list asked for, but for
      the ones still left of a round. */
  ghost predicate Good(site: Site, now: State, left: seq<Address>)
  {
    Holds(site, now) && PagesOffer(site, now) && Tried(now) && SettledBut(site, now, left) && ListedBut(site, now, left)
    && |now.saved| <= MOST_VARIANTS && |now.seen| <= MOST_PAGES
  }

  /** What is known only grows and nears, and while no page and no copy is
      saved, nothing new is. */
  ghost predicate Grew(before: State, now: State)
  {
    && Nearer(now.variants, before.variants)
    && before.scripted <= now.scripted && before.seen <= now.seen
    && (forall part :: part in before.fragments ==>
          part in now.fragments && now.fragments[part] == before.fragments[part]
          && (part in before.askers ==> part in now.askers && now.askers[part] == before.askers[part]))
    && |before.seen| <= |now.seen| && |before.saved| <= |now.saved|
    && (forall key :: key in before.saved ==> key in now.saved && now.saved[key] == before.saved[key])
  }

  ghost predicate Still(before: State, now: State)
  {
    |now.seen| == |before.seen| && |now.saved| == |before.saved| ==>
      now.variants.Keys == before.variants.Keys && now.scripted == before.scripted
  }

  /** Every copy saved since is among the texts, and every partial load kept since. */
  ghost predicate Gained(before: State, now: State, texts: seq<Text>)
  {
    && (forall key :: key in now.saved && key !in before.saved ==> now.saved[key] in texts)
    && (forall part :: part in now.fragments && part !in before.fragments ==> now.fragments[part] in texts)
  }

  /** The partial loads of a page or a copy that answer are all kept. */
  ghost predicate Has(fragments: map<Part, Text>, regions: seq<Region>)
  {
    forall region :: region in regions && region.answer.Some? ==> region.part in fragments
  }

  /** A partial load that is kept is what its asker was answered, and, unless a
      script asked, all it offers is known, and what its scripts read: no further than a page's own, or
      than the command center's, or one further than the copy was. */
  ghost predicate Asked(site: Site, now: State, part: Part, text: Text, asker: Asker)
  {
    match asker
    case OfPage(path) =>
      && path in now.seen && site.page(path).Page?
      && Region(part, Some(text)) in site.page(path).regions && Told(site, now, text, 1)
    case OfCopy(key, depth) =>
      && key in now.saved && site.copy(key).Page?
      && Region(part, Some(text)) in site.copy(key).regions && Told(site, now, text, depth + 1)
    case OfPalette => Region(part, Some(text)) in site.palette && Told(site, now, text, 2)
    case OfScript(address) => address in now.scripted && site.read(address) == Region(part, Some(text))
  }

  /** Every partial load kept since was asked for as said, and the pages and
      copies saved since have theirs kept. */
  ghost predicate Loads(site: Site, before: State, now: State)
  {
    && (forall part :: part in now.fragments && part !in before.fragments ==>
          part in now.askers && Asked(site, now, part, now.fragments[part], now.askers[part]))
    && (forall path :: path in now.seen && path !in before.seen && site.page(path).Page? ==>
          Has(now.fragments, site.page(path).regions))
    && (forall key :: key in now.saved && key !in before.saved && site.copy(key).Page? ==>
          Has(now.fragments, site.copy(key).regions))
  }

  lemma AskedStill(site: Site, before: State, now: State, part: Part, text: Text, asker: Asker)
    requires Grew(before, now) && Asked(site, before, part, text, asker)
    ensures Asked(site, now, part, text, asker)
  {
  }

  lemma LoadsTwice(site: Site, first: State, middle: State, last: State)
    requires Loads(site, first, middle) && Loads(site, middle, last) && Grew(middle, last)
    ensures Loads(site, first, last)
  {
    hide Asked;
    forall part | part in last.fragments && part !in first.fragments
      ensures part in last.askers && Asked(site, last, part, last.fragments[part], last.askers[part])
    {
      if part in middle.fragments {
        AskedStill(site, middle, last, part, middle.fragments[part], middle.askers[part]);
      }
    }
  }

  /** Partial loads read for one asker: they are kept, and what is kept since
      is theirs and read at the depth. */
  ghost predicate Loaded(site: Site, before: State, now: State, regions: seq<Region>, asker: Asker, depth: nat)
  {
    && Has(now.fragments, regions)
    && forall part :: part in now.fragments && part !in before.fragments ==>
         part in now.askers && now.askers[part] == asker
         && Region(part, Some(now.fragments[part])) in regions && Told(site, now, now.fragments[part], depth)
  }

  lemma LoadedFirst(site: Site, now: State, asker: Asker, depth: nat)
    ensures Loaded(site, now, now, [], asker, depth) && Gained(now, now, [])
  {
  }

  /** One more partial load read. */
  lemma LoadedMore(site: Site, before: State, were: State, now: State, regions: seq<Region>, asker: Asker, depth: nat, region: Region)
    requires Loaded(site, before, were, regions, asker, depth) && Grew(were, now)
    requires region.answer.Some? && region.part !in were.fragments && Told(site, now, region.answer.value, depth)
    requires now.fragments == were.fragments[region.part := region.answer.value] && now.askers == were.askers[region.part := asker]
    ensures Loaded(site, before, now, regions + [region], asker, depth)
  {
    hide Told;
    forall part | part in were.fragments && part !in before.fragments
      ensures Told(site, now, now.fragments[part], depth)
    {
      GrewTells(site, were, now, were.fragments[part], depth);
    }
  }

  lemma GainedMore(before: State, were: State, now: State, answers: seq<Text>, part: Part, text: Text)
    requires Gained(before, were, answers) && now.saved == were.saved && now.fragments == were.fragments[part := text]
    ensures Gained(before, now, answers + [text])
  {
  }

  /** One that was kept before, or gave no answer. */
  lemma LoadedSame(site: Site, before: State, now: State, regions: seq<Region>, asker: Asker, depth: nat, region: Region)
    requires Loaded(site, before, now, regions, asker, depth) && (region.part in now.fragments || region.answer == None)
    ensures Loaded(site, before, now, regions + [region], asker, depth)
  {
    hide Told;
  }

  lemma LoadedStill(site: Site, before: State, were: State, now: State, regions: seq<Region>, asker: Asker, depth: nat)
    requires Loaded(site, before, were, regions, asker, depth) && Grew(were, now)
    requires now.fragments == were.fragments && now.askers == were.askers
    ensures Loaded(site, before, now, regions, asker, depth)
  {
    hide Told;
    forall part | part in now.fragments && part !in before.fragments
      ensures Told(site, now, now.fragments[part], depth)
    {
      GrewTells(site, were, now, were.fragments[part], depth);
    }
  }

  /** An asker's partial loads, and how far from a page what they offer is. */
  ghost predicate Asks(site: Site, now: State, asker: Asker, regions: seq<Region>, depth: nat)
  {
    match asker
    case OfPage(path) => path in now.seen && site.page(path).Page? && site.page(path).regions == regions && depth == 1
    case OfCopy(key, far) => key in now.saved && site.copy(key).Page? && site.copy(key).regions == regions && depth == far + 1
    case OfPalette => site.palette == regions && depth == 2
    case OfScript(_) => false
  }

  lemma LoadedHas(site: Site, before: State, now: State, regions: seq<Region>, asker: Asker, depth: nat)
    requires Loaded(site, before, now, regions, asker, depth)
    ensures Has(now.fragments, regions)
  {
  }

  /** Once the asker is saved itself, its partial loads are as they should be. */
  lemma LoadedLoads(site: Site, before: State, now: State, regions: seq<Region>, asker: Asker, depth: nat)
    requires Loaded(site, before, now, regions, asker, depth) && Asks(site, now, asker, regions, depth)
    requires forall path :: path in now.seen && path !in before.seen ==> asker == OfPage(path)
    requires forall key :: key in now.saved && key !in before.saved ==> asker.OfCopy? && asker.key == key
    ensures Loads(site, before, now)
  {
    hide Offers;
  }

  /** Nothing new is kept or saved. */
  lemma LoadsNone(site: Site, before: State, now: State)
    requires now.fragments.Keys == before.fragments.Keys && now.seen == before.seen && now.saved.Keys == before.saved.Keys
    ensures Loads(site, before, now)
  {
  }

  lemma GrewTwice(first: State, middle: State, last: State)
    requires Grew(first, middle) && Grew(middle, last)
    ensures Grew(first, last)
    ensures Still(first, middle) && Still(middle, last) ==> Still(first, last)
  {
  }

  lemma GainedTwice(first: State, middle: State, last: State, texts: seq<Text>, more: seq<Text>)
    requires Gained(first, middle, texts) && Gained(middle, last, more) && Grew(middle, last)
    ensures Gained(first, last, texts + more)
  {
  }

  /** What copies and partial loads come to: these texts, kept as they should be. */
  ghost predicate Since(site: Site, before: State, now: State, texts: seq<Text>)
  {
    Grew(before, now) && Gained(before, now, texts) && Loads(site, before, now)
  }

  lemma SinceTwice(site: Site, first: State, middle: State, last: State, texts: seq<Text>, more: seq<Text>)
    requires Since(site, first, middle, texts) && Since(site, middle, last, more)
    ensures Since(site, first, last, texts + more)
    ensures Still(first, middle) && Still(middle, last) ==> Still(first, last)
  {
    GrewTwice(first, middle, last);
    GainedTwice(first, middle, last, texts, more);
    LoadsTwice(site, first, middle, last);
  }

  /** Nothing is kept or saved. */
  lemma SinceNone(site: Site, before: State, now: State)
    requires Grew(before, now)
    requires now.fragments.Keys == before.fragments.Keys && now.seen == before.seen && now.saved.Keys == before.saved.Keys
    ensures Since(site, before, now, [])
  {
    hide Asked, Has, Nearer;
  }

  /** What is known only nears, which keeps what holds. */
  lemma GrewIsGood(site: Site, before: State, now: State, left: seq<Address>)
    requires Good(site, before, left) && Grew(before, now) && PagesOffer(site, now) && |now.seen| <= MOST_PAGES
    requires now.tried == before.tried && now.saved == before.saved && now.refused == before.refused && now.owners == before.owners
    ensures Good(site, now, left)
  {
    ListedStill(site, before, now, left, left);
    hide ListedBut;
    forall address | address in now.tried && address !in left
      ensures Settled(site, now, address, now.tried[address])
    {
      assert Settled(site, before, address, before.tried[address]);
    }
  }

  /** Lists stay asked for while what is known, saved and refused grows. */
  lemma ListedStill(site: Site, before: State, now: State, left: seq<Address>, more: seq<Address>)
    requires ListedBut(site, before, left) && before.variants.Keys <= now.variants.Keys
    requires now.saved == before.saved && before.refused.Keys <= now.refused.Keys && now.owners == before.owners
    requires forall address :: address in left ==> address in more || Covered(site, now, address)
    ensures ListedBut(site, now, more)
  {
  }

  /** A list's pages are left once its copy is saved. */
  lemma ListedMore(site: Site, before: State, now: State, left: seq<Address>, key: Key, address: Address)
    requires ListedBut(site, before, left) && now.variants == before.variants && now.refused == before.refused
    requires site.keyOf(address) == key && key !in before.saved && forall page :: page in site.pagesOf(address) ==> page in now.variants
    requires now.saved.Keys == before.saved.Keys + {key} && |now.saved| == |before.saved| + 1
    requires now.owners == before.owners[key := address]
    ensures ListedBut(site, now, left + site.pagesOf(address))
  {
    forall other, page | other in now.saved && page in site.pagesOf(now.owners[other])
      ensures page in now.variants && (page in left + site.pagesOf(address) || Covered(site, now, page))
    {
      if other != key {
        assert page in left || Covered(site, before, page);
      }
    }
  }

  lemma HoldsStill(site: Site, before: State, now: State)
    requires Holds(site, before) && now == before.(tried := now.tried)
    ensures Holds(site, now)
  {
  }

  lemma SamePages(site: Site, before: State, now: State)
    requires PagesOffer(site, before) && now.variants == before.variants && now.seen == before.seen && now.scripted == before.scripted
    ensures PagesOffer(site, now)
  {
  }

  lemma PagesStillOffer(site: Site, before: State, now: State)
    requires PagesOffer(site, before) && Grew(before, now) && now.seen == before.seen
    ensures PagesOffer(site, now)
  {
  }

  lemma SettledIsGood(site: Site, now: State, address: Address, rest: seq<Address>)
    requires Good(site, now, [address] + rest)
    requires address in now.tried ==> Settled(site, now, address, now.tried[address])
    requires Covered(site, now, address)
    ensures Good(site, now, rest)
  {
    ListedStill(site, now, now, [address] + rest, rest);
    hide Settled, Holds, PagesOffer, ListedBut;
    forall other | other in now.tried && other !in rest
      ensures Settled(site, now, other, now.tried[other])
    {
      assert other != address ==> other !in [address] + rest;
    }
  }

  lemma RefusedIsGood(site: Site, now: State, left: seq<Address>, key: Key, status: nat)
    requires Good(site, now, left) && RefusedWith(site, key, status)
    ensures Good(site, now.(refused := now.refused[key := status]), left)
  {
    hide Offers, PagesOffer, Knows;
    var more := now.(refused := now.refused[key := status]);
    ListedStill(site, now, more, left, left);
    hide ListedBut;
    forall address | address in now.tried && address !in left
      ensures Settled(site, more, address, now.tried[address])
    {
      assert Settled(site, now, address, now.tried[address]);
    }
    SamePages(site, now, more);
  }

  /** A copy saved under a key settles no address tried under it before: one
      that was is still left, as the key was neither refused nor past the cap. */
  lemma SavedIsGood(site: Site, now: State, left: seq<Address>, address: Address)
    requires Good(site, now, left) && site.copy(site.keyOf(address)).Page?
    requires site.keyOf(address) !in now.saved && |now.saved| < MOST_VARIANTS
    requires site.copy(site.keyOf(address)).text.scripted <= now.scripted
    requires Knows(site, now.variants, site.copy(site.keyOf(address)).text)
    requires forall page :: page in site.pagesOf(address) ==> page in now.variants
    ensures Good(site, Saving(site, now, address), left + site.pagesOf(address))
  {
    hide PagesOffer, Knows, Holds, ListedBut, SettledBut;
    var key, more := site.keyOf(address), Saving(site, now, address);
    assert |more.saved| == |now.saved| + 1;
    SavedIsSettled(site, now, left, address);
    SettledMore(site, more, left, left + site.pagesOf(address));
    SamePages(site, now, more);
    SavedHolds(site, now, address);
    ListedMore(site, now, more, left, key, address);
    assert Tried(more) by { assert Tried(now); }
  }

  lemma SettledMore(site: Site, now: State, left: seq<Address>, more: seq<Address>)
    requires SettledBut(site, now, left) && forall address :: address in left ==> address in more
    ensures SettledBut(site, now, more)
  {
    hide Settled;
  }

  /** A copy saved, for an address. */
  ghost function Saving(site: Site, now: State, address: Address): State
    requires site.copy(site.keyOf(address)).Page?
  {
    var key := site.keyOf(address);
    now.(saved := now.saved[key := site.copy(key).text], owners := now.owners[key := address])
  }

  lemma SavedHolds(site: Site, now: State, address: Address)
    requires Holds(site, now) && site.copy(site.keyOf(address)).Page?
    requires site.copy(site.keyOf(address)).text.scripted <= now.scripted
    requires Knows(site, now.variants, site.copy(site.keyOf(address)).text)
    ensures Holds(site, Saving(site, now, address))
  {
    hide Knows, RefusedWith;
  }

  lemma SavedIsSettled(site: Site, now: State, left: seq<Address>, address: Address)
    requires Holds(site, now) && SettledBut(site, now, left) && site.copy(site.keyOf(address)).Page?
    requires site.keyOf(address) !in now.saved && |now.saved| < MOST_VARIANTS
    ensures SettledBut(site, Saving(site, now, address), left)
  {
    hide Offers, Knows;
    var more := Saving(site, now, address);
    forall other | other in now.tried && other !in left
      ensures Settled(site, more, other, now.tried[other])
    {
      assert Settled(site, now, other, now.tried[other]);
    }
  }

  /** A round's list: all of it at first, then its next and the rest, then none. */
  lemma LeftAre(site: Site, now: State, asked: seq<Address>, i: nat)
    requires i <= |asked|
    ensures i == 0 && Good(site, now, asked) ==> Good(site, now, asked[i..])
    ensures i < |asked| && Good(site, now, asked[i..]) ==> Good(site, now, [asked[i]] + asked[i + 1..])
    ensures i == |asked| && Good(site, now, asked[i..]) ==> Good(site, now, [])
  {
    hide Good;
    assert i == 0 ==> asked[i..] == asked;
    assert i < |asked| ==> asked[i..] == [asked[i]] + asked[i + 1..];
    assert i == |asked| ==> asked[i..] == [];
  }

  /** What a copy adds at the end of the list is left with the rest. */
  lemma LeftMore(site: Site, now: State, asked: seq<Address>, i: nat, more: seq<Address>)
    requires i <= |asked| && Good(site, now, asked[i..] + more)
    ensures Good(site, now, (asked + more)[i..])
  {
    hide Good;
    assert (asked + more)[i..] == asked[i..] + more;
  }

  // ---------------------------------------------------------- what is due

  /** The addresses there is a copy to ask for: not too far, and known nearer
      since the last time or never asked for. */
  function Due(variants: map<Address, nat>, tried: map<Address, nat>): set<Address>
  {
    set address | address in variants && variants[address] <= COPY_DEPTH
                  && variants[address] < (if address in tried then tried[address] else COPY_DEPTH + 1)
  }

  /** Fewer copies from a page, or as many and before it as text. */
  predicate Ahead(variants: map<Address, nat>, one: Address, other: Address)
    requires one in variants && other in variants
  {
    variants[one] < variants[other] || (variants[one] == variants[other] && AtMost(one.text, other.text))
  }

  predicate NearestFirst(variants: map<Address, nat>, addresses: seq<Address>)
  {
    (forall i :: 0 <= i < |addresses| ==> addresses[i] in variants)
    && forall i, j :: 0 <= i < j < |addresses| ==> addresses[i] != addresses[j] && Ahead(variants, addresses[i], addresses[j])
  }

  lemma AheadTwice(variants: map<Address, nat>, one: Address, middle: Address, other: Address)
    requires one in variants && middle in variants && other in variants
    requires Ahead(variants, one, middle) && Ahead(variants, middle, other)
    ensures Ahead(variants, one, other)
  {
    hide AtMost;
    if AtMost(one.text, middle.text) && AtMost(middle.text, other.text) {
      AtMostTwice(one.text, middle.text, other.text);
    }
  }

  lemma AheadEither(variants: map<Address, nat>, one: Address, other: Address)
    requires one in variants && other in variants
    ensures Ahead(variants, one, other) || Ahead(variants, other, one)
  {
    OneIsAtMost(one.text, other.text);
  }

  method NearestOf(variants: map<Address, nat>, addresses: set<Address>) returns (nearest: Address)
    requires addresses != {} && addresses <= variants.Keys
    ensures nearest in addresses && forall address :: address in addresses ==> Ahead(variants, nearest, address)
  {
    hide AtMost, Ahead;
    nearest :| nearest in addresses;
    AheadEither(variants, nearest, nearest);
    var left := addresses - {nearest};
    while left != {}
      invariant left <= addresses && nearest in addresses
      invariant forall address :: address in addresses && address !in left ==> Ahead(variants, nearest, address)
      decreases left
    {
      var next :| next in left;
      left := left - {next};
      AheadEither(variants, nearest, next);
      if variants[next] < variants[nearest] || (variants[next] == variants[nearest] && AtMost(next.text, nearest.text)) {
        ItIsAhead(variants, next, nearest);
        forall address | address in addresses && address !in left
          ensures Ahead(variants, next, address)
        {
          if address == next {
            AheadEither(variants, next, next);
          } else {
            AheadTwice(variants, next, nearest, address);
          }
        }
        nearest := next;
      } else {
        ItIsAhead(variants, next, nearest);
      }
    }
  }

  lemma ItIsAhead(variants: map<Address, nat>, one: Address, other: Address)
    requires one in variants && other in variants
    ensures Ahead(variants, one, other) <==>
              variants[one] < variants[other] || (variants[one] == variants[other] && AtMost(one.text, other.text))
  {
  }

  /** What has been tried once what is due is asked for. */
  function Asking(variants: map<Address, nat>, tried: map<Address, nat>): (asked: map<Address, nat>)
    ensures forall address :: address in asked <==> address in tried || address in Due(variants, tried)
    ensures forall address :: address in asked ==>
              asked[address] == if address in Due(variants, tried) then variants[address] else tried[address]
  {
    tried + map address | address in Due(variants, tried) :: variants[address]
  }

  /** What is still to be asked for, however near: what ends the crawl. */
  ghost function Unasked(now: State): map<Address, nat>
  {
    map address | address in now.variants :: if address in now.tried then now.tried[address] else COPY_DEPTH + 1
  }

  /** Asking for what is due leaves less to ask for. */
  lemma AskingFalls(before: State, now: State)
    requires Due(before.variants, before.tried) != {} && now.variants.Keys == before.variants.Keys
    requires now.tried == Asking(before.variants, before.tried)
    ensures Sum(Unasked(now)) < Sum(Unasked(before))
  {
    var address :| address in Due(before.variants, before.tried);
    SumFalls(Unasked(now), Unasked(before), address);
  }

  /** A round that starts: what is due is left to be settled. */
  lemma AskedIsGood(site: Site, now: State, pending: seq<Address>)
    requires Good(site, now, []) && forall address :: address in pending <==> address in Due(now.variants, now.tried)
    ensures Good(site, now.(tried := Asking(now.variants, now.tried)), pending)
  {
    var asked := now.(tried := Asking(now.variants, now.tried));
    HoldsStill(site, now, asked);
    SamePages(site, now, asked);
    AskedIsTried(now, asked);
    AskedIsSettled(site, now, asked, pending);
    ListedStill(site, now, asked, [], pending);
    hide ListedBut, Due, Asking, Tried, SettledBut, PagesOffer, Holds;
  }

  lemma AskedIsTried(now: State, asked: State)
    requires Tried(now) && asked.tried == Asking(now.variants, now.tried) && asked.variants == now.variants
    ensures Tried(asked)
  {
    assert forall address :: address in Due(now.variants, now.tried) ==> address in now.variants && now.variants[address] <= COPY_DEPTH;
    hide Due, Asking;
  }

  lemma AskedIsSettled(site: Site, now: State, asked: State, pending: seq<Address>)
    requires SettledBut(site, now, []) && asked == now.(tried := Asking(now.variants, now.tried))
    requires forall address :: address in Due(now.variants, now.tried) ==> address in pending
    ensures SettledBut(site, asked, pending)
  {
    hide Due, Asking, Settled;
    forall address | address in asked.tried && address !in pending
      ensures Settled(site, asked, address, asked.tried[address])
    {
      SettledSame(site, now, asked, address, now.tried[address]);
    }
  }

  lemma SettledSame(site: Site, before: State, now: State, address: Address, depth: nat)
    requires Settled(site, before, address, depth)
    requires now.variants == before.variants && now.saved == before.saved && now.refused == before.refused
    ensures Settled(site, now, address, depth)
  {
  }

  // -------------------------------------------------------- what is linked

  /** A page's links are all saved pages, or still in the queue, or unwanted. */
  ghost predicate Linked(site: Site, seen: set<Path>, queue: seq<Path>, links: seq<Path>)
  {
    forall path :: path in links && site.wanted(path) ==> path in seen || path in queue
  }

  ghost predicate Closed(site: Site, seen: set<Path>, queue: seq<Path>)
  {
    forall path :: path in seen ==>
      (site.page(path).Page? ==> Linked(site, seen, queue, site.page(path).text.links))
      && (site.page(path).Moved? && site.wanted(site.page(path).target) ==> Linked(site, seen, queue, [site.page(path).target]))
  }

  /** Short of the most pages kept, every page that a page or a copy links is saved. */
  ghost predicate Followed(site: Site, now: State)
  {
    |now.seen| < MOST_PAGES ==>
      Closed(site, now.seen, []) && LoadsLinked(site, now.seen, now.fragments, [])
      && forall key :: key in now.saved ==> Linked(site, now.seen, [], now.saved[key].links)
  }

  /** So are the links of each partial load that is kept. */
  ghost predicate LoadsLinked(site: Site, seen: set<Path>, fragments: map<Part, Text>, queue: seq<Path>)
  {
    forall part :: part in fragments ==> Linked(site, seen, queue, fragments[part].links)
  }

  /** A walk starts from the links of what was kept before it. */
  lemma LoadsQueued(site: Site, before: State, now: State, texts: seq<Text>)
    requires Followed(site, before) && now.seen == before.seen && Since(site, before, now, texts)
    ensures |now.seen| < MOST_PAGES ==> LoadsLinked(site, now.seen, now.fragments, LinksOf(texts))
  {
    forall part | part in now.fragments && |now.seen| < MOST_PAGES
      ensures Linked(site, now.seen, LinksOf(texts), now.fragments[part].links)
    {
      if part in before.fragments {
        assert Linked(site, before.seen, [], before.fragments[part].links);
      }
    }
  }

  /** What the walk after a round leaves of its copies' links. */
  lemma WalkFollows(site: Site, before: State, copied: State, now: State, copies: seq<Text>)
    requires Followed(site, before) && Since(site, before, copied, copies)
    requires Grew(copied, now) && now.saved == copied.saved
    requires |now.seen| < MOST_PAGES ==> Closed(site, now.seen, []) && Linked(site, now.seen, [], LinksOf(copies))
    requires |now.seen| < MOST_PAGES ==> LoadsLinked(site, now.seen, now.fragments, [])
    ensures Followed(site, now)
  {
    forall key | key in now.saved && |now.seen| < MOST_PAGES
      ensures Linked(site, now.seen, [], now.saved[key].links)
    {
      if key in before.saved {
        assert Linked(site, before.seen, [], before.saved[key].links);
      }
    }
  }

  /** The answers of a page's partial loads that are not kept yet, each once. */
  function NewAnswers(regions: seq<Region>, kept: set<Part>): seq<Text>
  {
    if regions == [] then []
    else if regions[0].part in kept || regions[0].answer == None then NewAnswers(regions[1..], kept)
    else [regions[0].answer.value] + NewAnswers(regions[1..], kept + {regions[0].part})
  }

  /** All that each of these texts offers is known, no further than `depth`. */
  ghost predicate AllOffer(site: Site, variants: map<Address, nat>, texts: seq<Text>, depth: nat)
  {
    forall i :: 0 <= i < |texts| ==> Offers(site, variants, texts[i], depth)
  }

  /** Whatever is known since is no further than `depth`. */
  ghost predicate NewWithin(before: State, now: State, depth: nat)
  {
    forall address :: address in now.variants && address !in before.variants ==> now.variants[address] <= depth
  }

  lemma NewWithinTwice(first: State, middle: State, last: State, depth: nat)
    requires NewWithin(first, middle, depth) && NewWithin(middle, last, depth) && Grew(first, middle) && Grew(middle, last)
    ensures NewWithin(first, last, depth) && Grew(first, last)
  {
  }

  lemma NoAnswers(site: Site, now: State, depth: nat)
    ensures Grew(now, now) && NewWithin(now, now, depth) && AllOffer(site, now.variants, [], depth)
  {
  }

  /** One partial load kept, for its asker. */
  lemma GrewByAnswering(before: State, now: State, part: Part, text: Text, asker: Asker)
    requires part !in before.fragments
    requires now == before.(fragments := before.fragments[part := text], askers := before.askers[part := asker])
    ensures Grew(before, now)
  {
  }

  lemma AnswersMore(regions: seq<Region>, i: nat, kept: set<Part>, answers: seq<Text>)
    requires i < |regions|
    ensures var region := regions[i];
            answers + NewAnswers(regions[i..], kept)
              == if region.part in kept || region.answer == None then answers + NewAnswers(regions[i + 1..], kept)
                 else answers + [region.answer.value] + NewAnswers(regions[i + 1..], kept + {region.part})
  {
    assert regions[i..][0] == regions[i] && regions[i..][1..] == regions[i + 1..];
  }

  lemma AnswersEnd(regions: seq<Region>, kept: set<Part>, answers: seq<Text>)
    ensures answers + NewAnswers(regions[|regions|..], kept) == answers
  {
    assert regions[|regions|..] == [];
  }

  lemma AllOfferMore(site: Site, before: State, now: State, texts: seq<Text>, text: Text, depth: nat)
    requires AllOffer(site, before.variants, texts, depth) && Grew(before, now) && Offers(site, now.variants, text, depth)
    ensures AllOffer(site, now.variants, texts + [text], depth) && AllOffer(site, now.variants, texts, depth)
  {
    forall i | 0 <= i < |texts|
      ensures Offers(site, now.variants, texts[i], depth)
    {
      GrewOffers(site, before, now, texts[i], depth);
    }
  }

  lemma AllStillOffer(site: Site, before: State, now: State, texts: seq<Text>, depth: nat)
    requires AllOffer(site, before.variants, texts, depth) && Grew(before, now)
    ensures AllOffer(site, now.variants, texts, depth)
  {
    forall i | 0 <= i < |texts|
      ensures Offers(site, now.variants, texts[i], depth)
    {
      GrewOffers(site, before, now, texts[i], depth);
    }
  }

  function LinksOf(texts: seq<Text>): (links: seq<Path>)
    ensures forall path :: path in links <==> exists text :: text in texts && path in text.links
  {
    if texts == [] then []
    else
      assert forall text :: text in texts <==> text == texts[0] || text in texts[1..];
      texts[0].links + LinksOf(texts[1..])
  }

  /** Every answer a script reads is kept. */
  ghost predicate Answered(site: Site, read: set<Address>, fragments: set<Part>)
  {
    forall address :: address in read && site.read(address).answer.Some? ==> site.read(address).part in fragments
  }

  lemma StillAnswered(site: Site, before: State, now: State, read: set<Address>)
    requires Answered(site, read, before.fragments.Keys) && Grew(before, now)
    ensures Answered(site, read, now.fragments.Keys)
  {
  }

  lemma AnsweredFewer(site: Site, read: set<Address>, fewer: set<Address>, fragments: set<Part>)
    requires Answered(site, read, fragments) && fewer <= read
    ensures Answered(site, fewer, fragments)
  {
  }

  /** Each search is as near as what a page offers. */
  ghost predicate Searchable(now: State, searches: seq<Address>)
  {
    forall address :: address in searches ==> address in now.variants && now.variants[address] <= 1
  }

  lemma StillSearchable(before: State, now: State, searches: seq<Address>)
    requires Searchable(before, searches) && Grew(before, now)
    ensures Searchable(now, searches)
  {
  }

  lemma GrewTells(site: Site, before: State, now: State, text: Text, depth: nat)
    requires Grew(before, now) && Told(site, before, text, depth)
    ensures Told(site, now, text, depth)
  {
  }

  lemma GrewOffers(site: Site, before: State, now: State, text: Text, depth: nat)
    requires Grew(before, now) && Offers(site, before.variants, text, depth)
    ensures Offers(site, now.variants, text, depth)
    ensures Knows(site, now.variants, text)
  {
  }

  lemma GrewBySaving(start: State, now: State, key: Key, address: Address, text: Text)
    requires Grew(start, now) && now.saved == start.saved && key !in now.saved
    ensures Grew(start, now.(saved := now.saved[key := text], owners := now.owners[key := address]))
    ensures |now.saved[key := text]| == |now.saved| + 1
  {
  }

  lemma GainedBySaving(start: State, first: State, now: State, copies: seq<Text>, key: Key, text: Text)
    requires copies != [] && copies[|copies| - 1] == text && Gained(start, first, copies[..|copies| - 1]) && first.saved == start.saved
    requires now.saved == first.saved[key := text] && now.fragments == first.fragments
    ensures Gained(start, now, copies)
  {
    assert copies == copies[..|copies| - 1] + [text];
  }

  lemma GainedStill(start: State, first: State, now: State, texts: seq<Text>)
    requires Gained(start, first, texts) && now.saved == first.saved && now.fragments == first.fragments
    ensures Gained(start, now, texts)
  {
  }

  /** An address that was gone through leaves the round's list. */
  lemma CopyIsSettled(site: Site, start: State, now: State, address: Address, rest: seq<Address>)
    requires Good(site, now, [address] + rest) && Tried(start) && now.tried == start.tried
    requires site.keyOf(address) in now.saved ==>
               Offers(site, now.variants, now.saved[site.keyOf(address)], Further(start.variants, address))
    requires Covered(site, now, address)
    ensures Good(site, now, rest)
  {
    hide Good;
    SettledIsGood(site, now, address, rest);
  }

  lemma SinceRefused(site: Site, before: State, now: State)
    requires now == before.(refused := now.refused)
    ensures Since(site, before, now, []) && Still(before, now)
  {
    SinceNone(site, before, now);
  }

  lemma GrewByScript(site: Site, before: State, now: State, address: Address, text: Text)
    requires address in before.scripted && site.read(address).answer == Some(text) && site.read(address).part !in before.fragments
    requires var part := site.read(address).part;
             now == before.(fragments := before.fragments[part := text], askers := before.askers[part := OfScript(address)])
    ensures Since(site, before, now, [text])
  {
    GrewByAnswering(before, now, site.read(address).part, text, OfScript(address));
    hide Grew, Offers;
  }

  lemma HasStill(site: Site, before: State, now: State, regions: seq<Region>)
    requires Grew(before, now)
    ensures Has(before.fragments, regions) ==> Has(now.fragments, regions)
  {
  }

  /** How far what a copy of this address offers is: one further than it. */
  function Further(variants: map<Address, nat>, address: Address): nat
  {
    (if address in variants then variants[address] else COPY_DEPTH) + 1
  }

  /** What a round comes to: what was due asked for, its copies saved, and then
      what they link walked. */
  lemma Rounded(site: Site, start: State, copied: State, walked: State, texts: seq<Text>)
    requires Followed(site, start)
    requires Good(site, copied, []) && Since(site, start, copied, texts)
    requires Grew(copied, walked) && walked.saved == copied.saved && Loads(site, copied, walked)
    requires walked.tried == copied.tried && walked.refused == copied.refused && walked.owners == copied.owners
    requires PagesOffer(site, walked) && |walked.seen| <= MOST_PAGES
    requires |walked.seen| < MOST_PAGES ==> Closed(site, walked.seen, []) && Linked(site, walked.seen, [], LinksOf(texts))
    requires |walked.seen| < MOST_PAGES ==> LoadsLinked(site, walked.seen, walked.fragments, [])
    ensures Good(site, walked, []) && Grew(start, walked) && Followed(site, walked) && Loads(site, start, walked)
  {
    GrewTwice(start, copied, walked);
    LoadsTwice(site, start, copied, walked);
    hide Grew, Holds, Tried, SettledBut, ListedBut, PagesOffer, Closed, Linked, Nearer, Loads, LoadsLinked, Gained;
    GrewIsGood(site, copied, walked, []);
    hide Followed;
    WalkFollows(site, start, copied, walked, texts);
  }

  /** What is tried says nothing of what was saved or kept. */
  lemma SinceAsked(site: Site, start: State, asked: State, copied: State, texts: seq<Text>)
    requires asked == start.(tried := asked.tried)
    requires Since(site, asked, copied, texts)
    ensures Since(site, start, copied, texts)
  {
    hide Asked, Has;
  }

  /** What a visited path comes to: its texts' offers known as one copy from a
      page, its partial loads kept, and every link of theirs returned, the
      partial loads' first. */
  ghost predicate Visited(site: Site, path: Path, were: State, now: State, links: seq<Path>)
  {
    match site.page(path)
    case Page(text, regions) =>
      var answers := NewAnswers(regions, were.fragments.Keys);
      Told(site, now, text, 1) && AllOffer(site, now.variants, answers, 1)
      && Has(now.fragments, regions) && Gained(were, now, answers) && links == LinksOf(answers) + text.links
    case Moved(target) => Gained(were, now, []) && links == if site.wanted(target) then [target] else []
    case Refused(_) => Gained(were, now, []) && links == []
  }

  /** What holds of a walk wherever it has got to. */
  ghost predicate Walking(site: Site, begun: State, now: State, queue: seq<Path>, start: seq<Path>)
  {
    && Grew(begun, now) && NewWithin(begun, now, 1) && Loads(site, begun, now) && PagesOffer(site, now)
    && (|now.seen| < MOST_PAGES ==>
          Closed(site, now.seen, queue) && Linked(site, now.seen, queue, start) && LoadsLinked(site, now.seen, now.fragments, queue))
    && (|now.seen| == |begun.seen| ==> now.variants == begun.variants && now.scripted == begun.scripted)
  }

  lemma WalkBegins(site: Site, now: State, start: seq<Path>)
    requires PagesOffer(site, now)
    requires |now.seen| < MOST_PAGES ==> Closed(site, now.seen, []) && LoadsLinked(site, now.seen, now.fragments, start)
    ensures Walking(site, now, now, start, start)
  {
    hide LoadsLinked, PagesOffer;
    LoadsNone(site, now, now);
    assert forall path :: path in now.seen && Closed(site, now.seen, []) && site.page(path).Page? ==>
        Linked(site, now.seen, [], site.page(path).text.links);
  }

  /** A path that needs no visit leaves the queue. */
  lemma Skipped(site: Site, begun: State, now: State, queue: seq<Path>, start: seq<Path>)
    requires queue != [] && (queue[0] in now.seen || !site.wanted(queue[0]))
    requires Walking(site, begun, now, queue, start)
    ensures Walking(site, begun, now, queue[1..], start)
  {
    hide Grew, NewWithin, Loads, PagesOffer;
    assert forall path :: path in queue ==> path == queue[0] || path in queue[1..];
  }

  /** A path that was visited leaves the queue, and its links join it. */
  lemma VisitFollows(site: Site, were: State, marked: State, now: State, path: Path, queue: seq<Path>, start: seq<Path>, links: seq<Path>)
    requires path !in were.seen && queue != [] && queue[0] == path
    requires marked == were.(seen := were.seen + {path}) && now.seen == marked.seen
    requires Visited(site, path, marked, now, links)
    ensures Closed(site, were.seen, queue) ==> Closed(site, now.seen, queue[1..] + links)
    ensures Linked(site, were.seen, queue, start) ==> Linked(site, now.seen, queue[1..] + links, start)
  {
    assert forall other :: other in queue ==> other == path || other in queue[1..];
    hide AllOffer, NewAnswers, LinksOf, Has, Gained, Told;
  }

  /** What it offers is known. */
  lemma VisitOffers(site: Site, were: State, marked: State, now: State, path: Path, links: seq<Path>)
    requires PagesOffer(site, were) && path !in were.seen
    requires marked == were.(seen := were.seen + {path}) && Grew(marked, now) && now.seen == marked.seen && NewWithin(marked, now, 1)
    requires Visited(site, path, marked, now, links)
    ensures Grew(were, now) && NewWithin(were, now, 1) && PagesOffer(site, now)
  {
    assert |were.seen + {path}| == |were.seen| + 1;
    GrewTwice(were, marked, now);
    PagesStillOffer(site, were, now.(seen := were.seen));
    hide AllOffer, NewAnswers, LinksOf, Has, Gained;
  }

  /** So do the links of its partial loads. */
  lemma VisitLoads(site: Site, were: State, marked: State, now: State, path: Path, queue: seq<Path>, links: seq<Path>)
    requires queue != [] && queue[0] == path
    requires marked == were.(seen := were.seen + {path}) && Grew(marked, now) && now.seen == marked.seen && now.saved == were.saved
    requires Visited(site, path, marked, now, links) && Loads(site, marked, now)
    ensures Loads(site, were, now)
    ensures LoadsLinked(site, were.seen, were.fragments, queue) ==> LoadsLinked(site, now.seen, now.fragments, queue[1..] + links)
  {
    assert forall other :: other in queue ==> other == path || other in queue[1..];
    hide AllOffer, NewAnswers, Offers, Asked, Has;
  }

  /** A walk one visit on. */
  lemma VisitWalks(site: Site, begun: State, were: State, marked: State, now: State, path: Path, queue: seq<Path>, start: seq<Path>, links: seq<Path>)
    requires Walking(site, begun, were, queue, start) && |were.seen| < MOST_PAGES
    requires path !in were.seen && queue != [] && queue[0] == path
    requires marked == were.(seen := were.seen + {path}) && Grew(marked, now) && now.seen == marked.seen && NewWithin(marked, now, 1)
    requires Visited(site, path, marked, now, links) && Loads(site, marked, now) && now.saved == were.saved
    ensures Walking(site, begun, now, queue[1..] + links, start) && |now.seen| == |were.seen| + 1
  {
    VisitFollows(site, were, marked, now, path, queue, start, links);
    VisitOffers(site, were, marked, now, path, links);
    VisitLoads(site, were, marked, now, path, queue, links);
    LoadsTwice(site, begun, were, now);
    NewWithinTwice(begun, were, now, 1);
    GrewCounts(begun, were);
    hide Grew, NewWithin, Loads, PagesOffer, Visited, Linked, Closed, LoadsLinked;
    assert |were.seen + {path}| == |were.seen| + 1;
  }

  lemma WalkEnds(site: Site, begun: State, now: State, queue: seq<Path>, start: seq<Path>)
    requires Walking(site, begun, now, queue, start) && (queue == [] || |now.seen| >= MOST_PAGES)
    ensures Grew(begun, now) && PagesOffer(site, now) && NewWithin(begun, now, 1) && Still(begun, now) && Loads(site, begun, now)
    ensures |now.seen| < MOST_PAGES ==>
              Closed(site, now.seen, []) && Linked(site, now.seen, [], start) && LoadsLinked(site, now.seen, now.fragments, [])
  {
    hide Grew, NewWithin, Loads, PagesOffer, Linked, Closed, LoadsLinked;
  }

  lemma WalkCanStart(site: Site, start: State, now: State)
    requires Followed(site, start) && Good(site, now, []) && now.seen == start.seen
    ensures PagesOffer(site, now) && |now.seen| <= MOST_PAGES && (|now.seen| < MOST_PAGES ==> Closed(site, now.seen, []))
  {
    hide LoadsLinked, Linked;
  }

  /** Answers kept change nothing that is promised of pages and copies. */
  lemma OnlyAnswers(site: Site, start: State, now: State)
    requires Good(site, start, [])
    requires now == start.(fragments := now.fragments, askers := now.askers) && Grew(start, now)
    ensures Good(site, now, []) && Still(start, now)
  {
    hide Closed, Linked, Offers;
    assert PagesOffer(site, now);
    GrewIsGood(site, start, now, []);
  }

  /** What holds after any number of rounds. */
  ghost predicate Going(site: Site, begun: State, now: State, searches: seq<Address>, read: set<Address>, paletted: bool)
  {
    && Good(site, now, []) && Followed(site, now) && Searchable(now, searches) && Answered(site, read, now.fragments.Keys)
    && Grew(begun, now) && Loads(site, begun, now)
    && (paletted ==> Has(now.fragments, site.palette))
    && (!paletted ==> now.tried == begun.tried)
  }

  lemma Begins(site: Site, begun: State, now: State, searches: seq<Address>)
    requires Good(site, now, []) && Followed(site, now) && Searchable(now, searches) && Grew(begun, now)
    requires now == begun.(variants := now.variants)
    ensures Going(site, begun, now, searches, {}, false) && |now.seen| <= MOST_PAGES && |now.saved| <= MOST_VARIANTS
  {
    GoodIsCapped(site, now, []);
    LoadsNone(site, begun, now);
  }

  lemma GoingIs(site: Site, begun: State, now: State, searches: seq<Address>, read: set<Address>, paletted: bool)
    requires Going(site, begun, now, searches, read, paletted)
    ensures Good(site, now, []) && Followed(site, now) && Searchable(now, searches) && Answered(site, read, now.fragments.Keys)
    ensures Grew(begun, now) && Loads(site, begun, now) && (now.tried == begun.tried || Has(now.fragments, site.palette))
  {
    hide Good, Followed, Searchable, Answered, Grew, Loads, Has;
  }

  lemma GoesOn(site: Site, begun: State, start: State, now: State, searches: seq<Address>, read: set<Address>, more: set<Address>,
               paletted: bool, after: bool)
    requires Going(site, begun, start, searches, read, paletted) && Good(site, now, []) && Followed(site, now)
    requires Grew(start, now) && Loads(site, start, now)
    requires more == read || Answered(site, more, now.fragments.Keys)
    requires if after && !paletted then Has(now.fragments, site.palette) else after == paletted && (after || now.tried == start.tried)
    ensures Going(site, begun, now, searches, more, after)
    ensures |start.seen| <= |now.seen| <= MOST_PAGES && |start.saved| <= |now.saved| <= MOST_VARIANTS
  {
    GoodIsCapped(site, now, []);
    GrewCounts(start, now);
    hide Good, Followed, Grew, Loads, Searchable, Answered, Has;
    StillSearchable(start, now, searches);
    StillAnswered(site, start, now, read);
    GrewTwice(begun, start, now);
    LoadsTwice(site, begun, start, now);
    HasStill(site, start, now, site.palette);
  }

  /** While no page and no copy is saved, there is less left to ask for. */
  ghost predicate Less(before: State, now: State)
  {
    |now.seen| == |before.seen| && |now.saved| == |before.saved| ==> Sum(Unasked(now)) < Sum(Unasked(before))
  }

  lemma AskingLess(site: Site, start: State, asked: State, copied: State, walked: State, pending: seq<Address>, texts: seq<Text>)
    requires pending != [] && forall address :: address in pending <==> address in Due(start.variants, start.tried)
    requires asked == start.(tried := Asking(start.variants, start.tried)) && walked.tried == asked.tried
    requires Since(site, start, copied, texts) && Grew(copied, walked)
    ensures Still(asked, copied) && Still(copied, walked) ==> Less(start, walked)
  {
    assert pending[0] in pending;
    GrewTwice(asked, copied, walked);
    if Still(asked, walked) && |walked.seen| == |start.seen| && |walked.saved| == |start.saved| {
      AskingFalls(start, walked);
    }
  }

  lemma GoodOffers(site: Site, now: State, left: seq<Address>)
    requires Good(site, now, left)
    ensures PagesOffer(site, now) && |now.seen| <= MOST_PAGES
  {
    hide PagesOffer;
  }

  lemma GrewNone(now: State)
    ensures Grew(now, now)
  {
  }

  lemma NoneDue(variants: map<Address, nat>, tried: map<Address, nat>, pending: seq<Address>)
    requires forall address :: address in pending <==> address in Due(variants, tried)
    ensures pending == [] ==> Due(variants, tried) == {}
  {
    assert forall address :: address in Due(variants, tried) ==> address in pending;
  }

  lemma GrewCounts(before: State, now: State)
    requires Grew(before, now)
    ensures |before.seen| <= |now.seen| && |before.saved| <= |now.saved|
  {
  }

  lemma GoodIsCapped(site: Site, now: State, left: seq<Address>)
    requires Good(site, now, left)
    ensures |now.seen| <= MOST_PAGES && |now.saved| <= MOST_VARIANTS && Tried(now)
  {
  }

  lemma UnaskedStill(start: State, now: State)
    requires Still(start, now) && now.tried == start.tried && now.saved == start.saved
    ensures |now.seen| == |start.seen| ==> Unasked(start) == Unasked(now) && now.scripted == start.scripted
  {
  }

  class Crawl {
    const site: Site

    var variants: map<Address, nat>
    var scripted: set<Address>
    var refused: map<Key, nat>
    var tried: map<Address, nat>
    var saved: map<Key, Text>
    var seen: set<Path>
    var fragments: map<Part, Text>
    ghost var askers: map<Part, Asker>
    ghost var owners: map<Key, Address>

    ghost function Now(): State
      reads this
    {
      State(variants, scripted, refused, tried, saved, seen, fragments, askers, owners)
    }

    constructor (site: Site)
      ensures this.site == site && Now() == EMPTY
    {
      this.site := site;
      variants, scripted, refused, tried, saved, seen, fragments := map[], {}, map[], map[], map[], {}, map[];
      askers, owners := map[], map[];
    }

    /** What a text offers, `depth` copies from a page. */
    method Read(text: Text, depth: nat)
      modifies `variants, `scripted
      ensures forall address :: address in variants <==> address in old(variants) || Worthy(site, text, address)
      ensures forall address :: address in variants ==>
                variants[address] == if !Worthy(site, text, address) then old(variants)[address]
                                     else if address in old(variants) && old(variants)[address] < depth then old(variants)[address]
                                     else depth
      ensures scripted == old(scripted) + text.scripted
      ensures Grew(old(Now()), Now()) && Offers(site, variants, text, depth)
    {
      var left := text.offers;
      while left != {}
        invariant left <= text.offers && scripted == old(scripted)
        invariant forall address :: address in variants <==> address in old(variants) || (Worthy(site, text, address) && address !in left)
        invariant forall address :: address in variants ==>
                    variants[address] == if !Worthy(site, text, address) || address in left then old(variants)[address]
                                         else if address in old(variants) && old(variants)[address] < depth then old(variants)[address]
                                         else depth
        decreases left
      {
        var address :| address in left;
        left := left - {address};
        if site.worth(address) {
          var known := if address in variants then variants[address] else depth;
          variants := variants[address := if known < depth then known else depth];
        }
      }
      scripted := scripted + text.scripted;
    }

    /** One answer kept under its address and part, once. */
    method SaveAnswer(region: Region, ghost asker: Asker) returns (answer: Option<Text>)
      modifies `fragments, `askers
      ensures answer == if region.part in old(fragments) then None else region.answer
      ensures fragments == if answer.Some? then old(fragments)[region.part := answer.value] else old(fragments)
      ensures askers == if answer.Some? then old(askers)[region.part := asker] else old(askers)
    {
      if region.part in fragments {
        return None;
      }
      answer := region.answer;
      if answer.Some? {
        fragments := fragments[region.part := answer.value];
        askers := askers[region.part := asker];
      }
    }

    /** One partial load, read as it says if it is not kept yet. */
    method ReadRegion(region: Region, depth: nat, ghost asker: Asker) returns (answer: Option<Text>)
      modifies `variants, `scripted, `fragments, `askers
      ensures answer == if region.part in old(fragments) then None else region.answer
      ensures fragments == if answer.Some? then old(fragments)[region.part := answer.value] else old(fragments)
      ensures askers == if answer.Some? then old(askers)[region.part := asker] else old(askers)
      ensures Grew(old(Now()), Now()) && NewWithin(old(Now()), Now(), depth)
      ensures answer.Some? ==> Offers(site, variants, answer.value, depth) && Told(site, Now(), answer.value, depth)
      ensures answer == None ==> Now() == old(Now())
    {
      hide Grew, Offers;
      ghost var start := Now();
      NoAnswers(site, start, depth);
      answer := SaveAnswer(region, asker);
      if answer.Some? {
        ghost var kept := Now();
        GrewByAnswering(start, kept, region.part, answer.value, asker);
        Read(answer.value, depth);
        GrewTwice(start, kept, Now());
      }
    }

    /** The partial loads of a page, each read as it says, `depth` copies from a page. */
    method ReadRegions(regions: seq<Region>, depth: nat, ghost asker: Asker) returns (answers: seq<Text>)
      modifies `variants, `scripted, `fragments, `askers
      ensures Grew(old(Now()), Now()) && NewWithin(old(Now()), Now(), depth)
      ensures answers == NewAnswers(regions, old(fragments.Keys)) && AllOffer(site, variants, answers, depth)
      ensures Loaded(site, old(Now()), Now(), regions, asker, depth) && Gained(old(Now()), Now(), answers)
    {
      hide NewAnswers, AllOffer, Grew, Offers, NewWithin, Loaded, Gained;
      answers := [];
      ghost var start := Now();
      NoAnswers(site, start, depth);
      LoadedFirst(site, start, asker, depth);
      assert regions[0..] == regions && regions[..0] == [];
      for i := 0 to |regions|
        invariant Grew(start, Now()) && NewWithin(start, Now(), depth) && AllOffer(site, variants, answers, depth)
        invariant answers + NewAnswers(regions[i..], fragments.Keys) == NewAnswers(regions, start.fragments.Keys)
        invariant Loaded(site, start, Now(), regions[..i], asker, depth) && Gained(start, Now(), answers)
      {
        ghost var were := Now();
        AnswersMore(regions, i, fragments.Keys, answers);
        var answer := ReadRegion(regions[i], depth, asker);
        assert regions[..i + 1] == regions[..i] + [regions[i]];
        if answer.Some? {
          assert fragments.Keys == were.fragments.Keys + {regions[i].part};
          NewWithinTwice(start, were, Now(), depth);
          AllOfferMore(site, were, Now(), answers, answer.value, depth);
          LoadedMore(site, start, were, Now(), regions[..i], asker, depth, regions[i]);
          GainedMore(start, were, Now(), answers, regions[i].part, answer.value);
          answers := answers + [answer.value];
        } else {
          LoadedSame(site, start, were, regions[..i], asker, depth, regions[i]);
        }
      }
      AnswersEnd(regions, fragments.Keys, answers);
      assert regions[..|regions|] == regions;
    }

    /** Saves what a path answers, and returns the links to queue. */
    method Visit(path: Path) returns (links: seq<Path>)
      requires path in seen
      modifies `variants, `scripted, `fragments, `askers
      ensures Grew(old(Now()), Now()) && NewWithin(old(Now()), Now(), 1)
      ensures Visited(site, path, old(Now()), Now(), links) && Loads(site, old(Now()), Now())
    {
      match site.page(path)
      case Moved(target) =>
        return if site.wanted(target) then [target] else [];
      case Refused(_) =>
        return [];
      case Page(text, regions) =>
        ghost var start := Now();
        hide Grew, Offers, AllOffer, NewAnswers, LinksOf, Loaded, Loads, Has;
        var answers := ReadRegions(regions, 1, OfPage(path));
        ghost var answered := Now();
        Read(text, 1);
        AllStillOffer(site, answered, Now(), answers, 1);
        NewWithinTwice(start, answered, Now(), 1);
        LoadedStill(site, start, answered, Now(), regions, OfPage(path), 1);
        LoadedLoads(site, start, Now(), regions, OfPage(path), 1);
        LoadedHas(site, start, Now(), regions, OfPage(path), 1);
        links := LinksOf(answers) + text.links;
    }

    /** Saves every page reachable from a queue that is not saved yet. */
    method Walk(start: seq<Path>)
      requires PagesOffer(site, Now()) && |seen| <= MOST_PAGES
      requires |seen| < MOST_PAGES ==> Closed(site, seen, []) && LoadsLinked(site, seen, fragments, start)
      modifies `variants, `scripted, `fragments, `askers, `seen
      ensures Grew(old(Now()), Now()) && PagesOffer(site, Now()) && |seen| <= MOST_PAGES
      ensures NewWithin(old(Now()), Now(), 1) && Still(old(Now()), Now()) && Loads(site, old(Now()), Now())
      ensures |seen| < MOST_PAGES ==>
                Closed(site, seen, []) && Linked(site, seen, [], start) && LoadsLinked(site, seen, fragments, [])
    {
      hide Walking, Grew, NewWithin, PagesOffer, Closed, Linked, Visited, Loads, LoadsLinked, Still;
      var queue := start;
      ghost var begun := Now();
      WalkBegins(site, begun, start);
      while queue != [] && |seen| < MOST_PAGES
        invariant Walking(site, begun, Now(), queue, start) && |seen| <= MOST_PAGES
        decreases MOST_PAGES - |seen|, |queue|
      {
        var path := queue[0];
        ghost var were, before := Now(), queue;
        queue := queue[1..];
        if path in seen || !site.wanted(path) {
          Skipped(site, begun, were, before, start);
          continue;
        }
        seen := seen + {path};
        ghost var marked := Now();
        var links := Visit(path);
        VisitWalks(site, begun, were, marked, Now(), path, before, start, links);
        queue := queue + links;
      }
      WalkEnds(site, begun, Now(), queue, start);
    }

    /** The addresses still to copy, each once: nearest first, and as text
        where they are as near. */
    method UnsavedCopies() returns (pending: seq<Address>)
      ensures forall address :: address in pending <==> address in Due(variants, tried)
      ensures NearestFirst(variants, pending)
      ensures pending == [] ==> Due(variants, tried) == {}
    {
      pending := [];
      var due := Due(variants, tried);
      var left := due;
      hide AtMost, Ahead;
      while left != {}
        invariant left <= due
        invariant forall address :: address in pending <==> address in due && address !in left
        invariant NearestFirst(variants, pending)
        invariant forall i, address :: 0 <= i < |pending| && address in left ==> Ahead(variants, pending[i], address)
        decreases left
      {
        var nearest := NearestOf(variants, left);
        left := left - {nearest};
        assert forall i :: 0 <= i < |pending| ==> pending[i] in pending;
        pending := pending + [nearest];
      }
      NoneDue(variants, tried, pending);
    }

    /** Makes the numbered pages of a list known, at the depth of its copy. */
    method OfferPages(pages: seq<Address>, depth: nat)
      modifies `variants
      ensures forall address :: address in variants <==> address in old(variants) || address in pages
      ensures forall address :: address in variants ==>
                variants[address] == if address in old(variants) then old(variants)[address] else depth
      ensures Grew(old(Now()), Now())
    {
      for i := 0 to |pages|
        invariant forall address :: address in variants <==> address in old(variants) || address in pages[..i]
        invariant forall address :: address in variants ==>
                    variants[address] == if address in old(variants) then old(variants)[address] else depth
      {
        if pages[i] !in variants {
          variants := variants[pages[i] := depth];
        }
      }
    }

    /** A copy saved already is read again, as its address may be nearer now. */
    method ReadAgain(key: Key, further: nat, ghost left: seq<Address>)
      requires key in saved && Good(site, Now(), left)
      modifies `variants, `scripted
      ensures Good(site, Now(), left) && Grew(old(Now()), Now()) && Still(old(Now()), Now())
      ensures Offers(site, variants, saved[key], further)
    {
      Read(saved[key], further);
      assert variants.Keys == old(variants.Keys);
      assert scripted == old(scripted);
      hide Holds, Tried, SettledBut, ListedBut, Grew, Offers;
      PagesStillOffer(site, old(Now()), Now());
      GrewIsGood(site, old(Now()), Now(), left);
    }

    /** A copy and its partial loads, read as they say, and its list's pages made known. */
    method ReadCopy(text: Text, regions: seq<Region>, pages: seq<Address>, further: nat, ghost asker: Asker) returns (copies: seq<Text>)
      requires further > 0
      modifies `variants, `scripted, `fragments, `askers
      ensures Grew(old(Now()), Now()) && copies == NewAnswers(regions, old(fragments.Keys)) + [text]
      ensures Offers(site, variants, text, further) && AllOffer(site, variants, copies, further) && text.scripted <= scripted
      ensures Loaded(site, old(Now()), Now(), regions, asker, further)
      ensures Gained(old(Now()), Now(), copies[..|copies| - 1]) && forall page :: page in pages ==> page in variants
    {
      hide Offers, Grew, Loaded, Gained, AllOffer, NewAnswers;
      ghost var start := Now();
      var answers := ReadRegions(regions, further, asker);
      ghost var first := Now();
      Read(text, further);
      ghost var second := Now();
      AllOfferMore(site, first, second, answers, text, further);
      copies := answers + [text];
      OfferPages(pages, further - 1);
      ghost var third := Now();
      AllStillOffer(site, second, third, copies, further);
      GrewTwice(first, second, third);
      GrewTwice(start, first, third);
      GrewOffers(site, second, third, text, further);
      LoadedStill(site, start, first, third, regions, asker, further);
      GainedStill(start, first, third, answers);
      assert copies[..|copies| - 1] == answers;
    }

    /** A copy that was not saved. */
    method SaveNew(address: Address, text: Text, regions: seq<Region>, further: nat, ghost left: seq<Address>)
      returns (copies: seq<Text>, pages: seq<Address>)
      requires Good(site, Now(), left)
      requires site.keyOf(address) !in saved && |saved| < MOST_VARIANTS && further > 0 && site.copy(site.keyOf(address)) == Page(text, regions)
      modifies `variants, `scripted, `fragments, `askers, `saved, `owners
      ensures Good(site, Now(), left + pages) && Offers(site, variants, text, further)
      ensures saved == old(saved)[site.keyOf(address) := text] && |saved| == |old(saved)| + 1
      ensures copies == NewAnswers(regions, old(fragments.Keys)) + [text] && AllOffer(site, variants, copies, further)
      ensures pages == site.pagesOf(address)
      ensures Since(site, old(Now()), Now(), copies) && Still(old(Now()), Now())
    {
      hide Good, PagesOffer, Offers, Grew, Loaded, Loads, Gained, AllOffer, NewAnswers;
      ghost var start := Now();
      var key := site.keyOf(address);
      GoodOffers(site, start, left);
      pages := site.pagesOf(address);
      copies := ReadCopy(text, regions, pages, further, OfCopy(key, further - 1));
      ghost var last := Now();
      PagesStillOffer(site, start, last);
      GrewIsGood(site, start, last, left);
      GrewNone(last);
      GrewOffers(site, last, last, text, further);
      SavedIsGood(site, last, left, address);
      saved := saved[key := text];
      owners := owners[key := address];
      assert Now() == Saving(site, last, address);
      GrewBySaving(start, last, key, address, text);
      GrewBySaving(last, last, key, address, text);
      LoadedStill(site, start, last, Now(), regions, OfCopy(key, further - 1), further);
      LoadedLoads(site, start, Now(), regions, OfCopy(key, further - 1), further);
      GainedBySaving(start, last, Now(), copies, key, text);
    }

    method Refuse(key: Key, status: nat, ghost left: seq<Address>)
      requires Good(site, Now(), left) && RefusedWith(site, key, status)
      modifies `refused
      ensures refused == old(refused)[key := status]
      ensures Good(site, Now(), left + []) && Since(site, old(Now()), Now(), []) && Still(old(Now()), Now())
    {
      hide Good, Since, Still;
      ghost var start := Now();
      RefusedIsGood(site, start, left, key, status);
      refused := refused[key := status];
      SinceRefused(site, start, Now());
      assert left + [] == left;
    }

    /** Asks for an address that is not saved: its copy is, or what it is refused with. */
    method Ask(address: Address, further: nat, ghost left: seq<Address>) returns (copies: seq<Text>, pages: seq<Address>)
      requires Good(site, Now(), left) && site.keyOf(address) !in saved && |saved| < MOST_VARIANTS && further > 0
      modifies `variants, `scripted, `fragments, `askers, `saved, `owners, `refused
      ensures Good(site, Now(), left + pages) && Since(site, old(Now()), Now(), copies) && Still(old(Now()), Now())
      ensures if site.copy(site.keyOf(address)).Page?
              then saved == old(saved)[site.keyOf(address) := site.copy(site.keyOf(address)).text] && |saved| == |old(saved)| + 1
                   && pages == site.pagesOf(address) && AllOffer(site, variants, copies, further)
                   && Offers(site, variants, site.copy(site.keyOf(address)).text, further)
              else saved == old(saved) && site.keyOf(address) in refused && copies == [] && pages == []
    {
      hide Good, Since, AllOffer, Offers, Grew, Still;
      var key := site.keyOf(address);
      ghost var start := Now();
      match site.copy(key)
      case Page(text, regions) =>
        copies, pages := SaveNew(address, text, regions, further, left);
      case Refused(status) =>
        Refuse(key, status, left);
        return [], [];
      case Moved(_) =>
        Refuse(key, MOVED, left);
        return [], [];
    }

    /** Saves one address, unless it is saved, refused or one too many. */
    method SaveCopy(address: Address, ghost rest: seq<Address>) returns (copies: seq<Text>, pages: seq<Address>)
      requires Good(site, Now(), [address] + rest)
      modifies `variants, `scripted, `fragments, `askers, `saved, `owners, `refused
      ensures Good(site, Now(), rest + pages) && |saved| <= MOST_VARIANTS
      ensures Still(old(Now()), Now()) && Since(site, old(Now()), Now(), copies)
      ensures |old(saved)| <= |saved| && (|saved| == |old(saved)| ==> pages == [])
      ensures |saved| > |old(saved)| ==> AllOffer(site, variants, copies, Further(old(variants), address))
    {
      hide Good, Tried, Since, AllOffer, Offers, Grew, Still;
      var key := site.keyOf(address);
      var further := Further(variants, address);
      ghost var start, left := Now(), [address] + rest;
      copies, pages := [], [];
      assert left + [] == left;
      GoodIsCapped(site, start, left);
      if key in saved {
        ReadAgain(key, further, left);
        SinceNone(site, start, Now());
      } else if |saved| < MOST_VARIANTS {
        copies, pages := Ask(address, further, left);
      } else {
        SinceRefused(site, start, start);
      }
      assert left + pages == [address] + (rest + pages);
      CopyIsSettled(site, start, Now(), address, rest + pages);
      GoodIsCapped(site, Now(), rest + pages);
    }

    /** Goes through what is asked for, the pages of the lists it meets added at
        the end as long as there is room. What is saved already is read again,
        as what it offers may be nearer now. */
    method SaveCopies(pending: seq<Address>) returns (copies: seq<Text>)
      requires Good(site, Now(), pending)
      modifies `variants, `scripted, `fragments, `askers, `saved, `owners, `refused
      ensures Good(site, Now(), []) && Still(old(Now()), Now()) && Since(site, old(Now()), Now(), copies)
    {
      copies := [];
      ghost var start := Now();
      SinceRefused(site, start, start);
      assert |saved| <= MOST_VARIANTS;
      hide Good, Still, Since, AllOffer;
      var asked, i := pending, 0;
      LeftAre(site, Now(), asked, 0);
      while i < |asked|
        invariant i <= |asked| && Good(site, Now(), asked[i..]) && |saved| <= MOST_VARIANTS
        invariant Still(start, Now()) && Since(site, start, Now(), copies)
        decreases MOST_VARIANTS - |saved|, |asked| - i
      {
        LeftAre(site, Now(), asked, i);
        ghost var were := Now();
        var texts, pages := SaveCopy(asked[i], asked[i + 1..]);
        i := i + 1;
        SinceTwice(site, start, were, Now(), copies, texts);
        copies := copies + texts;
        LeftMore(site, Now(), asked, i, pages);
        asked := asked + pages;
      }
      LeftAre(site, Now(), asked, i);
    }

    /** Keeps the answers to what scripts ask and that are not read yet. */
    method SaveReads(read: set<Address>) returns (answers: seq<Text>)
      requires Answered(site, read, fragments.Keys)
      modifies `fragments, `askers
      ensures Since(site, old(Now()), Now(), answers)
      ensures Answered(site, read + scripted, fragments.Keys)
      ensures answers == [] ==> Now() == old(Now())
      ensures scripted <= read ==> answers == []
    {
      answers := [];
      var unread := scripted - read;
      ghost var start := Now();
      SinceRefused(site, start, start);
      hide Since;
      while unread != {}
        invariant unread <= scripted - read
        invariant Answered(site, (read + scripted) - unread, fragments.Keys)
        invariant scripted <= read ==> answers == []
        invariant Since(site, start, Now(), answers)
        invariant answers == [] ==> Now() == start
        decreases unread
      {
        var address :| address in unread;
        unread := unread - {address};
        ghost var were := Now();
        var answer := SaveAnswer(site.read(address), OfScript(address));
        if answer.Some? {
          GrewByScript(site, were, Now(), address, answer.value);
          SinceTwice(site, start, were, Now(), answers, [answer.value]);
          answers := answers + [answer.value];
        }
      }
      assert (read + scripted) - unread == read + scripted;
    }

    /** The copies a round asks for and, in the first, the command center's
        answers, which are a copy's worth from a page. */
    method Copies(pending: seq<Address>, paletted: bool) returns (texts: seq<Text>)
      requires Good(site, Now(), pending)
      modifies `variants, `scripted, `fragments, `askers, `saved, `owners, `refused
      ensures Good(site, Now(), []) && Since(site, old(Now()), Now(), texts)
      ensures paletted ==> Still(old(Now()), Now())
      ensures !paletted ==> Has(fragments, site.palette)
    {
      ghost var start := Now();
      texts := SaveCopies(pending);
      if paletted {
        return;
      }
      hide Since, Good;
      ghost var copied := Now();
      var answers := Palette();
      SinceTwice(site, start, copied, Now(), texts, answers);
      texts := texts + answers;
    }

    /** What the command center answers each search with. */
    method Palette() returns (answers: seq<Text>)
      requires Good(site, Now(), [])
      modifies `variants, `scripted, `fragments, `askers
      ensures Good(site, Now(), []) && Since(site, old(Now()), Now(), answers) && Has(fragments, site.palette)
    {
      hide Holds, Tried, SettledBut, ListedBut, PagesOffer, Grew, Loads, Loaded, Gained, Has;
      ghost var start := Now();
      answers := ReadRegions(site.palette, 2, OfPalette);
      PagesStillOffer(site, start, Now());
      GrewIsGood(site, start, Now(), []);
      LoadedLoads(site, start, Now(), site.palette, OfPalette, 2);
      LoadedHas(site, start, Now(), site.palette, OfPalette, 2);
    }

    /** One round: what is due is asked for, and the pages its copies link saved. */
    method Round(pending: seq<Address>, paletted: bool)
      requires Good(site, Now(), []) && Followed(site, Now())
      requires pending != [] && forall address :: address in pending <==> address in Due(variants, tried)
      modifies this
      ensures Good(site, Now(), []) && Followed(site, Now()) && Grew(old(Now()), Now()) && Loads(site, old(Now()), Now())
      ensures paletted ==> Less(old(Now()), Now())
      ensures !paletted ==> Has(fragments, site.palette)
    {
      hide Good, Followed, Due, Asking, Less, Holds, Tried, SettledBut, ListedBut, PagesOffer, Grew, Still, Closed, Linked, LoadsLinked,
           Gained, Loads, Has, Since;
      ghost var start := Now();
      AskedIsGood(site, start, pending);
      tried := Asking(variants, tried);
      ghost var asked := Now();
      var texts := Copies(pending, paletted);
      ghost var copied := Now();
      WalkCanStart(site, start, copied);
      SinceAsked(site, start, asked, copied, texts);
      LoadsQueued(site, start, copied, texts);
      Walk(LinksOf(texts));
      ghost var walked := Now();
      Rounded(site, start, copied, walked, texts);
      AskingLess(site, start, asked, copied, walked, pending, texts);
      HasStill(site, copied, walked, site.palette);
    }

    /** What the scripts read that was not read yet, and the pages it links. */
    method ReadScripts(read: set<Address>) returns (more: set<Address>, done: bool)
      requires Good(site, Now(), []) && Followed(site, Now()) && Answered(site, read, fragments.Keys)
      modifies this
      ensures Good(site, Now(), []) && Followed(site, Now()) && Answered(site, more, fragments.Keys)
      ensures Grew(old(Now()), Now()) && Loads(site, old(Now()), Now())
      ensures tried == old(tried) && saved == old(saved) && Still(old(Now()), Now())
      ensures done ==> Now() == old(Now()) && scripted <= more
      ensures !done ==> more == read + old(scripted) && !(old(scripted) <= read)
    {
      ghost var start := Now();
      var answers := SaveReads(read);
      more := read + scripted;
      if answers == [] {
        return more, true;
      }
      ghost var answered := Now();
      OnlyAnswers(site, start, answered);
      LoadsQueued(site, start, answered, answers);
      hide Holds, Tried, SettledBut, ListedBut, Nearer, Closed, Linked, LoadsLinked, Answered, Loads, Gained;
      Walk(LinksOf(answers));
      GrewTwice(start, answered, Now());
      GrewIsGood(site, answered, Now(), []);
      StillAnswered(site, answered, Now(), more);
      WalkFollows(site, start, answered, Now(), answers);
      LoadsTwice(site, start, answered, Now());
      return more, false;
    }

    /** Each search, one copy from a page as a page's own addresses are. */
    method Suggest(searches: seq<Address>)
      requires Good(site, Now(), []) && Followed(site, Now()) && forall address :: address in variants ==> variants[address] <= 1
      modifies `variants
      ensures Good(site, Now(), []) && Followed(site, Now()) && Searchable(Now(), searches) && Grew(old(Now()), Now())
    {
      ghost var start := Now();
      OfferPages(searches, 1);
      hide Holds, Tried, SettledBut, ListedBut, Nearer, Closed, Linked, LoadsLinked;
      PagesStillOffer(site, start, Now());
      GrewIsGood(site, start, Now(), []);
    }

    /** Every address with a query that was offered, up to so many copies from a
        page, saved or found refused; each page those copies link; and each
        answer a script reads. The command center answers once anything is asked for. */
    method SaveVariants(searches: seq<Address>)
      requires Good(site, Now(), []) && Followed(site, Now())
      requires forall address :: address in variants ==> variants[address] <= 1
      modifies this
      ensures Good(site, Now(), []) && Followed(site, Now()) && Searchable(Now(), searches) && Due(variants, tried) == {}
      ensures Answered(site, scripted, fragments.Keys) && Grew(old(Now()), Now()) && Loads(site, old(Now()), Now())
      ensures tried == old(tried) || Has(fragments, site.palette)
    {
      hide Going, Good, Followed, Searchable, Sum, Unasked, Answered, Loads, Has, Grew, Due, Still;
      ghost var begun := Now();
      Suggest(searches);
      Begins(site, begun, Now(), searches);
      var read, paletted, done := {}, false, false;
      while !done
        invariant Going(site, begun, Now(), searches, read, paletted) && |seen| <= MOST_PAGES && |saved| <= MOST_VARIANTS
        invariant done ==> Due(variants, tried) == {} && scripted <= read
        decreases MOST_PAGES - |seen|, MOST_VARIANTS - |saved|, if paletted then 0 else 1, Sum(Unasked(Now())),
                  |scripted - read|, if done then 0 else 1
      {
        ghost var start, were, asked := Now(), read, paletted;
        GoingIs(site, begun, start, searches, read, paletted);
        var pending := UnsavedCopies();
        if pending != [] {
          Round(pending, paletted);
          paletted := true;
        } else {
          ghost var unread := scripted - read;
          read, done := ReadScripts(read);
          UnaskedStill(start, Now());
        }
        GoesOn(site, begun, start, Now(), searches, were, read, asked, paletted);
      }
      GoingIs(site, begun, Now(), searches, read, paletted);
      AnsweredFewer(site, read, scripted, fragments.Keys);
    }
  }

  /** Where the rounds end: nothing is due. */
  ghost predicate Finished(site: Site, now: State, searches: seq<Address>)
  {
    Good(site, now, []) && Searchable(now, searches) && Due(now.variants, now.tried) == {}
  }

  /** The fixpoint: with room left for more copies, every address so few text
      links from a page has been asked for at its final, smallest depth, and is
      saved or was refused. */
  lemma {:induction false} NearIsSaved(site: Site, now: State, searches: seq<Address>, way: seq<Address>)
    requires Finished(site, now, searches) && |now.saved| < MOST_VARIANTS
    requires Way(site, now.seen, searches, way) && |way| <= COPY_DEPTH
    ensures var address := way[|way| - 1];
            && address in now.tried && address in now.variants && now.tried[address] == now.variants[address] <= |way|
            && (site.keyOf(address) in now.saved || site.keyOf(address) in now.refused)
  {
    var address := way[|way| - 1];
    NearIsKnown(site, now, searches, way);
    hide Way, Holds, PagesOffer, Searchable;
    assert address !in Due(now.variants, now.tried);
    assert Settled(site, now, address, now.tried[address]);
  }

  lemma {:induction false} NearIsKnown(site: Site, now: State, searches: seq<Address>, way: seq<Address>)
    requires Finished(site, now, searches) && |now.saved| < MOST_VARIANTS
    requires Way(site, now.seen, searches, way) && |way| <= COPY_DEPTH
    ensures way[|way| - 1] in now.variants && now.variants[way[|way| - 1]] <= |way|
    decreases |way|
  {
    hide Good, Due, OnAPage, CopyLinks;
    var last := |way| - 1;
    if last == 0 {
      if way[0] !in searches {
        OnAPageIsKnown(site, now, way[0]);
      }
    } else {
      NearIsKnown(site, now, searches, way[..last]);
      LinkIsKnown(site, now, last, way[last - 1], way[last]);
    }
  }

  lemma OnAPageIsKnown(site: Site, now: State, address: Address)
    requires Good(site, now, []) && OnAPage(site, now.seen, address)
    ensures address in now.variants && now.variants[address] <= 1
  {
    var path :| path in now.seen && site.page(path).Page? && Worthy(site, site.page(path).text, address);
    hide Holds, Tried, SettledBut;
    assert Offers(site, now.variants, site.page(path).text, 1);
  }

  /** What a copy links is known as one further than it. */
  lemma LinkIsKnown(site: Site, now: State, copies: nat, nearer: Address, address: Address)
    requires Good(site, now, []) && Due(now.variants, now.tried) == {} && |now.saved| < MOST_VARIANTS && copies < COPY_DEPTH
    requires nearer in now.variants && now.variants[nearer] <= copies && CopyLinks(site, nearer, address)
    ensures address in now.variants && now.variants[address] <= copies + 1
  {
    hide PagesOffer;
    assert nearer !in Due(now.variants, now.tried);
    assert Settled(site, now, nearer, now.tried[nearer]);
    assert Offers(site, now.variants, now.saved[site.keyOf(nearer)], now.tried[nearer] + 1);
  }

  /** What was saved is what HQ answered, what was refused is refused with its
      status, and what each offers is known: a page's as one copy from it, a
      copy's as one further than its address. */
  ghost predicate SavedAre(site: Site, now: State)
  {
    && (forall key :: key in now.saved ==>
          site.copy(key).Page? && now.saved[key] == site.copy(key).text && now.saved[key].scripted <= now.scripted)
    && (forall key :: key in now.refused ==> RefusedWith(site, key, now.refused[key]))
    && (forall path :: path in now.seen && site.page(path).Page? ==> Told(site, now, site.page(path).text, 1))
    && (forall address :: address in now.tried ==>
          address in now.variants && now.variants[address] <= now.tried[address] <= COPY_DEPTH
          && (site.keyOf(address) in now.saved ==> Offers(site, now.variants, now.saved[site.keyOf(address)], now.tried[address] + 1)))
  }

  /** With room left for more copies, whatever is within reach was asked for,
      and is saved or was refused: by a way of links, at its least depth; by
      being known near enough; or by being a page of a list that is saved. */
  ghost predicate ReachIsAsked(site: Site, now: State, searches: seq<Address>)
  {
    |now.saved| < MOST_VARIANTS ==>
      && (forall way :: Way(site, now.seen, searches, way) && |way| <= COPY_DEPTH ==>
            var address := way[|way| - 1];
            address in now.tried && address in now.variants && now.tried[address] == now.variants[address] <= |way|
            && (site.keyOf(address) in now.saved || site.keyOf(address) in now.refused))
      && (forall address :: address in now.variants && now.variants[address] <= COPY_DEPTH ==>
            site.keyOf(address) in now.saved || site.keyOf(address) in now.refused)
      && (forall key :: key in now.saved ==>
            key in now.owners && site.keyOf(now.owners[key]) == key
            && forall page :: page in site.pagesOf(now.owners[key]) ==>
                 site.keyOf(page) in now.saved || site.keyOf(page) in now.refused)
  }

  /** Short of the most pages, every page is saved that a saved page, a copy or a
      partial load links, and the first. */
  ghost predicate LinksAreSaved(site: Site, now: State, first: Path)
  {
    |now.seen| < MOST_PAGES ==>
      Linked(site, now.seen, [], [first]) && Closed(site, now.seen, [])
      && (forall key :: key in now.saved ==> Linked(site, now.seen, [], now.saved[key].links))
      && forall part :: part in now.fragments ==> Linked(site, now.seen, [], now.fragments[part].links)
  }

  /** Every partial load that answers is kept, of saved pages and copies, of what
      scripts read and, once there is anything to ask for, of the command
      center; and each is what its asker was answered, read as its asker says. */
  ghost predicate LoadsAreKept(site: Site, now: State, searches: seq<Address>)
  {
    && Answered(site, now.scripted, now.fragments.Keys)
    && (forall path :: path in now.seen && site.page(path).Page? ==> Has(now.fragments, site.page(path).regions))
    && (forall key :: key in now.saved && site.copy(key).Page? ==> Has(now.fragments, site.copy(key).regions))
    && ((exists address :: address in searches || OnAPage(site, now.seen, address)) ==> Has(now.fragments, site.palette))
    && (forall part :: part in now.fragments ==>
          part in now.askers && Asked(site, now, part, now.fragments[part], now.askers[part]))
  }

  /** The whole crawl, from the first page. */
  method Crawled(site: Site, first: Path, searches: seq<Address>) returns (crawl: Crawl)
    ensures fresh(crawl) && crawl.site == site
    ensures SavedAre(site, crawl.Now())
    ensures ReachIsAsked(site, crawl.Now(), searches)
    ensures LinksAreSaved(site, crawl.Now(), first)
    ensures LoadsAreKept(site, crawl.Now(), searches)
  {
    hide Good, Followed, Searchable, Due, PagesOffer, Closed, Linked, LoadsLinked, Grew, Loads, Answered, Has, Still,
         SavedAre, ReachIsAsked, LinksAreSaved, LoadsAreKept;
    crawl := new Crawl(site);
    NothingYet(site, crawl.Now(), first);
    crawl.Walk([first]);
    ghost var walked := crawl.Now();
    WalkedFirst(site, walked);
    crawl.SaveVariants(searches);
    CrawlEnds(site, walked, crawl.Now(), first, searches);
  }

  /** What the rounds leave is all of it. */
  lemma CrawlEnds(site: Site, walked: State, now: State, first: Path, searches: seq<Address>)
    requires Finished(site, now, searches) && Followed(site, now) && Answered(site, now.scripted, now.fragments.Keys)
    requires Grew(walked, now) && Loads(site, EMPTY, walked) && Loads(site, walked, now)
    requires |walked.seen| < MOST_PAGES ==> Linked(site, walked.seen, [], [first])
    requires walked.tried == map[] && (now.tried == walked.tried || Has(now.fragments, site.palette))
    ensures SavedAre(site, now) && ReachIsAsked(site, now, searches) && LinksAreSaved(site, now, first) && LoadsAreKept(site, now, searches)
  {
    hide Good, Followed, Asked, Has, Told, Offers, Closed, Linked, LoadsLinked, Grew, Searchable, Due, PagesOffer;
    if |now.saved| < MOST_VARIANTS {
      forall way | Way(site, now.seen, searches, way) && |way| <= COPY_DEPTH
        ensures var address := way[|way| - 1];
                address in now.tried && address in now.variants
                && now.tried[address] == now.variants[address] <= |way|
                && (site.keyOf(address) in now.saved || site.keyOf(address) in now.refused)
      {
        NearIsSaved(site, now, searches, way);
      }
      NearAreSaved(site, now, searches);
    }
    StillReached(site, walked, now, [first]);
    LoadsTwice(site, EMPTY, walked, now);
    GoodHolds(site, now);
    if address :| address in searches || OnAPage(site, now.seen, address) {
      AskedForIsTried(site, now, searches, address);
    }
  }

  lemma GoodHolds(site: Site, now: State)
    requires Good(site, now, []) && Followed(site, now)
    ensures SavedAre(site, now)
    ensures |now.seen| < MOST_PAGES ==>
              Closed(site, now.seen, [])
              && (forall key :: key in now.saved ==> Linked(site, now.seen, [], now.saved[key].links))
              && forall part :: part in now.fragments ==> Linked(site, now.seen, [], now.fragments[part].links)
  {
    hide Offers, Knows, RefusedWith;
    forall address | address in now.tried && site.keyOf(address) in now.saved
      ensures Offers(site, now.variants, now.saved[site.keyOf(address)], now.tried[address] + 1)
    {
      assert Settled(site, now, address, now.tried[address]);
    }
  }

  lemma NothingYet(site: Site, now: State, first: Path)
    requires now == EMPTY
    ensures PagesOffer(site, now) && |now.seen| <= MOST_PAGES
    ensures Closed(site, now.seen, []) && LoadsLinked(site, now.seen, now.fragments, [first])
  {
  }

  lemma WalkedFirst(site: Site, walked: State)
    requires walked.refused == map[] && walked.tried == map[] && walked.saved == map[] && PagesOffer(site, walked) && |walked.seen| <= MOST_PAGES
    requires |walked.seen| < MOST_PAGES ==>
               Closed(site, walked.seen, []) && LoadsLinked(site, walked.seen, walked.fragments, [])
    ensures Good(site, walked, []) && Followed(site, walked)
  {
  }

  /** With room left for more copies, every address known near enough is saved
      or was refused, and so is every page of a list that is saved. */
  lemma NearAreSaved(site: Site, now: State, searches: seq<Address>)
    requires Finished(site, now, searches) && |now.saved| < MOST_VARIANTS
    ensures forall address :: address in now.variants && now.variants[address] <= COPY_DEPTH ==>
              site.keyOf(address) in now.saved || site.keyOf(address) in now.refused
    ensures forall key :: key in now.saved ==>
              key in now.owners && site.keyOf(now.owners[key]) == key
              && forall page :: page in site.pagesOf(now.owners[key]) ==>
                   site.keyOf(page) in now.saved || site.keyOf(page) in now.refused
  {
    hide Offers, Knows, PagesOffer, Searchable;
    forall address | address in now.variants && now.variants[address] <= COPY_DEPTH
      ensures site.keyOf(address) in now.saved || site.keyOf(address) in now.refused
    {
      assert address !in Due(now.variants, now.tried);
      assert Settled(site, now, address, now.tried[address]);
    }
  }

  /** What a page offers, or a search, was asked for. */
  lemma AskedForIsTried(site: Site, now: State, searches: seq<Address>, address: Address)
    requires Finished(site, now, searches) && (address in searches || OnAPage(site, now.seen, address))
    ensures address in now.tried
  {
    if address !in searches {
      OnAPageIsKnown(site, now, address);
    }
    assert address !in Due(now.variants, now.tried);
  }

  lemma StillReached(site: Site, walked: State, now: State, links: seq<Path>)
    requires Grew(walked, now) && (|walked.seen| < MOST_PAGES ==> Linked(site, walked.seen, [], links))
    ensures |now.seen| < MOST_PAGES ==> Linked(site, now.seen, [], links)
  {
  }
}
