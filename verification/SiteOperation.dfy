/**
 * A site operation: the frontier of one crawl and the loops that drive it, from the seed through sitemaps and search
 * results to the page loop. What the web answers is a parameter, and every claim holds for every answer.
 */
module SiteOperation {
  import opened Options
  import opened F = FrontierModel
  import opened SiteModel
  import opened CrawlFrontier
  import opened Coverage
  import opened SitemapModel

  datatype SitemapMode = Skip | Include | Only

  /** How the seed turns out: not to be asked, without content, led to an address without an origin, or a page. */
  datatype Seed = UnsafeSeed | SeedUnfetched(url: Url, code: nat) | SeedLost | SeedPage(link: Link)

  /** Everything outside the operation: what each stage meets, and when a cancellation request is seen. */
  datatype Site = Site(
    cancelledStarting: bool,
    seed: Seed,
    seedLinks: seq<Link>,
    roots: seq<Url>,
    sitemaps: nat -> Attempt,
    search: Option<seq<Link>>,
    pages: nat -> Page,
    cancelledLoading: nat -> bool,
    cancelledSearch: bool,
    cancelledCrawling: nat -> bool)

  datatype Outcome = SeedUnsafe | SeedFailure | NothingAdmitted | CancelledRun | RanToEnd

  /** No cancellation request is seen at any point. */
  ghost predicate NeverCancelled(site: Site) {
    && !site.cancelledStarting && !site.cancelledSearch
    && (forall n :: !site.cancelledLoading(n)) && (forall n :: !site.cancelledCrawling(n))
  }

  /** How the stages follow each other: sitemaps, then search results, then the seed's links, each if it is wanted. */
  ghost predicate Prepared(g: Stages, start: Frontier, p: Policy, mode: SitemapMode, site: Site) {
    && |g.before| == |g.tried| && TriedOnce(g.tried)
    && (mode == Skip ==> g.searching == start && g.tried == [])
    && (mode != Skip ==>
          && PagesTaken(g.before, g.entered, p, site.sitemaps)
          && OnlyListed(start, g.searching, p, site.sitemaps, |g.tried|))
    && (site.search.None? ==> g.linking == g.searching)
    && (site.search.Some? ==>
          && Expands(g.searching, g.linking, p, site.search.value, 0)
          && Took(g.searching, g.entered, p, site.search.value, 0))
    && if mode == Only || p.maxDepth == 0 then g.entered == g.linking
       else Expands(g.linking, g.entered, p, site.seedLinks, 1)
  }

  lemma IsPrepared(g: Stages, start: Frontier, p: Policy, mode: SitemapMode, site: Site, l: Load)
    requires g == Stages(l.tried, l.before, l.now, g.linking, g.entered)
    requires if mode == Skip then l == Load(start, [], {}, [], []) else Loading(start, p, site.roots, site.sitemaps, l)
    requires Gathering(start, l.now, p, 0) && Gathering(start, g.linking, p, 0) && Gathering(start, g.entered, p, 1)
    requires if site.search.Some? then Expands(g.searching, g.linking, p, site.search.value, 0)
             else g.linking == g.searching
    requires if mode != Only && p.maxDepth > 0 then Expands(g.linking, g.entered, p, site.seedLinks, 1)
             else g.entered == g.linking
    ensures Prepared(g, start, p, mode, site)
  {
    if site.search.Some? { StaysThrough(g.searching, g.linking, g.entered, p, site.search.value); }
    if mode != Skip {
      SameExtends(l.now, g.linking);
      SameExtends(g.linking, g.entered);
      PagesKept(l.before, l.now, g.linking, p, site.sitemaps);
      PagesKept(l.before, g.linking, g.entered, p, site.sitemaps);
    }
  }

  /** A stage that is left out changes nothing. */
  lemma SameExtends(f: Frontier, g: Frontier)
    ensures f == g ==> Extends(f, g)
  {
  }

  lemma StaysThrough(f: Frontier, g: Frontier, h: Frontier, p: Policy, links: seq<Link>)
    requires Took(f, g, p, links, 0) && FrontierOk(g, p, None) && FrontierOk(h, p, None)
    requires g == h || (Remembers(g, h, p) && Extends(g, h))
    ensures Took(f, h, p, links, 0)
  {
    if g != h { TookStays(f, g, h, p, links, 0); }
  }

  /** The page loop made this run from that frontier, to its end. */
  ghost predicate Crawled(entered: Frontier, p: Policy, site: Site, expand: bool, maxPages: nat, run: seq<Progress>,
                          now: Frontier, fetches: seq<Fetch>)
  {
    && IsCrawl(entered, p, site.pages, expand, maxPages, run)
    && var end := run[|run| - 1];
       !end.more && end.frontier == now && end.fetches == fetches
  }

  class SiteOperation {
    const frontier: CrawlFrontier
    const maxPages: nat
    const mode: SitemapMode
    const expand := mode != Only
    const maxDocuments: nat
    const fanout: nat
    var fetches: seq<Fetch>
    var pageLimitReached: bool
    var sitemapsExamined: nat
    var sitemapsAttempted: nat

    constructor (policy: Policy, mode: SitemapMode, maxPages: nat, maxDocuments: nat, fanout: nat)
      ensures fresh(frontier) && Unused() && frontier.policy == policy
      ensures this.maxPages == Min(maxPages, fanout) && this.mode == mode
      ensures this.maxDocuments == maxDocuments && this.fanout == fanout
    {
      frontier := new CrawlFrontier(policy);
      this.mode, this.maxPages, this.maxDocuments, this.fanout := mode, Min(maxPages, fanout), maxDocuments, fanout;
      fetches, pageLimitReached, sitemapsExamined, sitemapsAttempted := [], false, 0, 0;
    }

    /** As constructed. */
    ghost predicate Unused()
      reads this, frontier, frontier.records
    {
      && frontier.Valid() && frontier.records == [] && frontier.Model() == Frontier([], map[], [], 0)
      && fetches == [] && sitemapsExamined == 0 == sitemapsAttempted
    }

    // -------------------------------------------------------------- links

    method Admit(ghost was: Frontier, link: Link, source: Source, depth: nat)
      returns (r: FrontierRecord?, ghost found: Found)
      requires frontier.Valid() && frontier.Model() == was
      modifies frontier, frontier.records
      ensures frontier.Valid() && frontier.Grew() && frontier.Model() == found.frontier
      ensures IndexInRange(was) && found == SiteModel.Admit(was, frontier.policy, link, source, depth)
      ensures r == null <==> found.record == None
      ensures r != null ==> frontier.Mine(r) && found.record == Some(r.order)
    {
      var p := frontier.policy;
      assert IndexInRange(was);
      found := SiteModel.Admit(was, frontier.policy, link, source, depth);
      if link.nonHttp { return null, found; }
      var normalized := p.normalize(link.url);
      if normalized.None? {
        r := frontier.Discover(Sight(link.url, link, source, depth, false, false));
        return;
      }
      var url := normalized.value;
      if p.Rejection(url, depth).Some? || p.key(url) in frontier.byKey || |frontier.records| >= p.maxUrls {
        r := frontier.Discover(Sight(url, link, source, depth, true, true));
        return;
      }
      var robotsAllowed := false;
      if link.safe { robotsAllowed := link.robotsAllowed; }
      r := frontier.Discover(Sight(url, link, source, depth, link.safe, robotsAllowed));
    }

    /** The k-th of the links. */
    method AdmitNext(ghost was: Frontier, links: seq<Link>, source: Source, depth: nat, k: nat)
      requires k < |links| && IndexInRange(was) && frontier.Valid()
      requires frontier.Model() == SiteModel.AdmitAll(was, frontier.policy, links, source, depth, k)
      modifies frontier, frontier.records
      ensures frontier.Valid() && frontier.Grew()
      ensures frontier.Model() == SiteModel.AdmitAll(was, frontier.policy, links, source, depth, k + 1)
    {
      var r;
      ghost var found;
      r, found := Admit(frontier.Model(), links[k], source, depth);
    }

    method AdmitAll(ghost was: Frontier, links: seq<Link>, source: Source, depth: nat)
      requires frontier.Valid() && frontier.Model() == was
      modifies frontier, frontier.records
      ensures frontier.Valid() && frontier.Grew()
      ensures IndexInRange(was)
              && frontier.Model() == SiteModel.AdmitAll(was, frontier.policy, links, source, depth, |links|)
    {
      assert IndexInRange(was);
      for k := 0 to |links|
        invariant frontier.Valid() && frontier.Grew()
        invariant frontier.Model() == SiteModel.AdmitAll(was, frontier.policy, links, source, depth, k)
      {
        AdmitNext(was, links, source, depth, k);
      }
    }

    /** Links admitted at one depth before the page loop. */
    method Gather(ghost start: Frontier, ghost was: Frontier, ghost m: nat, links: seq<Link>, source: Source,
                  depth: nat)
      returns (ghost now: Frontier)
      requires frontier.Valid() && frontier.Model() == was && Gathering(start, was, frontier.policy, m)
               && m <= depth <= 1
      modifies frontier, frontier.records
      ensures frontier.Valid() && frontier.Grew() && frontier.Model() == now
      ensures Gathering(start, now, frontier.policy, depth) && Expands(was, now, frontier.policy, links, depth)
    {
      GatherKeeps(start, was, frontier.policy, links, source, depth, m);
      assert Layered(was, 0, depth);
      AdmitAllTook(was, frontier.policy, links, source, depth, 0);
      now := SiteModel.AdmitAll(was, frontier.policy, links, source, depth, |links|);
      AdmitAll(was, links, source, depth);
    }

    // -------------------------------------------------------------- seed and sitemaps

    /** The seed is already fetched: its record is the first and is fetched, unless it is refused. */
    method AdmitSeed(link: Link) returns (admitted: bool, ghost now: Frontier)
      requires frontier.Valid() && frontier.Model() == Frontier([], map[], [], 0)
      modifies frontier, frontier.records
      ensures frontier.Valid() && frontier.Grew() && frontier.Model() == now
      ensures now == SeedAdmitted(frontier.policy, link)
      ensures SeedTaken(frontier.policy, link) == admitted
      ensures admitted ==> Gathering(now, now, frontier.policy, 0)
    {
      SeedKeeps(frontier.policy, link);
      var r;
      ghost var found;
      r, found := Admit(Frontier([], map[], [], 0), link, FromSeed, 0);
      admitted, now := SettleSeed(found, r);
    }

    method SettleSeed(ghost found: Found, r: FrontierRecord?) returns (admitted: bool, ghost now: Frontier)
      requires frontier.Valid() && frontier.Model() == found.frontier
      requires if r == null then found.record == None else frontier.Mine(r) && found.record == Some(0) && r.order == 0
      requires !SeedRefused(found) ==> SeedWaits(found.frontier, frontier.policy)
      modifies frontier, frontier.records
      ensures frontier.Valid() && frontier.records == old(frontier.records) && frontier.Model() == now
      ensures admitted == !SeedRefused(found)
      ensures admitted ==>
                && found.frontier.queue == [0] && |found.frontier.records| == 1
                && found.frontier.records[0].states != [] && now == SeedFetched(found.frontier)
                && Gathering(now, now, frontier.policy, 0)
      ensures !admitted ==> now == found.frontier
    {
      now := found.frontier;
      if r == null { return false, now; }
      assert now.records[0] == r.Value();
      if r.states[|r.states| - 1] == Filtered { return false, now; }
      SeedFetchedKeeps(now, frontier.policy);
      FetchSeed(r, now);
      return true, SeedFetched(now);
    }

    /** A seed without content is recorded, and fails unless the policy refuses it. */
    method RecordSeedFailure(url: Url, code: nat) returns (ghost now: Frontier)
      requires frontier.Valid() && frontier.Model() == Frontier([], map[], [], 0)
      modifies frontier, frontier.records
      ensures frontier.Valid() && frontier.Grew() && frontier.Model() == now
      ensures now == SeedFailed(frontier.policy, url, code)
    {
      SeedSeen(frontier.policy, url);
      SeedSeenEnds(frontier.policy, url);
      now := F.Discover(Frontier([], map[], [], 0), frontier.policy, SeedSighting(url)).frontier;
      var r := frontier.Discover(SeedSighting(url));
      if r == null { return; }
      if r.states[|r.states| - 1] != Queued { return; }
      SeedFailedKeeps(now, frontier.policy, code);
      now := F.Mark(F.Pop(now).frontier, 0, Failed, Some(FetchFailed(code)));
      FailSeed(r, code);
    }

    method FailSeed(r: FrontierRecord, code: nat)
      requires frontier.Valid() && frontier.Mine(r) && SeedWaits(frontier.Model(), frontier.policy)
      modifies frontier`queue, r
      ensures frontier.Valid() && frontier.records == old(frontier.records)
      ensures old(frontier.Model()).records[0].states != []
      ensures frontier.Model() == F.Mark(F.Pop(old(frontier.Model())).frontier, 0, Failed, Some(FetchFailed(code)))
    {
      SeedFailedKeeps(frontier.Model(), frontier.policy, code);
      var head := frontier.Pop();
      frontier.Mark(r, Failed, Some(FetchFailed(code)));
    }

    /** How a run starts: with the seed's record fetched, or not at all, with whatever the frontier then holds. */
    method PrepareSeed(seed: Seed) returns (refusal: Option<Outcome>, ghost now: Frontier)
      requires frontier.Valid() && frontier.Model() == Frontier([], map[], [], 0)
      modifies frontier, frontier.records
      ensures frontier.Valid() && frontier.Grew() && frontier.Model() == now
      ensures FrontierOk(now, frontier.policy, None) && now.queue == []
      ensures match seed
              case SeedPage(link) =>
                && now == SeedAdmitted(frontier.policy, link)
                && refusal == if SeedTaken(frontier.policy, link) then None else Some(NothingAdmitted)
              case SeedUnfetched(url, code) => now == SeedFailed(frontier.policy, url, code)
                && refusal == Some(SeedFailure)
              case _ => now == Frontier([], map[], [], 0) && refusal == Some(SeedUnsafe)
      ensures refusal == None ==> Gathering(now, now, frontier.policy, 0)
    {
      now := Frontier([], map[], [], 0);
      match seed
      case UnsafeSeed => refusal := Some(SeedUnsafe);
      case SeedLost => refusal := Some(SeedUnsafe);
      case SeedUnfetched(url, code) =>
        now := RecordSeedFailure(url, code);
        refusal := Some(SeedFailure);
      case SeedPage(link) =>
        var admitted;
        admitted, now := AdmitSeed(link);
        refusal := if admitted then None else Some(NothingAdmitted);
    }

    method FetchSeed(r: FrontierRecord, ghost was: Frontier)
      requires frontier.Valid() && frontier.Mine(r) && frontier.Model() == was && SeedWaits(was, frontier.policy)
      modifies frontier`queue, r
      ensures frontier.Valid() && was.records[0].states != [] && frontier.Model() == SeedFetched(was)
      ensures frontier.records == old(frontier.records)
    {
      SeedFetchedKeeps(was, frontier.policy);
      var head := frontier.Pop();
      frontier.Mark(r, Fetched, None);
    }

    /** An index queues the sitemaps it lists one level deeper; a list of pages admits them at depth 0. */
    method QueueEntries(ghost start: Frontier, ghost was: Frontier, document: Document, depth: nat,
                        queue: seq<Candidate>, visited: set<Url>)
      returns (q: seq<Candidate>, ghost now: Frontier)
      requires frontier.Valid() && frontier.Model() == was && Gathering(start, was, frontier.policy, 0)
      modifies frontier, frontier.records
      ensures frontier.Valid() && frontier.Grew() && frontier.Model() == now
              && Gathering(start, now, frontier.policy, 0)
      ensures if document.Index? then q == queue + Fresh(document.entries, visited, depth, |document.entries|)
              && now == was
              else q == queue && Expands(was, now, frontier.policy, document.links, 0)
    {
      q, now := queue, was;
      if document.Pages? {
        now := Gather(start, was, 0, document.links, FromSitemap, 0);
        return;
      }
      for k := 0 to |document.entries|
        invariant q == queue + Fresh(document.entries, visited, depth, k)
      {
        if document.entries[k] !in visited {
          q := q + [Candidate(document.entries[k], depth + 1)];
        }
      }
    }

    /** One address is tried; it counts as attempted unless it is refused before any fetch. */
    method TrySitemap(ghost start: Frontier, ghost was: Frontier, attempt: Attempt, c: Candidate, queue: seq<Candidate>,
                      visited: set<Url>)
      returns (q: seq<Candidate>, ghost now: Frontier)
      requires frontier.Valid() && frontier.Model() == was && Gathering(start, was, frontier.policy, 0)
      modifies this`sitemapsAttempted, frontier, frontier.records
      ensures frontier.Valid() && frontier.Grew() && frontier.Model() == now
      ensures sitemapsAttempted == old(sitemapsAttempted) + if attempt.Refused? then 0 else 1
      ensures TryDoes(start, frontier.policy, attempt, c, was, visited, queue, now, q)
    {
      q, now := queue, was;
      if !attempt.Refused? { sitemapsAttempted := sitemapsAttempted + 1; }
      if attempt.Usable? {
        q, now := QueueEntries(start, was, attempt.document, c.depth, queue, visited);
      }
    }

    /**
     * Sitemaps end, however they list each other: at most `fanout` addresses are tried, each once and none deeper than
     * the limit, and at most `maxDocuments` are fetched. All they do is take in the pages they list, at depth 0; and
     * unless a budget is spent, nothing they list is passed over.
     */
    method LoadSitemaps(ghost start: Frontier, roots: seq<Url>, world: nat -> Attempt, cancelled: nat -> bool)
      returns (done: bool, ghost l: Load)
      requires frontier.Valid() && frontier.Model() == start && Gathering(start, start, frontier.policy, 0)
      requires sitemapsExamined == 0 == sitemapsAttempted
      modifies this`sitemapsExamined, this`sitemapsAttempted, frontier, frontier.records
      ensures frontier.Valid() && frontier.Grew() && frontier.Model() == l.now
      ensures Loading(start, frontier.policy, roots, world, l) && |l.tried| == sitemapsExamined
      ensures sitemapsAttempted <= maxDocuments && sitemapsAttempted <= sitemapsExamined <= fanout
      ensures done ==>
                || sitemapsAttempted == maxDocuments || sitemapsExamined == fanout
                || AllTried(frontier.policy, roots, world, l.tried)
      ensures (forall n :: !cancelled(n)) ==> done
    {
      var queue: seq<Candidate> := AtRoots(roots);
      var visited: set<Url> := {};
      var turn := 0;
      l := Load(start, [], {}, [], queue);
      StartsLoading(start, frontier.policy, roots, world);
      while queue != [] && sitemapsAttempted < maxDocuments && sitemapsExamined < fanout
        invariant frontier.Valid() && frontier.Grew() && frontier.Model() == l.now
        invariant Loading(start, frontier.policy, roots, world, l)
        invariant l.queue == queue && l.visited == visited && |l.tried| == sitemapsExamined
        invariant sitemapsAttempted <= maxDocuments && sitemapsAttempted <= sitemapsExamined <= fanout
        decreases fanout - sitemapsExamined, |queue|
      {
        if cancelled(turn) { return false, l; }
        turn := turn + 1;
        queue, visited, l := LoadNext(start, roots, world, l, queue, visited);
      }
      if queue == [] { NothingQueued(start, frontier.policy, roots, world, l); }
      done := true;
    }

    /** The head of the queue is dropped or tried. */
    method LoadNext(ghost start: Frontier, ghost roots: seq<Url>, world: nat -> Attempt, ghost l: Load,
                    queue: seq<Candidate>, visited: set<Url>)
      returns (q: seq<Candidate>, v: set<Url>, ghost next: Load)
      requires frontier.Valid() && frontier.Model() == l.now && Loading(start, frontier.policy, roots, world, l)
      requires queue != [] && l.queue == queue && l.visited == visited && |l.tried| == sitemapsExamined
      modifies this`sitemapsExamined, this`sitemapsAttempted, frontier, frontier.records
      ensures frontier.Valid() && frontier.Grew() && frontier.Model() == next.now
      ensures Loading(start, frontier.policy, roots, world, next)
      ensures next.queue == q && next.visited == v && |next.tried| == sitemapsExamined
      ensures old(sitemapsAttempted) <= sitemapsAttempted <= old(sitemapsAttempted) + 1
      ensures sitemapsExamined - old(sitemapsExamined) <= 1
      ensures sitemapsAttempted - old(sitemapsAttempted) <= sitemapsExamined - old(sitemapsExamined)
      ensures sitemapsExamined == old(sitemapsExamined) ==> |q| < |queue|
      ensures old(sitemapsExamined) <= sitemapsExamined
    {
      var c := queue[0];
      q, v := queue[1..], visited;
      var normalized := frontier.policy.normalize(c.url);
      if normalized.None? || normalized.value in visited || c.depth > MAX_SITEMAP_DEPTH {
        Drops(start, frontier.policy, roots, world, l);
        next := l.(queue := q);
        return;
      }
      v := visited + {normalized.value};
      sitemapsExamined := sitemapsExamined + 1;
      ghost var now;
      q, now := TrySitemap(start, l.now, world(sitemapsExamined), c, q, v);
      Tries(start, frontier.policy, roots, world, l, normalized.value, now, q);
      next := AfterTry(l, normalized.value, now, q);
    }

    // -------------------------------------------------------------- the page loop

    method ProcessPage(ghost was: Frontier, r: FrontierRecord, page: Page)
      requires frontier.Valid() && frontier.Mine(r) && frontier.Model() == was
      requires FrontierOk(was, frontier.policy, Some(r.order)) && StillQueued(was.records[r.order])
      modifies this`fetches, frontier, frontier.records
      ensures frontier.Valid() && frontier.Grew()
      ensures var visit := Visit(was, frontier.policy, r.order, page, expand);
              && frontier.Model() == visit.frontier
              && fetches == old(fetches) + FetchOf(was.records[r.order], r.order, visit)
    {
      if !page.robotsAllowed {
        frontier.Mark(r, Failed, Some(RobotsRefused));
        return;
      }
      fetches := fetches + [Fetch(r.order, r.url, r.depth)];
      UseAnswer(was, r, page);
    }

    /** A page that robots rules allow has been asked for. */
    method UseAnswer(ghost was: Frontier, r: FrontierRecord, page: Page)
      requires frontier.Valid() && frontier.Mine(r) && frontier.Model() == was
      requires FrontierOk(was, frontier.policy, Some(r.order)) && StillQueued(was.records[r.order])
      requires page.robotsAllowed
      modifies frontier, frontier.records
      ensures frontier.Valid() && frontier.Grew()
      ensures frontier.Model() == Visit(was, frontier.policy, r.order, page, expand).frontier
    {
      if !page.content {
        frontier.Mark(r, Failed, Some(FetchFailed(page.code)));
        return;
      }
      UseContent(was, r, page);
    }

    method UseContent(ghost was: Frontier, r: FrontierRecord, page: Page)
      requires frontier.Valid() && frontier.Mine(r) && frontier.Model() == was
      requires FrontierOk(was, frontier.policy, Some(r.order)) && StillQueued(was.records[r.order])
      modifies frontier, frontier.records
      ensures frontier.Valid() && frontier.Grew()
      ensures HasStates(was) && IndexInRange(was)
              && frontier.Model() == Landed(was, frontier.policy, r.order, page, expand)
    {
      StatesExist(was, frontier.policy, Some(r.order));
      InRange(was, frontier.policy);
      var final := ReconcileFinal(r, page);
      if final != null {
        FetchedKeeps(was, frontier.policy, r.order, page);
        FinishPage(final, page);
      }
    }

    /** The page's record is fetched, and its links are admitted one level below it. */
    method FinishPage(r: FrontierRecord, page: Page)
      requires frontier.Valid() && frontier.Mine(r)
      modifies frontier, frontier.records
      ensures frontier.Valid() && frontier.Grew()
      ensures var g := F.Mark(old(frontier.Model()), r.order, Fetched, None);
              IndexInRange(g) && frontier.Model() == Followed(g, frontier.policy, r.order, page, expand)
    {
      ghost var now := F.Mark(frontier.Model(), r.order, Fetched, None);
      frontier.Mark(r, Fetched, None);
      FollowLinks(now, r, page);
    }

    method FollowLinks(ghost was: Frontier, r: FrontierRecord, page: Page)
      requires frontier.Valid() && frontier.Mine(r) && frontier.Model() == was
      modifies frontier, frontier.records
      ensures frontier.Valid() && frontier.Grew()
      ensures IndexInRange(was) && frontier.Model() == Followed(was, frontier.policy, r.order, page, expand)
    {
      assert IndexInRange(was);
      assert was.records[r.order] == r.Value();
      if expand && r.depth < frontier.policy.maxDepth {
        AdmitAll(was, page.links, FromLink, r.depth + 1);
      }
    }

    method ReconcileFinal(r: FrontierRecord, page: Page) returns (final: FrontierRecord?)
      requires frontier.Valid() && frontier.Mine(r) && HasStates(frontier.Model()) && IndexInRange(frontier.Model())
      modifies frontier`byKey, frontier.records
      ensures frontier.Valid() && frontier.records == old(frontier.records)
      ensures var found := ReconcileVisit(old(frontier.Model()), frontier.policy, r.order, page);
              && frontier.Model() == found.frontier
              && (final == null <==> found.record == None)
              && (final != null ==> frontier.Mine(final) && found.record == Some(final.order))
    {
      var normalized := frontier.policy.normalize(page.finalUrl);
      if normalized.None? || frontier.policy.Rejection(normalized.value, r.depth).Some? {
        final := frontier.ReconcileFinal(r, page.finalUrl, true, true);
        return;
      }
      var robotsAllowed := false;
      if page.finalSafe { robotsAllowed := page.finalRobotsAllowed; }
      final := frontier.ReconcileFinal(r, page.finalUrl, page.finalSafe, robotsAllowed);
    }

    /** The page budget is spent. */
    method Stop(ghost was: Frontier, r: FrontierRecord)
      requires frontier.Valid() && frontier.Mine(r) && frontier.Model() == was
      modifies this`pageLimitReached, frontier`queue, frontier.records
      ensures frontier.Valid() && frontier.records == old(frontier.records) && pageLimitReached
      ensures HasStates(was) && frontier.Model() == Stopped(was, r.order)
    {
      assert HasStates(was);
      pageLimitReached := true;
      frontier.Mark(r, Cancelled, Some(PageLimitReached));
      frontier.CancelQueued();
    }

    /** A record that still waits is visited, unless the page budget is spent. */
    method TurnWaiting(ghost was: Frontier, r: FrontierRecord, page: Page) returns (more: bool)
      requires frontier.Valid() && frontier.Mine(r) && frontier.Model() == was
      requires FrontierOk(was, frontier.policy, Some(r.order)) && StillQueued(was.records[r.order])
      modifies this`fetches, this`pageLimitReached, frontier, frontier.records
      ensures frontier.Valid() && frontier.Grew()
      ensures var turned := SiteModel.Turn(was, frontier.policy, r.order, page, expand, old(1 + |fetches| >= maxPages));
              && frontier.Model() == turned.frontier && more == turned.more
              && fetches == old(fetches) + turned.fetch
    {
      if 1 + |fetches| >= maxPages {
        Stop(was, r);
        return false;
      }
      ProcessPage(was, r, page);
      more := true;
    }

    /** One turn of the page loop, for the record just taken from the queue. */
    method Turn(ghost was: Frontier, r: FrontierRecord, page: Page) returns (more: bool)
      requires frontier.Valid() && frontier.Mine(r) && frontier.Model() == was
      requires FrontierOk(was, frontier.policy, Some(r.order))
      modifies this`fetches, this`pageLimitReached, frontier, frontier.records
      ensures frontier.Valid() && frontier.Grew()
      ensures var turned := SiteModel.Turn(was, frontier.policy, r.order, page, expand, old(1 + |fetches| >= maxPages));
              && frontier.Model() == turned.frontier && more == turned.more
              && fetches == old(fetches) + turned.fetch
    {
      StatesExist(was, frontier.policy, Some(r.order));
      WaitsIffQueued(was, frontier.policy, Some(r.order), r.order);
      assert was.records[r.order] == r.Value();
      if r.states[|r.states| - 1] != Queued { return true; }
      more := TurnWaiting(was, r, page);
    }

    method Step(page: Page) returns (more: bool)
      requires frontier.Valid() && FrontierOk(frontier.Model(), frontier.policy, None)
      modifies this`fetches, this`pageLimitReached, frontier, frontier.records
      ensures frontier.Valid() && frontier.Grew()
      ensures var turned :=
                SiteModel.Step(old(frontier.Model()), frontier.policy, page, expand, old(1 + |fetches| >= maxPages));
              && frontier.Model() == turned.frontier && more == turned.more
              && fetches == old(fetches) + turned.fetch
    {
      ghost var was := frontier.Model();
      var r := frontier.Pop();
      if r == null { return false; }
      PopKeeps(was, frontier.policy);
      more := Turn(F.Pop(was).frontier, r, page);
    }

    /** The operation stands where the model of its loop does. */
    ghost predicate At(progress: Progress)
      reads this, frontier, frontier.records
    {
      frontier.Model() == progress.frontier && fetches == progress.fetches
    }

    /** A step of the loop is the next turn of its model. */
    method Advance(ghost start: Frontier, ghost prev: Progress, page: Page) returns (more: bool, ghost next: Progress)
      requires frontier.Valid() && At(prev) && prev.more && Promised(start, frontier.policy, maxPages, prev)
      modifies this`fetches, this`pageLimitReached, frontier, frontier.records
      ensures frontier.Valid() && frontier.Grew() && At(next) && more == next.more
      ensures NextTurn(frontier.policy, prev, page, expand, maxPages, next)
              && Promised(start, frontier.policy, maxPages, next)
      ensures more ==> Shorter(next.frontier, prev.frontier) && |next.frontier.records| <= frontier.policy.maxUrls
    {
      ghost var spent := 1 + |fetches| >= maxPages;
      ghost var turned := SiteModel.Step(prev.frontier, frontier.policy, page, expand, spent);
      next := Progress(turned.frontier, prev.fetches + turned.fetch, turned.more,
                       Reached(prev.frontier, prev.depth, spent));
      TurnKeepsPromise(start, frontier.policy, prev, page, expand, maxPages, next);
      more := Step(page);
    }

    /**
     * The loop makes one of the runs of its model, and ends. So at its end, as at every point: within its page budget,
     * each page fetched for another record, at an address and depth the policy allows, in breadth-first order, records
     * that had ended as they were and, unless cancelled, nothing waiting.
     */
    method CrawlPages(ghost start: Frontier, world: nat -> Page, cancelled: nat -> bool)
      returns (done: bool, ghost run: seq<Progress>)
      requires frontier.Valid() && frontier.Model() == start && fetches == []
      requires Crawling(start, frontier.policy, [], 0)
      modifies this`fetches, this`pageLimitReached, frontier, frontier.records
      ensures frontier.Valid() && frontier.Grew()
      ensures IsCrawl(start, frontier.policy, world, expand, maxPages, run)
      ensures var end := run[|run| - 1];
              At(end) && done == !end.more && Promised(start, frontier.policy, maxPages, end)
      ensures (forall n :: !cancelled(n)) ==> done
    {
      ghost var end := Progress(start, [], true, 0);
      var turn := 0;
      run, done := [end], false;
      while !done
        invariant frontier.Valid() && frontier.Grew() && At(end) && done == !end.more
        invariant Promised(start, frontier.policy, maxPages, end)
        invariant |run| == turn + 1 && run[turn] == end && IsCrawl(start, frontier.policy, world, expand, maxPages, run)
        decreases !done, frontier.policy.maxUrls - |end.frontier.records|, |end.frontier.queue|
      {
        if cancelled(turn) { return; }
        var more;
        ghost var next;
        more, next := Advance(start, end, world(turn));
        CrawlGoesOn(start, frontier.policy, world, expand, maxPages, run, next);
        run, end := run + [next], next;
        done, turn := !more, turn + 1;
      }
    }

    // -------------------------------------------------------------- a whole run

    /** Search results, and the seed's links if pages are followed. */
    method DiscoverMore(ghost start: Frontier, ghost was: Frontier, site: Site)
      returns (ghost linking: Frontier, ghost now: Frontier)
      requires frontier.Valid() && frontier.Model() == was && Gathering(start, was, frontier.policy, 0)
      modifies frontier, frontier.records
      ensures frontier.Valid() && frontier.Grew() && frontier.Model() == now
      ensures Gathering(start, linking, frontier.policy, 0) && Gathering(start, now, frontier.policy, 1)
      ensures if site.search.Some? then Expands(was, linking, frontier.policy, site.search.value, 0) else linking == was
      ensures if mode != Only && frontier.policy.maxDepth > 0
              then Expands(linking, now, frontier.policy, site.seedLinks, 1) else now == linking
    {
      linking := was;
      if site.search.Some? {
        linking := Gather(start, was, 0, site.search.value, FromSearch, 0);
      }
      now := linking;
      if mode != Only && frontier.policy.maxDepth > 0 {
        now := Gather(start, linking, 0, site.seedLinks, FromLink, 1);
      }
    }

    /** Sitemaps, then search results, then the seed's links. */
    method Discover(ghost start: Frontier, site: Site) returns (done: bool, ghost now: Frontier, ghost g: Stages)
      requires frontier.Valid() && frontier.Model() == start && Gathering(start, start, frontier.policy, 0)
      requires sitemapsExamined == 0 == sitemapsAttempted
      modifies this`sitemapsExamined, this`sitemapsAttempted, frontier, frontier.records
      ensures frontier.Valid() && frontier.Grew() && frontier.Model() == now
              && Gathering(start, now, frontier.policy, 1)
      ensures sitemapsAttempted <= maxDocuments && sitemapsAttempted <= sitemapsExamined <= fanout
      ensures done ==> now == g.entered && Prepared(g, start, frontier.policy, mode, site)
      ensures done && mode != Skip ==>
                || sitemapsAttempted == maxDocuments || sitemapsExamined == fanout
                || AllTried(frontier.policy, site.roots, site.sitemaps, g.tried)
      ensures NeverCancelled(site) ==> done
    {
      now, g := start, Stages([], [], start, start, start);
      ghost var l := Load(start, [], {}, [], []);
      if mode != Skip {
        done, l := LoadSitemaps(start, site.roots, site.sitemaps, site.cancelledLoading);
        now := l.now;
        if !done { return; }
      }
      if site.cancelledSearch { return false, now, g; }
      ghost var linking;
      linking, now := DiscoverMore(start, now, site);
      g := Stages(l.tried, l.before, l.now, linking, now);
      IsPrepared(g, start, frontier.policy, mode, site, l);
      done := true;
    }

    /**
     * A run that nothing stopped. Its page loop began with everything it was shown: every sitemap within the budgets
     * was tried; the pages they list, the search results and the seed's links were recorded while there was room, and
     * the new ones that are admitted were waiting. From there it went on to its end.
     */
    ghost predicate RanThrough(start: Frontier, site: Site, g: Stages, run: seq<Progress>, now: Frontier)
      reads this
    {
      var p := frontier.policy;
      && Prepared(g, start, p, mode, site)
      && (mode == Skip || sitemapsAttempted == maxDocuments || sitemapsExamined == fanout
          || AllTried(p, site.roots, site.sitemaps, g.tried))
      && (mode != Skip ==> PagesTaken(g.before, g.entered, p, site.sitemaps))
      && (site.search.Some? ==> Took(g.searching, g.entered, p, site.search.value, 0))
      && (mode != Only && p.maxDepth > 0 ==> Took(g.linking, g.entered, p, site.seedLinks, 1))
      && Crawled(g.entered, p, site, expand, maxPages, run, now, fetches)
    }

    /** From a fetched seed: sitemaps, search and the seed's links, and then the page loop. */
    method Explore(ghost start: Frontier, site: Site)
      returns (outcome: Outcome, ghost now: Frontier, ghost d: nat, ghost g: Stages, ghost run: seq<Progress>)
      requires frontier.Valid() && frontier.Model() == start && Gathering(start, start, frontier.policy, 0)
      requires fetches == [] && sitemapsExamined == 0 == sitemapsAttempted
      modifies this, frontier, frontier.records
      ensures frontier.Valid() && frontier.Model() == now && FrontierOk(now, frontier.policy, None)
      ensures FetchesOk(now, frontier.policy, fetches, d) && (|fetches| == 0 || 1 + |fetches| <= maxPages)
      ensures sitemapsAttempted <= maxDocuments && sitemapsAttempted <= sitemapsExamined <= fanout
      ensures outcome != CancelledRun ==> now.queue == []
      ensures outcome in {RanToEnd, CancelledRun} && (NeverCancelled(site) ==> outcome == RanToEnd)
      ensures outcome == RanToEnd ==> RanThrough(start, site, g, run, now)
    {
      var done;
      done, now, g := Discover(start, site);
      run := [];
      if !done { return CancelledRun, now, 0, g, run; }
      done, run := CrawlPages(now, site.pages, site.cancelledCrawling);
      now, d := run[|run| - 1].frontier, run[|run| - 1].depth;
      outcome := if done then RanToEnd else CancelledRun;
    }

    /**
     * Whatever the site is like, a run ends. Unless it was cancelled, every record has then ended in one way. The page
     * budget counts the seed and every page fetched; sitemaps have budgets of their own. A run that nothing stops
     * starts its page loop with everything it was shown: the pages of every sitemap tried, the search results and the
     * seed's links, all recorded while there is room, and the new ones that are admitted waiting.
     */
    method Run(site: Site)
      returns (outcome: Outcome, ghost now: Frontier, ghost d: nat, ghost g: Stages, ghost run: seq<Progress>)
      requires Unused()
      modifies this, frontier, frontier.records
      ensures frontier.Valid() && frontier.Model() == now && FrontierOk(now, frontier.policy, None)
      ensures FetchesOk(now, frontier.policy, fetches, d) && (|fetches| == 0 || 1 + |fetches| <= maxPages)
      ensures sitemapsAttempted <= maxDocuments && sitemapsAttempted <= sitemapsExamined <= fanout
      ensures outcome != CancelledRun ==> now.queue == []
      ensures site.seed.SeedUnfetched? && !site.cancelledStarting ==>
                outcome == SeedFailure && now == SeedFailed(frontier.policy, site.seed.url, site.seed.code)
                  && fetches == []
      ensures NeverCancelled(site) ==>
                (outcome == RanToEnd <==> site.seed.SeedPage? && SeedTaken(frontier.policy, site.seed.link))
      ensures outcome == RanToEnd ==>
                site.seed.SeedPage? && RanThrough(SeedAdmitted(frontier.policy, site.seed.link), site, g, run, now)
    {
      var refusal;
      d, now, run := 0, Frontier([], map[], [], 0), [];
      g := Stages([], [], now, now, now);
      if site.cancelledStarting { return CancelledRun, now, 0, g, run; }
      refusal, now := PrepareSeed(site.seed);
      if refusal.Some? { return refusal.value, now, 0, g, run; }
      outcome, now, d, g, run := Explore(now, site);
    }

    // -------------------------------------------------------------- what is reported

    /** The reported counts of states, over all records. */
    method CountStates(ghost now: Frontier) returns (counts: map<State, nat>)
      requires frontier.Valid() && frontier.Model() == now
      ensures Counted(counts, now.records)
    {
      counts := map[];
      var records := frontier.records;
      for k := 0 to |records|
        invariant forall s :: Count(counts, s) == CountState(now.records, s, k)
      {
        counts := Tally(counts, records[k].states);
        assert now.records[k] == records[k].Value();
      }
    }

    /** With nothing left waiting, the counts balance. */
    method Report(ghost now: Frontier) returns (counts: map<State, nat>)
      requires frontier.Valid() && frontier.Model() == now && FrontierOk(now, frontier.policy, None)
      ensures Counted(counts, now.records)
      ensures now.queue == [] ==> Balanced(counts, |now.records|)
    {
      counts := CountStates(now);
      if now.queue == [] { ReportBalances(counts, now, frontier.policy); }
    }
  }

  /** Each state is counted as often as records entered it. */
  ghost predicate Counted(counts: map<State, nat>, records: seq<Record>) {
    forall s :: Count(counts, s) == CountState(records, s, |records|)
  }

  /** Every record discovered was filtered or admitted, and every one admitted was queued and ended in one way. */
  predicate Balanced(counts: map<State, nat>, discovered: nat) {
    && Count(counts, Discovered) == discovered == Count(counts, Filtered) + Count(counts, Admitted)
    && Count(counts, Admitted) == Count(counts, Queued)
    && Count(counts, Queued) == Count(counts, Fetched) + Count(counts, Failed) + Count(counts, Cancelled)
  }

  lemma ReportBalances(counts: map<State, nat>, f: Frontier, p: Policy)
    requires FrontierOk(f, p, None) && f.queue == []
    requires Counted(counts, f.records)
    ensures Balanced(counts, |f.records|)
  {
    CountsBalance(f, p, |f.records|);
  }

  /** The counts a run reports balance, unless it was cancelled. */
  method RunAndReport(operation: SiteOperation, site: Site)
    returns (outcome: Outcome, counts: map<State, nat>, ghost now: Frontier)
    requires operation.Unused()
    modifies operation, operation.frontier, operation.frontier.records
    ensures operation.frontier.Valid() && operation.frontier.Model() == now
    ensures Counted(counts, now.records)
    ensures outcome != CancelledRun ==> Balanced(counts, |now.records|)
  {
    outcome, now := RunOnly(operation, site);
    counts := operation.Report(now);
  }

  method RunOnly(operation: SiteOperation, site: Site) returns (outcome: Outcome, ghost now: Frontier)
    requires operation.Unused()
    modifies operation, operation.frontier, operation.frontier.records
    ensures operation.frontier.Valid() && operation.frontier.Model() == now
    ensures FrontierOk(now, operation.frontier.policy, None) && (outcome != CancelledRun ==> now.queue == [])
  {
    ghost var d, g, run;
    outcome, now, d, g, run := operation.Run(site);
  }

  function Count(counts: map<State, nat>, s: State): nat {
    if s in counts then counts[s] else 0
  }

  method Tally(counts: map<State, nat>, states: seq<State>) returns (more: map<State, nat>)
    ensures forall s :: Count(more, s) == Count(counts, s) + multiset(states)[s]
  {
    more := counts;
    for k := 0 to |states|
      invariant forall s :: Count(more, s) == Count(counts, s) + multiset(states[..k])[s]
    {
      assert states[..k + 1] == states[..k] + [states[k]];
      more := more[states[k] := Count(more, states[k]) + 1];
    }
    assert states[..|states|] == states;
  }
}
