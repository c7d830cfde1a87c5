/**
 Loading sitemaps, as values: which addresses are tried, what each may add, and that nothing listed is passed over.
 */
module SitemapModel {
  import opened Options
  import opened FrontierModel
  import opened SiteModel
  import opened Coverage

  const MAX_SITEMAP_DEPTH := 3

  /** A fetched sitemap: an index of further sitemaps, or a list of pages. */
  datatype Document = Index(entries: seq<Url>) | Pages(links: seq<Link>)

  /** What trying a sitemap address leads to. */
  datatype Attempt = Refused | Unusable | Usable(document: Document)

  /** A sitemap address waiting to be tried, at its depth below the roots. */
  datatype Candidate = Candidate(url: Url, depth: nat)

  predicate ListsPages(a: Attempt) {
    a.Usable? && a.document.Pages?
  }

  predicate ListsSitemaps(a: Attempt) {
    a.Usable? && a.document.Index?
  }

  /** The entries of a sitemap index that have not been tried. */
  function Fresh(entries: seq<Url>, visited: set<Url>, depth: nat, k: nat): seq<Candidate>
    requires k <= |entries|
  {
    if k == 0 then []
    else Fresh(entries, visited, depth, k - 1)
         + if entries[k - 1] in visited then [] else [Candidate(entries[k - 1], depth + 1)]
  }

  lemma {:induction false} FreshHolds(entries: seq<Url>, visited: set<Url>, depth: nat, k: nat, e: nat)
    requires e < k <= |entries|
    ensures entries[e] in visited || Candidate(entries[e], depth + 1) in Fresh(entries, visited, depth, k)
  {
    if e < k - 1 { FreshHolds(entries, visited, depth, k - 1, e); }
  }

  // ---------------------------------------------------------------- what was tried

  predicate IsTried(tried: seq<Candidate>, url: Url) {
    exists a :: 0 <= a < |tried| && tried[a].url == url
  }

  /** Each address once, and none below the deepest level. */
  ghost predicate TriedOnce(tried: seq<Candidate>) {
    && (forall a :: 0 <= a < |tried| ==> tried[a].depth <= MAX_SITEMAP_DEPTH)
    && (forall a, b :: 0 <= a < b < |tried| ==> tried[a].url != tried[b].url)
  }

  /** Where the loading of sitemaps stands; `before` holds the frontier at the time of each try. */
  datatype Load = Load(
    now: Frontier,
    tried: seq<Candidate>,
    visited: set<Url>,
    before: seq<Frontier>,
    queue: seq<Candidate>)

  /** The pages that tried sitemaps list have been taken in, each list after its try. */
  ghost predicate PagesTaken(before: seq<Frontier>, now: Frontier, p: Policy, world: nat -> Attempt) {
    forall n :: 1 <= n <= |before| && ListsPages(world(n)) ==>
      Took(before[n - 1], now, p, world(n).document.links, 0)
  }

  /** Whatever has been added since the start is listed by a tried sitemap. */
  ghost predicate OnlyListed(start: Frontier, now: Frontier, p: Policy, world: nat -> Attempt, n: nat) {
    forall key :: key in now.byKey ==> key in start.byKey || ListedUpTo(p, world, n, key)
  }

  ghost predicate ListedUpTo(p: Policy, world: nat -> Attempt, n: nat, key: Key) {
    exists m :: 1 <= m <= n && ListsPages(world(m))
      && ShownBefore(p, world(m).document.links, |world(m).document.links|, key)
  }

  /** An address at a depth is dealt with: it is no address, too deep, tried as it is or normalised, or still queued. */
  predicate DealtWith(p: Policy, url: Url, depth: nat, visited: set<Url>, queue: seq<Candidate>) {
    var normalized := p.normalize(url);
    || normalized.None? || depth > MAX_SITEMAP_DEPTH || normalized.value in visited || url in visited
    || Candidate(url, depth) in queue
  }

  /** Every root, and every entry of every index tried, is dealt with. */
  ghost predicate NonePassedOver(p: Policy, roots: seq<Url>, world: nat -> Attempt, tried: seq<Candidate>,
                                 visited: set<Url>, queue: seq<Candidate>)
  {
    && (forall i :: 0 <= i < |roots| ==> DealtWith(p, roots[i], 0, visited, queue))
    && (forall n :: 1 <= n <= |tried| && ListsSitemaps(world(n)) ==>
          EntriesDealtWith(p, world(n).document.entries, tried[n - 1].depth + 1, visited, queue))
  }

  ghost predicate EntriesDealtWith(p: Policy, entries: seq<Url>, depth: nat, visited: set<Url>, queue: seq<Candidate>) {
    forall e :: 0 <= e < |entries| ==> DealtWith(p, entries[e], depth, visited, queue)
  }

  ghost predicate Loading(start: Frontier, p: Policy, roots: seq<Url>, world: nat -> Attempt, l: Load) {
    && Gathering(start, l.now, p, 0)
    && TriedOnce(l.tried) && (forall u :: u in l.visited <==> IsTried(l.tried, u))
    && |l.before| == |l.tried| && PagesTaken(l.before, l.now, p, world)
    && OnlyListed(start, l.now, p, world, |l.tried|)
    && NonePassedOver(p, roots, world, l.tried, l.visited, l.queue)
  }

  function AtRoots(roots: seq<Url>): seq<Candidate> {
    seq(|roots|, i requires 0 <= i < |roots| => Candidate(roots[i], 0))
  }

  lemma StartsLoading(start: Frontier, p: Policy, roots: seq<Url>, world: nat -> Attempt)
    requires Gathering(start, start, p, 0)
    ensures Loading(start, p, roots, world, Load(start, [], {}, [], AtRoots(roots)))
  {
    forall i | 0 <= i < |roots|
      ensures DealtWith(p, roots[i], 0, {}, AtRoots(roots))
    {
      assert AtRoots(roots)[i] == Candidate(roots[i], 0);
    }
  }

  // ---------------------------------------------------------------- one turn

  /** The head of the queue is not tried: no address, tried before, or too deep. */
  predicate Dropped(p: Policy, c: Candidate, visited: set<Url>) {
    var normalized := p.normalize(c.url);
    normalized.None? || normalized.value in visited || c.depth > MAX_SITEMAP_DEPTH
  }

  /** Later tries and a longer queue deal with no less; taking the head off does, once it is dropped or tried. */
  lemma StillDealtWith(p: Policy, url: Url, depth: nat, visited: set<Url>, queue: seq<Candidate>, more: set<Url>,
                       rest: seq<Candidate>)
    requires DealtWith(p, url, depth, visited, queue) && visited <= more && queue != []
    requires Dropped(p, queue[0], more) && queue[1..] <= rest
    ensures DealtWith(p, url, depth, more, rest)
  {
    if Candidate(url, depth) in queue {
      var a :| 0 <= a < |queue| && queue[a] == Candidate(url, depth);
      if a > 0 { assert rest[a - 1] == queue[1..][a - 1] == queue[a]; }
    }
  }

  lemma NoneStillPassedOver(p: Policy, roots: seq<Url>, world: nat -> Attempt, tried: seq<Candidate>, visited: set<Url>,
                            queue: seq<Candidate>, more: set<Url>, rest: seq<Candidate>)
    requires NonePassedOver(p, roots, world, tried, visited, queue) && visited <= more && queue != []
    requires Dropped(p, queue[0], more) && queue[1..] <= rest
    ensures NonePassedOver(p, roots, world, tried, more, rest)
  {
    forall i | 0 <= i < |roots|
      ensures DealtWith(p, roots[i], 0, more, rest)
    {
      StillDealtWith(p, roots[i], 0, visited, queue, more, rest);
    }
    forall n | 1 <= n <= |tried| && ListsSitemaps(world(n))
      ensures EntriesDealtWith(p, world(n).document.entries, tried[n - 1].depth + 1, more, rest)
    {
      var entries, depth := world(n).document.entries, tried[n - 1].depth + 1;
      assert EntriesDealtWith(p, entries, depth, visited, queue);
      forall e | 0 <= e < |entries|
        ensures DealtWith(p, entries[e], depth, more, rest)
      {
        StillDealtWith(p, entries[e], depth, visited, queue, more, rest);
      }
    }
  }

  lemma Drops(start: Frontier, p: Policy, roots: seq<Url>, world: nat -> Attempt, l: Load)
    requires Loading(start, p, roots, world, l) && l.queue != [] && Dropped(p, l.queue[0], l.visited)
    ensures Loading(start, p, roots, world, l.(queue := l.queue[1..]))
  {
    NoneStillPassedOver(p, roots, world, l.tried, l.visited, l.queue, l.visited, l.queue[1..]);
  }

  /** What trying the next address may do to the frontier and to the queue. */
  ghost predicate TryDoes(start: Frontier, p: Policy, a: Attempt, c: Candidate, was: Frontier, visited: set<Url>,
                          rest: seq<Candidate>, now: Frontier, queue: seq<Candidate>)
  {
    && Gathering(start, now, p, 0)
    && (if ListsPages(a) then Expands(was, now, p, a.document.links, 0) else now == was)
    && queue == if ListsSitemaps(a) then rest + Fresh(a.document.entries, visited, c.depth, |a.document.entries|)
       else rest
  }

  function AfterTry(l: Load, u: Url, now: Frontier, queue: seq<Candidate>): Load
    requires l.queue != []
  {
    Load(now, l.tried + [Candidate(u, l.queue[0].depth)], l.visited + {u}, l.before + [l.now], queue)
  }

  lemma Tries(start: Frontier, p: Policy, roots: seq<Url>, world: nat -> Attempt, l: Load, u: Url, now: Frontier,
              queue: seq<Candidate>)
    requires Loading(start, p, roots, world, l) && l.queue != [] && !Dropped(p, l.queue[0], l.visited)
    requires p.normalize(l.queue[0].url) == Some(u)
    requires TryDoes(start, p, world(|l.tried| + 1), l.queue[0], l.now, l.visited + {u}, l.queue[1..], now, queue)
    ensures Loading(start, p, roots, world, AfterTry(l, u, now, queue))
  {
    var next := AfterTry(l, u, now, queue);
    TriedMore(l.tried, l.visited, Candidate(u, l.queue[0].depth));
    PagesStillTaken(l.before, l.now, now, p, world, start);
    ListedMore(start, l.now, now, p, world, |l.tried|);
    NoneStillPassedOver(p, roots, world, l.tried, l.visited, l.queue, next.visited, queue);
    EntriesQueued(p, roots, world, l, u, queue);
  }

  lemma TriedMore(tried: seq<Candidate>, visited: set<Url>, c: Candidate)
    requires TriedOnce(tried) && (forall u :: u in visited <==> IsTried(tried, u))
    requires c.url !in visited && c.depth <= MAX_SITEMAP_DEPTH
    ensures TriedOnce(tried + [c]) && forall u :: u in visited + {c.url} <==> IsTried(tried + [c], u)
  {
    var more := tried + [c];
    assert more[|tried|] == c;
    forall u
      ensures u in visited + {c.url} <==> IsTried(more, u)
    {
      if IsTried(tried, u) {
        var a :| 0 <= a < |tried| && tried[a].url == u;
        assert more[a] == tried[a];
      }
    }
  }

  lemma PagesStillTaken(before: seq<Frontier>, was: Frontier, now: Frontier, p: Policy, world: nat -> Attempt,
                        start: Frontier)
    requires PagesTaken(before, was, p, world) && Gathering(start, was, p, 0) && Gathering(start, now, p, 0)
    requires var a := world(|before| + 1);
             if ListsPages(a) then Expands(was, now, p, a.document.links, 0) else now == was
    ensures PagesTaken(before + [was], now, p, world)
  {
    var more := before + [was];
    forall n | 1 <= n <= |more| && ListsPages(world(n))
      ensures Took(more[n - 1], now, p, world(n).document.links, 0)
    {
      if n <= |before| && now != was {
        assert more[n - 1] == before[n - 1];
        TookStays(before[n - 1], was, now, p, world(n).document.links, 0);
      }
    }
  }

  lemma ListedMore(start: Frontier, was: Frontier, now: Frontier, p: Policy, world: nat -> Attempt, n: nat)
    requires OnlyListed(start, was, p, world, n)
    requires var a := world(n + 1);
             if ListsPages(a) then Expands(was, now, p, a.document.links, 0) else now == was
    ensures OnlyListed(start, now, p, world, n + 1)
  {
    forall key | key in now.byKey && key !in start.byKey
      ensures ListedUpTo(p, world, n + 1, key)
    {
      if key in was.byKey {
        var m :| 1 <= m <= n && ListsPages(world(m))
          && ShownBefore(p, world(m).document.links, |world(m).document.links|, key);
      } else {
        assert ShownBefore(p, world(n + 1).document.links, |world(n + 1).document.links|, key);
      }
    }
  }

  lemma EntriesQueued(p: Policy, roots: seq<Url>, world: nat -> Attempt, l: Load, u: Url, queue: seq<Candidate>)
    requires l.queue != []
    requires NonePassedOver(p, roots, world, l.tried, l.visited + {u}, queue)
    requires var a := world(|l.tried| + 1);
             var rest, visited := l.queue[1..], l.visited + {u};
             ListsSitemaps(a) ==>
               queue == rest + Fresh(a.document.entries, visited, l.queue[0].depth, |a.document.entries|)
    ensures NonePassedOver(p, roots, world, l.tried + [Candidate(u, l.queue[0].depth)], l.visited + {u}, queue)
  {
    var n, c, visited := |l.tried| + 1, l.queue[0], l.visited + {u};
    var tried := l.tried + [Candidate(u, c.depth)];
    forall m | 1 <= m <= |tried| && ListsSitemaps(world(m))
      ensures EntriesDealtWith(p, world(m).document.entries, tried[m - 1].depth + 1, visited, queue)
    {
      var entries := world(m).document.entries;
      if m < n {
        assert tried[m - 1] == l.tried[m - 1];
      } else {
        forall e | 0 <= e < |entries|
          ensures DealtWith(p, entries[e], c.depth + 1, visited, queue)
        {
          FreshHolds(entries, visited, c.depth, |entries|, e);
        }
      }
    }
  }

  // ---------------------------------------------------------------- the whole loading

  /** What the stages before the page loop did: the frontier as each began, and what was tried. */
  datatype Stages = Stages(
    tried: seq<Candidate>,
    before: seq<Frontier>,
    searching: Frontier,
    linking: Frontier,
    entered: Frontier)

  /** Nothing that the roots or a tried index list was passed over. */
  ghost predicate AllTried(p: Policy, roots: seq<Url>, world: nat -> Attempt, tried: seq<Candidate>) {
    && (forall i :: 0 <= i < |roots| ==> Exhausted(p, roots[i], 0, tried))
    && (forall n, e :: 1 <= n <= |tried| && ListsSitemaps(world(n)) && 0 <= e < |world(n).document.entries| ==>
          Exhausted(p, world(n).document.entries[e], tried[n - 1].depth + 1, tried))
  }

  /** The address is none, lies too deep, or was tried, normalised or as it is written. */
  predicate Exhausted(p: Policy, url: Url, depth: nat, tried: seq<Candidate>) {
    var normalized := p.normalize(url);
    || normalized.None? || depth > MAX_SITEMAP_DEPTH || IsTried(tried, normalized.value) || IsTried(tried, url)
  }

  lemma NothingQueued(start: Frontier, p: Policy, roots: seq<Url>, world: nat -> Attempt, l: Load)
    requires Loading(start, p, roots, world, l) && l.queue == []
    ensures AllTried(p, roots, world, l.tried)
  {
    forall i | 0 <= i < |roots|
      ensures Exhausted(p, roots[i], 0, l.tried)
    {
      assert DealtWith(p, roots[i], 0, l.visited, l.queue);
    }
    forall n, e | 1 <= n <= |l.tried| && ListsSitemaps(world(n)) && 0 <= e < |world(n).document.entries|
      ensures Exhausted(p, world(n).document.entries[e], l.tried[n - 1].depth + 1, l.tried)
    {
      var entries, depth := world(n).document.entries, l.tried[n - 1].depth + 1;
      assert EntriesDealtWith(p, entries, depth, l.visited, l.queue);
      assert DealtWith(p, entries[e], depth, l.visited, l.queue);
    }
  }

  /** The pages of sitemaps stay taken in while more is. */
  lemma PagesKept(before: seq<Frontier>, was: Frontier, now: Frontier, p: Policy, world: nat -> Attempt)
    requires PagesTaken(before, was, p, world) && FrontierOk(was, p, None) && FrontierOk(now, p, None)
    requires Remembers(was, now, p) && Extends(was, now)
    ensures PagesTaken(before, now, p, world)
  {
    forall n | 1 <= n <= |before| && ListsPages(world(n))
      ensures Took(before[n - 1], now, p, world(n).document.links, 0)
    {
      TookStays(before[n - 1], was, now, p, world(n).document.links, 0);
    }
  }
}
