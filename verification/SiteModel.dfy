/**
 * One page visit of a site crawl, as a function of the frontier and of what the web answered. The page budget, the
 * breadth-first layering and the frontier's own invariant are proved of every visit, whatever the answers are.
 */
module SiteModel {
  import opened Options
  import opened FrontierModel

  /** A link as the page gives it, with what the safety check and robots rules say of it at that moment. */
  datatype Link = Link(
    url: Url,
    nonHttp: bool,
    safe: bool,
    robotsAllowed: bool,
    modifiedAt: Option<string>,
    priority: Option<real>)

  /** Everything the world answers during one page visit. */
  datatype Page = Page(
    robotsAllowed: bool,
    content: bool,
    code: nat,
    finalUrl: Url,
    finalSafe: bool,
    finalRobotsAllowed: bool,
    links: seq<Link>)

  predicate Known(f: Frontier, p: Policy, url: Url) {
    p.key(url) in f.byKey
  }

  predicate Full(f: Frontier, p: Policy) {
    |f.records| >= p.maxUrls
  }

  function Sight(candidate: Url, link: Link, source: Source, depth: nat, safe: bool, robotsAllowed: bool): Sighting {
    Sighting(candidate, source, depth, safe, robotsAllowed, link.modifiedAt, link.priority)
  }

  /** What the frontier is told of a link: safety and robots are asked only of a new URL that could be admitted. */
  function SightingOf(f: Frontier, p: Policy, link: Link, source: Source, depth: nat): Sighting {
    var normalized := p.normalize(link.url);
    if normalized.None? then Sight(link.url, link, source, depth, false, false)
    else
      var url := normalized.value;
      if p.Rejection(url, depth).Some? || Known(f, p, url) || Full(f, p)
      then Sight(url, link, source, depth, true, true)
      else Sight(url, link, source, depth, link.safe, link.safe && link.robotsAllowed)
  }

  predicate IndexInRange(f: Frontier) {
    forall k :: k in f.byKey ==> f.byKey[k] < |f.records|
  }

  function Admit(f: Frontier, p: Policy, link: Link, source: Source, depth: nat): Found
    requires IndexInRange(f)
  {
    if link.nonHttp then Found(f, None) else Discover(f, p, SightingOf(f, p, link, source, depth))
  }

  function AdmitAll(f: Frontier, p: Policy, links: seq<Link>, source: Source, depth: nat, k: nat): (g: Frontier)
    requires IndexInRange(f) && k <= |links|
    ensures IndexInRange(g)
  {
    if k == 0 then f else Admit(AdmitAll(f, p, links, source, depth, k - 1), p, links[k - 1], source, depth).frontier
  }

  // ---------------------------------------------------------------- layers

  /** The queue's a-th place holds a record that still waits. */
  predicate Waits(f: Frontier, a: nat) {
    a < |f.queue| && f.queue[a] < |f.records| && StillQueued(f.records[f.queue[a]])
  }

  function DepthAt(f: Frontier, a: nat): nat
    requires Waits(f, a)
  {
    f.records[f.queue[a]].depth
  }

  ghost predicate InLayers(f: Frontier, d: nat, m: nat) {
    forall i :: 0 <= i < |f.records| && WasAdmitted(f.records[i]) ==>
      f.records[i].depth <= if StillQueued(f.records[i]) then m else d
  }

  ghost predicate InOrder(f: Frontier) {
    forall a, b :: a < b && Waits(f, a) && Waits(f, b) ==> DepthAt(f, a) <= DepthAt(f, b)
  }

  ghost predicate NoneAbove(f: Frontier, d: nat) {
    forall a :: Waits(f, a) ==> d <= DepthAt(f, a)
  }

  /**
   * Breadth first: whatever has left the queue lies at depth d or above it in the tree, whatever waits lies at depths
   * from d to m, in order along the queue.
   */
  ghost predicate Layered(f: Frontier, d: nat, m: nat) {
    d <= m <= d + 1 && InLayers(f, d, m) && InOrder(f) && NoneAbove(f, d)
  }

  /** Nothing known is touched but filtered records and sources; a longer queue means a longer list. */
  ghost predicate Extends(f: Frontier, g: Frontier) {
    && |f.records| <= |g.records|
    && (|f.records| == |g.records| ==> g.queue == f.queue)
    && (forall i :: 0 <= i < |f.records| ==>
          && g.records[i].url == f.records[i].url
          && g.records[i].states == f.records[i].states
          && (WasAdmitted(f.records[i]) ==> g.records[i].depth == f.records[i].depth))
  }

  /** What taking in sightings at depth m leaves true. */
  ghost predicate TakenIn(f: Frontier, g: Frontier, p: Policy, d: nat, m: nat) {
    FrontierOk(g, p, None) && Layered(g, d, m) && Extends(f, g)
  }

  lemma DiscoverTakesIn(f: Frontier, p: Policy, s: Sighting, d: nat)
    requires FrontierOk(f, p, None) && Layered(f, d, s.depth)
    ensures TakenIn(f, Discover(f, p, s).frontier, p, d, s.depth)
  {
    DiscoverKeeps(f, p, None, s);
    var n := p.normalize(s.candidate);
    var g := Discover(f, p, s).frontier;
    if n.Some? && p.key(n.value) in f.byKey {
      var i := f.byKey[p.key(n.value)];
      ReplaceLayered(f, i, Merged(f.records[i], s), d, s.depth);
    } else if |f.records| < p.maxUrls && (n.Some? || p.withinLimit(s.candidate)) {
      AppendLayered(f, g, d, s.depth);
    } else {
      SameLayers(f, g, d, s.depth);
    }
  }

  /** Layers survive when whatever still waits kept its place and depth. */
  lemma LayersKept(f: Frontier, g: Frontier, d: nat, m: nat)
    requires Layered(f, d, m) && g.queue == f.queue && InLayers(g, d, m)
    requires forall a :: Waits(g, a) ==> Waits(f, a) && DepthAt(g, a) == DepthAt(f, a)
    ensures Layered(g, d, m)
  {
    assert InOrder(f) && NoneAbove(f, d);
  }

  /** The key index and the count of omissions have no layers. */
  lemma SameLayers(f: Frontier, g: Frontier, d: nat, m: nat)
    requires Layered(f, d, m) && g.queue == f.queue && g.records == f.records
    ensures Layered(g, d, m)
  {
    forall a: nat | Waits(g, a)
      ensures Waits(f, a) && DepthAt(g, a) == DepthAt(f, a)
    {
    }
    LayersKept(f, g, d, m);
  }

  lemma ReplaceLayered(f: Frontier, i: nat, r: Record, d: nat, m: nat)
    requires Layered(f, d, m) && i < |f.records|
    requires r.states == f.records[i].states && (WasAdmitted(r) ==> r.depth == f.records[i].depth)
    ensures Layered(WithRecord(f, i, r), d, m)
  {
    var g := WithRecord(f, i, r);
    forall a: nat | Waits(g, a)
      ensures Waits(f, a) && (WasAdmitted(f.records[f.queue[a]]) ==> DepthAt(g, a) == DepthAt(f, a))
    {
    }
    LayersKept(f, g, d, m);
  }

  lemma AppendLayered(f: Frontier, g: Frontier, d: nat, m: nat)
    requires Layered(f, d, m) && (forall a :: 0 <= a < |f.queue| ==> f.queue[a] < |f.records|)
    requires |g.records| == |f.records| + 1 && g.records[..|f.records|] == f.records
    requires var r := g.records[|f.records|];
             && (WasAdmitted(r) ==> StillQueued(r) && r.depth == m)
             && g.queue == if WasAdmitted(r) then f.queue + [|f.records|] else f.queue
    ensures Extends(f, g) && Layered(g, d, m)
  {
    var n := |f.records|;
    forall i | 0 <= i < n
      ensures g.records[i] == f.records[i]
    {
      assert g.records[..n][i] == f.records[i];
    }
    forall a: nat | Waits(g, a)
      ensures (a < |f.queue| && Waits(f, a) && DepthAt(f, a) == DepthAt(g, a)) || (a == |f.queue| && DepthAt(g, a) == m)
      ensures DepthAt(g, a) <= m
    {
      if a < |f.queue| { assert f.queue[a] < n; }
    }
  }

  lemma AdmitTakesIn(f: Frontier, p: Policy, link: Link, source: Source, depth: nat, d: nat)
    requires FrontierOk(f, p, None) && Layered(f, d, depth)
    ensures IndexInRange(f) && TakenIn(f, Admit(f, p, link, source, depth).frontier, p, d, depth)
  {
    if !link.nonHttp {
      DiscoverTakesIn(f, p, SightingOf(f, p, link, source, depth), d);
    }
  }

  lemma {:induction false} AdmitAllTakesIn(f: Frontier, p: Policy, links: seq<Link>, source: Source, depth: nat,
                                           k: nat, d: nat)
    requires FrontierOk(f, p, None) && Layered(f, d, depth) && k <= |links|
    ensures IndexInRange(f) && TakenIn(f, AdmitAll(f, p, links, source, depth, k), p, d, depth)
  {
    if k > 0 {
      AdmitAllTakesIn(f, p, links, source, depth, k - 1, d);
      AdmitTakesIn(AdmitAll(f, p, links, source, depth, k - 1), p, links[k - 1], source, depth, d);
    }
  }

  // ---------------------------------------------------------------- one visit

  datatype Visited = Visited(frontier: Frontier, fetched: bool)

  /** Final URLs the policy refuses are never asked about. */
  function ReconcileVisit(f: Frontier, p: Policy, i: nat, page: Page): Found
    requires i < |f.records| && HasStates(f) && IndexInRange(f)
  {
    var unasked := FinalRefused(p, page.finalUrl, f.records[i].depth);
    Reconcile(f, p, i, page.finalUrl, unasked || page.finalSafe, unasked || (page.finalSafe && page.finalRobotsAllowed))
  }

  predicate FinalRefused(p: Policy, finalUrl: Url, depth: nat) {
    var normalized := p.normalize(finalUrl);
    normalized.None? || p.Rejection(normalized.value, depth).Some?
  }

  /** A visit to the record in hand. */
  ghost function Visit(f: Frontier, p: Policy, i: nat, page: Page, expand: bool): Visited
    requires FrontierOk(f, p, Some(i)) && StillQueued(f.records[i])
  {
    StatesExist(f, p, Some(i));
    if !page.robotsAllowed then Visited(Mark(f, i, Failed, Some(RobotsRefused)), false)
    else if !page.content then Visited(Mark(f, i, Failed, Some(FetchFailed(page.code))), true)
    else Visited(Landed(f, p, i, page, expand), true)
  }

  /** A page with content: its record is reconciled and fetched, and its links are admitted one level below it. */
  ghost function Landed(f: Frontier, p: Policy, i: nat, page: Page, expand: bool): Frontier
    requires FrontierOk(f, p, Some(i)) && StillQueued(f.records[i]) && HasStates(f) && IndexInRange(f)
  {
    var found := ReconcileVisit(f, p, i, page);
    if found.record.None? then found.frontier
    else
      FetchedKeeps(f, p, i, page);
      Followed(AfterFetch(f, p, i, page), p, found.record.value, page, expand)
  }

  function Followed(f: Frontier, p: Policy, j: nat, page: Page, expand: bool): Frontier
    requires j < |f.records| && IndexInRange(f)
  {
    var depth := f.records[j].depth;
    if expand && depth < p.maxDepth then AdmitAll(f, p, page.links, FromLink, depth + 1, |page.links|) else f
  }

  function AfterFetch(f: Frontier, p: Policy, i: nat, page: Page): Frontier
    requires i < |f.records| && HasStates(f) && IndexInRange(f)
    requires var found := ReconcileVisit(f, p, i, page);
             found.record.Some? && found.record.value < |found.frontier.records|
               && found.frontier.records[found.record.value].states != []
  {
    var found := ReconcileVisit(f, p, i, page);
    Mark(found.frontier, found.record.value, Fetched, None)
  }

  /** Reconciling ends the hand: the page's record is then fetched, be it the record visited or the one it led to. */
  lemma FetchedKeeps(f: Frontier, p: Policy, i: nat, page: Page)
    requires FrontierOk(f, p, Some(i)) && StillQueued(f.records[i]) && HasStates(f) && IndexInRange(f)
    requires ReconcileVisit(f, p, i, page).record.Some?
    ensures var found := ReconcileVisit(f, p, i, page);
            found.record.value < |found.frontier.records| && found.frontier.records[found.record.value].states != []
    ensures var g, j := AfterFetch(f, p, i, page), ReconcileVisit(f, p, i, page).record.value;
            FrontierOk(g, p, None) && |g.records| == |f.records| && g.queue == f.queue && FetchedAt(g, j)
  {
    var found := ReconcileVisit(f, p, i, page);
    var unasked := FinalRefused(p, page.finalUrl, f.records[i].depth);
    ReconcileKeeps(f, p, i, page.finalUrl, unasked || page.finalSafe,
                   unasked || (page.finalSafe && page.finalRobotsAllowed));
    FetchedOf(found.frontier, p, i, found.record.value);
  }

  lemma FetchedOf(f: Frontier, p: Policy, i: nat, j: nat)
    requires if j == i then FrontierOk(f, p, Some(i)) && StillQueued(f.records[i])
             else FrontierOk(f, p, None) && FetchedAt(f, j)
    ensures j < |f.records| && f.records[j].states != []
    ensures var g := Mark(f, j, Fetched, None);
            FrontierOk(g, p, None) && |g.records| == |f.records| && g.queue == f.queue && FetchedAt(g, j)
  {
    if j == i {
      MarkKeeps(f, p, i, Fetched, None);
      assert RecordOk(f.records[i], p);
    } else {
      assert Mark(f, j, Fetched, None) == f;
    }
  }

  /**
   Records that had ended stay exactly where they were: in particular no depth drops once links were followed from
   it.
   */
  ghost predicate Settled(f: Frontier, g: Frontier) {
    && |f.records| <= |g.records|
    && (forall k :: 0 <= k < |f.records| && WasAdmitted(f.records[k]) && !StillQueued(f.records[k]) ==>
          && WasAdmitted(g.records[k]) && g.records[k].states == f.records[k].states
          && g.records[k].url == f.records[k].url && g.records[k].depth == f.records[k].depth)
  }

  /** The head of the queue is the shallowest record waiting, so it starts the next layer or goes on with this one. */
  lemma PopLayered(f: Frontier, p: Policy, d: nat, m: nat)
    requires FrontierOk(f, p, None) && Layered(f, d, m) && f.queue != []
    ensures var i := f.queue[0];
            && (!StillQueued(f.records[i]) ==> Layered(Pop(f).frontier, d, m))
            && (StillQueued(f.records[i]) ==>
                  d <= f.records[i].depth && Layered(Pop(f).frontier, f.records[i].depth, f.records[i].depth + 1))
  {
    var g := Pop(f).frontier;
    var e := f.records[f.queue[0]].depth;
    forall a: nat | Waits(g, a)
      ensures Waits(f, a + 1) && DepthAt(g, a) == DepthAt(f, a + 1)
      ensures StillQueued(f.records[f.queue[0]]) ==> e <= DepthAt(g, a)
    {
      assert g.queue[a] == f.queue[a + 1];
      assert Waits(f, a + 1);
      if StillQueued(f.records[f.queue[0]]) { assert Waits(f, 0); }
    }
    forall a: nat, b: nat | a < b && Waits(g, a) && Waits(g, b)
      ensures DepthAt(g, a) <= DepthAt(g, b)
    {
      assert Waits(f, a + 1) && Waits(f, b + 1);
    }
    if StillQueued(f.records[f.queue[0]]) { assert Waits(f, 0); }
  }

  lemma MarkLayered(f: Frontier, p: Policy, i: nat, s: State, reason: Option<Reason>)
    requires FrontierOk(f, p, Some(i)) && StillQueued(f.records[i])
    requires Layered(f, f.records[i].depth, f.records[i].depth + 1)
    ensures var d := f.records[i].depth;
            Layered(Mark(f, i, s, reason), d, d + 1) && Settled(f, Mark(f, i, s, reason))
  {
    assert RecordOk(f.records[i], p);
    EndedInKeeps(f.records[i], s, reason);
    var r := EndedIn(f.records[i], s, reason);
    assert Mark(f, i, s, reason) == WithRecord(f, i, r);
    HandLayered(f, i, r, f.records[i].depth);
  }

  lemma EndedInKeeps(r: Record, s: State, reason: Option<Reason>)
    requires LegalPath(r.states) && StillQueued(r)
    ensures var e := EndedIn(r, s, reason); WasAdmitted(e) && e.url == r.url && e.depth == r.depth && !StillQueued(e)
  {
  }

  /** The record in hand may change in every way but its depth. */
  lemma HandLayered(f: Frontier, i: nat, r: Record, d: nat)
    requires Layered(f, d, d + 1) && i < |f.records| && i !in f.queue && StillQueued(f.records[i])
    requires f.records[i].depth == d == r.depth && WasAdmitted(r)
    ensures Layered(WithRecord(f, i, r), d, d + 1) && Settled(f, WithRecord(f, i, r))
  {
    var g := WithRecord(f, i, r);
    forall a: nat | Waits(g, a)
      ensures Waits(f, a) && DepthAt(g, a) == DepthAt(f, a)
    {
      assert f.queue[a] in f.queue;
    }
    LayersKept(f, g, d, d + 1);
  }

  /** A record that leaves the queue no deeper than the layer in hand, or was never in it, or had already left it. */
  lemma LeaveLayered(f: Frontier, e: nat, r: Record, d: nat)
    requires Layered(f, d, d + 1) && e < |f.records|
    requires var x := f.records[e];
             if !WasAdmitted(x) then !WasAdmitted(r)
             else
               && WasAdmitted(r) && !StillQueued(r) && r.depth <= d && r.url == x.url
               && (!StillQueued(x) ==> r.states == x.states && r.depth == x.depth)
    ensures Layered(WithRecord(f, e, r), d, d + 1) && Settled(f, WithRecord(f, e, r))
  {
    var g := WithRecord(f, e, r);
    forall a: nat | Waits(g, a)
      ensures Waits(f, a) && DepthAt(g, a) == DepthAt(f, a)
    {
    }
    LayersKept(f, g, d, d + 1);
  }

  lemma SettledTransitive(f: Frontier, g: Frontier, h: Frontier)
    requires Settled(f, g) && Settled(g, h)
    ensures Settled(f, h)
  {
    forall k | 0 <= k < |f.records| && WasAdmitted(f.records[k]) && !StillQueued(f.records[k])
      ensures WasAdmitted(h.records[k]) && h.records[k].states == f.records[k].states
      ensures h.records[k].url == f.records[k].url && h.records[k].depth == f.records[k].depth
    {
      assert WasAdmitted(g.records[k]) && g.records[k].states == f.records[k].states;
      assert !StillQueued(g.records[k]);
    }
  }

  lemma MergeLayered(f: Frontier, p: Policy, i: nat, e: nat)
    requires FrontierOk(f, p, Some(i)) && StillQueued(f.records[i]) && HasStates(f) && e < |f.records| && e != i
    requires Layered(f, f.records[i].depth, f.records[i].depth + 1)
    ensures var d := f.records[i].depth; var g := MergeFinal(f, i, e);
            && Layered(g.frontier, d, d + 1) && Settled(f, g.frontier)
            && (g.record.Some? ==> g.record.value == e && e < |g.frontier.records| && g.frontier.records[e].depth == d)
            && i < |g.frontier.records| && Left(g.frontier.records[i], d)
  {
    var r, x := f.records[i], f.records[e];
    assert RecordOk(r, p) && RecordOk(x, p);
    if StillQueued(x) { QueuedAbove(f, p, e, r.depth); }
    AbsorbLayered(f, i, e);
    MergeFinalValue(f, i, e);
    EndedInKeeps(r, Failed, Some(DuplicateFinalUrl));
    AbsorbedKeeps(x, r);
  }

  lemma AbsorbLayered(f: Frontier, i: nat, e: nat)
    requires i < |f.records| && e < |f.records| && e != i && i !in f.queue
    requires LegalPath(f.records[i].states) && LegalPath(f.records[e].states) && StillQueued(f.records[i])
    requires Layered(f, f.records[i].depth, f.records[i].depth + 1)
    requires StillQueued(f.records[e]) ==> f.records[i].depth <= f.records[e].depth
    ensures var ended := EndedIn(f.records[i], Failed, Some(DuplicateFinalUrl));
            var g := WithRecord(WithRecord(f, i, ended), e, Absorbed(f.records[e], f.records[i]));
            Layered(g, f.records[i].depth, f.records[i].depth + 1) && Settled(f, g)
  {
    var r, x := f.records[i], f.records[e];
    var ended, z := EndedIn(r, Failed, Some(DuplicateFinalUrl)), Absorbed(x, r);
    EndedInKeeps(r, Failed, Some(DuplicateFinalUrl));
    HandLayered(f, i, ended, r.depth);
    AbsorbedKeeps(x, r);
    var g := WithRecord(f, i, ended);
    LeaveLayered(g, e, z, r.depth);
    SettledTransitive(f, g, WithRecord(g, e, z));
  }

  /** What becomes of the record that already has the final URL. */
  function Absorbed(x: Record, r: Record): Record
    requires x.states != []
  {
    var y := x.(sources := WithSources(x.sources, r.sources), depth := Min(x.depth, r.depth));
    if LastState(x) == Queued then EndedIn(y, Fetched, None) else y
  }

  lemma AbsorbedKeeps(x: Record, r: Record)
    requires LegalPath(x.states)
    ensures var z := Absorbed(x, r);
            && z.url == x.url && z.depth == Min(x.depth, r.depth)
            && (!StillQueued(x) ==> z.states == x.states)
            && (StillQueued(x) ==> WasAdmitted(z) && !StillQueued(z))
            && (StillQueued(x) <==> LastState(x) == Queued)
  {
  }

  lemma MergeFinalValue(f: Frontier, i: nat, e: nat)
    requires i < |f.records| && e < |f.records| && e != i && HasStates(f)
    ensures var m := MergeFinal(f, i, e); var ended := EndedIn(f.records[i], Failed, Some(DuplicateFinalUrl));
            && m.frontier == WithRecord(WithRecord(f, i, ended), e, Absorbed(f.records[e], f.records[i]))
            && m.record == if LastState(f.records[e]) == Queued then Some(e) else None
  {
    assert MergeFinal(f, i, e).frontier.records
        == f.records[i := EndedIn(f.records[i], Failed, Some(DuplicateFinalUrl))]
                    [e := Absorbed(f.records[e], f.records[i])];
  }

  /** Whatever still waits is no shallower than the layer in hand. */
  lemma QueuedAbove(f: Frontier, p: Policy, e: nat, d: nat)
    requires Layered(f, d, d + 1) && e < |f.records| && StillQueued(f.records[e]) && e in f.queue
    ensures d <= f.records[e].depth
  {
    var a :| 0 <= a < |f.queue| && f.queue[a] == e;
    assert Waits(f, a);
  }

  lemma ReconcileLayered(f: Frontier, p: Policy, i: nat, finalUrl: Url, safe: bool, robotsAllowed: bool)
    requires FrontierOk(f, p, Some(i)) && StillQueued(f.records[i]) && HasStates(f)
    requires Layered(f, f.records[i].depth, f.records[i].depth + 1)
    ensures var d := f.records[i].depth; var g := Reconcile(f, p, i, finalUrl, safe, robotsAllowed);
            && Layered(g.frontier, d, d + 1) && Settled(f, g.frontier)
            && (g.record.Some? ==>
                  g.record.value < |g.frontier.records| && g.frontier.records[g.record.value].depth == d)
            && (g.record != Some(i) ==> Left(g.frontier.records[i], d))
  {
    var d := f.records[i].depth;
    var normalized := p.normalize(finalUrl);
    var reason := RedirectRejection(p, normalized, d, safe, robotsAllowed);
    if reason.Some? {
      MarkLayered(f, p, i, Failed, reason);
      assert RecordOk(f.records[i], p);
      EndedInKeeps(f.records[i], Failed, reason);
    } else {
      var key := p.key(normalized.value);
      if key in f.byKey && f.byKey[key] != i {
        MergeLayered(f, p, i, f.byKey[key]);
      } else {
        var moved := f.records[i].(url := normalized.value);
        HandLayered(f, i, moved, d);
        SameLayers(WithRecord(f, i, moved), Moved(f, p, i, normalized.value), d, d + 1);
      }
    }
  }

  /** A record that has left the queue, at the depth where it was visited. */
  predicate Left(r: Record, d: nat) {
    WasAdmitted(r) && !StillQueued(r) && r.depth == d
  }

  /** What a finished visit to record i, at depth d, leaves true. */
  ghost predicate Done(f: Frontier, g: Frontier, p: Policy, i: nat, d: nat) {
    && FrontierOk(g, p, None) && Layered(g, d, d + 1) && Settled(f, g)
    && i < |g.records| && Left(g.records[i], d)
    && (|g.records| == |f.records| ==> g.queue == f.queue)
  }

  /** What reconciling leaves true when a record is to be fetched: the one in hand, or one already marked so. */
  ghost predicate Ready(f: Frontier, found: Found, p: Policy, i: nat, d: nat) {
    var g := found.frontier;
    && found.record.Some? && found.record.value < |g.records| && i < |g.records|
    && Layered(g, d, d + 1) && Settled(f, g) && g.records[found.record.value].depth == d
    && g.queue == f.queue
    && if found.record.value == i then FrontierOk(g, p, Some(i)) && StillQueued(g.records[i])
       else FrontierOk(g, p, None) && FetchedAt(g, found.record.value) && Left(g.records[i], d)
  }

  lemma MarkedDone(f: Frontier, p: Policy, i: nat, reason: Reason)
    requires FrontierOk(f, p, Some(i)) && StillQueued(f.records[i]) && f.records[i].states != []
    requires Layered(f, f.records[i].depth, f.records[i].depth + 1)
    ensures Done(f, Mark(f, i, Failed, Some(reason)), p, i, f.records[i].depth)
  {
    assert RecordOk(f.records[i], p);
    EndedInKeeps(f.records[i], Failed, Some(reason));
    MarkKeeps(f, p, i, Failed, Some(reason));
    MarkLayered(f, p, i, Failed, Some(reason));
  }

  lemma ReconcileReady(f: Frontier, p: Policy, i: nat, page: Page)
    requires FrontierOk(f, p, Some(i)) && StillQueued(f.records[i]) && HasStates(f) && IndexInRange(f)
    requires Layered(f, f.records[i].depth, f.records[i].depth + 1)
    ensures var found := ReconcileVisit(f, p, i, page); var d := f.records[i].depth;
            if found.record.Some? then Ready(f, found, p, i, d) else Done(f, found.frontier, p, i, d)
  {
    var unasked := FinalRefused(p, page.finalUrl, f.records[i].depth);
    var safe, robots := unasked || page.finalSafe, unasked || (page.finalSafe && page.finalRobotsAllowed);
    ReconcileKeeps(f, p, i, page.finalUrl, safe, robots);
    ReconcileLayered(f, p, i, page.finalUrl, safe, robots);
  }

  lemma ReadyFetched(f: Frontier, found: Found, p: Policy, i: nat, d: nat)
    requires Ready(f, found, p, i, d)
    ensures found.frontier.records[found.record.value].states != []
    ensures var g := Mark(found.frontier, found.record.value, Fetched, None);
            && Done(f, g, p, i, d) && found.record.value < |g.records| && g.records[found.record.value].depth == d
  {
    var j := found.record.value;
    FetchedOf(found.frontier, p, i, j);
    FetchedLayered(found.frontier, p, i, j, d);
    SettledTransitive(f, found.frontier, Mark(found.frontier, j, Fetched, None));
  }

  lemma FetchedLayered(f: Frontier, p: Policy, i: nat, j: nat, d: nat)
    requires j < |f.records| && Layered(f, d, d + 1) && f.records[j].depth == d && f.records[j].states != []
    requires if j == i then FrontierOk(f, p, Some(i)) && StillQueued(f.records[i])
             else FrontierOk(f, p, None) && FetchedAt(f, j) && i < |f.records| && Left(f.records[i], d)
    ensures var g := Mark(f, j, Fetched, None);
            Layered(g, d, d + 1) && Settled(f, g) && g.records[j].depth == d && Left(g.records[i], d)
  {
    if j == i {
      assert RecordOk(f.records[i], p);
      EndedInKeeps(f.records[i], Fetched, None);
      MarkLayered(f, p, i, Fetched, None);
    } else {
      assert Mark(f, j, Fetched, None) == f;
    }
  }

  lemma FollowedDone(f: Frontier, g: Frontier, p: Policy, i: nat, j: nat, page: Page, expand: bool)
    requires j < |g.records| && Done(f, g, p, i, g.records[j].depth)
    ensures IndexInRange(g) && Done(f, Followed(g, p, j, page, expand), p, i, g.records[j].depth)
  {
    InRange(g, p);
    var h := Followed(g, p, j, page, expand);
    FollowedTakesIn(g, p, j, page, expand, h);
    ExtendsDone(f, g, h, p, i, g.records[j].depth);
  }

  lemma NothingTakenIn(f: Frontier, p: Policy, d: nat, m: nat)
    requires FrontierOk(f, p, None) && Layered(f, d, m)
    ensures TakenIn(f, f, p, d, m)
  {
  }

  lemma FollowedTakesIn(f: Frontier, p: Policy, j: nat, page: Page, expand: bool, g: Frontier)
    requires FrontierOk(f, p, None) && j < |f.records| && Layered(f, f.records[j].depth, f.records[j].depth + 1)
    requires IndexInRange(f) && g == Followed(f, p, j, page, expand)
    ensures TakenIn(f, g, p, f.records[j].depth, f.records[j].depth + 1)
  {
    var d := f.records[j].depth;
    if expand && d < p.maxDepth {
      AdmitAllTakesIn(f, p, page.links, FromLink, d + 1, |page.links|, d);
    } else {
      NothingTakenIn(f, p, d, d + 1);
    }
  }

  lemma InRange(f: Frontier, p: Policy)
    requires IndexOk(f, p)
    ensures IndexInRange(f)
  {
  }

  lemma ExtendsDone(f: Frontier, g: Frontier, h: Frontier, p: Policy, i: nat, d: nat)
    requires Done(f, g, p, i, d) && TakenIn(g, h, p, d, d + 1)
    ensures Done(f, h, p, i, d)
  {
    assert Settled(g, h);
    SettledTransitive(f, g, h);
  }

  /**
   * A visit ends the record in hand and keeps everything: the frontier's invariant, the layers, and every record that
   * had ended before. The queue grows only with the list of records.
   */
  lemma VisitKeeps(f: Frontier, p: Policy, i: nat, page: Page, expand: bool)
    requires FrontierOk(f, p, Some(i)) && StillQueued(f.records[i])
    requires Layered(f, f.records[i].depth, f.records[i].depth + 1)
    ensures Done(f, Visit(f, p, i, page, expand).frontier, p, i, f.records[i].depth)
  {
    StatesExist(f, p, Some(i));
    if !page.robotsAllowed {
      MarkedDone(f, p, i, RobotsRefused);
    } else if !page.content {
      MarkedDone(f, p, i, FetchFailed(page.code));
    } else {
      ReconcileReady(f, p, i, page);
      var found := ReconcileVisit(f, p, i, page);
      if found.record.Some? {
        ReadyFetched(f, found, p, i, f.records[i].depth);
        FollowedDone(f, AfterFetch(f, p, i, page), p, i, found.record.value, page, expand);
      }
    }
  }

  // ---------------------------------------------------------------- before the page loop

  /** Seed, sitemaps, search and the seed's links only add to the frontier: depth 0 first, then depth m. */
  ghost predicate Gathering(start: Frontier, f: Frontier, p: Policy, m: nat) {
    FrontierOk(f, p, None) && Layered(f, 0, m) && Extends(start, f)
  }

  lemma ExtendsTransitive(f: Frontier, g: Frontier, h: Frontier)
    requires Extends(f, g) && Extends(g, h)
    ensures Extends(f, h)
  {
    forall i | 0 <= i < |f.records|
      ensures h.records[i].url == f.records[i].url && h.records[i].states == f.records[i].states
      ensures WasAdmitted(f.records[i]) ==> h.records[i].depth == f.records[i].depth
    {
      assert g.records[i].states == f.records[i].states;
    }
  }

  lemma {:induction false} GatherKeeps(start: Frontier, f: Frontier, p: Policy, links: seq<Link>, source: Source,
                                       depth: nat, m: nat)
    requires Gathering(start, f, p, m) && m <= depth <= 1
    ensures IndexInRange(f)
    ensures Gathering(start, AdmitAll(f, p, links, source, depth, |links|), p, depth)
  {
    InRange(f, p);
    assert Layered(f, 0, depth);
    AdmitAllTakesIn(f, p, links, source, depth, |links|, 0);
    ExtendsTransitive(start, f, AdmitAll(f, p, links, source, depth, |links|));
  }

  /** A frontier holding the seed's record alone, waiting. */
  ghost predicate SeedWaits(f: Frontier, p: Policy) {
    && FrontierOk(f, p, None) && f.queue == [0] && |f.records| == 1
    && StillQueued(f.records[0]) && f.records[0].depth == 0
  }

  /** The first sighting of all: nothing comes of it, or a record that is filtered for good, or one that waits alone. */
  lemma FirstSighting(p: Policy, s: Sighting)
    requires s.depth == 0
    ensures var found := Discover(Frontier([], map[], [], 0), p, s); var f := found.frontier;
            && FrontierOk(f, p, None) && |f.records| <= 1
            && (found.record.Some? <==> |f.records| == 1) && (found.record.Some? ==> found.record == Some(0))
            && (|f.records| == 0 ==> f.queue == [])
            && (|f.records| == 1 ==> SeedFiltered(f) || SeedWaits(f, p))
  {
    var empty := Frontier([], map[], [], 0);
    DiscoverKeeps(empty, p, None, s);
    var f := Discover(empty, p, s).frontier;
    if |f.records| == 1 {
      assert f.records[0].states == [Discovered, Filtered] || f.records[0].states == [Discovered, Admitted, Queued];
    }
  }

  predicate SeedFiltered(f: Frontier) {
    f.queue == [] && |f.records| == 1 && f.records[0].states == [Discovered, Filtered]
  }

  /** The first record is the seed's: it is filtered for good, or it waits alone. */
  lemma SeedKeeps(p: Policy, link: Link)
    ensures var found := Admit(Frontier([], map[], [], 0), p, link, FromSeed, 0); var f := found.frontier;
            && FrontierOk(f, p, None)
            && (found.record.Some? ==> found.record == Some(0) && |f.records| == 1 && f.records[0].states != [])
            && if found.record.None? || LastState(f.records[0]) == Filtered then f.queue == [] else SeedWaits(f, p)
  {
    var empty := Frontier([], map[], [], 0);
    if !link.nonHttp {
      FirstSighting(p, SightingOf(empty, p, link, FromSeed, 0));
    }
  }

  lemma SeedFetchedKeeps(f: Frontier, p: Policy)
    requires SeedWaits(f, p)
    ensures f.records[0].states != []
    ensures Gathering(SeedFetched(f), SeedFetched(f), p, 0) && SeedFetched(f).queue == []
  {
    PopKeeps(f, p);
    MarkKeeps(Pop(f).frontier, p, 0, Fetched, None);
    EndedInKeeps(f.records[0], Fetched, None);
  }

  function SeedFetched(f: Frontier): Frontier
    requires f.queue == [0] && |f.records| == 1 && f.records[0].states != []
  {
    Mark(Pop(f).frontier, 0, Fetched, None)
  }

  /** The frontier that a fetched seed leaves: its record fetched, or whatever refused it. */
  ghost function SeedAdmitted(p: Policy, link: Link): (g: Frontier)
    ensures FrontierOk(g, p, None) && g.queue == []
  {
    SeedKeeps(p, link);
    var found := Admit(Frontier([], map[], [], 0), p, link, FromSeed, 0);
    if SeedRefused(found) then found.frontier
    else
      SeedFetchedKeeps(found.frontier, p);
      SeedFetched(found.frontier)
  }

  /** The seed's record is admitted. */
  ghost predicate SeedTaken(p: Policy, link: Link) {
    SeedKeeps(p, link);
    !SeedRefused(Admit(Frontier([], map[], [], 0), p, link, FromSeed, 0))
  }

  predicate SeedRefused(found: Found)
    requires found.record.Some? ==> |found.frontier.records| > 0 && found.frontier.records[0].states != []
  {
    found.record.None? || LastState(found.frontier.records[0]) == Filtered
  }

  /** A seed that cannot be fetched is recorded as found, without asking anyone, and fails. */
  function SeedSighting(url: Url): Sighting {
    Sighting(url, FromSeed, 0, true, true, None, None)
  }

  lemma SeedSeen(p: Policy, url: Url)
    ensures var found := Discover(Frontier([], map[], [], 0), p, SeedSighting(url)); var f := found.frontier;
            && FrontierOk(f, p, None)
            && (found.record.Some? ==> found.record == Some(0) && |f.records| == 1 && f.records[0].states != [])
            && if found.record.None? || LastState(f.records[0]) != Queued then f.queue == [] else SeedWaits(f, p)
  {
    FirstSighting(p, SeedSighting(url));
  }

  /** The frontier after a failed seed: one record, failed or filtered, or none. */
  ghost function SeedFailed(p: Policy, url: Url, code: nat): (g: Frontier)
    ensures FrontierOk(g, p, None) && g.queue == [] && |g.records| <= 1
    ensures |g.records| == 1 ==> g.records[0].states != [] && LastState(g.records[0]) in {Failed, Filtered}
  {
    SeedSeen(p, url);
    var found := Discover(Frontier([], map[], [], 0), p, SeedSighting(url));
    if found.record.None? || LastState(found.frontier.records[0]) != Queued then
      SeedSeenEnds(p, url);
      found.frontier
    else
      SeedFailedKeeps(found.frontier, p, code);
      Mark(Pop(found.frontier).frontier, 0, Failed, Some(FetchFailed(code)))
  }

  lemma SeedSeenEnds(p: Policy, url: Url)
    ensures var f := Discover(Frontier([], map[], [], 0), p, SeedSighting(url)).frontier;
            |f.records| <= 1 && (|f.records| == 1 ==>
                f.records[0].states != [] && LastState(f.records[0]) in {Queued, Filtered})
  {
    FirstSighting(p, SeedSighting(url));
  }

  lemma SeedFailedKeeps(f: Frontier, p: Policy, code: nat)
    requires SeedWaits(f, p)
    ensures f.records[0].states != []
    ensures var g := Mark(Pop(f).frontier, 0, Failed, Some(FetchFailed(code)));
            FrontierOk(g, p, None) && g.queue == [] && |g.records| == 1
            && g.records[0].states != [] && LastState(g.records[0]) == Failed
  {
    PopKeeps(f, p);
    MarkKeeps(Pop(f).frontier, p, 0, Failed, Some(FetchFailed(code)));
    assert RecordOk(f.records[0], p);
  }

  // ---------------------------------------------------------------- the page loop

  /** A page fetch: which record, and the address and depth it had then. */
  datatype Fetch = Fetch(order: nat, url: Url, depth: nat)

  /** The fetch a visit to record i made, if any. */
  function FetchOf(r: Record, i: nat, visit: Visited): seq<Fetch> {
    if visit.fetched then [Fetch(i, r.url, r.depth)] else []
  }

  /** A fetch was allowed by the policy, and its record has since stayed out of the queue and at that depth. */
  ghost predicate FetchOk(f: Frontier, p: Policy, fetch: Fetch, d: nat) {
    && fetch.order < |f.records| && Left(f.records[fetch.order], fetch.depth)
    && p.Rejection(fetch.url, fetch.depth) == None && fetch.depth <= d
  }

  /** All fetches so far: allowed, each of another record, in order of depth. */
  ghost predicate FetchesOk(f: Frontier, p: Policy, fetches: seq<Fetch>, d: nat) {
    && (forall a :: 0 <= a < |fetches| ==> FetchOk(f, p, fetches[a], d))
    && (forall a, b :: 0 <= a < b < |fetches| ==>
          fetches[a].order != fetches[b].order && fetches[a].depth <= fetches[b].depth)
  }

  /** The page loop's invariant, between turns. */
  ghost predicate Crawling(f: Frontier, p: Policy, fetches: seq<Fetch>, d: nat) {
    FrontierOk(f, p, None) && Layered(f, d, d + 1) && FetchesOk(f, p, fetches, d)
  }

  /** What holds when it ends. */
  ghost predicate Finished(f: Frontier, p: Policy, fetches: seq<Fetch>, d: nat) {
    FrontierOk(f, p, None) && f.queue == [] && FetchesOk(f, p, fetches, d)
  }

  /** Its effect: earlier records stay where they ended, and the loop's measure has gone down. */
  ghost predicate Advanced(f: Frontier, g: Frontier) {
    Settled(f, g) && Shorter(g, f)
  }

  lemma FetchesSettled(f: Frontier, g: Frontier, p: Policy, fetches: seq<Fetch>, d: nat, e: nat)
    requires FetchesOk(f, p, fetches, d) && Settled(f, g) && d <= e
    ensures FetchesOk(g, p, fetches, e)
  {
    forall a | 0 <= a < |fetches|
      ensures FetchOk(g, p, fetches[a], e)
    {
      assert FetchOk(f, p, fetches[a], d);
      assert WasAdmitted(f.records[fetches[a].order]) && !StillQueued(f.records[fetches[a].order]);
    }
  }

  lemma FetchAdded(f: Frontier, g: Frontier, p: Policy, fetches: seq<Fetch>, i: nat, url: Url, d: nat, e: nat)
    requires FetchesOk(f, p, fetches, d) && FetchesOk(g, p, fetches, e) && d <= e
    requires i < |f.records| && StillQueued(f.records[i])
    requires i < |g.records| && Left(g.records[i], e) && p.Rejection(url, e) == None
    ensures FetchesOk(g, p, fetches + [Fetch(i, url, e)], e)
  {
    assert FetchOk(g, p, Fetch(i, url, e), e);
    forall a | 0 <= a < |fetches|
      ensures fetches[a].order != i && fetches[a].depth <= e
    {
      assert FetchOk(f, p, fetches[a], d);
    }
  }

  /** One turn of the page loop that visits the head of the queue. */
  lemma PageStep(f: Frontier, p: Policy, d: nat, fetches: seq<Fetch>, page: Page, expand: bool)
    requires Crawling(f, p, fetches, d)
    requires f.queue != [] && StillQueued(f.records[f.queue[0]])
    ensures FrontierOk(Pop(f).frontier, p, Some(f.queue[0]))
    ensures var i := f.queue[0]; var e := f.records[i].depth;
            var visit := Visit(Pop(f).frontier, p, i, page, expand);
            var all := fetches + FetchOf(f.records[i], i, visit);
            d <= e && Crawling(visit.frontier, p, all, e) && Advanced(f, visit.frontier)
  {
    var i := f.queue[0];
    var e := f.records[i].depth;
    PopKeeps(f, p);
    PopLayered(f, p, d, d + 1);
    var g := Pop(f).frontier;
    VisitKeeps(g, p, i, page, expand);
    var h := Visit(g, p, i, page, expand).frontier;
    assert RecordOk(f.records[i], p);
    FetchesSettled(f, g, p, fetches, d, e);
    FetchesSettled(g, h, p, fetches, e, e);
    FetchAdded(f, h, p, fetches, i, f.records[i].url, d, e);
  }

  /** The measure of both loops: more records, which are bounded, or as many and a shorter queue. */
  predicate Shorter(g: Frontier, f: Frontier) {
    |g.records| > |f.records| || (|g.records| == |f.records| && |g.queue| < |f.queue|)
  }

  /** A turn that drops a record which has ended meanwhile. */
  lemma SkipStep(f: Frontier, p: Policy, d: nat, fetches: seq<Fetch>)
    requires Crawling(f, p, fetches, d)
    requires f.queue != [] && !StillQueued(f.records[f.queue[0]])
    ensures var g := Pop(f).frontier;
            Crawling(g, p, fetches, d) && Advanced(f, g)
  {
    PopKeeps(f, p);
    PopLayered(f, p, d, d + 1);
    FetchesSettled(f, Pop(f).frontier, p, fetches, d, d);
  }

  /** The turn that finds the queue empty. */
  lemma EndStep(f: Frontier, p: Policy, d: nat, fetches: seq<Fetch>)
    requires Crawling(f, p, fetches, d) && f.queue == []
    ensures Finished(f, p, fetches, d) && Settled(f, f) && Pop(f).frontier == f
  {
  }

  /** The record in hand and everything queued is cancelled. */
  function Stopped(f: Frontier, i: nat): Frontier
    requires i < |f.records| && HasStates(f)
  {
    CancelQueued(Mark(f, i, Cancelled, Some(PageLimitReached)))
  }

  /** The last turn, when the page budget is spent: the record in hand and everything queued is cancelled. */
  lemma StopStep(f: Frontier, p: Policy, d: nat, fetches: seq<Fetch>)
    requires Crawling(f, p, fetches, d)
    requires f.queue != [] && StillQueued(f.records[f.queue[0]])
    ensures HasStates(f)
    ensures var g := Stopped(Pop(f).frontier, f.queue[0]); Finished(g, p, fetches, d) && Settled(f, g)
  {
    var i := f.queue[0];
    StatesExist(f, p, None);
    PopKeeps(f, p);
    PopLayered(f, p, d, d + 1);
    var g := Pop(f).frontier;
    MarkKeeps(g, p, i, Cancelled, Some(PageLimitReached));
    MarkLayered(g, p, i, Cancelled, Some(PageLimitReached));
    var h := Mark(g, i, Cancelled, Some(PageLimitReached));
    CancelQueuedKeeps(h, p);
    CancelSettles(h, p);
    SettledTransitive(f, g, h);
    SettledTransitive(f, h, CancelQueued(h));
    FetchesSettled(f, CancelQueued(h), p, fetches, d, d);
  }

  lemma CancelSettles(f: Frontier, p: Policy)
    requires FrontierOk(f, p, None) && HasStates(f)
    ensures Settled(f, CancelQueued(f))
  {
    forall k | 0 <= k < |f.records|
      ensures RecordOk(f.records[k], p)
    {
    }
  }

  /** What one turn of the page loop leaves, and the fetch it made, if any. */
  datatype Turned = Turned(more: bool, frontier: Frontier, fetch: seq<Fetch>)

  /**
   A turn for record i, just taken from the queue: one that ended meanwhile is dropped, another is visited, or, once
   the page budget is spent, cancelled together with all that wait.
   */
  ghost function Turn(f: Frontier, p: Policy, i: nat, page: Page, expand: bool, spent: bool): Turned
    requires FrontierOk(f, p, Some(i))
  {
    StatesExist(f, p, Some(i));
    if !StillQueued(f.records[i]) then Turned(true, f, [])
    else if spent then Turned(false, Stopped(f, i), [])
    else
      var visit := Visit(f, p, i, page, expand);
      Turned(true, visit.frontier, FetchOf(f.records[i], i, visit))
  }

  /** One step: the loop ends with an empty queue, and otherwise takes its head. */
  ghost function Step(f: Frontier, p: Policy, page: Page, expand: bool, spent: bool): Turned
    requires FrontierOk(f, p, None)
  {
    if f.queue == [] then Turned(false, f, [])
    else
      PopKeeps(f, p);
      Turn(Pop(f).frontier, p, f.queue[0], page, expand, spent)
  }

  /** The depth the loop has reached after a turn. */
  function Reached(f: Frontier, d: nat, spent: bool): nat {
    if !spent && f.queue != [] && f.queue[0] < |f.records| && StillQueued(f.records[f.queue[0]])
    then f.records[f.queue[0]].depth
    else d
  }

  /** Every turn keeps the loop's invariant and moves it on, or ends it. */
  lemma TurnKeeps(f: Frontier, p: Policy, d: nat, fetches: seq<Fetch>, page: Page, expand: bool, spent: bool)
    requires Crawling(f, p, fetches, d)
    ensures var turned := Step(f, p, page, expand, spent); var e := Reached(f, d, spent);
            && d <= e && Settled(f, turned.frontier) && |turned.fetch| <= 1 && (spent ==> turned.fetch == [])
            && if turned.more
               then Crawling(turned.frontier, p, fetches + turned.fetch, e) && Shorter(turned.frontier, f)
               else turned.fetch == [] && Finished(turned.frontier, p, fetches, e)
  {
    if f.queue == [] {
      EndStep(f, p, d, fetches);
    } else if !StillQueued(f.records[f.queue[0]]) {
      SkipStep(f, p, d, fetches);
      assert fetches + [] == fetches;
    } else if spent {
      StopStep(f, p, d, fetches);
    } else {
      PageStep(f, p, d, fetches, page, expand);
    }
  }

  /** The whole loop, from where it started: within the page budget, and either still crawling or finished. */
  ghost predicate Loop(start: Frontier, f: Frontier, p: Policy, fetches: seq<Fetch>, maxPages: nat, done: bool,
                       d: nat) {
    && Settled(start, f)
    && (|fetches| == 0 || 1 + |fetches| <= maxPages)
    && if done then Finished(f, p, fetches, d) else Crawling(f, p, fetches, d)
  }

  lemma LoopStep(start: Frontier, f: Frontier, p: Policy, d: nat, fetches: seq<Fetch>, page: Page, expand: bool,
                 maxPages: nat)
    requires Loop(start, f, p, fetches, maxPages, false, d)
    ensures var spent := 1 + |fetches| >= maxPages; var turned := Step(f, p, page, expand, spent);
            && Loop(start, turned.frontier, p, fetches + turned.fetch, maxPages, !turned.more, Reached(f, d, spent))
            && (turned.more ==> Shorter(turned.frontier, f) && |turned.frontier.records| <= p.maxUrls)
  {
    var spent := 1 + |fetches| >= maxPages;
    TurnKeeps(f, p, d, fetches, page, expand, spent);
    var turned := Step(f, p, page, expand, spent);
    SettledTransitive(start, f, turned.frontier);
    if turned.fetch == [] { assert fetches + turned.fetch == fetches; }
  }

  /**
   Where the loop is after a number of turns: its frontier, its fetches, whether it goes on, the depth it has
   reached.
   */
  datatype Progress = Progress(frontier: Frontier, fetches: seq<Fetch>, more: bool, depth: nat)

  /** One more turn of the loop. */
  ghost predicate NextTurn(p: Policy, prev: Progress, page: Page, expand: bool, maxPages: nat, next: Progress) {
    && prev.more && FrontierOk(prev.frontier, p, None)
    && var spent := 1 + |prev.fetches| >= maxPages;
       var turned := Step(prev.frontier, p, page, expand, spent);
       next == Progress(turned.frontier, prev.fetches + turned.fetch, turned.more,
                       Reached(prev.frontier, prev.depth, spent))
  }

  /** A run of the loop: where it is after each turn, given what each turn meets. */
  ghost predicate IsCrawl(start: Frontier, p: Policy, world: nat -> Page, expand: bool, maxPages: nat,
                          run: seq<Progress>) {
    && run != [] && run[0] == Progress(start, [], true, 0)
    && forall i :: 0 <= i < |run| - 1 ==> TurnAt(p, world, expand, maxPages, run, i)
  }

  ghost predicate TurnAt(p: Policy, world: nat -> Page, expand: bool, maxPages: nat, run: seq<Progress>, i: nat)
    requires i + 1 < |run|
  {
    NextTurn(p, run[i], world(i), expand, maxPages, run[i + 1])
  }

  lemma CrawlGoesOn(start: Frontier, p: Policy, world: nat -> Page, expand: bool, maxPages: nat, run: seq<Progress>,
                    next: Progress)
    requires IsCrawl(start, p, world, expand, maxPages, run)
    requires NextTurn(p, run[|run| - 1], world(|run| - 1), expand, maxPages, next)
    ensures IsCrawl(start, p, world, expand, maxPages, run + [next])
  {
    var longer := run + [next];
    forall i | 0 <= i < |longer| - 1
      ensures TurnAt(p, world, expand, maxPages, longer, i)
    {
      if i < |run| - 1 {
        assert TurnAt(p, world, expand, maxPages, run, i);
        assert longer[i] == run[i] && longer[i + 1] == run[i + 1];
      } else {
        assert longer[i] == run[|run| - 1] && longer[i + 1] == next;
      }
    }
  }

  /** What the loop promises, of one point of a run. */
  ghost predicate Promised(start: Frontier, p: Policy, maxPages: nat, at: Progress) {
    Loop(start, at.frontier, p, at.fetches, maxPages, !at.more, at.depth)
  }

  lemma TurnKeepsPromise(start: Frontier, p: Policy, prev: Progress, page: Page, expand: bool, maxPages: nat,
                         next: Progress)
    requires Promised(start, p, maxPages, prev) && NextTurn(p, prev, page, expand, maxPages, next)
    ensures Promised(start, p, maxPages, next)
    ensures next.more ==> Shorter(next.frontier, prev.frontier) && |next.frontier.records| <= p.maxUrls
  {
    LoopStep(start, prev.frontier, p, prev.depth, prev.fetches, page, expand, maxPages);
  }

  lemma PromiseStarts(start: Frontier, p: Policy, maxPages: nat)
    requires Crawling(start, p, [], 0)
    ensures Promised(start, p, maxPages, Progress(start, [], true, 0))
  {
  }

  lemma PromiseGoesOn(start: Frontier, p: Policy, world: nat -> Page, expand: bool, maxPages: nat,
                      run: seq<Progress>, k: nat)
    requires k + 1 < |run| && TurnAt(p, world, expand, maxPages, run, k) && Promised(start, p, maxPages, run[k])
    ensures Promised(start, p, maxPages, run[k + 1])
  {
    TurnKeepsPromise(start, p, run[k], world(k), expand, maxPages, run[k + 1]);
  }

  /** Whatever the turns meet, the loop keeps what it promises at every point of every run. */
  lemma {:induction false} CrawlKeepsPromise(start: Frontier, p: Policy, world: nat -> Page, expand: bool,
                                             maxPages: nat, run: seq<Progress>, k: nat)
    requires Crawling(start, p, [], 0) && IsCrawl(start, p, world, expand, maxPages, run) && k < |run|
    ensures Promised(start, p, maxPages, run[k])
  {
    if k == 0 {
      PromiseStarts(start, p, maxPages);
    } else {
      CrawlKeepsPromise(start, p, world, expand, maxPages, run, k - 1);
      PromiseGoesOn(start, p, world, expand, maxPages, run, k - 1);
    }
  }

  // ---------------------------------------------------------------- fetching a URL again

  /** Two fetches of one key: the record of one of them has moved to another key since. */
  lemma TwiceFetchedMeansMoved(f: Frontier, p: Policy, fetches: seq<Fetch>, d: nat, a: nat, b: nat)
    requires FrontierOk(f, p, None) && FetchesOk(f, p, fetches, d) && a < b < |fetches|
    requires p.key(fetches[a].url) == p.key(fetches[b].url)
    ensures fetches[a].order < |f.records| && fetches[b].order < |f.records|
    ensures p.key(f.records[fetches[a].order].url) != p.key(fetches[a].url)
         || p.key(f.records[fetches[b].order].url) != p.key(fetches[b].url)
  {
    var i, j := fetches[a].order, fetches[b].order;
    assert FetchOk(f, p, fetches[a], d) && FetchOk(f, p, fetches[b], d);
    KeysDistinct(f, p, None, if i < j then i else j, if i < j then j else i);
  }

  /** Known before the visit: the page has content, and its final URL takes the record to another, free key. */
  predicate VisitMoves(f: Frontier, p: Policy, i: nat, page: Page)
    requires i < |f.records|
  {
    var unasked := FinalRefused(p, page.finalUrl, f.records[i].depth);
    && page.robotsAllowed && page.content
    && Moves(f, p, i, page.finalUrl, unasked || page.finalSafe, unasked || (page.finalSafe && page.finalRobotsAllowed))
  }

  lemma {:induction false} AdmitAllKeepsUrls(f: Frontier, p: Policy, links: seq<Link>, source: Source, depth: nat,
                                             k: nat, i: nat)
    requires IndexInRange(f) && k <= |links| && i < |f.records|
    ensures var g := AdmitAll(f, p, links, source, depth, k); i < |g.records| && g.records[i].url == f.records[i].url
  {
    if k > 0 { AdmitAllKeepsUrls(f, p, links, source, depth, k - 1, i); }
  }

  lemma ReconcileMovesIff(f: Frontier, p: Policy, i: nat, finalUrl: Url, safe: bool, robotsAllowed: bool)
    requires FrontierOk(f, p, Some(i)) && StillQueued(f.records[i]) && HasStates(f)
    ensures var found := Reconcile(f, p, i, finalUrl, safe, robotsAllowed); var g := found.frontier;
            && |g.records| == |f.records|
            && (p.key(g.records[i].url) != p.key(f.records[i].url) <==> Moves(f, p, i, finalUrl, safe, robotsAllowed))
  {
    ReconcileKeeps(f, p, i, finalUrl, safe, robotsAllowed);
  }

  /** A visit leaves its record under another key exactly when the visit moves it. */
  lemma VisitMovesIff(f: Frontier, p: Policy, i: nat, page: Page, expand: bool)
    requires FrontierOk(f, p, Some(i)) && StillQueued(f.records[i])
    ensures var g := Visit(f, p, i, page, expand).frontier;
            i < |g.records| && (p.key(g.records[i].url) != p.key(f.records[i].url) <==> VisitMoves(f, p, i, page))
  {
    StatesExist(f, p, Some(i));
    if page.robotsAllowed && page.content {
      var unasked := FinalRefused(p, page.finalUrl, f.records[i].depth);
      var safe, robots := unasked || page.finalSafe, unasked || (page.finalSafe && page.finalRobotsAllowed);
      ReconcileMovesIff(f, p, i, page.finalUrl, safe, robots);
      var found := ReconcileVisit(f, p, i, page);
      if found.record.Some? {
        FetchedKeeps(f, p, i, page);
        var g := AfterFetch(f, p, i, page);
        assert g.records[i].url == found.frontier.records[i].url;
        FollowedKeepsUrl(g, p, found.record.value, page, expand, i);
      }
    }
  }

  lemma FollowedKeepsUrl(f: Frontier, p: Policy, j: nat, page: Page, expand: bool, i: nat)
    requires j < |f.records| && IndexInRange(f) && i < |f.records|
    ensures var g := Followed(f, p, j, page, expand); i < |g.records| && g.records[i].url == f.records[i].url
  {
    AdmitAllKeepsUrls(f, p, page.links, FromLink, f.records[j].depth + 1, |page.links|, i);
  }

  /** The policy accepts this address and takes it as it is. */
  predicate Plain(p: Policy, url: Url) {
    p.normalize(url) == Some(url) && p.key(url) == url && p.pathRejection(url) == None
  }

  /** Three different addresses that the policy takes as they are, and room for one link's depth and three records. */
  predicate PlainSite(p: Policy, seed: Url, a: Url, b: Url) {
    && Plain(p, seed) && Plain(p, a) && Plain(p, b)
    && seed != a && seed != b && a != b
    && p.maxDepth >= 1 && p.maxUrls >= 3
  }

  function Open(url: Url): Link {
    Link(url, false, true, true, None, None)
  }

  /** A page with content that turns out to have another address and links to one more. */
  function Redirected(finalUrl: Url, link: Url): Page {
    Page(true, true, 0, finalUrl, true, true, [Open(link)])
  }

  function RecordOf(url: Url, source: Source, depth: nat, states: seq<State>): Record {
    Record(url, depth, [source], states, None, None, None)
  }

  /** A frontier with the seed fetched and one page from a sitemap waiting. */
  function SeedAndPage(seed: Url, a: Url): Frontier {
    Frontier([RecordOf(seed, FromSeed, 0, [Discovered, Admitted, Queued, Fetched]),
              RecordOf(a, FromSitemap, 0, [Discovered, Admitted, Queued])], map[seed := 0, a := 1], [1], 0)
  }

  /** A frontier with one more page waiting. */
  function WithNew(f: Frontier, url: Url, source: Source, depth: nat): Frontier {
    Frontier(f.records + [RecordOf(url, source, depth, [Discovered, Admitted, Queued])], f.byKey[url := |f.records|],
             f.queue + [|f.records|], f.omitted)
  }

  lemma AdmitsNew(f: Frontier, p: Policy, url: Url, source: Source, depth: nat)
    requires Plain(p, url) && IndexInRange(f) && url !in f.byKey && |f.records| < p.maxUrls && depth <= p.maxDepth
    ensures Admit(f, p, Open(url), source, depth) == Found(WithNew(f, url, source, depth), Some(|f.records|))
  {
    assert p.Rejection(url, depth) == None;
    assert SightingOf(f, p, Open(url), source, depth) == Sighting(url, source, depth, true, true, None, None);
  }

  lemma {:induction false} AdmitsOne(f: Frontier, p: Policy, url: Url, source: Source, depth: nat, links: seq<Link>)
    requires Plain(p, url) && IndexInRange(f) && url !in f.byKey && |f.records| < p.maxUrls && depth <= p.maxDepth
    requires links == [Open(url)]
    ensures AdmitAll(f, p, links, source, depth, |links|) == WithNew(f, url, source, depth)
  {
    AdmitsNew(f, p, url, source, depth);
    assert AdmitAll(f, p, links, source, depth, 0) == f;
  }

  lemma SeedAlone(p: Policy, seed: Url) returns (f: Frontier, g: Frontier)
    requires Plain(p, seed) && p.maxUrls >= 1
    ensures f == Admit(Frontier([], map[], [], 0), p, Open(seed), FromSeed, 0).frontier
    ensures SeedWaits(f, p) && f.records[0].states != [] && g == SeedFetched(f)
    ensures g == Frontier([RecordOf(seed, FromSeed, 0, [Discovered, Admitted, Queued, Fetched])], map[seed := 0], [], 0)
    ensures Gathering(g, g, p, 0)
  {
    var empty := Frontier([], map[], [], 0);
    SeedKeeps(p, Open(seed));
    AdmitsNew(empty, p, seed, FromSeed, 0);
    f := WithNew(empty, seed, FromSeed, 0);
    var waiting := [Discovered, Admitted, Queued];
    assert f.records == [RecordOf(seed, FromSeed, 0, waiting)] && f.queue == [0];
    SeedFetchedKeeps(f, p);
    g := SeedFetched(f);
    assert waiting + [Fetched] == [Discovered, Admitted, Queued, Fetched];
    assert g.records == [RecordOf(seed, FromSeed, 0, waiting + [Fetched])];
  }

  /** The seed, fetched, and then one page from a sitemap. */
  lemma SeedThenPage(p: Policy, seed: Url, a: Url) returns (f: Frontier)
    requires Plain(p, seed) && Plain(p, a) && seed != a && p.maxUrls >= 2
    ensures f == Admit(Frontier([], map[], [], 0), p, Open(seed), FromSeed, 0).frontier
    ensures SeedWaits(f, p) && f.records[0].states != [] && IndexInRange(SeedFetched(f))
    ensures SeedAndPage(seed, a) == AdmitAll(SeedFetched(f), p, [Open(a)], FromSitemap, 0, 1)
    ensures Crawling(SeedAndPage(seed, a), p, [], 0)
  {
    var g;
    f, g := SeedAlone(p, seed);
    GatherKeeps(g, g, p, [Open(a)], FromSitemap, 0, 0);
    AdmitsOne(g, p, a, FromSitemap, 0, [Open(a)]);
    PageAdded(g, seed, a);
  }

  lemma PageAdded(g: Frontier, seed: Url, a: Url)
    requires g == Frontier([RecordOf(seed, FromSeed, 0, [Discovered, Admitted, Queued, Fetched])],
                           map[seed := 0], [], 0)
    ensures WithNew(g, a, FromSitemap, 0) == SeedAndPage(seed, a)
  {
  }

  /** The record at `a` in hand moves to `b` and is fetched. */
  lemma RedirectFetched(g: Frontier, p: Policy, seed: Url, a: Url, b: Url)
    requires PlainSite(p, seed, a, b)
    requires g == SeedAndPage(seed, a).(queue := []) && FrontierOk(g, p, Some(1)) && HasStates(g) && IndexInRange(g)
    ensures StillQueued(g.records[1]) && ReconcileVisit(g, p, 1, Redirected(b, a)).record == Some(1)
    ensures var found := ReconcileVisit(g, p, 1, Redirected(b, a));
            found.record.value < |found.frontier.records| && found.frontier.records[found.record.value].states != []
    ensures var h := AfterFetch(g, p, 1, Redirected(b, a));
            h.queue == [] && |h.records| == 2 && h.records[1].depth == 0 && a !in h.byKey && FrontierOk(h, p, None)
  {
    assert p.Rejection(b, 0) == None;
    FetchedKeeps(g, p, 1, Redirected(b, a));
  }

  /** A page whose record stays in hand is fetched, and its links are followed. */
  lemma {:induction false} LandedOf(f: Frontier, p: Policy, i: nat, page: Page, h: Frontier)
    requires FrontierOk(f, p, Some(i)) && StillQueued(f.records[i]) && HasStates(f) && IndexInRange(f)
    requires ReconcileVisit(f, p, i, page).record == Some(i)
    requires var found := ReconcileVisit(f, p, i, page);
             found.record.value < |found.frontier.records| && found.frontier.records[found.record.value].states != []
    requires h == AfterFetch(f, p, i, page) && i < |h.records| && IndexInRange(h)
    ensures Landed(f, p, i, page, true) == Followed(h, p, i, page, true)
  {
  }

  /** The record at `a`, now at `b`, is fetched and its link to `a` admitted. */
  lemma RedirectLanded(g: Frontier, p: Policy, seed: Url, a: Url, b: Url) returns (h: Frontier)
    requires PlainSite(p, seed, a, b)
    requires g == SeedAndPage(seed, a).(queue := []) && FrontierOk(g, p, Some(1)) && HasStates(g) && IndexInRange(g)
    ensures StillQueued(g.records[1]) && Landed(g, p, 1, Redirected(b, a), true) == h
    ensures h.queue == [2] && |h.records| == 3
    ensures h.records[2] == RecordOf(a, FromLink, 1, [Discovered, Admitted, Queued])
  {
    var page := Redirected(b, a);
    RedirectFetched(g, p, seed, a, b);
    var fetched := AfterFetch(g, p, 1, page);
    InRange(fetched, p);
    LandedOf(g, p, 1, page, fetched);
    h := FollowsOne(fetched, p, 1, page, a);
  }

  lemma FollowsOne(f: Frontier, p: Policy, j: nat, page: Page, url: Url) returns (h: Frontier)
    requires j < |f.records| && f.records[j].depth == 0 && page.links == [Open(url)]
    requires Plain(p, url) && IndexInRange(f) && url !in f.byKey && |f.records| < p.maxUrls && p.maxDepth >= 1
    ensures h == WithNew(f, url, FromLink, 1) == Followed(f, p, j, page, true)
  {
    AdmitsOne(f, p, url, FromLink, 1, page.links);
    h := WithNew(f, url, FromLink, 1);
  }

  /** The visit to a page at `a`, which has moved to `b` and links to `a`: `a` waits again. */
  lemma RedirectVisit(g: Frontier, p: Policy, seed: Url, a: Url, b: Url) returns (h: Frontier)
    requires PlainSite(p, seed, a, b)
    requires g == SeedAndPage(seed, a).(queue := []) && FrontierOk(g, p, Some(1))
    ensures StillQueued(g.records[1]) && Visit(g, p, 1, Redirected(b, a), true) == Visited(h, true)
    ensures h.queue == [2] && |h.records| == 3
    ensures StillQueued(h.records[2]) && h.records[2].url == a && h.records[2].depth == 1
  {
    StatesExist(g, p, Some(1));
    InRange(g, p);
    h := RedirectLanded(g, p, seed, a, b);
  }

  /** The turn that makes this visit. */
  lemma RedirectTurn(p: Policy, seed: Url, a: Url, b: Url)
    requires PlainSite(p, seed, a, b)
    requires FrontierOk(SeedAndPage(seed, a), p, None)
    ensures var t := Step(SeedAndPage(seed, a), p, Redirected(b, a), true, false);
            && t.more && t.fetch == [Fetch(1, a, 0)]
            && t.frontier.queue == [2] && |t.frontier.records| == 3
            && StillQueued(t.frontier.records[2]) && t.frontier.records[2].url == a && t.frontier.records[2].depth == 1
  {
    var f := SeedAndPage(seed, a);
    PopKeeps(f, p);
    var g := Pop(f).frontier;
    assert g == f.(queue := []);
    var h := RedirectVisit(g, p, seed, a, b);
  }

  /** The turn after that finds `a` waiting and fetches it. */
  lemma WaitingTurn(p: Policy, prev: Progress, page: Page, expand: bool, maxPages: nat) returns (next: Progress)
    requires prev.more && FrontierOk(prev.frontier, p, None)
    requires prev.frontier.queue != [] && StillQueued(prev.frontier.records[prev.frontier.queue[0]])
    requires page.robotsAllowed && 1 + |prev.fetches| < maxPages
    ensures NextTurn(p, prev, page, expand, maxPages, next)
    ensures var i := prev.frontier.queue[0]; var r := prev.frontier.records[i];
            next.fetches == prev.fetches + [Fetch(i, r.url, r.depth)]
  {
    PopKeeps(prev.frontier, p);
    var turned := Step(prev.frontier, p, page, expand, false);
    next := Progress(turned.frontier, prev.fetches + turned.fetch, turned.more,
                     Reached(prev.frontier, prev.depth, false));
  }

  /** The two turns: a page that redirects and links back, and the page fetched again. */
  lemma RedirectThenAgain(p: Policy, seed: Url, a: Url, b: Url, page: Page, maxPages: nat)
    returns (one: Progress, two: Progress)
    requires PlainSite(p, seed, a, b) && maxPages >= 3 && page.robotsAllowed
    requires Crawling(SeedAndPage(seed, a), p, [], 0)
    ensures NextTurn(p, Progress(SeedAndPage(seed, a), [], true, 0), Redirected(b, a), true, maxPages, one)
    ensures NextTurn(p, one, page, true, maxPages, two)
    ensures two.fetches == [Fetch(1, a, 0), Fetch(2, a, 1)]
  {
    var start := SeedAndPage(seed, a);
    one := RedirectProgress(p, seed, a, b, maxPages);
    TurnKeepsPromise(start, p, Progress(start, [], true, 0), Redirected(b, a), true, maxPages, one);
    two := WaitingTurn(p, one, page, true, maxPages);
    assert [Fetch(1, a, 0)] + [Fetch(2, a, 1)] == [Fetch(1, a, 0), Fetch(2, a, 1)];
  }

  /** A run of the page loop that fetches one URL twice. */
  lemma FetchesTwice(p: Policy, seed: Url, a: Url, b: Url, world: nat -> Page, maxPages: nat)
    returns (run: seq<Progress>)
    requires PlainSite(p, seed, a, b) && maxPages >= 3
    requires world(0) == Redirected(b, a) && world(1).robotsAllowed
    ensures Crawling(SeedAndPage(seed, a), p, [], 0)
    ensures IsCrawl(SeedAndPage(seed, a), p, world, true, maxPages, run)
    ensures |run| == 3 && run[2].fetches == [Fetch(1, a, 0), Fetch(2, a, 1)]
  {
    var f := SeedThenPage(p, seed, a);
    var one, two := RedirectThenAgain(p, seed, a, b, world(1), maxPages);
    run := TwoTurns(SeedAndPage(seed, a), p, world, true, maxPages, one, two);
  }

  const SAMPLE_SEED: Url := "https://x.com/"
  const SAMPLE_PAGE: Url := "https://x.com/a"
  const SAMPLE_TARGET: Url := "https://x.com/b"

  /** What the policy of a crawl from `https://x.com/` makes of three pages there; other addresses do not matter. */
  function SamplePolicy(): Policy {
    var pages := {SAMPLE_SEED, SAMPLE_PAGE, SAMPLE_TARGET};
    Policy(u => if u in pages then Some(u) else None, u => u, u => None, u => true, 1, 3)
  }

  /** Such a run, on one site. */
  lemma SampleFetchedTwice() returns (run: seq<Progress>)
    ensures IsCrawl(SeedAndPage(SAMPLE_SEED, SAMPLE_PAGE), SamplePolicy(),
                    (n: nat) => Redirected(SAMPLE_TARGET, SAMPLE_PAGE), true, 3, run)
    ensures |run| == 3 && run[2].fetches == [Fetch(1, SAMPLE_PAGE, 0), Fetch(2, SAMPLE_PAGE, 1)]
  {
    var length := |SAMPLE_SEED|;
    assert |SAMPLE_PAGE| == length + 1 == |SAMPLE_TARGET| && SAMPLE_PAGE[length] != SAMPLE_TARGET[length];
    run := FetchesTwice(SamplePolicy(), SAMPLE_SEED, SAMPLE_PAGE, SAMPLE_TARGET,
                        (n: nat) => Redirected(SAMPLE_TARGET, SAMPLE_PAGE), 3);
  }

  lemma TwoTurns(start: Frontier, p: Policy, world: nat -> Page, expand: bool, maxPages: nat, one: Progress,
                 two: Progress)
    returns (run: seq<Progress>)
    requires NextTurn(p, Progress(start, [], true, 0), world(0), expand, maxPages, one)
    requires NextTurn(p, one, world(1), expand, maxPages, two)
    ensures |run| == 3 && run[2] == two && IsCrawl(start, p, world, expand, maxPages, run)
  {
    var zero := Progress(start, [], true, 0);
    CrawlGoesOn(start, p, world, expand, maxPages, [zero], one);
    CrawlGoesOn(start, p, world, expand, maxPages, [zero] + [one], two);
    run := [zero] + [one] + [two];
  }

  lemma RedirectProgress(p: Policy, seed: Url, a: Url, b: Url, maxPages: nat) returns (one: Progress)
    requires PlainSite(p, seed, a, b) && maxPages >= 3
    requires FrontierOk(SeedAndPage(seed, a), p, None)
    ensures NextTurn(p, Progress(SeedAndPage(seed, a), [], true, 0), Redirected(b, a), true, maxPages, one)
    ensures one.more && one.fetches == [Fetch(1, a, 0)] && one.frontier.queue == [2] && |one.frontier.records| == 3
    ensures StillQueued(one.frontier.records[2]) && one.frontier.records[2].url == a
            && one.frontier.records[2].depth == 1
  {
    var start := SeedAndPage(seed, a);
    RedirectTurn(p, seed, a, b);
    var turned := Step(start, p, Redirected(b, a), true, false);
    one := Progress(turned.frontier, [] + turned.fetch, turned.more, Reached(start, 0, false));
    assert [] + [Fetch(1, a, 0)] == [Fetch(1, a, 0)];
  }
}
