/**
 What a crawl must find: every address it is shown is recorded while there is room, and a new one that the policy, the
 safety check and robots rules admit waits in the queue. Said of frontiers alone, before and after.
 */
module Coverage {
  import opened Options
  import opened FrontierModel
  import opened SiteModel

  // ---------------------------------------------------------------- what is shown

  /** The address a link is recorded under: normalised before it is checked, and by the frontier once more. */
  function Address(p: Policy, link: Link): Option<Url> {
    if link.nonHttp || p.normalize(link.url).None? then None else p.normalize(p.normalize(link.url).value)
  }

  /** Normalising twice is normalising once, for this link. */
  predicate Settles(p: Policy, link: Link) {
    Address(p, link).Some? && p.normalize(link.url) == Address(p, link)
  }

  predicate Shows(p: Policy, link: Link, key: Key) {
    Address(p, link).Some? && p.key(Address(p, link).value) == key
  }

  predicate Listed(f: Frontier, p: Policy, link: Link) {
    Address(p, link).Some? ==> p.key(Address(p, link).value) in f.byKey || |f.records| >= p.maxUrls
  }

  predicate Admissible(p: Policy, link: Link, depth: nat)
    requires Address(p, link).Some?
  {
    p.Rejection(Address(p, link).value, depth) == None && link.safe && link.robotsAllowed
  }

  predicate FirstToShow(p: Policy, links: seq<Link>, i: nat, key: Key)
    requires i < |links|
  {
    Shows(p, links[i], key) && forall j :: 0 <= j < i ==> !Shows(p, links[j], key)
  }

  /** The record of a key that came with this link: it waits if the link is admissible, and is filtered otherwise. */
  predicate Enters(g: Frontier, p: Policy, link: Link, depth: nat, key: Key)
    requires Address(p, link).Some? && key in g.byKey
  {
    && g.byKey[key] < |g.records|
    && var r := g.records[g.byKey[key]];
       && r.url == Address(p, link).value
       && if Admissible(p, link, depth) then StillQueued(r) && r.depth == depth && g.byKey[key] in g.queue
          else r.states == [Discovered, Filtered]
  }

  predicate IsNew(f: Frontier, p: Policy, links: seq<Link>, i: nat, key: Key)
    requires i < |links|
  {
    Settles(p, links[i]) && FirstToShow(p, links, i, key) && key !in f.byKey
  }

  /** A key not known before is recorded as the first link that shows it says. */
  ghost predicate NewEnter(f: Frontier, g: Frontier, p: Policy, links: seq<Link>, depth: nat) {
    forall i, key :: 0 <= i < |links| && IsNew(f, p, links, i, key) && key in g.byKey ==>
      Enters(g, p, links[i], depth, key)
  }

  ghost predicate AllListed(g: Frontier, p: Policy, links: seq<Link>) {
    forall i :: 0 <= i < |links| ==> Listed(g, p, links[i])
  }

  /** Between f and g these links were taken in at this depth. */
  ghost predicate Took(f: Frontier, g: Frontier, p: Policy, links: seq<Link>, depth: nat) {
    AllListed(g, p, links) && NewEnter(f, g, p, links, depth)
  }

  /** Keys stay where they are, and none is added once there is no room. */
  ghost predicate Remembers(f: Frontier, g: Frontier, p: Policy) {
    && |f.records| <= |g.records|
    && (forall k :: k in f.byKey ==> k in g.byKey && g.byKey[k] == f.byKey[k])
    && (|f.records| >= p.maxUrls ==> g.byKey == f.byKey)
  }

  /** Every new key is shown by one of the links. */
  ghost predicate OnlyShown(f: Frontier, g: Frontier, p: Policy, links: seq<Link>) {
    forall key :: key in g.byKey ==> key in f.byKey || ShownBefore(p, links, |links|, key)
  }

  predicate ShownBefore(p: Policy, links: seq<Link>, k: nat, key: Key)
    requires k <= |links|
  {
    exists i :: 0 <= i < k && Shows(p, links[i], key)
  }

  /** These links and no others are taken in, and nothing else happens to what was there. */
  ghost predicate Expands(f: Frontier, g: Frontier, p: Policy, links: seq<Link>, depth: nat) {
    Took(f, g, p, links, depth) && Remembers(f, g, p) && Extends(f, g) && OnlyShown(f, g, p, links)
  }

  lemma RemembersTransitive(f: Frontier, g: Frontier, h: Frontier, p: Policy)
    requires Remembers(f, g, p) && Remembers(g, h, p)
    ensures Remembers(f, h, p)
  {
  }

  /** What is later only extended keeps what was taken in. */
  lemma TookStays(f: Frontier, g: Frontier, h: Frontier, p: Policy, links: seq<Link>, depth: nat)
    requires Took(f, g, p, links, depth) && Remembers(g, h, p) && Extends(g, h)
    requires FrontierOk(g, p, None) && FrontierOk(h, p, None)
    ensures Took(f, h, p, links, depth)
  {
    forall i | 0 <= i < |links|
      ensures Listed(h, p, links[i])
    {
      assert Listed(g, p, links[i]);
    }
    forall i, key | 0 <= i < |links| && IsNew(f, p, links, i, key) && key in h.byKey
      ensures Enters(h, p, links[i], depth, key)
    {
      assert Listed(g, p, links[i]);
      EntersStays(g, h, p, links[i], depth, key);
    }
  }

  lemma EntersStays(g: Frontier, h: Frontier, p: Policy, link: Link, depth: nat, key: Key)
    requires Remembers(g, h, p) && Extends(g, h) && FrontierOk(h, p, None) && Address(p, link).Some?
    requires key in g.byKey && key in h.byKey && Enters(g, p, link, depth, key)
    ensures Enters(h, p, link, depth, key)
  {
    var i := g.byKey[key];
    assert h.records[i].url == g.records[i].url && h.records[i].states == g.records[i].states;
  }

  // ---------------------------------------------------------------- one link

  lemma DiscoverRemembers(f: Frontier, p: Policy, s: Sighting)
    requires IndexInRange(f)
    ensures Remembers(f, Discover(f, p, s).frontier, p)
  {
  }

  /** Why a sighting is not admitted, if it is not: the policy, then safety, then robots rules. */
  function Objection(p: Policy, url: Url, s: Sighting): Option<Reason> {
    if p.Rejection(url, s.depth).Some? then p.Rejection(url, s.depth)
    else if s.safe && s.robotsAllowed then None
    else Some(if s.safe then RobotsRefused else UnsafeTarget)
  }

  predicate Recorded(r: Record, s: Sighting, url: Url) {
    r.url == url && r.depth == s.depth && r.sources == [s.source] && r.modifiedAt == s.modifiedAt
    && r.priority == s.priority
  }

  /**
   What becomes of a sighting. A known key takes over its source, a smaller depth and dates it lacks; a new one is a
   record of its own, queued or filtered with its reason, an invalid one filtered without a key; and without room, or
   with an address too long to keep, it is only counted.
   */
  lemma DiscoverDecides(f: Frontier, p: Policy, s: Sighting)
    requires IndexInRange(f)
    ensures var u := p.normalize(s.candidate); var g := Discover(f, p, s).frontier; var n := |f.records|;
            if u.Some? && p.key(u.value) in f.byKey then
              var i := f.byKey[p.key(u.value)];
              var r := f.records[i];
              && g == f.(records := f.records[i := g.records[i]])
              && g.records[i] == r.(
                   sources := if s.source in r.sources then r.sources else r.sources + [s.source],
                   depth := if s.depth < r.depth then s.depth else r.depth,
                   modifiedAt := if r.modifiedAt.Some? then r.modifiedAt else s.modifiedAt,
                   priority := if r.priority.Some? then r.priority else s.priority)
            else if n >= p.maxUrls || (u.None? && !p.withinLimit(s.candidate)) then g == f.(omitted := f.omitted + 1)
            else
              && |g.records| == n + 1 && g.records[..n] == f.records && g.omitted == f.omitted
              && Recorded(g.records[n], s, if u.Some? then u.value else s.candidate)
              && var reason := if u.None? then Some(InvalidUrl) else Objection(p, u.value, s);
                 && g.records[n].reason == reason
                 && g.records[n].states == (if reason.None? then [Discovered, Admitted, Queued]
                                            else [Discovered, Filtered])
                 && g.queue == (if reason.None? then f.queue + [n] else f.queue)
                 && g.byKey == if u.Some? then f.byKey[p.key(u.value) := n] else f.byKey
  {
  }

  lemma AdmitRemembers(f: Frontier, p: Policy, link: Link, source: Source, depth: nat)
    requires IndexInRange(f)
    ensures var g := Admit(f, p, link, source, depth).frontier;
            && Remembers(f, g, p) && Listed(g, p, link)
            && forall k :: k in g.byKey ==> k in f.byKey || Shows(p, link, k)
  {
    if !link.nonHttp { DiscoverRemembers(f, p, SightingOf(f, p, link, source, depth)); }
  }

  lemma AdmitEnters(f: Frontier, p: Policy, link: Link, source: Source, depth: nat, d: nat, key: Key)
    requires FrontierOk(f, p, None) && Layered(f, d, depth) && IndexInRange(f)
    requires Settles(p, link) && Shows(p, link, key) && key !in f.byKey
    ensures var g := Admit(f, p, link, source, depth).frontier;
            key in g.byKey ==> Enters(g, p, link, depth, key)
  {
    AdmitTakesIn(f, p, link, source, depth, d);
    var g := Admit(f, p, link, source, depth).frontier;
    if key in g.byKey {
      var u := Address(p, link).value;
      assert g == Added(f, p, SightingOf(f, p, link, source, depth), u);
    }
  }

  // ---------------------------------------------------------------- a list of links

  lemma {:induction false} AdmitAllRemembers(f: Frontier, p: Policy, links: seq<Link>, source: Source, depth: nat,
                                             k: nat)
    requires IndexInRange(f) && k <= |links|
    ensures var g := AdmitAll(f, p, links, source, depth, k);
            && Remembers(f, g, p)
            && (forall i :: 0 <= i < k ==> Listed(g, p, links[i]))
            && forall key :: key in g.byKey ==> key in f.byKey || ShownBefore(p, links, k, key)
  {
    if k > 0 {
      AdmitAllRemembers(f, p, links, source, depth, k - 1);
      var before := AdmitAll(f, p, links, source, depth, k - 1);
      AdmitRemembers(before, p, links[k - 1], source, depth);
      RemembersTransitive(f, before, AdmitAll(f, p, links, source, depth, k), p);
    }
  }

  lemma {:induction false} StillOk(f: Frontier, p: Policy, links: seq<Link>, source: Source, depth: nat, k: nat, d: nat)
    requires FrontierOk(f, p, None) && Layered(f, d, depth) && IndexInRange(f) && k <= |links|
    ensures var g := AdmitAll(f, p, links, source, depth, k);
            FrontierOk(g, p, None) && Layered(g, d, depth) && IndexInRange(g)
  {
    AdmitAllTakesIn(f, p, links, source, depth, k, d);
  }

  lemma {:induction false} AdmitAllEnters(f: Frontier, p: Policy, links: seq<Link>, source: Source, depth: nat,
                                          k: nat, d: nat, i: nat, key: Key, g: Frontier)
    requires FrontierOk(f, p, None) && Layered(f, d, depth) && IndexInRange(f)
    requires i < k <= |links| && IsNew(f, p, links, i, key)
    requires g == AdmitAll(f, p, links, source, depth, k) && key in g.byKey
    ensures Enters(g, p, links[i], depth, key)
  {
    var before := AdmitAll(f, p, links, source, depth, k - 1);
    StillOk(f, p, links, source, depth, k - 1, d);
    if i == k - 1 {
      NotShownYet(f, p, links, source, depth, i, key);
      LastEnters(before, p, links[i], source, depth, d, key, g);
    } else {
      if key in before.byKey { AdmitAllEnters(f, p, links, source, depth, k - 1, d, i, key, before); }
      ListedBefore(f, p, links, source, depth, k - 1, i, before);
      EntersBefore(before, p, links[k - 1], source, depth, d, links[i], key, g);
    }
  }

  lemma LastEnters(f: Frontier, p: Policy, link: Link, source: Source, depth: nat, d: nat, key: Key, g: Frontier)
    requires FrontierOk(f, p, None) && Layered(f, d, depth) && IndexInRange(f)
    requires Settles(p, link) && Shows(p, link, key) && key !in f.byKey
    requires g == Admit(f, p, link, source, depth).frontier && key in g.byKey
    ensures Enters(g, p, link, depth, key)
  {
    AdmitEnters(f, p, link, source, depth, d, key);
  }

  lemma EntersBefore(f: Frontier, p: Policy, link: Link, source: Source, depth: nat, d: nat, other: Link, key: Key,
                     g: Frontier)
    requires FrontierOk(f, p, None) && Layered(f, d, depth) && IndexInRange(f)
    requires g == Admit(f, p, link, source, depth).frontier && key in g.byKey
    requires Listed(f, p, other) && Shows(p, other, key) && (key in f.byKey ==> Enters(f, p, other, depth, key))
    ensures Enters(g, p, other, depth, key)
  {
    AdmitLater(f, p, link, source, depth, d, other, key);
  }

  lemma {:induction false} NotShownYet(f: Frontier, p: Policy, links: seq<Link>, source: Source, depth: nat, i: nat,
                                       key: Key)
    requires IndexInRange(f) && i < |links| && IsNew(f, p, links, i, key)
    ensures key !in AdmitAll(f, p, links, source, depth, i).byKey
  {
    AdmitAllRemembers(f, p, links, source, depth, i);
    assert !ShownBefore(p, links, i, key);
  }

  lemma {:induction false} ListedBefore(f: Frontier, p: Policy, links: seq<Link>, source: Source, depth: nat, k: nat,
                                        i: nat, g: Frontier)
    requires IndexInRange(f) && i < k <= |links| && g == AdmitAll(f, p, links, source, depth, k)
    ensures Listed(g, p, links[i])
  {
    AdmitAllRemembers(f, p, links, source, depth, k);
  }

  /** A link admitted after another leaves the other's record as it entered. */
  lemma AdmitLater(f: Frontier, p: Policy, link: Link, source: Source, depth: nat, d: nat, other: Link, key: Key)
    requires FrontierOk(f, p, None) && Layered(f, d, depth) && IndexInRange(f)
    requires Listed(f, p, other) && Shows(p, other, key) && key in Admit(f, p, link, source, depth).frontier.byKey
    requires key in f.byKey ==> Enters(f, p, other, depth, key)
    ensures Enters(Admit(f, p, link, source, depth).frontier, p, other, depth, key)
  {
    AdmitRemembers(f, p, link, source, depth);
    AdmitTakesIn(f, p, link, source, depth, d);
    EntersStays(f, Admit(f, p, link, source, depth).frontier, p, other, depth, key);
  }

  /** Admitting a list takes it in, and nothing else. */
  lemma {:induction false} AdmitAllTook(f: Frontier, p: Policy, links: seq<Link>, source: Source, depth: nat, d: nat)
    requires FrontierOk(f, p, None) && Layered(f, d, depth) && IndexInRange(f)
    ensures var g := AdmitAll(f, p, links, source, depth, |links|);
            Expands(f, g, p, links, depth)
  {
    AdmitAllTakesIn(f, p, links, source, depth, |links|, d);
    AdmitAllRemembers(f, p, links, source, depth, |links|);
    var g := AdmitAll(f, p, links, source, depth, |links|);
    forall i, key | 0 <= i < |links| && IsNew(f, p, links, i, key) && key in g.byKey
      ensures Enters(g, p, links[i], depth, key)
    {
      AdmitAllEnters(f, p, links, source, depth, |links|, d, i, key, g);
    }
  }

  // ---------------------------------------------------------------- one visit

  /** The page's final URL, if the policy, the safety check and robots rules admit it at this depth. */
  function FinalUrl(p: Policy, page: Page, depth: nat): Option<Url> {
    var n := p.normalize(page.finalUrl);
    if n.Some? && p.Rejection(n.value, depth) == None && page.finalSafe && page.finalRobotsAllowed then n else None
  }

  function Refusal(p: Policy, page: Page, depth: nat): Reason
    requires FinalUrl(p, page, depth).None?
  {
    var n := p.normalize(page.finalUrl);
    if n.None? then InvalidUrl
    else if p.Rejection(n.value, depth).Some? then p.Rejection(n.value, depth).value
    else if !page.finalSafe then UnsafeRedirect
    else RobotsRefused
  }

  function FailedFor(r: Record, reason: Reason): Record {
    r.(states := r.states + [State.Failed], reason := Some(reason))
  }

  /** What the record that has the final URL takes over from a visited duplicate. */
  predicate TakesOver(z: Record, x: Record, r: Record) {
    && z == x.(sources := z.sources, depth := if x.depth < r.depth then x.depth else r.depth,
               states := if StillQueued(x) then x.states + [State.Fetched] else x.states)
    && x.sources <= z.sources && forall s :: s in z.sources <==> s in x.sources || s in r.sources
  }

  /** The frontier once the visited record i is settled: failed, merged into another, or fetched under its final URL. */
  ghost predicate SettledTo(f: Frontier, g: Frontier, p: Policy, i: nat, page: Page)
    requires i < |f.records|
  {
    var r := f.records[i];
    if !page.robotsAllowed then g == f.(records := f.records[i := FailedFor(r, RobotsRefused)])
    else if !page.content then g == f.(records := f.records[i := FailedFor(r, FetchFailed(page.code))])
    else
      var u := FinalUrl(p, page, r.depth);
      if u.None? then g == f.(records := f.records[i := FailedFor(r, Refusal(p, page, r.depth))])
      else
        var key := p.key(u.value);
        if key in f.byKey && f.byKey[key] != i then
          var e := f.byKey[key];
          && e < |f.records| == |g.records|
          && g == f.(records := f.records[i := FailedFor(r, DuplicateFinalUrl)][e := g.records[e]])
          && TakesOver(g.records[e], f.records[e], r)
        else
          g == f.(records := f.records[i := r.(url := u.value, states := r.states + [State.Fetched])],
                  byKey := (f.byKey - {p.key(r.url)})[key := i])
  }

  /** Whether the visit leads to a record to fetch: its own, under its final URL, or a waiting one that has that URL. */
  predicate Leads(f: Frontier, p: Policy, i: nat, page: Page)
    requires i < |f.records| && IndexInRange(f)
  {
    var u := FinalUrl(p, page, f.records[i].depth);
    && page.robotsAllowed && page.content && u.Some?
    && (p.key(u.value) in f.byKey && f.byKey[p.key(u.value)] != i ==>
          StillQueued(f.records[f.byKey[p.key(u.value)]]))
  }

  /** Whether it goes on to the page's links: deeper pages are wanted. */
  predicate Follows(f: Frontier, p: Policy, i: nat, page: Page, expand: bool)
    requires i < |f.records| && IndexInRange(f)
  {
    Leads(f, p, i, page) && expand && f.records[i].depth < p.maxDepth
  }

  lemma {:induction false} SourcesTaken(sources: seq<Source>, more: seq<Source>)
    ensures var z := WithSources(sources, more);
            sources <= z && forall s :: s in z <==> s in sources || s in more
    decreases |more|
  {
    if more != [] {
      SourcesTaken(WithSource(sources, more[0]), more[1..]);
      assert more == [more[0]] + more[1..];
    }
  }

  lemma EndedStates(r: Record, s: State, reason: Option<Reason>)
    requires StillQueued(r) && LegalPath(r.states)
    ensures EndedIn(r, s, reason) == r.(states := r.states + [s], reason := if reason.Some? then reason else r.reason)
  {
  }

  /** A visit that finds no page, or one that may not be used, fails its record for the reason there is. */
  lemma RefusedVisit(f: Frontier, p: Policy, i: nat, reason: Reason)
    requires FrontierOk(f, p, Some(i)) && StillQueued(f.records[i]) && HasStates(f)
    ensures Mark(f, i, Failed, Some(reason)) == f.(records := f.records[i := FailedFor(f.records[i], reason)])
  {
    assert RecordOk(f.records[i], p);
    EndedStates(f.records[i], Failed, Some(reason));
  }

  lemma RefusalIs(p: Policy, page: Page, depth: nat)
    ensures var unasked := FinalRefused(p, page.finalUrl, depth);
            var safe, robots := unasked || page.finalSafe, unasked || (page.finalSafe && page.finalRobotsAllowed);
            var reason := RedirectRejection(p, p.normalize(page.finalUrl), depth, safe, robots);
            reason == if FinalUrl(p, page, depth).Some? then None else Some(Refusal(p, page, depth))
  {
  }

  lemma MergedVisit(f: Frontier, p: Policy, i: nat, e: nat)
    requires FrontierOk(f, p, Some(i)) && StillQueued(f.records[i]) && HasStates(f) && e < |f.records| && e != i
    ensures var m := MergeFinal(f, i, e); var g := m.frontier;
            && |g.records| == |f.records|
            && g == f.(records := f.records[i := FailedFor(f.records[i], DuplicateFinalUrl)][e := g.records[e]])
            && TakesOver(g.records[e], f.records[e], f.records[i])
            && m.record == (if StillQueued(f.records[e]) then Some(e) else None)
            && (m.record.Some? ==> g.records[e].states != [] && LastState(g.records[e]) == Fetched)
  {
    var r, x := f.records[i], f.records[e];
    assert RecordOk(r, p) && RecordOk(x, p);
    MergeFinalValue(f, i, e);
    AbsorbedKeeps(x, r);
    EndedStates(r, Failed, Some(DuplicateFinalUrl));
    SourcesTaken(x.sources, r.sources);
  }

  /** A page with content, reconciled and fetched. */
  lemma LandedSettles(f: Frontier, p: Policy, i: nat, page: Page)
    requires FrontierOk(f, p, Some(i)) && StillQueued(f.records[i]) && HasStates(f) && IndexInRange(f)
    requires page.robotsAllowed && page.content
    ensures var found := ReconcileVisit(f, p, i, page);
            && (found.record.None? ==> SettledTo(f, found.frontier, p, i, page))
            && (found.record.Some? <==> Leads(f, p, i, page))
    ensures var found := ReconcileVisit(f, p, i, page);
            found.record.Some? ==>
              && found.record.value < |found.frontier.records|
              && found.frontier.records[found.record.value].states != []
              && SettledTo(f, AfterFetch(f, p, i, page), p, i, page)
  {
    var d := f.records[i].depth;
    RefusalIs(p, page, d);
    var u := FinalUrl(p, page, d);
    if u.None? {
      RefusedVisit(f, p, i, Refusal(p, page, d));
    } else {
      var key := p.key(u.value);
      if key in f.byKey && f.byKey[key] != i {
        MergedVisit(f, p, i, f.byKey[key]);
        MergeFetched(f, p, i, page, f.byKey[key]);
      } else {
        MovedVisit(f, p, i, page);
      }
    }
  }

  lemma MergeFetched(f: Frontier, p: Policy, i: nat, page: Page, e: nat)
    requires FrontierOk(f, p, Some(i)) && StillQueued(f.records[i]) && HasStates(f) && IndexInRange(f)
    requires e < |f.records| && e != i && ReconcileVisit(f, p, i, page) == MergeFinal(f, i, e)
    ensures var found := ReconcileVisit(f, p, i, page);
            found.record.Some? ==>
              && found.record.value < |found.frontier.records|
              && found.frontier.records[found.record.value].states != []
              && AfterFetch(f, p, i, page) == found.frontier
  {
    MergedVisit(f, p, i, e);
    var found := ReconcileVisit(f, p, i, page);
    if found.record.Some? {
      var r := found.frontier.records[e];
      assert EndedIn(r, Fetched, None) == r;
      assert found.frontier.records[e := r] == found.frontier.records;
    }
  }

  lemma MovedVisit(f: Frontier, p: Policy, i: nat, page: Page)
    requires FrontierOk(f, p, Some(i)) && StillQueued(f.records[i]) && HasStates(f) && IndexInRange(f)
    requires page.robotsAllowed && page.content && FinalUrl(p, page, f.records[i].depth).Some?
    requires var key := p.key(FinalUrl(p, page, f.records[i].depth).value);
             key in f.byKey ==> f.byKey[key] == i
    ensures ReconcileVisit(f, p, i, page).record == Some(i)
    ensures var found := ReconcileVisit(f, p, i, page);
            && i < |found.frontier.records| && found.frontier.records[i].states != []
            && SettledTo(f, AfterFetch(f, p, i, page), p, i, page)
  {
    var r := f.records[i];
    RefusalIs(p, page, r.depth);
    assert RecordOk(r, p) && IndexedOk(f, p, i);
    var u := FinalUrl(p, page, r.depth).value;
    EndedStates(r.(url := u), Fetched, None);
    var g := Moved(f, p, i, u);
    assert g.records[i] == r.(url := u);
  }

  lemma ContentDecides(f: Frontier, p: Policy, i: nat, page: Page, expand: bool, g: Frontier)
    returns (mid: Frontier)
    requires FrontierOk(f, p, Some(i)) && StillQueued(f.records[i]) && HasStates(f) && IndexInRange(f)
    requires Layered(f, f.records[i].depth, f.records[i].depth + 1)
    requires page.robotsAllowed && page.content && g == Landed(f, p, i, page, expand)
    ensures SettledTo(f, mid, p, i, page)
    ensures if Follows(f, p, i, page, expand) then Expands(mid, g, p, page.links, f.records[i].depth + 1) else g == mid
  {
    LandedSettles(f, p, i, page);
    ReconcileReady(f, p, i, page);
    var found := ReconcileVisit(f, p, i, page);
    if found.record.Some? {
      mid := ReadyMarked(f, found, p, i, f.records[i].depth);
      assert mid == AfterFetch(f, p, i, page);
      FollowedTook(mid, p, found.record.value, page, expand, g);
    } else {
      mid := g;
    }
  }

  lemma ReadyMarked(f: Frontier, found: Found, p: Policy, i: nat, d: nat) returns (mid: Frontier)
    requires Ready(f, found, p, i, d)
    ensures found.frontier.records[found.record.value].states != []
    ensures mid == Mark(found.frontier, found.record.value, Fetched, None) && IndexInRange(mid)
    ensures FrontierOk(mid, p, None) && Layered(mid, d, d + 1)
    ensures found.record.value < |mid.records| && mid.records[found.record.value].depth == d
  {
    ReadyFetched(f, found, p, i, d);
    mid := Mark(found.frontier, found.record.value, Fetched, None);
    InRange(mid, p);
  }

  /**
   What a visit decides. The record visited is failed for the reason there is, merged into the record that has its
   final URL, or fetched under that URL; and if that leads to a record to fetch, exactly the links of the page are taken
   in one level below it, should deeper pages be wanted.
   */
  lemma VisitDecides(f: Frontier, p: Policy, i: nat, page: Page, expand: bool) returns (mid: Frontier)
    requires FrontierOk(f, p, Some(i)) && StillQueued(f.records[i])
    requires Layered(f, f.records[i].depth, f.records[i].depth + 1)
    ensures IndexInRange(f) && SettledTo(f, mid, p, i, page)
    ensures Visit(f, p, i, page, expand).fetched == page.robotsAllowed
    ensures var g := Visit(f, p, i, page, expand).frontier;
            if Follows(f, p, i, page, expand) then Expands(mid, g, p, page.links, f.records[i].depth + 1) else g == mid
  {
    StatesExist(f, p, Some(i));
    InRange(f, p);
    mid := Visit(f, p, i, page, expand).frontier;
    if !page.robotsAllowed {
      RefusedVisit(f, p, i, RobotsRefused);
    } else if !page.content {
      RefusedVisit(f, p, i, FetchFailed(page.code));
    } else {
      mid := ContentDecides(f, p, i, page, expand, mid);
    }
  }

  lemma FollowedTook(f: Frontier, p: Policy, j: nat, page: Page, expand: bool, g: Frontier)
    requires FrontierOk(f, p, None) && j < |f.records| && Layered(f, f.records[j].depth, f.records[j].depth + 1)
    requires IndexInRange(f) && g == Followed(f, p, j, page, expand)
    ensures if expand && f.records[j].depth < p.maxDepth
            then Expands(f, g, p, page.links, f.records[j].depth + 1) else g == f
  {
    var d := f.records[j].depth;
    if expand && d < p.maxDepth {
      AdmitAllTook(f, p, page.links, FromLink, d + 1, d);
    }
  }

  // ---------------------------------------------------------------- one turn of the page loop

  function CancelledFor(r: Record, reason: Reason): Record {
    r.(states := r.states + [State.Cancelled], reason := Some(reason))
  }

  /** Nothing waits any longer: the head was stopped by the page limit, everything behind it early. */
  ghost predicate AllStopped(f: Frontier, g: Frontier, head: nat) {
    && g.queue == [] && |g.records| == |f.records| && g.byKey == f.byKey && g.omitted == f.omitted
    && forall k :: 0 <= k < |f.records| ==>
         g.records[k] == if !StillQueued(f.records[k]) then f.records[k]
                         else CancelledFor(f.records[k], if k == head then PageLimitReached else StoppedEarly)
  }

  /** The head of the queue, off it. */
  function Behead(f: Frontier): Frontier
    requires f.queue != []
  {
    f.(queue := f.queue[1..])
  }

  lemma StoppedAll(f: Frontier, p: Policy, i: nat)
    requires FrontierOk(f, p, Some(i)) && StillQueued(f.records[i]) && HasStates(f)
    ensures AllStopped(f, Stopped(f, i), i)
  {
    var r := f.records[i];
    assert RecordOk(r, p);
    EndedStates(r, Cancelled, Some(PageLimitReached));
    var g := Mark(f, i, Cancelled, Some(PageLimitReached));
    forall k | 0 <= k < |f.records|
      ensures Stopped(f, i).records[k] ==
              if !StillQueued(f.records[k]) then f.records[k]
              else CancelledFor(f.records[k], if k == i then PageLimitReached else StoppedEarly)
    {
      assert RecordOk(f.records[k], p);
      WaitsIffQueued(f, p, Some(i), k);
      if k == i { assert i !in f.queue; }
    }
  }

  /**
   What a turn decides. The loop ends when nothing is queued, and when its page budget is spent, with everything that
   waits cancelled. Otherwise the head of the queue is dropped if it has ended meanwhile, and visited if not.
   */
  lemma TurnDecides(p: Policy, prev: Progress, page: Page, expand: bool, maxPages: nat, next: Progress)
    requires NextTurn(p, prev, page, expand, maxPages, next)
    ensures prev.frontier.queue == [] ==> !next.more && next.frontier == prev.frontier && next.fetches == prev.fetches
    ensures prev.frontier.queue != [] ==>
              var f, i := prev.frontier, prev.frontier.queue[0];
              && i < |f.records| && FrontierOk(Behead(f), p, Some(i))
              && if !StillQueued(f.records[i]) then
                   next.more && next.frontier == Behead(f) && next.fetches == prev.fetches
                 else if 1 + |prev.fetches| >= maxPages then
                   !next.more && AllStopped(f, next.frontier, i) && next.fetches == prev.fetches
                 else
                   && next.more && next.frontier == Visit(Behead(f), p, i, page, expand).frontier
                   && next.fetches == prev.fetches
                        + if page.robotsAllowed then [Fetch(i, f.records[i].url, f.records[i].depth)] else []
  {
    var f := prev.frontier;
    if f.queue != [] {
      PopKeeps(f, p);
      assert Pop(f).frontier == Behead(f);
      TurnIs(Behead(f), p, f.queue[0], page, expand, 1 + |prev.fetches| >= maxPages);
    }
    assert prev.fetches + [] == prev.fetches;
  }

  lemma TurnIs(f: Frontier, p: Policy, i: nat, page: Page, expand: bool, spent: bool)
    requires FrontierOk(f, p, Some(i))
    ensures var turned := Turn(f, p, i, page, expand, spent);
            if !StillQueued(f.records[i]) then turned == Turned(true, f, [])
            else if spent then !turned.more && AllStopped(f, turned.frontier, i) && turned.fetch == []
            else
              && turned.more && turned.frontier == Visit(f, p, i, page, expand).frontier
              && turned.fetch == if page.robotsAllowed then [Fetch(i, f.records[i].url, f.records[i].depth)] else []
  {
    StatesExist(f, p, Some(i));
    if StillQueued(f.records[i]) && spent { StoppedAll(f, p, i); }
  }

  // ---------------------------------------------------------------- the seed

  /** The seed's record is taken, fetched and alone, exactly when its address settles and is admissible at depth 0. */
  lemma SeedTakenIff(p: Policy, link: Link)
    requires Address(p, link).Some? ==> Settles(p, link)
    ensures SeedTaken(p, link) <==> Address(p, link).Some? && Admissible(p, link, 0) && p.maxUrls >= 1
    ensures SeedTaken(p, link) ==>
              var f := SeedAdmitted(p, link);
              && |f.records| == 1 && f.records[0].url == Address(p, link).value && f.records[0].depth == 0
              && f.records[0].states == [Discovered, Admitted, Queued, Fetched]
              && f.byKey == map[p.key(Address(p, link).value) := 0] && f.queue == []
    ensures !SeedTaken(p, link) ==>
              var f := SeedAdmitted(p, link);
              f.queue == [] && |f.records| <= 1 && (|f.records| == 1 ==> f.records[0].states == [Discovered, Filtered])
  {
    SeedKeeps(p, link);
    var empty := Frontier([], map[], [], 0);
    var found := Admit(empty, p, link, FromSeed, 0);
    if Address(p, link).Some? && p.maxUrls >= 1 {
      var u := Address(p, link).value;
      var s := SightingOf(empty, p, link, FromSeed, 0);
      assert found.frontier == Added(empty, p, s, u);
      if Admissible(p, link, 0) {
        assert [Discovered, Admitted, Queued] + [Fetched] == [Discovered, Admitted, Queued, Fetched];
      }
    }
  }

  /** A seed without content leaves one record, failed for the reason given or filtered, if there is room for it. */
  lemma {:induction false} SeedFailedDecides(p: Policy, url: Url, code: nat)
    ensures var u := p.normalize(url); var g := SeedFailed(p, url, code);
            if p.maxUrls == 0 || (u.None? && !p.withinLimit(url)) then g == Frontier([], map[], [], 1)
            else
              && |g.records| == 1 && g.queue == [] && g.omitted == 0
              && Recorded(g.records[0], SeedSighting(url), if u.Some? then u.value else url)
              && g.byKey == (if u.Some? then map[p.key(u.value) := 0] else map[])
              && var refusal := if u.None? then Some(InvalidUrl) else p.Rejection(u.value, 0);
                 && g.records[0].states == (if refusal.Some? then [Discovered, Filtered]
                                            else [Discovered, Admitted, Queued, Failed])
                 && g.records[0].reason == if refusal.Some? then refusal else Some(FetchFailed(code))
  {
    var empty, s := Frontier([], map[], [], 0), SeedSighting(url);
    SeedSeen(p, url);
    DiscoverDecides(empty, p, s);
    var f := Discover(empty, p, s).frontier;
    if f.queue != [] { FirstFails(f, code); }
  }

  lemma FirstFails(f: Frontier, code: nat)
    requires |f.records| == 1 && f.queue == [0] && f.records[0].states == [Discovered, Admitted, Queued]
    ensures Mark(Pop(f).frontier, 0, Failed, Some(FetchFailed(code)))
         == f.(queue := [], records := [f.records[0].(states := [Discovered, Admitted, Queued, Failed],
                                                      reason := Some(FetchFailed(code)))])
  {
    assert f.records[0].states + [Failed] == [Discovered, Admitted, Queued, Failed];
  }
}
