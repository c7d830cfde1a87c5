/** The crawl frontier as a value: its records, its key index and its queue, and what every operation keeps. */
module FrontierModel {
  import opened Options

  type Url = string
  type Key = string

  datatype Source = FromSeed | FromSitemap | FromLink | FromSearch

  datatype State = Discovered | Admitted | Queued | Fetched | Filtered | Failed | Cancelled

  datatype Reason =
    | InvalidUrl
    | DepthExceeded
    | PathPolicy(rule: nat)
    | UnsafeTarget
    | UnsafeRedirect
    | RobotsRefused
    | DuplicateFinalUrl
    | PageLimitReached
    | StoppedEarly
    | FetchFailed(code: nat)

  /** The crawl policy. Normalisation, deduplication keys and path rules are whatever the URL library makes them. */
  datatype Policy = Policy(
    normalize: Url -> Option<Url>,
    key: Url -> Key,
    pathRejection: Url -> Option<Reason>,
    withinLimit: Url -> bool,
    maxDepth: nat,
    maxUrls: nat)
  {
    /** The depth test comes first and is the only one that depends on the depth. */
    function Rejection(url: Url, depth: nat): Option<Reason> {
      if depth > maxDepth then Some(DepthExceeded) else pathRejection(url)
    }
  }

  /** A discovered URL and the states it has passed through. */
  datatype Record = Record(
    url: Url,
    depth: nat,
    sources: seq<Source>,
    states: seq<State>,
    reason: Option<Reason>,
    modifiedAt: Option<string>,
    priority: Option<real>)

  /** Index and queue hold positions in the list of records. */
  datatype Frontier = Frontier(records: seq<Record>, byKey: map<Key, nat>, queue: seq<nat>, omitted: nat)

  /** What a sighting of a URL brings with it. */
  datatype Sighting = Sighting(
    candidate: Url,
    source: Source,
    depth: nat,
    safe: bool,
    robotsAllowed: bool,
    modifiedAt: Option<string>,
    priority: Option<real>)

  // ---------------------------------------------------------------- operations

  function Min(a: nat, b: nat): nat {
    if a < b then a else b
  }

  function LastState(r: Record): State
    requires r.states != []
  {
    r.states[|r.states| - 1]
  }

  predicate Ended(s: State) {
    s == Fetched || s == Filtered || s == Failed || s == Cancelled
  }

  /** Entering an ending state happens at most once. */
  function EndedIn(r: Record, s: State, reason: Option<Reason>): Record
    requires r.states != []
  {
    if Ended(LastState(r)) then r
    else r.(states := r.states + [s], reason := if reason.Some? then reason else r.reason)
  }

  function WithSource(sources: seq<Source>, s: Source): seq<Source> {
    if s in sources then sources else sources + [s]
  }

  function WithSources(sources: seq<Source>, more: seq<Source>): seq<Source>
    decreases |more|
  {
    if more == [] then sources else WithSources(WithSource(sources, more[0]), more[1..])
  }

  function Merged(r: Record, s: Sighting): Record {
    r.(sources := WithSource(r.sources, s.source),
       modifiedAt := if r.modifiedAt.None? then s.modifiedAt else r.modifiedAt,
       priority := if r.priority.None? then s.priority else r.priority,
       depth := Min(r.depth, s.depth))
  }

  function AdmissionRejection(p: Policy, url: Url, s: Sighting): Option<Reason> {
    var reason := p.Rejection(url, s.depth);
    if reason.Some? then reason
    else if !s.safe then Some(UnsafeTarget)
    else if !s.robotsAllowed then Some(RobotsRefused)
    else None
  }

  function NewRecord(s: Sighting, url: Url, states: seq<State>, reason: Option<Reason>): Record {
    Record(url, s.depth, [s.source], states, reason, s.modifiedAt, s.priority)
  }

  function WithRecord(f: Frontier, i: nat, r: Record): Frontier
    requires i < |f.records|
  {
    f.(records := f.records[i := r])
  }

  datatype Found = Found(frontier: Frontier, record: Option<nat>)

  function Discover(f: Frontier, p: Policy, s: Sighting): Found
    requires forall k :: k in f.byKey ==> f.byKey[k] < |f.records|
  {
    var normalized := p.normalize(s.candidate);
    var n := |f.records|;
    if normalized.None? then
      if !p.withinLimit(s.candidate) || n >= p.maxUrls then Found(f.(omitted := f.omitted + 1), None)
      else
        Found(f.(records := f.records +
              [NewRecord(s, s.candidate, [Discovered, Filtered], Some(InvalidUrl))]), Some(n))
    else
      var url := normalized.value;
      var key := p.key(url);
      if key in f.byKey then
        var i := f.byKey[key];
        Found(WithRecord(f, i, Merged(f.records[i], s)), Some(i))
      else if n >= p.maxUrls then Found(f.(omitted := f.omitted + 1), None)
      else
        Found(Added(f, p, s, url), Some(n))
  }

  /** A new record under its key: filtered, or admitted and queued. */
  function Added(f: Frontier, p: Policy, s: Sighting, url: Url): Frontier {
    var n := |f.records|;
    var reason := AdmissionRejection(p, url, s);
    if reason.Some? then
      Frontier(f.records + [NewRecord(s, url, [Discovered, Filtered], reason)],
               f.byKey[p.key(url) := n], f.queue, f.omitted)
    else
      Frontier(f.records + [NewRecord(s, url, [Discovered, Admitted, Queued], None)], f.byKey[p.key(url) := n],
               f.queue + [n], f.omitted)
  }

  function Pop(f: Frontier): Found {
    if f.queue == [] then Found(f, None) else Found(f.(queue := f.queue[1..]), Some(f.queue[0]))
  }

  function Mark(f: Frontier, i: nat, s: State, reason: Option<Reason>): Frontier
    requires i < |f.records| && f.records[i].states != []
  {
    WithRecord(f, i, EndedIn(f.records[i], s, reason))
  }

  function RedirectRejection(p: Policy, normalized: Option<Url>, depth: nat, safe: bool,
                             robotsAllowed: bool): Option<Reason> {
    if normalized.None? then Some(InvalidUrl)
    else
      var reason := p.Rejection(normalized.value, depth);
      if reason.Some? then reason
      else if !safe then Some(UnsafeRedirect)
      else if !robotsAllowed then Some(RobotsRefused)
      else None
  }

  predicate HasStates(f: Frontier) {
    forall i :: 0 <= i < |f.records| ==> f.records[i].states != []
  }

  /** A fetched page whose URL turns out to be another: reject, merge into the record that has it, or move. */
  function Reconcile(f: Frontier, p: Policy, i: nat, finalUrl: Url, safe: bool, robotsAllowed: bool): Found
    requires i < |f.records| && HasStates(f)
    requires forall k :: k in f.byKey ==> f.byKey[k] < |f.records|
  {
    var r := f.records[i];
    var normalized := p.normalize(finalUrl);
    var reason := RedirectRejection(p, normalized, r.depth, safe, robotsAllowed);
    if reason.Some? then Found(Mark(f, i, Failed, reason), None)
    else
      var url := normalized.value;
      var key := p.key(url);
      if key in f.byKey && f.byKey[key] != i then MergeFinal(f, i, f.byKey[key])
      else
        Found(Moved(f, p, i, url), Some(i))
  }

  /** The record leaves its old key and takes its new URL's. */
  function Moved(f: Frontier, p: Policy, i: nat, url: Url): Frontier
    requires i < |f.records|
  {
    f.(records := f.records[i := f.records[i].(url := url)],
       byKey := Rekeyed(f.byKey, p.key(f.records[i].url), p.key(url), i))
  }

  function Rekeyed(byKey: map<Key, nat>, oldKey: Key, key: Key, i: nat): map<Key, nat> {
    (if oldKey in byKey && byKey[oldKey] == i then byKey - {oldKey} else byKey)[key := i]
  }

  function MergeFinal(f: Frontier, i: nat, e: nat): Found
    requires i < |f.records| && e < |f.records| && HasStates(f)
  {
    var r, x := f.records[i], f.records[e];
    var g := WithRecord(f, e, x.(sources := WithSources(x.sources, r.sources), depth := Min(x.depth, r.depth)));
    var h := Mark(g, i, Failed, Some(DuplicateFinalUrl));
    if LastState(h.records[e]) != Queued then Found(h, None) else Found(Mark(h, e, Fetched, None), Some(e))
  }

  function StopRecord(r: Record): Record
    requires r.states != []
  {
    if LastState(r) == Queued then r.(reason := Some(StoppedEarly), states := r.states + [Cancelled]) else r
  }

  /** Everything still queued is cancelled and the queue emptied. */
  function CancelQueued(f: Frontier): Frontier
    requires HasStates(f)
  {
    f.(records := seq(|f.records|, i requires 0 <= i < |f.records| =>
                       if i in f.queue then StopRecord(f.records[i]) else f.records[i]),
       queue := [])
  }

  // ---------------------------------------------------------------- the invariant

  /** The legal paths of a record's life, each ending in at most one ending state. */
  predicate LegalPath(states: seq<State>) {
    || states == [Discovered, Filtered]
    || states == [Discovered, Admitted, Queued]
    || states == [Discovered, Admitted, Queued, Fetched]
    || states == [Discovered, Admitted, Queued, Failed]
    || states == [Discovered, Admitted, Queued, Cancelled]
  }

  predicate WasAdmitted(r: Record) {
    |r.states| >= 3
  }

  predicate StillQueued(r: Record) {
    |r.states| == 3
  }

  /** What each record satisfies by itself: a legal life, and the policy if it was admitted. */
  predicate RecordOk(r: Record, p: Policy) {
    LegalPath(r.states) && (WasAdmitted(r) ==> p.Rejection(r.url, r.depth) == None)
  }

  /** A record is found under its own key, unless its URL could not be normalised. */
  predicate IndexedOk(f: Frontier, p: Policy, i: nat)
    requires i < |f.records|
  {
    var r := f.records[i];
    || (p.key(r.url) in f.byKey && f.byKey[p.key(r.url)] == i)
    || (!WasAdmitted(r) && r.reason == Some(InvalidUrl) && p.normalize(r.url) == None)
  }

  ghost predicate RecordsOk(f: Frontier, p: Policy) {
    forall i :: 0 <= i < |f.records| ==> RecordOk(f.records[i], p) && IndexedOk(f, p, i)
  }

  ghost predicate IndexOk(f: Frontier, p: Policy) {
    forall k :: k in f.byKey ==> f.byKey[k] < |f.records| && p.key(f.records[f.byKey[k]].url) == k
  }

  /** The queue has no repeats and holds admitted records only. */
  ghost predicate QueueOk(f: Frontier) {
    && (forall a :: 0 <= a < |f.queue| ==> f.queue[a] < |f.records| && WasAdmitted(f.records[f.queue[a]]))
    && (forall a, b :: 0 <= a < b < |f.queue| ==> f.queue[a] != f.queue[b])
  }

  /** Every still-queued record is in the queue, except the one in hand. */
  ghost predicate NoneLost(f: Frontier, hand: Option<nat>) {
    forall i :: 0 <= i < |f.records| && StillQueued(f.records[i]) ==> i in f.queue || hand == Some(i)
  }

  ghost predicate FrontierOk(f: Frontier, p: Policy, hand: Option<nat>) {
    && RecordsOk(f, p)
    && IndexOk(f, p)
    && QueueOk(f)
    && NoneLost(f, hand)
    && |f.records| <= p.maxUrls
    && (hand.Some? ==> hand.value < |f.records| && hand.value !in f.queue)
  }

  /** On the paths there are, a record's last state tells whether it still waits. */
  lemma WaitsIffQueued(f: Frontier, p: Policy, hand: Option<nat>, i: nat)
    requires FrontierOk(f, p, hand) && i < |f.records|
    ensures f.records[i].states != [] && (StillQueued(f.records[i]) <==> LastState(f.records[i]) == Queued)
  {
    assert RecordOk(f.records[i], p);
  }

  /** No two indexed records have the same key. */
  lemma KeysDistinct(f: Frontier, p: Policy, hand: Option<nat>, i: nat, j: nat)
    requires FrontierOk(f, p, hand) && i < j < |f.records|
    requires WasAdmitted(f.records[i]) || p.normalize(f.records[i].url).Some?
    requires WasAdmitted(f.records[j]) || p.normalize(f.records[j].url).Some?
    ensures p.key(f.records[i].url) != p.key(f.records[j].url)
  {
    assert IndexedOk(f, p, i) && IndexedOk(f, p, j);
  }

  // ---------------------------------------------------------------- every operation keeps it

  /** Replacing one record by one with the same URL, no less of a life, and still in order. */
  lemma ReplaceKeeps(f: Frontier, p: Policy, hand: Option<nat>, i: nat, r: Record)
    requires FrontierOk(f, p, hand) && i < |f.records|
    requires var was := f.records[i];
             && RecordOk(r, p) && r.url == was.url
             && (WasAdmitted(r) <==> WasAdmitted(was)) && (StillQueued(r) ==> StillQueued(was))
             && (!WasAdmitted(r) ==> r.reason == was.reason)
    ensures FrontierOk(WithRecord(f, i, r), p, hand)
  {
    var g := WithRecord(f, i, r);
    forall k | 0 <= k < |g.records|
      ensures RecordOk(g.records[k], p) && IndexedOk(g, p, k)
    {
      assert RecordOk(f.records[k], p) && IndexedOk(f, p, k);
    }
  }

  lemma DiscoverKeeps(f: Frontier, p: Policy, hand: Option<nat>, s: Sighting)
    requires FrontierOk(f, p, hand)
    ensures FrontierOk(Discover(f, p, s).frontier, p, hand)
    ensures |Discover(f, p, s).frontier.records| >= |f.records|
    ensures Discover(f, p, s).frontier.queue == f.queue
         || Discover(f, p, s).frontier.queue == f.queue + [|f.records|]
  {
    var normalized := p.normalize(s.candidate);
    if normalized.Some? && p.key(normalized.value) in f.byKey {
      var i := f.byKey[p.key(normalized.value)];
      assert RecordOk(f.records[i], p);
      ReplaceKeeps(f, p, hand, i, Merged(f.records[i], s));
    } else if |f.records| < p.maxUrls {
      if normalized.Some? {
        AppendIndexedKeeps(f, p, hand, s, normalized.value);
      } else {
        AppendInvalidKeeps(f, p, hand, s);
      }
    }
  }

  lemma AppendInvalidKeeps(f: Frontier, p: Policy, hand: Option<nat>, s: Sighting)
    requires FrontierOk(f, p, hand) && p.normalize(s.candidate) == None && |f.records| < p.maxUrls
    ensures FrontierOk(Discover(f, p, s).frontier, p, hand)
  {
    var g := Discover(f, p, s).frontier;
    forall k | 0 <= k < |g.records|
      ensures RecordOk(g.records[k], p) && IndexedOk(g, p, k)
    {
      if k < |f.records| { assert RecordOk(f.records[k], p) && IndexedOk(f, p, k); }
    }
  }

  lemma AddedKeepsRecords(f: Frontier, p: Policy, s: Sighting, url: Url)
    requires RecordsOk(f, p) && p.key(url) !in f.byKey
    ensures RecordsOk(Added(f, p, s, url), p)
  {
    var g := Added(f, p, s, url);
    forall k | 0 <= k < |g.records|
      ensures RecordOk(g.records[k], p) && IndexedOk(g, p, k)
    {
      if k < |f.records| { assert RecordOk(f.records[k], p) && IndexedOk(f, p, k); }
    }
  }

  lemma AddedLosesNone(f: Frontier, p: Policy, hand: Option<nat>, s: Sighting, url: Url)
    requires NoneLost(f, hand)
    ensures NoneLost(Added(f, p, s, url), hand)
  {
    var g, n := Added(f, p, s, url), |f.records|;
    forall i | 0 <= i < |g.records| && StillQueued(g.records[i])
      ensures i in g.queue || hand == Some(i)
    {
      if i < n {
        assert StillQueued(f.records[i]);
      } else {
        assert g.queue[|g.queue| - 1] == n;
      }
    }
  }

  lemma AppendIndexedKeeps(f: Frontier, p: Policy, hand: Option<nat>, s: Sighting, url: Url)
    requires FrontierOk(f, p, hand) && |f.records| < p.maxUrls && p.key(url) !in f.byKey
    ensures FrontierOk(Added(f, p, s, url), p, hand)
  {
    AddedKeepsRecords(f, p, s, url);
    AddedLosesNone(f, p, hand, s, url);
  }

  /** Taking the head of the queue puts a record in hand; one that is not still queued may be dropped. */
  lemma PopKeeps(f: Frontier, p: Policy)
    requires FrontierOk(f, p, None) && f.queue != []
    ensures var g := Pop(f).frontier; var i := f.queue[0];
            FrontierOk(g, p, Some(i)) && (!StillQueued(f.records[i]) ==> FrontierOk(g, p, None))
  {
    var g := Pop(f).frontier;
    forall k | 0 <= k < |f.records|
      ensures RecordOk(g.records[k], p) && IndexedOk(g, p, k)
    {
      assert RecordOk(f.records[k], p) && IndexedOk(f, p, k);
    }
    forall k | 0 <= k < |g.records| && StillQueued(g.records[k])
      ensures k in g.queue || k == f.queue[0]
    {
      assert StillQueued(f.records[k]);
    }
  }

  /** Ending the record in hand frees the hand. */
  lemma MarkKeeps(f: Frontier, p: Policy, i: nat, s: State, reason: Option<Reason>)
    requires FrontierOk(f, p, Some(i)) && i < |f.records| && WasAdmitted(f.records[i])
    requires s == Fetched || s == Failed || s == Cancelled
    ensures f.records[i].states != [] && FrontierOk(Mark(f, i, s, reason), p, None)
  {
    var r := EndedIn(f.records[i], s, reason);
    assert RecordOk(f.records[i], p);
    EndedPath(f.records[i], s, reason);
    ReplaceKeeps(f, p, Some(i), i, r);
    var g := Mark(f, i, s, reason);
    forall k | 0 <= k < |g.records| && StillQueued(g.records[k])
      ensures k in g.queue
    {
      assert k != i;
    }
  }

  /** An admitted record that ends is ended, on a legal path. */
  lemma EndedPath(r: Record, s: State, reason: Option<Reason>)
    requires LegalPath(r.states) && WasAdmitted(r) && (s == Fetched || s == Failed || s == Cancelled)
    ensures var e := EndedIn(r, s, reason);
            LegalPath(e.states) && WasAdmitted(e) && !StillQueued(e) && e.url == r.url && e.depth == r.depth
  {
    if !Ended(LastState(r)) {
      assert r.states == [Discovered, Admitted, Queued];
      assert r.states + [s] == [Discovered, Admitted, Queued, s];
    }
  }

  predicate FetchedAt(f: Frontier, i: nat) {
    i < |f.records| && WasAdmitted(f.records[i]) && LastState(f.records[i]) == Fetched
  }

  /** Reconciling the record in hand: it moves to its final URL and stays in hand, or it ends. */
  lemma ReconcileKeeps(f: Frontier, p: Policy, i: nat, finalUrl: Url, safe: bool, robotsAllowed: bool)
    requires FrontierOk(f, p, Some(i)) && StillQueued(f.records[i])
    ensures HasStates(f)
    ensures var r := Reconcile(f, p, i, finalUrl, safe, robotsAllowed);
            && (r.record == Some(i) ==> FrontierOk(r.frontier, p, Some(i)) && StillQueued(r.frontier.records[i]))
            && (r.record != Some(i) ==> FrontierOk(r.frontier, p, None))
            && r.frontier.queue == f.queue && |r.frontier.records| == |f.records| && r.frontier.omitted == f.omitted
            && (r.record.Some? && r.record != Some(i) ==> FetchedAt(r.frontier, r.record.value))
  {
    StatesExist(f, p, Some(i));
    var normalized := p.normalize(finalUrl);
    var reason := RedirectRejection(p, normalized, f.records[i].depth, safe, robotsAllowed);
    if reason.Some? {
      MarkKeeps(f, p, i, Failed, reason);
    } else {
      var key := p.key(normalized.value);
      if key in f.byKey && f.byKey[key] != i {
        MergeFinalKeeps(f, p, i, f.byKey[key]);
      } else {
        MoveKeeps(f, p, i, normalized.value);
      }
    }
  }

  lemma StatesExist(f: Frontier, p: Policy, hand: Option<nat>)
    requires RecordsOk(f, p)
    ensures HasStates(f)
  {
    forall k | 0 <= k < |f.records|
      ensures f.records[k].states != []
    {
      assert RecordOk(f.records[k], p);
    }
  }

  /** Moving a record to a free key, or to its own, keeps every record under its own key. */
  lemma MoveKeeps(f: Frontier, p: Policy, i: nat, url: Url)
    requires FrontierOk(f, p, Some(i)) && StillQueued(f.records[i])
    requires p.Rejection(url, f.records[i].depth) == None
    requires p.key(url) in f.byKey ==> f.byKey[p.key(url)] == i
    ensures FrontierOk(Moved(f, p, i, url), p, Some(i))
  {
    var g := Moved(f, p, i, url);
    forall k | 0 <= k < |g.records|
      ensures RecordOk(g.records[k], p) && IndexedOk(g, p, k)
    {
      assert RecordOk(f.records[k], p) && IndexedOk(f, p, k);
    }
    forall k | k in g.byKey
      ensures g.byKey[k] < |g.records| && p.key(g.records[g.byKey[k]].url) == k
    {
      if k != p.key(url) {
        assert k in f.byKey && p.key(f.records[f.byKey[k]].url) == k;
      }
    }
  }

  lemma MergeFinalKeeps(f: Frontier, p: Policy, i: nat, e: nat)
    requires FrontierOk(f, p, Some(i)) && StillQueued(f.records[i]) && e < |f.records| && e != i && HasStates(f)
    ensures FrontierOk(MergeFinal(f, i, e).frontier, p, None)
    ensures var m := MergeFinal(f, i, e);
            m.record == None || (m.record == Some(e) && FetchedAt(m.frontier, e))
    ensures MergeFinal(f, i, e).frontier.queue == f.queue && |MergeFinal(f, i, e).frontier.records| == |f.records|
    ensures MergeFinal(f, i, e).frontier.omitted == f.omitted
  {
    var r, x := f.records[i], f.records[e];
    var y := x.(sources := WithSources(x.sources, r.sources), depth := Min(x.depth, r.depth));
    assert RecordOk(x, p) && RecordOk(r, p);
    ReplaceKeeps(f, p, Some(i), e, y);
    var g := WithRecord(f, e, y);
    MarkKeeps(g, p, i, Failed, Some(DuplicateFinalUrl));
    var h := Mark(g, i, Failed, Some(DuplicateFinalUrl));
    if LastState(h.records[e]) == Queued {
      assert RecordOk(h.records[e], p);
      assert h.records[e].states == [Discovered, Admitted, Queued];
      EndedPath(h.records[e], Fetched, None);
      ReplaceKeeps(h, p, None, e, EndedIn(h.records[e], Fetched, None));
    }
  }

  lemma CancelQueuedKeeps(f: Frontier, p: Policy)
    requires FrontierOk(f, p, None)
    ensures HasStates(f) && FrontierOk(CancelQueued(f), p, None)
    ensures CancelQueued(f).queue == []
  {
    StatesExist(f, p, None);
    var g := CancelQueued(f);
    forall k | 0 <= k < |g.records|
      ensures RecordOk(g.records[k], p) && IndexedOk(g, p, k) && !StillQueued(g.records[k])
    {
      assert RecordOk(f.records[k], p) && IndexedOk(f, p, k);
      if StillQueued(f.records[k]) {
        assert k in f.queue;
        assert f.records[k].states + [Cancelled] == [Discovered, Admitted, Queued, Cancelled];
      }
    }
  }

  // ---------------------------------------------------------------- keys that become free

  /**
   Before the call: the final URL is accepted, its key is not held by another record, and it is not the key that the
   record has already.
   */
  predicate Moves(f: Frontier, p: Policy, i: nat, finalUrl: Url, safe: bool, robotsAllowed: bool)
    requires i < |f.records|
  {
    var normalized := p.normalize(finalUrl);
    && RedirectRejection(p, normalized, f.records[i].depth, safe, robotsAllowed) == None
    && var key := p.key(normalized.value);
       (key in f.byKey ==> f.byKey[key] == i) && key != p.key(f.records[i].url)
  }

  /** Reconciling frees the record's key exactly when the record moves. */
  lemma KeyFreedIffMoves(f: Frontier, p: Policy, i: nat, finalUrl: Url, safe: bool, robotsAllowed: bool)
    requires FrontierOk(f, p, Some(i)) && StillQueued(f.records[i]) && HasStates(f)
    ensures p.key(f.records[i].url) in f.byKey
    ensures p.key(f.records[i].url) !in Reconcile(f, p, i, finalUrl, safe, robotsAllowed).frontier.byKey <==>
            Moves(f, p, i, finalUrl, safe, robotsAllowed)
  {
    assert IndexedOk(f, p, i);
  }

  /** The sighting's URL, once normalised, has the key. */
  predicate Sees(p: Policy, s: Sighting, key: Key) {
    var normalized := p.normalize(s.candidate);
    normalized.Some? && p.key(normalized.value) == key
  }

  /** Discovering adds a new record that waits in the queue. */
  ghost predicate QueuesNew(f: Frontier, p: Policy, s: Sighting)
    requires forall k :: k in f.byKey ==> f.byKey[k] < |f.records|
  {
    var d := Discover(f, p, s);
    && d.record == Some(|f.records|) && |d.frontier.records| == |f.records| + 1
    && StillQueued(d.frontier.records[|f.records|]) && d.frontier.queue == f.queue + [|f.records|]
  }

  /** A sighting queues a new record exactly when its key is free, there is room, and it is admitted. */
  lemma QueuesNewIff(f: Frontier, p: Policy, s: Sighting, key: Key)
    requires (forall k :: k in f.byKey ==> f.byKey[k] < |f.records|) && Sees(p, s, key)
    ensures QueuesNew(f, p, s) <==>
            key !in f.byKey && |f.records| < p.maxUrls
              && AdmissionRejection(p, p.normalize(s.candidate).value, s) == None
  {
  }

  /**
   After a visit to a record is reconciled, a sighting of the URL it was queued under is queued once more, to be
   fetched again, if and only if the record moves, there is room, and the sighting is admitted.
   */
  lemma QueuedAgainIff(f: Frontier, p: Policy, i: nat, finalUrl: Url, safe: bool, robotsAllowed: bool, s: Sighting)
    requires FrontierOk(f, p, Some(i)) && StillQueued(f.records[i]) && HasStates(f)
    requires Sees(p, s, p.key(f.records[i].url))
    ensures var g := Reconcile(f, p, i, finalUrl, safe, robotsAllowed).frontier;
            && (forall k :: k in g.byKey ==> g.byKey[k] < |g.records|)
            && (QueuesNew(g, p, s) <==>
                  && Moves(f, p, i, finalUrl, safe, robotsAllowed)
                  && |f.records| < p.maxUrls
                  && AdmissionRejection(p, p.normalize(s.candidate).value, s) == None)
  {
    ReconcileKeeps(f, p, i, finalUrl, safe, robotsAllowed);
    KeyFreedIffMoves(f, p, i, finalUrl, safe, robotsAllowed);
    QueuesNewIff(Reconcile(f, p, i, finalUrl, safe, robotsAllowed).frontier, p, s, p.key(f.records[i].url));
  }

  // ---------------------------------------------------------------- counting states

  /** How often a state occurs in a record's life. */
  function Has(r: Record, s: State): nat {
    multiset(r.states)[s]
  }

  /** How often a state occurs among the states of the first k records. */
  function CountState(records: seq<Record>, s: State, k: nat): nat
    requires k <= |records|
  {
    if k == 0 then 0 else CountState(records, s, k - 1) + Has(records[k - 1], s)
  }

  /** An ended record entered exactly one ending state, and was admitted and queued unless it was filtered. */
  lemma EndedCounts(r: Record)
    requires LegalPath(r.states) && !StillQueued(r)
    ensures Has(r, Discovered) == 1 == Has(r, Filtered) + Has(r, Admitted)
    ensures Has(r, Admitted) == Has(r, Queued) == Has(r, Fetched) + Has(r, Failed) + Has(r, Cancelled)
  {
  }

  /** When nothing waits, every record has ended. */
  lemma AllEnded(f: Frontier, p: Policy, i: nat)
    requires FrontierOk(f, p, None) && f.queue == [] && i < |f.records|
    ensures LegalPath(f.records[i].states) && !StillQueued(f.records[i])
  {
    assert RecordOk(f.records[i], p);
  }

  /** The reported counts balance once every record has ended. */
  lemma {:induction false} CountsBalance(f: Frontier, p: Policy, k: nat)
    requires FrontierOk(f, p, None) && f.queue == [] && k <= |f.records|
    ensures CountState(f.records, Discovered, k) == k
    ensures CountState(f.records, Filtered, k) + CountState(f.records, Admitted, k) == k
    ensures CountState(f.records, Admitted, k) == CountState(f.records, Queued, k)
    ensures CountState(f.records, Queued, k)
         == CountState(f.records, Fetched, k) + CountState(f.records, Failed, k) + CountState(f.records, Cancelled, k)
  {
    if k > 0 {
      CountsBalance(f, p, k - 1);
      AllEnded(f, p, k - 1);
      EndedCounts(f.records[k - 1]);
    }
  }
}
