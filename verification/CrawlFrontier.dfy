/**
 * The crawl frontier as the crawler holds it: records that are updated in place, an index and a queue that refer to
 * them. Every method changes the objects exactly as the operation of the same name changes the value.
 */
module CrawlFrontier {
  import opened Options
  import opened F = FrontierModel

  class FrontierRecord {
    var url: Url
    var depth: nat
    var sources: seq<Source>
    var states: seq<State>
    var reason: Option<Reason>
    var modifiedAt: Option<string>
    var priority: Option<real>
    const order: nat

    constructor (s: Sighting, url: Url, order: nat)
      ensures this.order == order
      ensures Value() == NewRecord(s, url, [Discovered], None)
    {
      this.url, depth, sources, states := url, s.depth, [s.source], [Discovered];
      reason, modifiedAt, priority := None, s.modifiedAt, s.priority;
      this.order := order;
    }

    function Value(): Record
      reads this
    {
      Record(url, depth, sources, states, reason, modifiedAt, priority)
    }

    /** A new record is filtered for a reason, or admitted and queued. */
    method Settle(rejection: Option<Reason>)
      requires states == [Discovered] && reason == None
      modifies this`states, this`reason
      ensures Value() == old(Value()).(
                states := if rejection.Some? then [Discovered, Filtered] else [Discovered, Admitted, Queued],
                reason := rejection)
    {
      if rejection.Some? {
        reason := rejection;
        states := states + [Filtered];
      } else {
        states := states + [Admitted];
        states := states + [Queued];
      }
      assert states == if rejection.Some? then [Discovered, Filtered] else [Discovered, Admitted, Queued];
    }

    method MergeDiscovery(s: Sighting)
      modifies this
      ensures Value() == Merged(old(Value()), s)
    {
      if s.source !in sources { sources := sources + [s.source]; }
      if modifiedAt.None? && s.modifiedAt.Some? { modifiedAt := s.modifiedAt; }
      if priority.None? && s.priority.Some? { priority := s.priority; }
      depth := Min(depth, s.depth);
    }

    method End(s: State, why: Option<Reason>)
      requires states != []
      modifies this`states, this`reason
      ensures Value() == EndedIn(old(Value()), s, why)
    {
      var last := states[|states| - 1];
      if last != Fetched && last != Filtered && last != Failed && last != Cancelled {
        if why.Some? { reason := why; }
        states := states + [s];
      }
    }

    method Stop()
      requires states != []
      modifies this`states, this`reason
      ensures Value() == StopRecord(old(Value()))
      ensures states != []
    {
      if states[|states| - 1] == Queued {
        reason := Some(StoppedEarly);
        states := states + [Cancelled];
      }
    }

    method MergeFinal(other: FrontierRecord)
      requires other != this
      modifies this`sources, this`depth
      ensures var v := old(Value());
              Value() == v.(sources := WithSources(v.sources, other.sources), depth := Min(v.depth, other.depth))
    {
      var k := 0;
      while k < |other.sources|
        modifies this`sources
        invariant k <= |other.sources|
        invariant WithSources(sources, other.sources[k..]) == WithSources(old(sources), other.sources)
      {
        assert other.sources[k..][1..] == other.sources[k + 1..];
        if other.sources[k] !in sources { sources := sources + [other.sources[k]]; }
        k := k + 1;
      }
      depth := Min(depth, other.depth);
    }
  }

  class CrawlFrontier {
    const policy: Policy
    var records: seq<FrontierRecord>
    var byKey: map<Key, FrontierRecord>
    var queue: seq<FrontierRecord>
    var omitted: nat

    constructor (policy: Policy)
      ensures this.policy == policy && Valid() && records == []
      ensures Model() == Frontier([], map[], [], 0)
    {
      this.policy := policy;
      records, byKey, queue, omitted := [], map[], [], 0;
    }

    /** An object of this frontier: the record at the position it was given when it was created. */
    ghost predicate Mine(r: FrontierRecord)
      reads this`records
    {
      r.order < |records| && records[r.order] == r
    }

    ghost predicate Valid()
      reads this, records
    {
      && (forall i :: 0 <= i < |records| ==> records[i].order == i && records[i].states != [])
      && (forall k :: k in byKey ==> Mine(byKey[k]))
      && (forall a :: 0 <= a < |queue| ==> Mine(queue[a]))
    }

    ghost function Values(): (v: seq<Record>)
      reads this`records, records
    {
      var rs := records;
      seq(|rs|, i requires 0 <= i < |rs| reads rs => rs[i].Value())
    }

    ghost function Index(): map<Key, nat>
      reads this`byKey
    {
      map k | k in byKey :: byKey[k].order
    }

    ghost function Waiting(): (q: seq<nat>)
      reads this`queue
    {
      var rs := queue;
      seq(|rs|, a requires 0 <= a < |rs| => rs[a].order)
    }

    ghost function Model(): Frontier
      reads this, records
    {
      Frontier(Values(), Index(), Waiting(), omitted)
    }

    /** The list of records only grows, and only by new objects. */
    twostate predicate Grew()
      reads this
    {
      && old(records) <= records
      && forall i :: |old(records)| <= i < |records| ==> fresh(records[i])
    }

    method Discover(s: Sighting) returns (r: FrontierRecord?)
      requires Valid()
      modifies this, records
      ensures Valid()
      ensures var was := old(Model());
              && Model() == F.Discover(was, policy, s).frontier
              && (r == null <==> F.Discover(was, policy, s).record == None)
              && (r != null ==> Mine(r) && F.Discover(was, policy, s).record == Some(r.order))
      ensures Grew()
    {
      var normalized := policy.normalize(s.candidate);
      if normalized.None? {
        r := RecordFiltered(s);
        return;
      }
      var url := normalized.value;
      var key := policy.key(url);
      if key in byKey {
        r := byKey[key];
        r.MergeDiscovery(s);
        assert Values() == old(Values())[r.order := r.Value()];
        return;
      }
      if |records| >= policy.maxUrls {
        omitted := omitted + 1;
        r := null;
        return;
      }
      r := Add(s, url);
    }

    method Add(s: Sighting, url: Url) returns (made: FrontierRecord)
      requires Valid()
      modifies this
      ensures Valid() && Model() == Added(old(Model()), policy, s, url)
      ensures made.order == |old(records)| && Mine(made) && fresh(made) && records == old(records) + [made]
    {
      made := new FrontierRecord(s, url, |records|);
      var rejection := AdmissionRejection(policy, url, s);
      made.Settle(rejection);
      Append(made);
      SetKey(policy.key(url), made);
      if rejection.None? { Enqueue(made); }
    }

    /** A new object joins the list of records. */
    method Append(made: FrontierRecord)
      requires Valid() && made.order == |records| && made.states != []
      modifies this`records
      ensures Valid() && Mine(made) && records == old(records) + [made]
      ensures Values() == old(Values()) + [made.Value()]
    {
      records := records + [made];
      assert Values() == old(Values()) + [made.Value()];
    }

    method SetKey(key: Key, r: FrontierRecord)
      requires Valid() && Mine(r)
      modifies this`byKey
      ensures Valid() && Index() == old(Index())[key := r.order]
    {
      byKey := byKey[key := r];
      assert Index() == old(Index())[key := r.order];
    }

    method Enqueue(r: FrontierRecord)
      requires Valid() && Mine(r)
      modifies this`queue
      ensures Valid() && Waiting() == old(Waiting()) + [r.order]
    {
      queue := queue + [r];
      assert Waiting() == old(Waiting()) + [r.order];
    }

    method RecordFiltered(s: Sighting) returns (r: FrontierRecord?)
      requires Valid() && policy.normalize(s.candidate) == None
      modifies this
      ensures Valid()
      ensures var was := old(Model());
              && Model() == F.Discover(was, policy, s).frontier
              && (r == null <==> F.Discover(was, policy, s).record == None)
              && (r != null ==> Mine(r) && F.Discover(was, policy, s).record == Some(r.order))
      ensures Grew()
    {
      if !policy.withinLimit(s.candidate) || |records| >= policy.maxUrls {
        omitted := omitted + 1;
        return null;
      }
      r := new FrontierRecord(s, s.candidate, |records|);
      r.Settle(Some(InvalidUrl));
      Append(r);
    }

    method Pop() returns (r: FrontierRecord?)
      requires Valid()
      modifies this`queue
      ensures Valid()
      ensures Model() == F.Pop(old(Model())).frontier
      ensures r == null <==> old(queue) == []
      ensures r != null ==> Mine(r) && F.Pop(old(Model())).record == Some(r.order)
    {
      if queue == [] { return null; }
      r := queue[0];
      queue := queue[1..];
      assert Waiting() == old(Waiting())[1..];
    }

    method Mark(r: FrontierRecord, s: State, why: Option<Reason>)
      requires Valid() && Mine(r)
      modifies r`states, r`reason
      ensures Valid()
      ensures Model() == F.Mark(old(Model()), r.order, s, why)
    {
      r.End(s, why);
      assert Values() == old(Values())[r.order := r.Value()];
    }

    method ReconcileFinal(r: FrontierRecord, finalUrl: Url, safe: bool,
                          robotsAllowed: bool) returns (f: FrontierRecord?)
      requires Valid() && Mine(r)
      modifies this`byKey, records
      ensures Valid() && records == old(records)
      ensures var was := old(Model());
              && Model() == Reconcile(was, policy, r.order, finalUrl, safe, robotsAllowed).frontier
              && (f == null <==> Reconcile(was, policy, r.order, finalUrl, safe, robotsAllowed).record == None)
              && (f != null ==>
                    Mine(f) && Reconcile(was, policy, r.order, finalUrl, safe, robotsAllowed).record == Some(f.order))
    {
      var normalized := policy.normalize(finalUrl);
      var rejection := RedirectRejection(policy, normalized, r.depth, safe, robotsAllowed);
      if rejection.Some? {
        Mark(r, Failed, rejection);
        return null;
      }
      var key := policy.key(normalized.value);
      if key in byKey && byKey[key] != r {
        f := MergeFinalRecord(r, byKey[key]);
        return;
      }
      Move(r, normalized.value);
      f := r;
    }

    method Move(r: FrontierRecord, url: Url)
      requires Valid() && Mine(r)
      modifies this`byKey, r`url
      ensures Valid() && Model() == Moved(old(Model()), policy, r.order, url)
    {
      Rekey(r, policy.key(r.url), policy.key(url));
      r.url := url;
      assert Values() == old(Values())[r.order := r.Value()];
    }

    method Rekey(r: FrontierRecord, oldKey: Key, key: Key)
      requires Valid() && Mine(r)
      modifies this`byKey
      ensures Valid() && Index() == Rekeyed(old(Index()), oldKey, key, r.order)
    {
      if oldKey in byKey && byKey[oldKey] == r {
        byKey := byKey - {oldKey};
        assert Index() == old(Index()) - {oldKey};
      }
      SetKey(key, r);
    }

    method MergeFinalRecord(r: FrontierRecord, existing: FrontierRecord) returns (f: FrontierRecord?)
      requires Valid() && Mine(r) && Mine(existing) && r != existing
      modifies r, existing
      ensures Valid()
      ensures var was := old(Model());
              && Model() == MergeFinal(was, r.order, existing.order).frontier
              && (f == null <==> MergeFinal(was, r.order, existing.order).record == None)
              && (f != null ==> f == existing && MergeFinal(was, r.order, existing.order).record == Some(f.order))
    {
      Absorb(existing, r);
      Mark(r, Failed, Some(DuplicateFinalUrl));
      if existing.states[|existing.states| - 1] != Queued { return null; }
      Mark(existing, Fetched, None);
      f := existing;
    }

    /** The record that has the final URL takes the other's sources and the smaller depth. */
    method Absorb(existing: FrontierRecord, r: FrontierRecord)
      requires Valid() && Mine(r) && Mine(existing) && r != existing
      modifies existing`sources, existing`depth
      ensures Valid()
      ensures var x, y := old(existing.Value()), old(r.Value());
              Values() == old(Values())[existing.order :=
                x.(sources := WithSources(x.sources, y.sources), depth := Min(x.depth, y.depth))]
    {
      existing.MergeFinal(r);
      assert Values() == old(Values())[existing.order := existing.Value()];
    }

    method StopOne(r: FrontierRecord)
      requires Valid() && Mine(r)
      modifies r`states, r`reason
      ensures Valid() && Values() == old(Values())[r.order := StopRecord(old(r.Value()))]
    {
      r.Stop();
      assert Values() == old(Values())[r.order := r.Value()];
    }

    method CancelQueued()
      requires Valid()
      modifies this`queue, records
      ensures Valid()
      ensures Model() == F.CancelQueued(old(Model()))
    {
      StoppedAll(Model());
      StopQueued();
      DropQueue();
    }

    method DropQueue()
      requires Valid()
      modifies this`queue
      ensures Valid() && Model() == old(Model()).(queue := [])
    {
      queue := [];
      assert Waiting() == [];
    }

    /** Every record in the queue is stopped. */
    method StopQueued()
      requires Valid()
      modifies records
      ensures Valid() && InBounds(old(Values()), Waiting())
      ensures Model() == old(Model()).(records := StoppedTo(old(Values()), Waiting(), |Waiting()|))
    {
      ghost var was, waiting := Values(), Waiting();
      for k := 0 to |queue|
        invariant Valid()
        invariant Values() == StoppedTo(was, waiting, k)
      {
        StopNext(was, waiting, k);
      }
    }

    method StopNext(ghost was: seq<Record>, ghost waiting: seq<nat>, k: nat)
      requires Valid() && k < |queue| && waiting == Waiting()
      requires InBounds(was, waiting) && Values() == StoppedTo(was, waiting, k)
      modifies records
      ensures Valid() && Values() == StoppedTo(was, waiting, k + 1)
    {
      assert waiting[k] == queue[k].order;
      StopOne(queue[k]);
    }
  }

  /** The records named by the first k places of a queue, stopped one after the other. */
  ghost function StoppedTo(records: seq<Record>, queue: seq<nat>, k: nat): (r: seq<Record>)
    requires k <= |queue| && InBounds(records, queue)
    ensures |r| == |records| && forall i :: 0 <= i < |r| ==> r[i].states != []
  {
    if k == 0 then records
    else
      var before := StoppedTo(records, queue, k - 1);
      before[queue[k - 1] := StopRecord(before[queue[k - 1]])]
  }

  ghost predicate InBounds(records: seq<Record>, queue: seq<nat>) {
    && (forall a :: 0 <= a < |queue| ==> queue[a] < |records|)
    && (forall i :: 0 <= i < |records| ==> records[i].states != [])
  }

  /** Stopping a record twice is stopping it once. */
  lemma {:induction false} StoppedEach(records: seq<Record>, queue: seq<nat>, k: nat, i: nat)
    requires k <= |queue| && InBounds(records, queue) && i < |records|
    ensures StoppedTo(records, queue, k)[i] == if i in queue[..k] then StopRecord(records[i]) else records[i]
  {
    if k > 0 {
      StoppedEach(records, queue, k - 1, i);
      assert queue[..k] == queue[..k - 1] + [queue[k - 1]];
    }
  }

  lemma StoppedAll(f: Frontier)
    requires InBounds(f.records, f.queue)
    ensures F.CancelQueued(f) == f.(records := StoppedTo(f.records, f.queue, |f.queue|), queue := [])
  {
    assert f.queue[..|f.queue|] == f.queue;
    forall i | 0 <= i < |f.records|
      ensures StoppedTo(f.records, f.queue, |f.queue|)[i] == F.CancelQueued(f).records[i]
    {
      StoppedEach(f.records, f.queue, |f.queue|, i);
    }
  }
}
