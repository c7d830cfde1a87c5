/**
 * Watching one target of a page over its refreshes: the stored snapshot carries the last found observation along as a
 * baseline, and every refresh is judged against it. The results are tied to the history of observations itself.
 */
module TargetWatch {
  import opened Options

  datatype Resolution = Found | Missing | Ambiguous | Unsupported

  datatype Snapshot = Snapshot(
    resolution: Resolution,
    text: Option<string>,
    attributes: map<string, string>,
    updatedAt: int,
    baselineText: Option<string>,
    baselineAttributes: Option<map<string, string>>,
    baselineUpdatedAt: Option<int>)

  /** The state a watcher waits for: a text, or the value of an attribute. */
  datatype TargetState = TargetState(text: Option<string>, attribute: Option<string>, value: Option<string>)

  datatype Watch = Watch(expected: Option<TargetState>, desired: TargetState, exact: bool)

  datatype Change = New | Same | Changed | Removed

  datatype Public = Public(text: string, attributes: map<string, string>)

  datatype Result = Result(
    resolution: Resolution,
    change: Option<Change>,
    previous: Option<Public>,
    current: Option<Public>,
    conditionMet: bool)

  /** How texts are compared (white space, entities, case), and how attribute names are. */
  datatype Folding = Folding(text: string -> string, name: string -> string)

  /** What a refresh brings: a page with its target resolved, a gone page, or any other failure. */
  datatype Outcome = Content(target: Snapshot) | Tombstone | Failure

  // ---------------------------------------------------------------- one evaluation

  function Plain(resolution: Resolution, text: Option<string>, attributes: map<string, string>, now: int): Snapshot {
    Snapshot(resolution, text, attributes, now, None, None, None)
  }

  function Get(attributes: map<string, string>, name: string): string {
    if name in attributes then attributes[name] else ""
  }

  function OrEmpty(s: Option<string>): string {
    if s.None? then "" else s.value
  }

  predicate OccursAt(part: string, whole: string, i: nat) {
    i + |part| <= |whole| && whole[i..i + |part|] == part
  }

  predicate Occurs(part: string, whole: string) {
    exists i :: 0 <= i <= |whole| && OccursAt(part, whole, i)
  }

  predicate StateMatches(text: Option<string>, attributes: map<string, string>, state: TargetState, exact: bool,
                         f: Folding) {
    var (actual, expected) :=
      if state.text.Some? then (f.text(OrEmpty(text)), f.text(state.text.value))
      else (f.text(Get(attributes, f.name(OrEmpty(state.attribute)))), f.text(OrEmpty(state.value)));
    if exact then actual == expected else Occurs(expected, actual)
  }

  predicate SnapshotMatches(s: Option<Snapshot>, state: TargetState, exact: bool, f: Folding) {
    s.Some? && s.value.resolution == Found && StateMatches(s.value.text, s.value.attributes, state, exact, f)
  }

  function PublicOf(s: Option<Snapshot>): Option<Public> {
    if s.None? || s.value.resolution != Found then None else Some(Public(OrEmpty(s.value.text), s.value.attributes))
  }

  function Evaluate(watch: Watch, previous: Option<Snapshot>, current: Snapshot, f: Folding): Result {
    if current.resolution == Ambiguous || current.resolution == Unsupported then
      Result(current.resolution, None, PublicOf(previous), None, false)
    else if current.resolution == Missing then
      Result(Missing, if previous.Some? && previous.value.resolution == Found then Some(Removed) else None,
             PublicOf(previous), None, false)
    else
      var change :=
        if previous.None? || previous.value.resolution != Found then New
        else if previous.value.text == current.text && previous.value.attributes == current.attributes then Same
        else Changed;
      var before :=
        if watch.expected.Some? then SnapshotMatches(previous, watch.expected.value, watch.exact, f)
        else
          && previous.Some? && previous.value.resolution == Found
          && !SnapshotMatches(previous, watch.desired, watch.exact, f);
      Result(Found, Some(change), PublicOf(previous), PublicOf(Some(current)),
             change == Changed && before && SnapshotMatches(Some(current), watch.desired, watch.exact, f))
  }

  // ---------------------------------------------------------------- baseline bookkeeping

  function TargetBaseline(s: Option<Snapshot>): Option<Snapshot> {
    if s.None? then None
    else if s.value.resolution == Found then s
    else if s.value.baselineUpdatedAt.None? then None
    else
      Some(Plain(Found, s.value.baselineText,
                 if s.value.baselineAttributes.None? then map[] else s.value.baselineAttributes.value,
                 s.value.baselineUpdatedAt.value))
  }

  function StoredSnapshot(current: Snapshot, previous: Option<Snapshot>): Snapshot {
    var baseline := if current.resolution == Found then Some(current) else previous;
    current.(
      baselineText := if baseline.Some? then baseline.value.text else None,
      baselineAttributes := if baseline.Some? then Some(baseline.value.attributes) else None,
      baselineUpdatedAt := if baseline.Some? then Some(baseline.value.updatedAt) else None)
  }

  function Names(watch: Watch, f: Folding): set<string> {
    (if watch.expected.Some? && watch.expected.value.attribute.Some?
     then {f.name(watch.expected.value.attribute.value)} else {})
    + if watch.desired.attribute.Some? then {f.name(watch.desired.attribute.value)} else {}
  }

  /** Only the attributes that the watch names are kept. */
  function Project(target: Snapshot, watch: Watch, now: int, f: Folding): Snapshot {
    Plain(target.resolution, target.text, map n | n in Names(watch, f) :: Get(target.attributes, n), now)
  }

  function WatchSnapshot(outcome: Outcome, watch: Watch, now: int, f: Folding): Snapshot {
    match outcome
    case Content(target) => Project(target, watch, now, f)
    case Tombstone => Plain(Missing, None, map[], now)
    case Failure => Plain(Unsupported, None, map[], now)
  }

  datatype Refreshed = Refreshed(stored: Option<Snapshot>, result: Result)

  /** One refresh; only pages and gone pages are recorded. */
  function Refresh(stored: Option<Snapshot>, watch: Watch, outcome: Outcome, now: int, f: Folding): Refreshed {
    var current := WatchSnapshot(outcome, watch, now, f);
    var previous := TargetBaseline(stored);
    Refreshed(if outcome.Failure? then stored else Some(StoredSnapshot(current, previous)),
              Evaluate(watch, previous, current, f))
  }

  /** A read without a refresh: from a fresh entry, after a "not modified", or from another request's refresh. */
  function CachedResult(stored: Option<Snapshot>, watch: Watch, f: Folding): Option<Result> {
    if stored.None? then None
    else
      var previous := if stored.value.resolution == Found then stored else TargetBaseline(stored);
      Some(Evaluate(watch, previous, stored.value, f))
  }

  /** The store, by watch: each watch has a snapshot of its own. */
  class TargetStore {
    var targets: map<string, Snapshot>

    constructor ()
      ensures targets == map[]
    {
      targets := map[];
    }

    function Stored(key: string): Option<Snapshot>
      reads this
    {
      if key in targets then Some(targets[key]) else None
    }

    method PersistRefresh(key: string, watch: Watch, outcome: Outcome, now: int, f: Folding) returns (result: Result)
      modifies this
      ensures var r := Refresh(old(Stored(key)), watch, outcome, now, f); result == r.result && Stored(key) == r.stored
      ensures forall k :: k != key ==> Stored(k) == old(Stored(k))
    {
      var current := WatchSnapshot(outcome, watch, now, f);
      var previous := TargetBaseline(Stored(key));
      result := Evaluate(watch, previous, current, f);
      if !outcome.Failure? {
        targets := targets[key := StoredSnapshot(current, previous)];
      }
    }

    method CachedWatch(key: string, watch: Watch, f: Folding) returns (result: Option<Result>)
      ensures result == CachedResult(Stored(key), watch, f)
    {
      if key !in targets { return None; }
      var snapshot := targets[key];
      var previous := if snapshot.resolution == Found then Some(snapshot) else TargetBaseline(Some(snapshot));
      result := Some(Evaluate(watch, previous, snapshot, f));
    }

    /** The cache loses an entry. */
    method Forget(key: string)
      modifies this
      ensures Stored(key) == None && forall k :: k != key ==> Stored(k) == old(Stored(k))
    {
      targets := targets - {key};
    }

    /** Whatever happens to one watch next, the store and the answer are what the history of its events says. */
    method Happen(key: string, watch: Watch, events: seq<Event>, k: nat, f: Folding) returns (result: Option<Result>)
      requires k < |events| && Stored(key) == StoredAfter(events, watch, f, k)
      modifies this
      ensures Stored(key) == StoredAfter(events, watch, f, k + 1) && result == ResultOf(events, watch, f, k)
      ensures forall other :: other != key ==> Stored(other) == old(Stored(other))
    {
      match events[k]
      case Refreshing(outcome, now) =>
        var r := PersistRefresh(key, watch, outcome, now, f);
        result := Some(r);
      case Reading =>
        result := CachedWatch(key, watch, f);
      case Forgetting =>
        Forget(key);
        result := None;
    }
  }

  // ---------------------------------------------------------------- histories

  /** What happens to one watch: refreshes, reads without refresh, and loss of the stored snapshot. */
  datatype Event = Refreshing(outcome: Outcome, now: int) | Reading | Forgetting

  function StoredAfter(events: seq<Event>, watch: Watch, f: Folding, k: nat): Option<Snapshot>
    requires k <= |events|
  {
    if k == 0 then None
    else
      var was := StoredAfter(events, watch, f, k - 1);
      match events[k - 1]
      case Refreshing(outcome, now) => Refresh(was, watch, outcome, now, f).stored
      case Reading => was
      case Forgetting => None
  }

  /** The result of event k, if it has one. */
  function ResultOf(events: seq<Event>, watch: Watch, f: Folding, k: nat): Option<Result>
    requires k < |events|
  {
    var was := StoredAfter(events, watch, f, k);
    match events[k]
    case Refreshing(outcome, now) => Some(Refresh(was, watch, outcome, now, f).result)
    case Reading => CachedResult(was, watch, f)
    case Forgetting => None
  }

  /** What a found target looked like. */
  datatype Observation = Observation(text: Option<string>, attributes: map<string, string>)

  function Observed(event: Event, watch: Watch, f: Folding): Option<Observation> {
    if event.Refreshing? && event.outcome.Content? && event.outcome.target.resolution == Found then
      var s := Project(event.outcome.target, watch, event.now, f);
      Some(Observation(s.text, s.attributes))
    else None
  }

  /** The last found observation since the snapshot was last lost, read off the events alone. */
  function LastFound(events: seq<Event>, watch: Watch, f: Folding, k: nat): Option<Observation>
    requires k <= |events|
  {
    if k == 0 then None
    else if events[k - 1].Forgetting? then None
    else
      var seen := Observed(events[k - 1], watch, f);
      if seen.Some? then seen else LastFound(events, watch, f, k - 1)
  }

  function ObservationOf(s: Option<Snapshot>): Option<Observation> {
    if s.None? then None else Some(Observation(s.value.text, s.value.attributes))
  }

  lemma BaselineOfStored(current: Snapshot, previous: Option<Snapshot>)
    requires previous.Some? ==> previous.value.resolution == Found
    ensures var b := TargetBaseline(Some(StoredSnapshot(current, previous)));
            && (b.Some? ==> b.value.resolution == Found)
            && ObservationOf(b) == if current.resolution == Found then ObservationOf(Some(current))
                                 else ObservationOf(previous)
  {
  }

  /** The baseline decoded from the store is the last found observation, whatever happened in between. */
  lemma {:induction false} BaselineIsLastFound(events: seq<Event>, watch: Watch, f: Folding, k: nat)
    requires k <= |events|
    ensures var b := TargetBaseline(StoredAfter(events, watch, f, k));
            && (b.Some? ==> b.value.resolution == Found)
            && ObservationOf(b) == LastFound(events, watch, f, k)
  {
    if k > 0 {
      BaselineIsLastFound(events, watch, f, k - 1);
      var was := StoredAfter(events, watch, f, k - 1);
      var event := events[k - 1];
      if event.Refreshing? && !event.outcome.Failure? {
        BaselineOfStored(WatchSnapshot(event.outcome, watch, event.now, f), TargetBaseline(was));
      }
    }
  }

  /** What an observation shows of the text or the attribute that a state is about. */
  function Shown(o: Observation, state: TargetState, f: Folding): string {
    if state.text.Some? then
      if o.text.Some? then o.text.value else ""
    else
      var name := f.name(if state.attribute.Some? then state.attribute.value else "");
      if name in o.attributes then o.attributes[name] else ""
  }

  function Wanted(state: TargetState): string {
    if state.text.Some? then state.text.value else if state.value.Some? then state.value.value else ""
  }

  /** The observation is in the state: folded, it shows what is wanted, or has it somewhere in it. */
  predicate Matches(o: Observation, state: TargetState, watch: Watch, f: Folding) {
    var shown, wanted := f.text(Shown(o, state, f)), f.text(Wanted(state));
    if watch.exact then shown == wanted
    else exists i, j :: 0 <= i <= j <= |shown| && shown[i..j] == wanted
  }

  lemma OccursAsSlice(part: string, whole: string)
    ensures Occurs(part, whole) <==> exists i, j :: 0 <= i <= j <= |whole| && whole[i..j] == part
  {
    if i :| 0 <= i <= |whole| && OccursAt(part, whole, i) {
      assert whole[i..i + |part|] == part;
    }
    if i, j :| 0 <= i <= j <= |whole| && whole[i..j] == part {
      assert OccursAt(part, whole, i);
    }
  }

  lemma MatchesIsStateMatches(o: Observation, state: TargetState, watch: Watch, f: Folding)
    ensures StateMatches(o.text, o.attributes, state, watch.exact, f) <==> Matches(o, state, watch, f)
  {
    OccursAsSlice(f.text(Wanted(state)), f.text(Shown(o, state, f)));
  }

  predicate Watches(state: TargetState, name: string, f: Folding) {
    state.attribute.Some? && f.name(state.attribute.value) == name
  }

  /** A refresh observes a target that is found: its text and the attributes the watch names, empty if it lacks them. */
  lemma ObservedIs(event: Event, watch: Watch, f: Folding)
    ensures Observed(event, watch, f).Some? <==>
              event.Refreshing? && event.outcome.Content? && event.outcome.target.resolution == Found
    ensures Observed(event, watch, f).Some? ==>
              var o, target := Observed(event, watch, f).value, event.outcome.target;
              && o.text == target.text
              && (forall n :: n in o.attributes <==>
                    Watches(watch.desired, n, f) || (watch.expected.Some? && Watches(watch.expected.value, n, f)))
              && (forall n :: n in o.attributes ==>
                    o.attributes[n] == if n in target.attributes then target.attributes[n] else "")
  {
  }

  /** The desired state is reached from one that was not it, or, if one was expected, from the expected one. */
  predicate Rises(before: Observation, after: Observation, watch: Watch, f: Folding) {
    && Matches(after, watch.desired, watch, f)
    && if watch.expected.None? then !Matches(before, watch.desired, watch, f)
       else before != after && Matches(before, watch.expected.value, watch, f)
  }

  predicate Fires(events: seq<Event>, watch: Watch, f: Folding, k: nat)
    requires k < |events|
  {
    var r := ResultOf(events, watch, f, k);
    r.Some? && r.value.conditionMet
  }

  predicate Rise(before: Option<Observation>, after: Option<Observation>, watch: Watch, f: Folding) {
    before.Some? && after.Some? && Rises(before.value, after.value, watch, f)
  }

  /** An event fires exactly on a rise from the last found observation to the one it makes. */
  lemma {:induction false} FiresOnRise(events: seq<Event>, watch: Watch, f: Folding, k: nat)
    requires k < |events|
    ensures Fires(events, watch, f, k) <==>
            Rise(LastFound(events, watch, f, k), Observed(events[k], watch, f), watch, f)
  {
    BaselineIsLastFound(events, watch, f, k);
    var before, after := LastFound(events, watch, f, k), Observed(events[k], watch, f);
    if before.Some? && after.Some? {
      MatchesIsStateMatches(after.value, watch.desired, watch, f);
      MatchesIsStateMatches(before.value, watch.desired, watch, f);
      if watch.expected.Some? { MatchesIsStateMatches(before.value, watch.expected.value, watch, f); }
    }
  }

  /** Reads without a refresh never fire, however often they are made. */
  lemma ReadsNeverFire(stored: Option<Snapshot>, watch: Watch, f: Folding)
    ensures var r := CachedResult(stored, watch, f); r.Some? ==> !r.value.conditionMet
  {
  }

  /** What a refresh reports of a found or missing target is what the history says of it. */
  lemma {:induction false} ChangeTellsHistory(events: seq<Event>, watch: Watch, f: Folding, k: nat)
    requires k < |events| && events[k].Refreshing? && !events[k].outcome.Failure?
    ensures var r := ResultOf(events, watch, f, k).value;
            var before, after := LastFound(events, watch, f, k), Observed(events[k], watch, f);
            && (r.change == Some(New) <==> after.Some? && before.None?)
            && (r.change == Some(Same) <==> after.Some? && before == after)
            && (r.change == Some(Changed) <==> after.Some? && before.Some? && before != after)
            && (r.change == Some(Removed) <==> r.resolution == Missing && before.Some?)
  {
    BaselineIsLastFound(events, watch, f, k);
  }

  /** How the target stood at the last refresh that was kept, since the snapshot was last lost. */
  function LastStanding(events: seq<Event>, k: nat): Option<Resolution>
    requires k <= |events|
  {
    if k == 0 then None
    else
      match events[k - 1]
      case Forgetting => None
      case Refreshing(Content(target), _) => Some(target.resolution)
      case Refreshing(Tombstone, _) => Some(Missing)
      case _ => LastStanding(events, k - 1)
  }

  lemma {:induction false} StoredStanding(events: seq<Event>, watch: Watch, f: Folding, k: nat)
    requires k <= |events|
    ensures var s := StoredAfter(events, watch, f, k);
            LastStanding(events, k) == if s.None? then None else Some(s.value.resolution)
  {
    if k > 0 { StoredStanding(events, watch, f, k - 1); }
  }

  function Published(o: Option<Observation>): Option<Public> {
    if o.None? then None else Some(Public(if o.value.text.Some? then o.value.text.value else "", o.value.attributes))
  }

  /** What a refresh or a read reports beside the change: how the target stands, now and when it was last found. */
  lemma {:induction false} ReportTellsHistory(events: seq<Event>, watch: Watch, f: Folding, k: nat)
    requires k < |events|
    ensures var r, before := ResultOf(events, watch, f, k), LastFound(events, watch, f, k);
            match events[k]
            case Forgetting => r == None
            case Refreshing(outcome, _) =>
              && r.Some? && r.value.previous == Published(before)
              && r.value.current == Published(Observed(events[k], watch, f))
              && r.value.resolution == (match outcome
                                        case Content(target) => target.resolution
                                        case Tombstone => Missing
                                        case Failure => Unsupported)
            case Reading =>
              && (r.Some? <==> LastStanding(events, k).Some?)
              && (r.Some? ==>
                    && Some(r.value.resolution) == LastStanding(events, k) && r.value.previous == Published(before)
                    && r.value.current == if r.value.resolution == Found then Published(before) else None)
  {
    BaselineIsLastFound(events, watch, f, k);
    StoredStanding(events, watch, f, k);
  }

  // ---------------------------------------------------------------- counting

  /** The found observations in order, with a gap where the snapshot was lost. */
  function Trail(events: seq<Event>, watch: Watch, f: Folding, k: nat): seq<Option<Observation>>
    requires k <= |events|
  {
    if k == 0 then []
    else
      var seen := Observed(events[k - 1], watch, f);
      Trail(events, watch, f, k - 1) + if seen.Some? || events[k - 1].Forgetting? then [seen] else []
  }

  function Edges(trail: seq<Option<Observation>>, watch: Watch, f: Folding, k: nat): nat
    requires k <= |trail|
  {
    if k <= 1 then 0
    else
      Edges(trail, watch, f, k - 1)
      + if Rise(trail[k - 2], trail[k - 1], watch, f) then 1 else 0
  }

  function Fired(events: seq<Event>, watch: Watch, f: Folding, k: nat): nat
    requires k <= |events|
  {
    if k == 0 then 0
    else Fired(events, watch, f, k - 1) + if Fires(events, watch, f, k - 1) then 1 else 0
  }

  lemma {:induction false} TrailEnds(events: seq<Event>, watch: Watch, f: Folding, k: nat)
    requires k <= |events|
    ensures LastFound(events, watch, f, k) == Last(Trail(events, watch, f, k))
  {
    if k > 0 { TrailEnds(events, watch, f, k - 1); }
  }

  lemma {:induction false} EdgesPrefix(trail: seq<Option<Observation>>, o: Option<Observation>, watch: Watch,
                                       f: Folding, k: nat)
    requires k <= |trail|
    ensures Edges(trail + [o], watch, f, k) == Edges(trail, watch, f, k)
  {
    if k > 1 { EdgesPrefix(trail, o, watch, f, k - 1); }
  }

  function Last(trail: seq<Option<Observation>>): Option<Observation> {
    if trail == [] then None else trail[|trail| - 1]
  }

  lemma {:induction false} EdgesSnoc(trail: seq<Option<Observation>>, o: Option<Observation>, watch: Watch, f: Folding)
    ensures Edges(trail + [o], watch, f, |trail + [o]|)
         == Edges(trail, watch, f, |trail|) + if Rise(Last(trail), o, watch, f) then 1 else 0
  {
    EdgesPrefix(trail, o, watch, f, |trail|);
  }

  /** Over any history the condition is reported met exactly as often as it comes to hold among found observations. */
  lemma {:induction false} FiredCountsRises(events: seq<Event>, watch: Watch, f: Folding, k: nat)
    requires k <= |events|
    ensures var trail := Trail(events, watch, f, k); Fired(events, watch, f, k) == Edges(trail, watch, f, |trail|)
  {
    if k > 0 {
      FiredCountsRises(events, watch, f, k - 1);
      TrailEnds(events, watch, f, k - 1);
      FiresOnRise(events, watch, f, k - 1);
      var trail, seen := Trail(events, watch, f, k - 1), Observed(events[k - 1], watch, f);
      EdgesSnoc(trail, seen, watch, f);
      assert trail + [] == trail;
    }
  }
}
