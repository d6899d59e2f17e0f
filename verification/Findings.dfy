// The finding lifecycle as a fold over the log: one finding's own state, whether it may be
// closed, and the grouped index of all findings (src/protocol/governance.ts:1409-1583).

module Findings {
  import opened Wrappers
  import opened Events
  import opened Sequences
  import opened Text
  import opened Log
  import opened Compaction
  import opened Governance

  function Own(id: string): Event -> bool {
    (e: Event) => e.Finding? && e.findingId == id
  }

  function Stage(id: string, stage: FindingType): Event -> bool {
    (e: Event) => e.Finding? && e.findingId == id && e.findingType == stage
  }

  function BoundOwner(id: string): Event -> bool {
    (e: Event) =>
      && e.Finding? && e.findingId == id && e.findingType == FINDING_OWNED
      && e.ownerRole.Some? && !Blank(e.ownerRole.value)
  }

  function OwnerRole(): Event -> string {
    (e: Event) => if e.Finding? then e.ownerRole.GetOr("") else ""
  }

  datatype State = State(
    openings: seq<string>, owned: seq<string>, delivered: seq<string>, closed: seq<string>, ownerRoles: seq<string>)
  {
    predicate Active() {
      owned != [] && delivered != [] && closed == []
    }

    function Missing(): seq<FindingType> {
      (if owned == [] then [FINDING_OWNED] else []) + (if delivered == [] then [FINDING_DELIVERED] else [])
    }

    function EventCount(): nat {
      |openings| + |owned| + |delivered| + |closed|
    }
  }

  function StageIds(id: string, stage: FindingType, events: seq<Event>): seq<string> {
    Map(Filter(events, Stage(id, stage)), IdOf())
  }

  /** A finding's state, stage by stage in log order. */
  function StateOf(id: string, events: seq<Event>): State {
    State(StageIds(id, FINDING_OPENED, events), StageIds(id, FINDING_OWNED, events),
          StageIds(id, FINDING_DELIVERED, events), StageIds(id, FINDING_CLOSED, events),
          Map(Filter(events, BoundOwner(id)), OwnerRole()))
  }

  lemma StageSnoc(id: string, stage: FindingType, events: seq<Event>, e: Event)
    ensures StageIds(id, stage, events + [e]) ==
            StageIds(id, stage, events) + if Stage(id, stage)(e) then [e.eventId] else []
  {
    FilterSnoc(events, e, Stage(id, stage));
    MapSnoc(Filter(events, Stage(id, stage)), e, IdOf());
  }

  lemma OwnersSnoc(id: string, events: seq<Event>, e: Event)
    ensures Map(Filter(events + [e], BoundOwner(id)), OwnerRole()) ==
            Map(Filter(events, BoundOwner(id)), OwnerRole()) + if BoundOwner(id)(e) then [e.ownerRole.value] else []
  {
    FilterSnoc(events, e, BoundOwner(id));
    MapSnoc(Filter(events, BoundOwner(id)), e, OwnerRole());
  }

  /** What one more event does to a finding's state. */
  function After(s: State, id: string, e: Event): State {
    if !e.Finding? || e.findingId != id then s
    else
      match e.findingType
      case FINDING_OPENED => s.(openings := s.openings + [e.eventId])
      case FINDING_OWNED =>
        s.(owned := s.owned + [e.eventId],
           ownerRoles := s.ownerRoles + if BoundOwner(id)(e) then [e.ownerRole.value] else [])
      case FINDING_DELIVERED => s.(delivered := s.delivered + [e.eventId])
      case FINDING_CLOSED => s.(closed := s.closed + [e.eventId])
  }

  lemma StateSnoc(id: string, events: seq<Event>, e: Event)
    ensures StateOf(id, events + [e]) == After(StateOf(id, events), id, e)
  {
    StageSnoc(id, FINDING_OPENED, events, e);
    StageSnoc(id, FINDING_OWNED, events, e);
    StageSnoc(id, FINDING_DELIVERED, events, e);
    StageSnoc(id, FINDING_CLOSED, events, e);
    OwnersSnoc(id, events, e);
  }

  /** summarizeFindingEvents: one pass sorts the finding's own events by stage. */
  method SummarizeFindingEvents(id: string, events: seq<Event>) returns (s: State)
    ensures s == StateOf(id, events)
  {
    s := State([], [], [], [], []);
    for i := 0 to |events|
      invariant s == StateOf(id, events[..i])
    {
      var e := events[i];
      assert StateOf(id, events[..i + 1]) == After(s, id, e) by {
        assert events[..i + 1] == events[..i] + [e];
        StateSnoc(id, events[..i], e);
      }
      if !e.Finding? || e.findingId != id {
        continue;
      }
      match e.findingType
      case FINDING_OPENED => s := s.(openings := s.openings + [e.eventId]);
      case FINDING_OWNED =>
        s := s.(owned := s.owned + [e.eventId]);
        if e.ownerRole.Some? && !Blank(e.ownerRole.value) {
          s := s.(ownerRoles := s.ownerRoles + [e.ownerRole.value]);
        }
      case FINDING_DELIVERED => s := s.(delivered := s.delivered + [e.eventId]);
      case FINDING_CLOSED => s := s.(closed := s.closed + [e.eventId]);
    }
    assert events[..|events|] == events;
  }

  // ------------------------------------------------------------------ one finding

  /** A finding's state depends on its own events alone: add, drop or reorder the events of
      others as you like. */
  lemma OnlyOwnEventsMatter(id: string, a: seq<Event>, b: seq<Event>)
    requires Filter(a, Own(id)) == Filter(b, Own(id))
    ensures StateOf(id, a) == StateOf(id, b)
  {
    OwnStages(id, a);
    OwnStages(id, b);
  }

  lemma OwnStages(id: string, a: seq<Event>)
    ensures StateOf(id, Filter(a, Own(id))) == StateOf(id, a)
  {
    FilterTwice(a, Own(id), Stage(id, FINDING_OPENED), Stage(id, FINDING_OPENED));
    FilterTwice(a, Own(id), Stage(id, FINDING_OWNED), Stage(id, FINDING_OWNED));
    FilterTwice(a, Own(id), Stage(id, FINDING_DELIVERED), Stage(id, FINDING_DELIVERED));
    FilterTwice(a, Own(id), Stage(id, FINDING_CLOSED), Stage(id, FINDING_CLOSED));
    FilterTwice(a, Own(id), BoundOwner(id), BoundOwner(id));
  }

  /** Swapping two neighbouring events of different findings changes no finding's state. */
  lemma SwapOthers(id: string, before: seq<Event>, x: Event, y: Event, after: seq<Event>)
    requires x.Finding? && y.Finding? ==> x.findingId != y.findingId
    ensures StateOf(id, before + [x, y] + after) == StateOf(id, before + [y, x] + after)
  {
    FilterSwap(before, x, y, after, Own(id));
    OnlyOwnEventsMatter(id, before + [x, y] + after, before + [y, x] + after);
  }

  lemma FilterSwap(before: seq<Event>, x: Event, y: Event, after: seq<Event>, p: Event -> bool)
    requires !p(x) || !p(y)
    ensures Filter(before + [x, y] + after, p) == Filter(before + [y, x] + after, p)
  {
    FilterConcat(before + [x, y], after, p);
    FilterConcat(before + [y, x], after, p);
    FilterPair(before, x, y, p);
    FilterPair(before, y, x, p);
  }

  lemma FilterPair(before: seq<Event>, x: Event, y: Event, p: Event -> bool)
    ensures Filter(before + [x, y], p) == Filter(before, p) + (if p(x) then [x] else []) + (if p(y) then [y] else [])
  {
    assert before + [x, y] == before + [x] + [y];
    FilterSnoc(before + [x], y, p);
    FilterSnoc(before, x, p);
  }

  function One(b: bool): nat {
    if b then 1 else 0
  }

  lemma {:induction false} FilterSplitsFour(
    s: seq<Event>, whole: Event -> bool, a: Event -> bool, b: Event -> bool, c: Event -> bool, d: Event -> bool)
    requires forall e :: One(whole(e)) == One(a(e)) + One(b(e)) + One(c(e)) + One(d(e))
    ensures |Filter(s, whole)| == |Filter(s, a)| + |Filter(s, b)| + |Filter(s, c)| + |Filter(s, d)|
  {
    if s != [] {
      FilterSplitsFour(s[..|s| - 1], whole, a, b, c, d);
    }
  }

  /** Every event of the finding is at exactly one stage. */
  lemma StagesCountAll(id: string, events: seq<Event>)
    ensures StateOf(id, events).EventCount() == |Filter(events, Own(id))|
  {
    FilterSplitsFour(events, Own(id), Stage(id, FINDING_OPENED), Stage(id, FINDING_OWNED),
                     Stage(id, FINDING_DELIVERED), Stage(id, FINDING_CLOSED));
  }

  ghost predicate HasStage(id: string, stage: FindingType, log: seq<Event>) {
    exists e :: e in log && Stage(id, stage)(e)
  }

  lemma StageIdsTell(id: string, stage: FindingType, log: seq<Event>)
    ensures StageIds(id, stage, log) != [] <==> HasStage(id, stage, log)
  {
    FilterMembers(log, Stage(id, stage));
    if StageIds(id, stage, log) != [] {
      var hit := Filter(log, Stage(id, stage))[0];
      assert hit in Filter(log, Stage(id, stage));
    }
  }

  /** Driven and not closed: an owner and a delivery on record, and no closure. */
  ghost predicate Driven(id: string, log: seq<Event>) {
    HasStage(id, FINDING_OWNED, log) && HasStage(id, FINDING_DELIVERED, log) && !HasStage(id, FINDING_CLOSED, log)
  }

  lemma ActiveMeansDriven(id: string, log: seq<Event>)
    ensures StateOf(id, log).Active() <==> Driven(id, log)
    ensures StateOf(id, log).Missing() == [] <==>
            (HasStage(id, FINDING_OWNED, log) && HasStage(id, FINDING_DELIVERED, log))
  {
    StageIdsTell(id, FINDING_OWNED, log);
    StageIdsTell(id, FINDING_DELIVERED, log);
    StageIdsTell(id, FINDING_CLOSED, log);
  }

  function FindingQuery(): EventQuery {
    EventQuery(None, Some(FINDING), None, None)
  }

  lemma QueryKeepsFindings(id: string, log: seq<Event>)
    ensures StateOf(id, Query(log, FindingQuery())) == StateOf(id, log)
  {
    FilterTwice(log, Matching(FindingQuery()), Own(id), Own(id));
    OnlyOwnEventsMatter(id, Query(log, FindingQuery()), log);
  }

  /** deriveFindingState */
  method DeriveFindingState(log: seq<Event>, id: string) returns (s: Option<State>)
    ensures s == if Blank(id) then None else Some(StateOf(id, log))
  {
    if Blank(id) {
      return None;
    }
    QueryKeepsFindings(id, log);
    var state := SummarizeFindingEvents(id, Query(log, FindingQuery()));
    return Some(state);
  }

  datatype ClosureVerdict = ClosurePermitted | NotActive(missing: seq<FindingType>) | InvalidFindingId

  /** evaluateFindingClosure: a closure may stand exactly when an owner and a delivery are on
      record, and a refusal names exactly what is not. */
  method EvaluateFindingClosure(log: seq<Event>, id: string) returns (v: ClosureVerdict)
    ensures v.InvalidFindingId? <==> Blank(id)
    ensures v.ClosurePermitted? <==>
              !Blank(id) && HasStage(id, FINDING_OWNED, log) && HasStage(id, FINDING_DELIVERED, log)
    ensures v.NotActive? ==> forall stage :: stage in v.missing <==>
              (stage == FINDING_OWNED || stage == FINDING_DELIVERED) && !HasStage(id, stage, log)
  {
    var s := DeriveFindingState(log, id);
    if s == None {
      return InvalidFindingId;
    }
    ActiveMeansDriven(id, log);
    StageIdsTell(id, FINDING_OWNED, log);
    StageIdsTell(id, FINDING_DELIVERED, log);
    return if s.value.Missing() == [] then ClosurePermitted else NotActive(s.value.Missing());
  }

  // ------------------------------------------------------------------ the grouped index

  /** The finding ids of a log in the order they first appear. */
  function FirstSeen(events: seq<Event>): seq<string> {
    if events == [] then []
    else
      var earlier, last := FirstSeen(events[..|events| - 1]), events[|events| - 1];
      if last.Finding? && last.findingId !in earlier then earlier + [last.findingId] else earlier
  }

  lemma {:induction false} FirstSeenOnce(events: seq<Event>)
    ensures Distinct(FirstSeen(events))
    ensures forall id :: id in FirstSeen(events) <==> exists e :: e in events && Own(id)(e)
  {
    if events != [] {
      var init, last := events[..|events| - 1], events[|events| - 1];
      FirstSeenOnce(init);
      assert events == init + [last];
      forall id ensures id in FirstSeen(events) <==> exists e :: e in events && Own(id)(e) {
        if Own(id)(last) {
          assert last in events;
        }
      }
    }
  }

  function ActiveIn(log: seq<Event>): string -> bool {
    (id: string) => StateOf(id, log).Active()
  }

  function InactiveIn(log: seq<Event>): string -> bool {
    (id: string) => !StateOf(id, log).Active()
  }

  /** Each finding's bucket is its own events. */
  ghost predicate Grouped(buckets: map<string, seq<Event>>, order: seq<string>, events: seq<Event>) {
    && order == FirstSeen(events)
    && (forall id :: id in buckets <==> id in order)
    && (forall id :: id in buckets ==> buckets[id] == Filter(events, Own(id)))
    && (forall id :: id !in buckets ==> Filter(events, Own(id)) == [])
  }

  lemma GroupedSnoc(buckets: map<string, seq<Event>>, order: seq<string>, events: seq<Event>, e: Event)
    requires Grouped(buckets, order, events) && e.Finding?
    ensures var id := e.findingId;
            var bucket := if id in buckets then buckets[id] else [];
            Grouped(buckets[id := bucket + [e]], if id in buckets then order else order + [id], events + [e])
  {
    assert (events + [e])[..|events|] == events;
    forall id ensures Filter(events + [e], Own(id)) == Filter(events, Own(id)) + if id == e.findingId then [e] else [] {
      FilterSnoc(events, e, Own(id));
    }
  }

  /** The event map keeps insertion order, as `order` does here. */
  method GroupByFinding(events: seq<Event>) returns (buckets: map<string, seq<Event>>, order: seq<string>)
    requires forall e :: e in events ==> e.Finding?
    ensures Grouped(buckets, order, events)
  {
    buckets, order := map[], [];
    for i := 0 to |events|
      invariant Grouped(buckets, order, events[..i])
    {
      var e := events[i];
      assert events[..i + 1] == events[..i] + [e];
      GroupedSnoc(buckets, order, events[..i], e);
      var bucket := if e.findingId in buckets then buckets[e.findingId] else [];
      if e.findingId !in buckets {
        order := order + [e.findingId];
      }
      buckets := buckets[e.findingId := bucket + [e]];
    }
    assert events[..|events|] == events;
  }

  lemma FirstSeenSnoc(events: seq<Event>, e: Event)
    ensures FirstSeen(events + [e]) ==
            FirstSeen(events) + if e.Finding? && e.findingId !in FirstSeen(events) then [e.findingId] else []
  {
    assert (events + [e])[..|events|] == events;
  }

  lemma {:induction false} QueryKeepsOrder(log: seq<Event>)
    ensures FirstSeen(Query(log, FindingQuery())) == FirstSeen(log)
  {
    if log != [] {
      var init, last := log[..|log| - 1], log[|log| - 1];
      QueryKeepsOrder(init);
      assert log == init + [last];
      FilterSnoc(init, last, Matching(FindingQuery()));
      FirstSeenSnoc(init, last);
      FirstSeenSnoc(Query(init, FindingQuery()), last);
      if !last.Finding? {
        assert Query(log, FindingQuery()) == Query(init, FindingQuery());
      }
    }
  }

  lemma BucketState(id: string, log: seq<Event>, bucket: seq<Event>)
    requires bucket == Filter(Query(log, FindingQuery()), Own(id))
    ensures StateOf(id, bucket) == StateOf(id, log)
  {
    OwnStages(id, Query(log, FindingQuery()));
    QueryKeepsFindings(id, log);
  }

  /** Each bucket's fold gives the verdict `active` has on its id. */
  ghost predicate Tells(
    buckets: map<string, seq<Event>>, order: seq<string>, active: string -> bool, inactive: string -> bool)
  {
    forall i :: 0 <= i < |order| ==>
      order[i] in buckets && active(order[i]) == !inactive(order[i]) == StateOf(order[i], buckets[order[i]]).Active()
  }

  lemma BucketsTell(buckets: map<string, seq<Event>>, order: seq<string>, log: seq<Event>)
    requires Grouped(buckets, order, Query(log, FindingQuery()))
    ensures Tells(buckets, order, ActiveIn(log), InactiveIn(log))
  {
    forall i | 0 <= i < |order|
      ensures order[i] in buckets && StateOf(order[i], buckets[order[i]]) == StateOf(order[i], log)
    {
      assert order[i] in order;
      BucketState(order[i], log, buckets[order[i]]);
    }
  }

  /** countActiveFindings: group, then fold each group. */
  method CountActiveFindings(log: seq<Event>) returns (count: nat, active: seq<string>, inactive: seq<string>)
    ensures count == |active|
    ensures active == Filter(FirstSeen(log), ActiveIn(log))
    ensures inactive == Filter(FirstSeen(log), InactiveIn(log))
  {
    FilterMembers(log, Matching(FindingQuery()));
    var buckets, order := GroupByFinding(Query(log, FindingQuery()));
    QueryKeepsOrder(log);
    BucketsTell(buckets, order, log);
    active, inactive := SplitByActivity(buckets, order, ActiveIn(log), InactiveIn(log));
    count := |active|;
  }

  method SplitByActivity(
    buckets: map<string, seq<Event>>, order: seq<string>,
    ghost isActive: string -> bool, ghost isInactive: string -> bool)
    returns (active: seq<string>, inactive: seq<string>)
    requires Tells(buckets, order, isActive, isInactive)
    ensures active == Filter(order, isActive)
    ensures inactive == Filter(order, isInactive)
  {
    active, inactive := [], [];
    for i := 0 to |order|
      invariant active == Filter(order[..i], isActive)
      invariant inactive == Filter(order[..i], isInactive)
    {
      var id := order[i];
      var state := SummarizeFindingEvents(id, buckets[id]);
      assert order[..i + 1] == order[..i] + [id];
      FilterSnoc(order[..i], id, isActive);
      FilterSnoc(order[..i], id, isInactive);
      if state.Active() {
        active := active + [id];
      } else {
        inactive := inactive + [id];
      }
    }
    assert order[..|order|] == order;
  }

  lemma {:induction false} DistinctFilter<T>(s: seq<T>, p: T -> bool)
    requires Distinct(s)
    ensures Distinct(Filter(s, p))
  {
    if s != [] {
      var init, last := s[..|s| - 1], s[|s| - 1];
      DistinctFilter(init, p);
      FilterMembers(init, p);
      assert forall i :: 0 <= i < |init| ==> init[i] != last;
    }
  }

  lemma DrivenIsSeen(id: string, log: seq<Event>)
    requires Driven(id, log)
    ensures id in FirstSeen(log)
  {
    FirstSeenOnce(log);
    var e :| e in log && Stage(id, FINDING_OWNED)(e);
    assert Own(id)(e);
  }

  /** The grouped index and the per-finding fold agree: the two lists partition the first-seen
      ids in order, and an id is on the active list exactly when its own state is active. */
  lemma IndexAgreesWithFold(log: seq<Event>, active: seq<string>, inactive: seq<string>)
    requires active == Filter(FirstSeen(log), ActiveIn(log))
    requires inactive == Filter(FirstSeen(log), InactiveIn(log))
    ensures Distinct(active) && Distinct(inactive)
    ensures IsMerge(FirstSeen(log), active, inactive)
    ensures forall id :: id in active ==> id !in inactive
    ensures forall id :: id in active || id in inactive <==> id in FirstSeen(log)
    ensures forall id :: id in active <==> Driven(id, log)
  {
    FirstSeenOnce(log);
    DistinctFilter(FirstSeen(log), ActiveIn(log));
    DistinctFilter(FirstSeen(log), InactiveIn(log));
    FilterMerges(FirstSeen(log), ActiveIn(log), InactiveIn(log));
    ActivePartition(log);
  }

  lemma ActivePartition(log: seq<Event>)
    ensures forall id :: id in Filter(FirstSeen(log), ActiveIn(log)) <==> Driven(id, log)
    ensures forall id :: id in Filter(FirstSeen(log), InactiveIn(log)) <==> id in FirstSeen(log) && !Driven(id, log)
    ensures forall id :: Driven(id, log) ==> id in FirstSeen(log)
  {
    FilterMembers(FirstSeen(log), ActiveIn(log));
    FilterMembers(FirstSeen(log), InactiveIn(log));
    forall id
      ensures ActiveIn(log)(id) <==> Driven(id, log)
      ensures InactiveIn(log)(id) <==> !Driven(id, log)
      ensures Driven(id, log) ==> id in FirstSeen(log)
    {
      ActiveMeansDriven(id, log);
      if Driven(id, log) {
        DrivenIsSeen(id, log);
      }
    }
  }

  // ------------------------------------------------------------------ across compaction

  /** The finding has an event at the stage that is not older than its cutoff. */
  ghost predicate HasRecent(c: Codec, q: Request, id: string, stage: FindingType, log: seq<Event>) {
    exists e :: e in log && Stage(id, stage)(e) && !Old(c, q.policy, q.now.ms, e)
  }

  lemma CompactedStage(c: Codec, q: Request, log: seq<Event>, summary: Event, id: string, stage: FindingType)
    requires IsSummary(summary)
    ensures HasStage(id, stage, CompactEvents(c, q, log, summary)) <==> HasRecent(c, q, id, stage, log)
  {
    var keep, after := SurvivingEvent(c, q.policy, q.now.ms), CompactEvents(c, q, log, summary);
    FilterMembers(log, keep);
    if HasStage(id, stage, after) {
      var e :| e in after && Stage(id, stage)(e);
      assert e in log && !Old(c, q.policy, q.now.ms, e);
    }
    if HasRecent(c, q, id, stage, log) {
      var e :| e in log && Stage(id, stage)(e) && !Old(c, q.policy, q.now.ms, e);
      assert keep(e) && e in after;
    }
  }

  /** Compaction can change a finding's state, both ways and exactly so: it reopens a closed finding
      if owner and delivery are recent and no closure is, and it drops an active one if no owner or
      no delivery is recent. */
  lemma CompactionChangesActive(c: Codec, q: Request, log: seq<Event>, summary: Event, id: string)
    requires IsSummary(summary)
    ensures var before, after := StateOf(id, log).Active(), StateOf(id, CompactEvents(c, q, log, summary)).Active();
            var owned := HasRecent(c, q, id, FINDING_OWNED, log);
            var delivered := HasRecent(c, q, id, FINDING_DELIVERED, log);
            && (!before && after <==>
                  owned && delivered && HasStage(id, FINDING_CLOSED, log) && !HasRecent(c, q, id, FINDING_CLOSED, log))
            && (before && !after <==> before && !(owned && delivered))
  {
    var after := CompactEvents(c, q, log, summary);
    ActiveMeansDriven(id, log);
    ActiveMeansDriven(id, after);
    CompactedStage(c, q, log, summary, id, FINDING_OWNED);
    CompactedStage(c, q, log, summary, id, FINDING_DELIVERED);
    CompactedStage(c, q, log, summary, id, FINDING_CLOSED);
    RecentIsRecorded(c, q, id, FINDING_OWNED, log);
    RecentIsRecorded(c, q, id, FINDING_DELIVERED, log);
    RecentIsRecorded(c, q, id, FINDING_CLOSED, log);
  }

  lemma RecentIsRecorded(c: Codec, q: Request, id: string, stage: FindingType, log: seq<Event>)
    ensures HasRecent(c, q, id, stage, log) ==> HasStage(id, stage, log)
  {
  }

  /** The reopening input: a closure dated before the owner and the delivery it closes. */
  lemma ClosureDatedTooEarly(
    c: Codec, q: Request, summary: Event, id: string, closed: Event, owned: Event, delivered: Event)
    requires IsSummary(summary)
    requires Stage(id, FINDING_CLOSED)(closed) && Old(c, q.policy, q.now.ms, closed)
    requires Stage(id, FINDING_OWNED)(owned) && !Old(c, q.policy, q.now.ms, owned)
    requires Stage(id, FINDING_DELIVERED)(delivered) && !Old(c, q.policy, q.now.ms, delivered)
    ensures var log := [closed, owned, delivered];
            !StateOf(id, log).Active() && StateOf(id, CompactEvents(c, q, log, summary)).Active()
  {
    var log := [closed, owned, delivered];
    assert closed in log && owned in log && delivered in log;
    assert HasStage(id, FINDING_CLOSED, log);
    CompactionChangesActive(c, q, log, summary, id);
  }

  /** With closures dated no earlier than what they close, a closed finding stays closed. */
  lemma ClosedInOrderStaysClosed(c: Codec, q: Request, log: seq<Event>, summary: Event, id: string)
    requires IsSummary(summary) && HasStage(id, FINDING_CLOSED, log)
    requires forall x, y :: x in log && y in log && Stage(id, FINDING_CLOSED)(x) && Stage(id, FINDING_OWNED)(y)
                            && c.dateMs(x.ts).Some? ==>
                            c.dateMs(y.ts).Some? && c.dateMs(y.ts).value <= c.dateMs(x.ts).value
    ensures !StateOf(id, CompactEvents(c, q, log, summary)).Active()
  {
    CompactionChangesActive(c, q, log, summary, id);
    ActiveMeansDriven(id, log);
    var x :| x in log && Stage(id, FINDING_CLOSED)(x);
    if HasRecent(c, q, id, FINDING_OWNED, log) {
      var y :| y in log && Stage(id, FINDING_OWNED)(y) && !Old(c, q.policy, q.now.ms, y);
      assert !Old(c, q.policy, q.now.ms, x);
      assert HasRecent(c, q, id, FINDING_CLOSED, log);
    }
  }
}
