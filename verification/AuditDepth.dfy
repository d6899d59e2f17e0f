// The meta-governance depth of a candidate audit: how many audits lie between it and ordinary
// work (src/protocol/governance.ts:717-970). The walk runs over whatever the log holds, dangling
// and cyclic target references included.

module AuditDepth {
  import opened Wrappers
  import opened Events
  import opened Sequences
  import opened Text
  import opened Log
  import opened Compaction
  import opened Governance

  const META_GOVERNANCE_DEPTH_CAP := 1

  /** What each audit id of the objective targets; the last event recorded under an id wins. */
  function Targets(log: seq<Event>, o: string): map<string, AuditTarget> {
    if log == [] then map[]
    else
      var earlier, last := Targets(log[..|log| - 1], o), log[|log| - 1];
      if last.objective == o && last.Audit? then earlier[last.eventId := last.target] else earlier
  }

  function BreakGlassOf(o: string): Event -> bool {
    (e: Event) => e.objective == o && e.BreakGlass?
  }

  function BreakGlassIds(log: seq<Event>, o: string): seq<string> {
    Map(Filter(log, BreakGlassOf(o)), IdOf())
  }

  /** `chain` is the list of audit ids met when audit targets are followed from `target` until one
      is ordinary work, is not recorded, or has been met before. */
  ghost predicate IsAuditChain(targets: map<string, AuditTarget>, target: AuditTarget, chain: seq<string>) {
    match target
    case OrdinaryWork => chain == []
    case AuditOf(first) =>
      && chain != [] && chain[0] == first
      && (forall k :: 0 <= k < |chain| - 1 ==> Leads(targets, chain[k], chain[k + 1]))
      && Distinct(chain[..|chain| - 1])
      && Ends(targets, chain[..|chain| - 1], chain[|chain| - 1])
  }

  predicate Leads(targets: map<string, AuditTarget>, id: string, next: string) {
    id in targets && targets[id] == AuditOf(next)
  }

  predicate Ends(targets: map<string, AuditTarget>, before: seq<string>, id: string) {
    id in before || id !in targets || targets[id] == OrdinaryWork
  }

  /** The walk up to, but not including, its stopping test. */
  ghost predicate IsOpenChain(
    targets: map<string, AuditTarget>, target: AuditTarget, chain: seq<string>, current: AuditTarget)
  {
    && Distinct(chain)
    && (forall k :: 0 <= k < |chain| - 1 ==> Leads(targets, chain[k], chain[k + 1]))
    && (if chain == [] then current == target
        else target == AuditOf(chain[0]) && chain[|chain| - 1] in targets && targets[chain[|chain| - 1]] == current)
  }

  datatype Derivation = Derivation(depth: nat, chain: seq<string>, breakGlassIds: seq<string>)

  /** deriveMetaGovernanceDepth. The walk ends on every log, after at most one step more than the
      objective has distinct audit ids. */
  method DeriveMetaGovernanceDepth(log: seq<Event>, o: string, target: AuditTarget) returns (d: Derivation)
    ensures IsAuditChain(Targets(log, o), target, d.chain)
    ensures d.depth == 1 + |d.chain| <= 2 + |Targets(log, o)|
    ensures d.breakGlassIds == BreakGlassIds(log, o)
  {
    var audits, breakGlassIds := IndexAudits(log, o);
    var chain, depth := Walk(audits, target);
    return Derivation(depth, chain, breakGlassIds);
  }

  method Walk(audits: map<string, AuditTarget>, target: AuditTarget) returns (chain: seq<string>, depth: nat)
    ensures IsAuditChain(audits, target, chain)
    ensures depth == 1 + |chain| <= 2 + |audits|
  {
    var current, visited: set<string> := target, {};
    chain, depth := [], 1;
    while current.AuditOf?
      invariant IsOpenChain(audits, target, chain, current)
      invariant forall id :: id in visited <==> id in chain
      invariant visited <= audits.Keys
      invariant depth == 1 + |chain| && |visited| == |chain|
      decreases audits.Keys - visited
    {
      var id := current.targetEventId;
      depth := depth + 1;
      ChainSnoc(audits, target, chain, current);
      SubsetSize(visited, audits.Keys);
      chain := chain + [id];
      if id in visited || id !in audits {
        return;
      }
      visited := visited + {id};
      current := audits[id];
    }
    ChainClosed(audits, target, chain);
    SubsetSize(visited, audits.Keys);
  }

  /** One more step of the walk: the chain is complete if the new id ends it, open otherwise. */
  lemma ChainSnoc(targets: map<string, AuditTarget>, target: AuditTarget, chain: seq<string>, current: AuditTarget)
    requires IsOpenChain(targets, target, chain, current) && current.AuditOf?
    ensures var id := current.targetEventId;
            && (id in chain || id !in targets ==> IsAuditChain(targets, target, chain + [id]))
            && (id !in chain && id in targets ==> IsOpenChain(targets, target, chain + [id], targets[id]))
  {
    var id := current.targetEventId;
    var longer := chain + [id];
    assert longer[..|longer| - 1] == chain;
    forall k | 0 <= k < |longer| - 1 ensures Leads(targets, longer[k], longer[k + 1]) {
      if k < |chain| - 1 {
        assert Leads(targets, chain[k], chain[k + 1]);
      }
    }
  }

  lemma ChainClosed(targets: map<string, AuditTarget>, target: AuditTarget, chain: seq<string>)
    requires IsOpenChain(targets, target, chain, OrdinaryWork)
    ensures IsAuditChain(targets, target, chain)
  {
  }

  lemma TargetsSnoc(log: seq<Event>, e: Event, o: string)
    ensures Targets(log + [e], o) ==
            if e.objective == o && e.Audit? then Targets(log, o)[e.eventId := e.target] else Targets(log, o)
    ensures BreakGlassIds(log + [e], o) ==
            BreakGlassIds(log, o) + if e.objective == o && e.BreakGlass? then [e.eventId] else []
  {
    assert (log + [e])[..|log|] == log;
    FilterSnoc(log, e, BreakGlassOf(o));
    MapSnoc(Filter(log, BreakGlassOf(o)), e, IdOf());
  }

  /** The walk's index of the objective's events. */
  method IndexAudits(log: seq<Event>, o: string) returns (audits: map<string, AuditTarget>, breakGlassIds: seq<string>)
    ensures audits == Targets(log, o)
    ensures breakGlassIds == BreakGlassIds(log, o)
  {
    var events := Query(log, EventQuery(Some(o), None, None, None));
    audits, breakGlassIds := map[], [];
    for i := 0 to |events|
      invariant audits == Targets(events[..i], o)
      invariant breakGlassIds == BreakGlassIds(events[..i], o)
    {
      var e := events[i];
      QueriedObjective(log, o, i);
      assert events[..i + 1] == events[..i] + [e];
      TargetsSnoc(events[..i], e, o);
      if e.Audit? {
        audits := audits[e.eventId := e.target];
      }
      if e.BreakGlass? {
        breakGlassIds := breakGlassIds + [e.eventId];
      }
    }
    assert events[..|events|] == events;
    QueryIsEnough(log, o, BreakGlassOf(o));
    TargetsOfQuery(log, o);
  }

  lemma {:induction false} TargetsOfQuery(log: seq<Event>, o: string)
    ensures Targets(Query(log, EventQuery(Some(o), None, None, None)), o) == Targets(log, o)
  {
    if log != [] {
      var q := EventQuery(Some(o), None, None, None);
      var init, last := log[..|log| - 1], log[|log| - 1];
      TargetsOfQuery(init, o);
      TargetsSnoc(Query(init, q), last, o);
      assert Matching(q)(last) <==> last.objective == o;
      if last.objective == o {
        assert Query(log, q) == Query(init, q) + [last];
      } else {
        assert Query(log, q) == Query(init, q);
      }
    }
  }

  // ------------------------------------------------------------------ what the chain is

  /** There is only one such chain, so the derivation is a function of the log. */
  lemma ChainUnique(targets: map<string, AuditTarget>, target: AuditTarget, a: seq<string>, b: seq<string>)
    requires IsAuditChain(targets, target, a) && IsAuditChain(targets, target, b)
    ensures a == b
  {
    if target.AuditOf? {
      if |a| <= |b| {
        ChainPrefix(targets, target, a, b, |a|);
        NoProperPrefix(targets, target, a, b);
      } else {
        ChainPrefix(targets, target, b, a, |b|);
        NoProperPrefix(targets, target, b, a);
      }
    }
  }

  lemma {:induction false} ChainPrefix(
    targets: map<string, AuditTarget>, target: AuditTarget, a: seq<string>, b: seq<string>, n: nat)
    requires IsAuditChain(targets, target, a) && IsAuditChain(targets, target, b) && target.AuditOf?
    requires n <= |a| && n <= |b|
    ensures a[..n] == b[..n]
  {
    if n > 1 {
      ChainPrefix(targets, target, a, b, n - 1);
      assert a[n - 2] == a[..n - 1][n - 2] == b[..n - 1][n - 2] == b[n - 2];
      assert Leads(targets, a[n - 2], a[n - 1]) && Leads(targets, b[n - 2], b[n - 1]);
      assert a[..n] == a[..n - 1] + [a[n - 1]] && b[..n] == b[..n - 1] + [b[n - 1]];
    }
  }

  lemma NotEndedEarly(targets: map<string, AuditTarget>, target: AuditTarget, b: seq<string>, n: nat)
    requires IsAuditChain(targets, target, b) && n < |b| - 1
    ensures !Ends(targets, b[..n], b[n])
  {
    var distinct := b[..|b| - 1];
    assert Leads(targets, b[n], b[n + 1]);
    forall k | 0 <= k < n ensures b[..n][k] != b[n] {
      assert distinct[k] != distinct[n];
    }
  }

  lemma NoProperPrefix(targets: map<string, AuditTarget>, target: AuditTarget, a: seq<string>, b: seq<string>)
    requires IsAuditChain(targets, target, a) && IsAuditChain(targets, target, b) && target.AuditOf?
    requires |a| <= |b| && a == b[..|a|]
    ensures a == b
  {
    assert a[..|a| - 1] == b[..|a| - 1];
    if |a| < |b| {
      NotEndedEarly(targets, target, b, |a| - 1);
      assert false;
    }
  }

  /** `rank` falls along every recorded audit's target: there is no cycle. */
  ghost predicate Falls(targets: map<string, AuditTarget>, rank: string -> nat) {
    forall id :: id in targets && targets[id].AuditOf? ==> rank(targets[id].targetEventId) < rank(id)
  }

  /** The depth as the doctrine defines it: one more than the depth of what is audited. */
  ghost function DepthOf(targets: map<string, AuditTarget>, rank: string -> nat, target: AuditTarget): nat
    requires Falls(targets, rank)
    decreases if target.AuditOf? then 1 + rank(target.targetEventId) else 0
  {
    match target
    case OrdinaryWork => 1
    case AuditOf(id) => if id in targets then 1 + DepthOf(targets, rank, targets[id]) else 2
  }

  /** Without cycles the walk computes the recursive depth and repeats no id. */
  lemma {:induction false} AcyclicChainDepth(
    targets: map<string, AuditTarget>, rank: string -> nat, target: AuditTarget, chain: seq<string>)
    requires Falls(targets, rank) && IsAuditChain(targets, target, chain)
    ensures 1 + |chain| == DepthOf(targets, rank, target)
    ensures Distinct(chain)
    decreases |chain|
  {
    if |chain| == 1 {
      assert chain[..0] == [];
    } else if |chain| > 1 {
      var rest := chain[1..];
      assert Leads(targets, chain[0], chain[1]);
      forall k | 0 <= k < |rest| - 1 ensures Leads(targets, rest[k], rest[k + 1]) {
        assert Leads(targets, chain[k + 1], chain[k + 2]);
      }
      forall i, j | 0 <= i < j < |rest| - 1 ensures rest[i] != rest[j] {
        assert chain[..|chain| - 1][i + 1] != chain[..|chain| - 1][j + 1];
      }
      RanksFall(targets, rank, chain, |chain| - 1);
      assert Ends(targets, rest[..|rest| - 1], rest[|rest| - 1]) by {
        assert chain[..|chain| - 1] == [chain[0]] + rest[..|rest| - 1];
        assert rest[|rest| - 1] != chain[0];
      }
      AcyclicChainDepth(targets, rank, targets[chain[0]], rest);
      AllRanksFall(targets, rank, chain);
      assert chain == [chain[0]] + rest;
    }
  }

  lemma AllRanksFall(targets: map<string, AuditTarget>, rank: string -> nat, chain: seq<string>)
    requires Falls(targets, rank)
    requires forall k :: 0 <= k < |chain| - 1 ==> Leads(targets, chain[k], chain[k + 1])
    ensures forall k :: 0 < k < |chain| ==> rank(chain[k]) < rank(chain[0])
  {
    forall k | 0 < k < |chain| ensures rank(chain[k]) < rank(chain[0]) {
      RanksFall(targets, rank, chain, k);
    }
  }

  lemma {:induction false} RanksFall(targets: map<string, AuditTarget>, rank: string -> nat, chain: seq<string>, n: nat)
    requires Falls(targets, rank) && n < |chain|
    requires forall k :: 0 <= k < |chain| - 1 ==> Leads(targets, chain[k], chain[k + 1])
    ensures n > 0 ==> rank(chain[n]) < rank(chain[0])
  {
    if n > 0 {
      RanksFall(targets, rank, chain, n - 1);
      assert Leads(targets, chain[n - 1], chain[n]);
    }
  }

  /** `cycle` is a ring of audits, each of the next and the last of the first. */
  ghost predicate IsCycle(targets: map<string, AuditTarget>, cycle: seq<string>) {
    && cycle != [] && Distinct(cycle)
    && (forall k :: 0 <= k < |cycle| - 1 ==> Leads(targets, cycle[k], cycle[k + 1]))
    && Leads(targets, cycle[|cycle| - 1], cycle[0])
  }

  /** A cycle does not trap the walk: it goes round once and stops at the first id met again. If
      the cycle is all there is, the bound on the depth is reached. */
  lemma CycleStopsTheWalk(targets: map<string, AuditTarget>, cycle: seq<string>)
    requires IsCycle(targets, cycle)
    ensures IsAuditChain(targets, AuditOf(cycle[0]), cycle + [cycle[0]])
    ensures targets.Keys == (set id | id in cycle) ==> 1 + |cycle + [cycle[0]]| == 2 + |targets|
  {
    var chain := cycle + [cycle[0]];
    assert chain[..|chain| - 1] == cycle;
    forall k | 0 <= k < |chain| - 1 ensures Leads(targets, chain[k], chain[k + 1]) {
      if k < |cycle| - 1 {
        assert Leads(targets, cycle[k], cycle[k + 1]);
      }
    }
    DistinctSize(cycle);
  }

  lemma {:induction false} DistinctSize(ids: seq<string>)
    requires Distinct(ids)
    ensures |set id | id in ids| == |ids|
  {
    if ids != [] {
      var init, last := ids[..|ids| - 1], ids[|ids| - 1];
      DistinctSize(init);
      assert (set id | id in ids) == (set id | id in init) + {last};
    }
  }

  // ------------------------------------------------------------------ the verdict

  /** What the caller offers out of band as break-glass authority. */
  datatype Offer = NoOffer | NotAnEvent | Offered(event: Event)

  datatype DepthVerdict =
    | Permitted(byCap: bool, breakGlassId: Option<string>)
    | DepthRefused(code: string)
    | ArgumentRejected(code: string)

  predicate IsBreakGlassOffer(offer: Offer) {
    offer.Offered? && ValidEvent(offer.event) && offer.event.BreakGlass?
  }

  predicate AuthorityRecorded(log: seq<Event>, o: string) {
    exists e :: e in log && e.objective == o && e.BreakGlass?
  }

  predicate OfferRecorded(log: seq<Event>, o: string, offered: Event) {
    offered.objective == o && exists e :: e in log && e.objective == o && e.BreakGlass? && e.eventId == offered.eventId
  }

  /** Who may audit: anybody may audit ordinary work, an audit needs recorded authority, and an
      artifact offered as authority must itself be a recorded BREAK_GLASS event. */
  predicate AuditAllowed(log: seq<Event>, o: string, target: AuditTarget, offer: Offer) {
    match offer
    case NoOffer => target.OrdinaryWork? || AuthorityRecorded(log, o)
    case NotAnEvent => false
    case Offered(e) => ValidEvent(e) && e.BreakGlass? && OfferRecorded(log, o, e)
  }

  lemma BreakGlassIdsTell(log: seq<Event>, o: string)
    ensures BreakGlassIds(log, o) != [] <==> AuthorityRecorded(log, o)
    ensures forall id :: id in BreakGlassIds(log, o) <==>
              exists e :: e in log && e.objective == o && e.BreakGlass? && e.eventId == id
  {
    var hits := Filter(log, BreakGlassOf(o));
    FilterMembers(log, BreakGlassOf(o));
    forall e | e in log && e.objective == o && e.BreakGlass? ensures e.eventId in BreakGlassIds(log, o) {
      assert e in hits;
      var i :| 0 <= i < |hits| && hits[i] == e;
      assert BreakGlassIds(log, o)[i] == e.eventId;
    }
    forall id | id in BreakGlassIds(log, o)
      ensures exists e :: e in log && e.objective == o && e.BreakGlass? && e.eventId == id
    {
      var i :| 0 <= i < |hits| && BreakGlassIds(log, o)[i] == id;
      assert hits[i] in hits;
    }
    if BreakGlassIds(log, o) != [] {
      assert hits[0] in hits;
    }
  }

  /** evaluateMetaGovernanceDepth */
  method EvaluateMetaGovernanceDepth(log: seq<Event>, o: string, target: AuditTarget, offer: Offer)
    returns (v: DepthVerdict)
    ensures v.ArgumentRejected? <==> Blank(o) || target == AuditOf("")
    ensures v.ArgumentRejected? ==> v.code == if Blank(o) then "invalid_objective" else "invalid_target"
    ensures !v.ArgumentRejected? ==> (v.Permitted? <==> AuditAllowed(log, o, target, offer))
    ensures v.Permitted? ==> (v.byCap <==> target.OrdinaryWork?) && (v.byCap <==> v.breakGlassId == None)
    ensures v.Permitted? && !v.byCap ==>
              && (offer.Offered? || BreakGlassIds(log, o) != [])
              && v.breakGlassId == Some(if offer.Offered? then offer.event.eventId else BreakGlassIds(log, o)[0])
    ensures v.DepthRefused? ==>
              var wrong := offer.NotAnEvent?
                           || (offer.Offered? && !(ValidEvent(offer.event) && offer.event.BreakGlass?));
              v.code == if wrong then "break_glass_wrong_class" else "meta_governance_depth"
  {
    if Blank(o) { return ArgumentRejected("invalid_objective"); }
    if target == AuditOf("") { return ArgumentRejected("invalid_target"); }
    var d := DeriveMetaGovernanceDepth(log, o, target);
    BreakGlassIdsTell(log, o);
    var offeredId: Option<string> := None;
    if !offer.NoOffer? {
      if !IsBreakGlassOffer(offer) {
        return DepthRefused("break_glass_wrong_class");
      }
      if offer.event.objective != o || offer.event.eventId !in d.breakGlassIds {
        return DepthRefused("meta_governance_depth");
      }
      offeredId := Some(offer.event.eventId);
    }
    if d.depth <= META_GOVERNANCE_DEPTH_CAP {
      return Permitted(true, None);
    }
    if offeredId.Some? {
      return Permitted(false, offeredId);
    }
    if d.breakGlassIds != [] {
      return Permitted(false, Some(d.breakGlassIds[0]));
    }
    return DepthRefused("meta_governance_depth");
  }

  /** Compaction can take authority away (it may remove a BREAK_GLASS event) but never gives it. */
  lemma CompactionNeverAllows(
    c: Codec, q: Request, log: seq<Event>, summary: Event, o: string, target: AuditTarget, offer: Offer)
    requires IsSummary(summary)
    requires AuditAllowed(CompactEvents(c, q, log, summary), o, target, offer)
    ensures AuditAllowed(log, o, target, offer)
  {
    FilterMembers(log, SurvivingEvent(c, q.policy, q.now.ms));
  }
}
