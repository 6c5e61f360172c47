/** The service registry and load balancer of agents/orchestrator/discovery/discovery-service.js. */
module Discovery {
  import opened Options
  import opened Fractions

  datatype Service = Service(id: string, name: string, healthy: bool)

  datatype State = State(
    services: map<string, Service>, loads: map<string, real>, peakLoads: map<string, real>,
    nameIndex: map<string, string>)

  const EMPTY := State(map[], map[], map[], map[])

  /** An unnamed service is registered under its id. */
  function EffectiveName(name: string, id: string): string {
    if name == "" then id else name
  }

  predicate Refuses(s: State, name: string) {
    name != "" && name in s.nameIndex
  }

  function Registered(s: State, name: string, id: string): State {
    var n := EffectiveName(name, id);
    s.(services := s.services[id := Service(id, n, true)],
       nameIndex := if n != "" then s.nameIndex[n := id] else s.nameIndex,
       loads := s.loads[id := 0.0])
  }

  function Deregistered(s: State, id: string): State {
    if id !in s.services then s
    else
      var n := s.services[id].name;
      s.(services := s.services - {id}, loads := s.loads - {id},
         nameIndex := if n != "" then s.nameIndex - {n} else s.nameIndex)
  }

  function PeakOf(s: State, id: string): real {
    if id in s.peakLoads then s.peakLoads[id] else 0.0
  }

  function LoadOf(s: State, id: string): real {
    if id in s.loads then s.loads[id] else 0.0
  }

  function Max(a: real, b: real): real {
    if a < b then b else a
  }

  function LoadRecorded(s: State, id: string, load: real): State {
    s.(loads := s.loads[id := load], peakLoads := s.peakLoads[id := Max(PeakOf(s, id), load)])
  }

  function ByName(s: State, name: string): Option<Service> {
    if name in s.nameIndex && s.nameIndex[name] != "" && s.nameIndex[name] in s.services
    then Some(s.services[s.nameIndex[name]]) else None
  }

  /** The largest recorded peak among the given services, and at least 1. */
  function Peak(s: State, ids: seq<string>): (p: real)
    ensures p >= 1.0
    ensures forall id :: id in ids ==> PeakOf(s, id) <= p
  {
    if ids == [] then 1.0
    else
      assert ids == ids[..|ids| - 1] + [ids[|ids| - 1]];
      Max(Peak(s, ids[..|ids| - 1]), PeakOf(s, ids[|ids| - 1]))
  }

  /** Loads and peaks as `recordLoad` keeps them when no negative load is recorded. */
  ghost predicate NonNegative(s: State) {
    forall id :: 0.0 <= LoadOf(s, id) && (LoadOf(s, id) == 0.0 || LoadOf(s, id) <= PeakOf(s, id))
  }

  function Score(s: State, peak: real, id: string): real
    requires LoadOf(s, id) + peak != 0.0
  {
    peak / (LoadOf(s, id) + peak)
  }

  function Total(scores: seq<real>): real {
    if scores == [] then 0.0 else Total(scores[..|scores| - 1]) + scores[|scores| - 1]
  }

  /** No score of these services divides by zero; see LoadsDefineScores. */
  ghost predicate Defined(s: State, ids: seq<string>) {
    forall id :: id in ids ==> LoadOf(s, id) + Peak(s, ids) != 0.0
  }

  lemma LoadsDefineScores(s: State, ids: seq<string>)
    requires NonNegative(s)
    ensures Defined(s, ids)
  {
  }

  function Scores(s: State, ids: seq<string>): (scores: seq<real>)
    requires Defined(s, ids)
    ensures |scores| == |ids|
    ensures forall i :: 0 <= i < |ids| ==> scores[i] == Score(s, Peak(s, ids), ids[i])
  {
    seq(|ids|, i requires 0 <= i < |ids| => Score(s, Peak(s, ids), ids[i]))
  }

  function Weight(s: State, ids: seq<string>, id: string): real
    requires Defined(s, ids) && id in ids
  {
    var score := Score(s, Peak(s, ids), id);
    if |ids| == 1 then score
    else if Total(Scores(s, ids)) > 0.0 then score / Total(Scores(s, ids))
    else 1.0 / |ids| as real
  }

  /** A missing load counts as infinite. */
  predicate LessLoaded(loads: map<string, real>, a: string, b: string) {
    a in loads && (b in loads ==> loads[a] < loads[b])
  }

  function LeastLoaded(loads: map<string, real>, ids: seq<string>): (best: Option<string>)
    ensures best.None? <==> ids == []
  {
    if ids == [] then None
    else
      match LeastLoaded(loads, ids[..|ids| - 1])
      case None => Some(ids[|ids| - 1])
      case Some(b) => if LessLoaded(loads, ids[|ids| - 1], b) then Some(ids[|ids| - 1]) else Some(b)
  }

  /** The selection is the first of the least loaded: nothing is below it, and everything before it is above. */
  lemma {:induction false} LeastLoadedIsFirstMinimum(loads: map<string, real>, ids: seq<string>) returns (i: nat)
    requires ids != []
    ensures i < |ids| && LeastLoaded(loads, ids) == Some(ids[i])
    ensures forall j :: 0 <= j < |ids| ==> !LessLoaded(loads, ids[j], ids[i])
    ensures forall j :: 0 <= j < i ==> LessLoaded(loads, ids[i], ids[j])
  {
    var m := |ids| - 1;
    i := m;
    if m > 0 {
      var k := LeastLoadedIsFirstMinimum(loads, ids[..m]);
      if !LessLoaded(loads, ids[m], ids[k]) {
        i := k;
      }
    }
  }

  class DiscoveryService {
    var services: map<string, Service>
    var loads: map<string, real>
    var peakLoads: map<string, real>
    var nameIndex: map<string, string>

    function Abs(): State
      reads this
    {
      State(services, loads, peakLoads, nameIndex)
    }

    constructor ()
      ensures Abs() == EMPTY
    {
      services, loads, peakLoads, nameIndex := map[], map[], map[], map[];
    }

    /** `id` is the random id that the source draws; None stands for the thrown error. */
    method RegisterService(name: string, id: string) returns (service: Option<Service>)
      modifies this
      ensures service == if Refuses(old(Abs()), name) then None else Some(Service(id, EffectiveName(name, id), true))
      ensures Abs() == if Refuses(old(Abs()), name) then old(Abs()) else Registered(old(Abs()), name, id)
    {
      if name != "" && name in nameIndex {
        return None;
      }
      var record := Service(id, if name == "" then id else name, true);
      services := services[id := record];
      if record.name != "" {
        nameIndex := nameIndex[record.name := id];
      }
      loads := loads[id := 0.0];
      return Some(record);
    }

    method DeregisterService(serviceId: string)
      modifies this
      ensures Abs() == Deregistered(old(Abs()), serviceId)
    {
      if serviceId !in services {
        return;
      }
      var record := services[serviceId];
      if record.name != "" {
        nameIndex := nameIndex - {record.name};
      }
      services := services - {serviceId};
      loads := loads - {serviceId};
    }

    method RecordLoad(serviceId: string, load: real)
      modifies this
      ensures Abs() == LoadRecorded(old(Abs()), serviceId, load)
    {
      loads := loads[serviceId := load];
      var prev := if serviceId in peakLoads then peakLoads[serviceId] else 0.0;
      peakLoads := peakLoads[serviceId := if prev < load then load else prev];
    }

    method GetLoadBalance(serviceIds: seq<string>) returns (result: map<string, real>)
      requires Defined(Abs(), serviceIds)
      ensures forall id :: id in result <==> id in serviceIds
      ensures forall id :: id in result ==> result[id] == Weight(Abs(), serviceIds, id)
    {
      result := map[];
      for i := 0 to |serviceIds|
        invariant forall id :: id in result <==> id in serviceIds[..i]
        invariant forall id :: id in result ==> result[id] == Weight(Abs(), serviceIds, id)
      {
        var id := serviceIds[i];
        result := result[id := Weight(Abs(), serviceIds, id)];
      }
    }
  }

  // ---------- Whole runs ----------

  datatype Event =
    | Register(name: string, id: string)
    | Deregister(id: string)
    | RecordLoad(id: string, load: real)

  function Step(s: State, e: Event): State {
    match e
    case Register(name, id) => if Refuses(s, name) then s else Registered(s, name, id)
    case Deregister(id) => Deregistered(s, id)
    case RecordLoad(id, load) => LoadRecorded(s, id, load)
  }

  function Run(es: seq<Event>): State {
    if es == [] then EMPTY else Step(Run(es[..|es| - 1]), es[|es| - 1])
  }

  /** The name index is the inverse of the service names. */
  ghost predicate IndexExact(s: State) {
    && (forall id :: id in s.services ==>
          id != "" && s.services[id].name in s.nameIndex && s.nameIndex[s.services[id].name] == id)
    && (forall n :: n in s.nameIndex ==>
          n != "" && s.nameIndex[n] in s.services && s.services[s.nameIndex[n]].name == n)
  }

  /** A registration overwrites nothing of another service: neither its record nor its entry in the index. */
  predicate Collides(s: State, name: string, id: string) {
    var n := EffectiveName(name, id);
    (id in s.services && s.services[id].name != n) || (n in s.nameIndex && s.nameIndex[n] != id)
  }

  lemma RegisterKeepsIndexIff(s: State, name: string, id: string)
    requires IndexExact(s) && id != "" && !Refuses(s, name)
    ensures IndexExact(Registered(s, name, id)) <==> !Collides(s, name, id)
  {
    var t, n := Registered(s, name, id), EffectiveName(name, id);
    if id in s.services && s.services[id].name != n {
      var stale := s.services[id].name;
      assert t.nameIndex[stale] == id && t.services[id].name == n;
    } else if n in s.nameIndex && s.nameIndex[n] != id {
      var lost := s.nameIndex[n];
      assert t.services[lost].name == n && t.nameIndex[n] == id;
    }
  }

  /** Only a registration under a random id that collides can break the index. */
  lemma StepKeepsIndexIff(s: State, e: Event)
    requires IndexExact(s) && (e.Register? ==> e.id != "")
    ensures IndexExact(Step(s, e)) <==> !(e.Register? && !Refuses(s, e.name) && Collides(s, e.name, e.id))
  {
    if e.Register? && !Refuses(s, e.name) {
      RegisterKeepsIndexIff(s, e.name, e.id);
    }
  }

  /** Ids as good random ones are: never used before, neither as an id nor as a name. */
  ghost predicate FreshIds(es: seq<Event>) {
    forall i :: 0 <= i < |es| && es[i].Register? ==>
      es[i].id != "" && es[i].id !in Run(es[..i]).services && es[i].id !in Run(es[..i]).nameIndex
  }

  /** On every run with fresh ids, a lookup by name finds exactly the registered service of that name. */
  lemma {:induction false} NameLookupIsExact(es: seq<Event>)
    requires FreshIds(es)
    ensures var s := Run(es);
      && IndexExact(s)
      && (forall id :: id in s.services ==> ByName(s, s.services[id].name) == Some(s.services[id]))
      && (forall n :: ByName(s, n).None? <==> forall id :: id in s.services ==> s.services[id].name != n)
  {
    if es != [] {
      var init, e := es[..|es| - 1], es[|es| - 1];
      forall i | 0 <= i < |init| && init[i].Register?
        ensures init[i].id != "" && init[i].id !in Run(init[..i]).services && init[i].id !in Run(init[..i]).nameIndex
      {
        assert init[..i] == es[..i];
      }
      NameLookupIsExact(init);
      StepKeepsIndexIff(Run(init), e);
    }
    ExactIndexFindsAll(Run(es));
  }

  lemma ExactIndexFindsAll(s: State)
    requires IndexExact(s)
    ensures forall id :: id in s.services ==> ByName(s, s.services[id].name) == Some(s.services[id])
    ensures forall n :: ByName(s, n).None? <==> forall id :: id in s.services ==> s.services[id].name != n
  {
  }

  // ---------- What the registry contains, from the trace ----------

  /**
    At event `i`, a service registered under `id`: it gave no name, or one that no registered service had.
   */
  ghost predicate RegisteredAt(es: seq<Event>, i: nat, id: string) {
    && i < |es| && es[i].Register? && es[i].id == id
    && var services := Run(es[..i]).services;
    es[i].name == "" || forall other :: other in services ==> services[other].name != es[i].name
  }

  /** The service registered under `id` at event `i` and was not deregistered since. */
  ghost predicate RegisteredSince(es: seq<Event>, i: nat, id: string) {
    RegisteredAt(es, i, id) && forall j :: i < j < |es| ==> es[j] != Deregister(id)
  }

  lemma FreshPrefix(es: seq<Event>)
    requires es != [] && FreshIds(es)
    ensures FreshIds(es[..|es| - 1])
    ensures var s, e := Run(es[..|es| - 1]), es[|es| - 1];
      e.Register? ==> e.id != "" && e.id !in s.services && e.id !in s.nameIndex
  {
    var init := es[..|es| - 1];
    forall i | 0 <= i < |init| && init[i].Register?
      ensures init[i].id != "" && init[i].id !in Run(init[..i]).services && init[i].id !in Run(init[..i]).nameIndex
    {
      assert init[..i] == es[..i];
    }
  }

  /** With an exact index a name is refused exactly when a registered service has it. */
  lemma RefusedIff(s: State, name: string)
    requires IndexExact(s)
    ensures Refuses(s, name) <==> name != "" && exists id :: id in s.services && s.services[id].name == name
  {
  }

  lemma RegisteredInPrefix(es: seq<Event>, i: nat, id: string)
    requires es != [] && i < |es| - 1
    ensures RegisteredAt(es, i, id) <==> RegisteredAt(es[..|es| - 1], i, id)
    ensures RegisteredSince(es, i, id) <==>
            RegisteredSince(es[..|es| - 1], i, id) && es[|es| - 1] != Deregister(id)
  {
    var init := es[..|es| - 1];
    assert init[..i] == es[..i];
    if RegisteredSince(init, i, id) && es[|es| - 1] != Deregister(id) {
      forall j | i < j < |es| ensures es[j] != Deregister(id) {
        assert j < |init| ==> es[j] == init[j];
      }
    }
    if RegisteredSince(es, i, id) {
      forall j | i < j < |init| ensures init[j] != Deregister(id) {
        assert init[j] == es[j];
      }
    }
  }

  /** What one event does to the record of `id`. */
  lemma StepOnService(s: State, e: Event, id: string)
    requires IndexExact(s) && (e.Register? ==> e.id != "" && e.id !in s.services && e.id !in s.nameIndex)
    ensures var taken := e.Register? && exists other :: other in s.services && s.services[other].name == e.name;
      var t := Step(s, e);
      if e.Register? && e.id == id && (e.name == "" || !taken)
      then id in t.services && t.services[id] == Service(id, if e.name == "" then id else e.name, true)
      else if e == Deregister(id) then id !in t.services
      else (id in t.services <==> id in s.services) && (id in s.services ==> t.services[id] == s.services[id])
  {
    if e.Register? {
      RefusedIff(s, e.name);
    }
  }

  /** A registered service got its record when it last registered, and did not deregister since. */
  lemma {:induction false} RegisteredWhen(es: seq<Event>, id: string) returns (i: nat)
    requires FreshIds(es) && id in Run(es).services
    ensures RegisteredSince(es, i, id)
    ensures Run(es).services[id] == Service(id, if es[i].name == "" then id else es[i].name, true)
  {
    var init, e := es[..|es| - 1], es[|es| - 1];
    FreshPrefix(es);
    NameLookupIsExact(init);
    StepOnService(Run(init), e, id);
    if RegisteredAt(es, |init|, id) {
      i := |init|;
    } else {
      i := RegisteredWhen(init, id);
      RegisteredInPrefix(es, i, id);
    }
  }

  lemma {:induction false} RegisteredStays(es: seq<Event>, i: nat, id: string)
    requires FreshIds(es) && RegisteredSince(es, i, id)
    ensures id in Run(es).services
  {
    var init, e := es[..|es| - 1], es[|es| - 1];
    FreshPrefix(es);
    NameLookupIsExact(init);
    StepOnService(Run(init), e, id);
    if i < |init| {
      RegisteredInPrefix(es, i, id);
      RegisteredStays(init, i, id);
    }
  }

  /** On every run with fresh ids, exactly those services are there that registered and did not deregister since. */
  lemma ServicesAreTheRegistered(es: seq<Event>, id: string)
    requires FreshIds(es)
    ensures id in Run(es).services <==> exists i: nat :: RegisteredSince(es, i, id)
  {
    if id in Run(es).services {
      var i := RegisteredWhen(es, id);
    }
    if i: nat :| RegisteredSince(es, i, id) {
      RegisteredStays(es, i, id);
    }
  }

  /** Deregistering frees the name, forgets record and load, and touches no other service. */
  lemma DeregistrationFrees(s: State, id: string)
    requires IndexExact(s) && id in s.services
    ensures var t, name := Step(s, Deregister(id)), s.services[id].name;
      && id !in t.services && id !in t.loads && LoadOf(t, id) == 0.0
      && ByName(t, name) == None && !Refuses(t, name) && t.peakLoads == s.peakLoads
      && forall other :: other != id ==>
        && (other in t.services <==> other in s.services)
        && (other in s.services ==>
              t.services[other] == s.services[other] && ByName(t, s.services[other].name) == Some(s.services[other]))
        && (other in t.loads <==> other in s.loads) && LoadOf(t, other) == LoadOf(s, other)
  {
  }

  /** The load last recorded for `id` since it registered; 0 at registration and after deregistration. */
  function LatestLoad(es: seq<Event>, id: string): real {
    if es == [] then 0.0
    else
      var init, e := es[..|es| - 1], es[|es| - 1];
      match e
      case RecordLoad(i, load) => if i == id then load else LatestLoad(init, id)
      case Deregister(i) => if i == id && id in Run(init).services then 0.0 else LatestLoad(init, id)
      case Register(name, i) =>
        if i == id && !(name != "" && name in Run(init).nameIndex) then 0.0 else LatestLoad(init, id)
  }

  /** On every run a service's load is the one recorded last. */
  lemma {:induction false} LoadIsLatest(es: seq<Event>, id: string)
    ensures LoadOf(Run(es), id) == LatestLoad(es, id)
  {
    if es != [] {
      LoadIsLatest(es[..|es| - 1], id);
    }
  }

  /** The peak is the largest load ever recorded for `id`, or 0 if none was larger. */
  lemma {:induction false} PeakIsLargestRecorded(es: seq<Event>, id: string)
    ensures forall i :: 0 <= i < |es| && es[i].RecordLoad? && es[i].id == id ==> es[i].load <= PeakOf(Run(es), id)
    ensures PeakOf(Run(es), id) == 0.0 || RecordLoad(id, PeakOf(Run(es), id)) in es
  {
    if es != [] {
      var init := es[..|es| - 1];
      PeakIsLargestRecorded(init, id);
      assert es == init + [es[|es| - 1]];
    }
  }

  /** The common peak is at least 1 and every single one, and is one of these. */
  lemma {:induction false} PeakIsMaximum(s: State, ids: seq<string>)
    ensures Peak(s, ids) >= 1.0 && forall id :: id in ids ==> PeakOf(s, id) <= Peak(s, ids)
    ensures Peak(s, ids) == 1.0 || exists id :: id in ids && PeakOf(s, id) == Peak(s, ids)
  {
    if ids != [] {
      PeakIsMaximum(s, ids[..|ids| - 1]);
      assert ids == ids[..|ids| - 1] + [ids[|ids| - 1]];
    }
  }

  /** A single service gets its raw score: 1 when idle, a half at its peak, and strictly less the more it carries. */
  lemma SingleServiceShowsItsLoad(s: State, id: string)
    requires NonNegative(s)
    ensures var peak := if PeakOf(s, id) > 1.0 then PeakOf(s, id) else 1.0;
      Weight(s, [id], id) * (LoadOf(s, id) + peak) == peak
    ensures LoadOf(s, id) == 0.0 ==> Weight(s, [id], id) == 1.0
  {
    assert [id][..0] == [];
    assert Peak(s, []) == 1.0;
    assert Peak(s, [id]) == if PeakOf(s, id) > 1.0 then PeakOf(s, id) else 1.0;
    ScoreTimesLoad(Peak(s, [id]), LoadOf(s, id));
  }

  lemma ScoreTimesLoad(peak: real, load: real)
    requires peak >= 1.0 && load >= 0.0
    ensures peak / (load + peak) * (load + peak) == peak
    ensures load == 0.0 ==> peak / (load + peak) == 1.0
  {
  }

  /** When negative loads make the scores add up to nothing or less, all listed services share alike. */
  lemma NoPositiveTotalMeansEqualShares(s: State, ids: seq<string>, id: string)
    requires Defined(s, ids) && |ids| >= 2 && id in ids && Total(Scores(s, ids)) <= 0.0
    ensures Weight(s, ids, id) * |ids| as real == 1.0
  {
  }

  /** On every run without negative loads, a load never exceeds the recorded peak. */
  lemma {:induction false} RunNonNegative(es: seq<Event>)
    requires forall i :: 0 <= i < |es| && es[i].RecordLoad? ==> es[i].load >= 0.0
    ensures NonNegative(Run(es))
  {
    if es != [] {
      RunNonNegative(es[..|es| - 1]);
      var s, t := Run(es[..|es| - 1]), Run(es);
      forall id ensures 0.0 <= LoadOf(t, id) && (LoadOf(t, id) == 0.0 || LoadOf(t, id) <= PeakOf(t, id)) {
        assert 0.0 <= LoadOf(s, id) && (LoadOf(s, id) == 0.0 || LoadOf(s, id) <= PeakOf(s, id));
      }
    }
  }

  // ---------- Balance weights ----------

  ghost predicate Halves(scores: seq<real>) {
    forall i :: 0 <= i < |scores| ==> 0.5 <= scores[i] <= 1.0
  }

  lemma ScoreRange(peak: real, load: real)
    requires peak >= 1.0 && 0.0 <= load <= peak
    ensures 0.5 <= peak / (load + peak) <= 1.0
  {
    FractionOrder(1.0, 2.0, peak, load + peak);
    FractionOrder(peak, load + peak, 1.0, 1.0);
  }

  lemma ScoresAreHalves(s: State, ids: seq<string>)
    requires NonNegative(s)
    ensures Halves(Scores(s, ids))
  {
    forall i | 0 <= i < |ids| ensures 0.5 <= Scores(s, ids)[i] <= 1.0 {
      assert PeakOf(s, ids[i]) <= Peak(s, ids);
      ScoreRange(Peak(s, ids), LoadOf(s, ids[i]));
    }
  }

  lemma {:induction false} TotalBounds(scores: seq<real>)
    requires Halves(scores)
    ensures |scores| as real / 2.0 <= Total(scores) <= |scores| as real
  {
    if scores != [] {
      TotalBounds(scores[..|scores| - 1]);
    }
  }

  lemma {:induction false} TotalAround(scores: seq<real>, i: nat)
    requires Halves(scores) && i < |scores|
    ensures var others := |scores| as real - 1.0;
      scores[i] + others / 2.0 <= Total(scores) <= scores[i] + others
  {
    var m := |scores| - 1;
    if i == m {
      TotalBounds(scores[..m]);
    } else {
      TotalAround(scores[..m], i);
    }
  }

  lemma ShareRange(score: real, total: real, n: real)
    requires n >= 2.0 && 0.5 <= score <= 1.0
    requires score + (n - 1.0) / 2.0 <= total <= score + (n - 1.0)
    ensures total > 0.0 && 1.0 / (2.0 * n - 1.0) <= score / total <= 2.0 / (n + 1.0)
  {
    MulNonNegative(score - 0.5, 2.0 * n - 2.0);
    FractionOrder(1.0, 2.0 * n - 1.0, score, total);
    MulNonNegative(1.0 - score, n - 1.0);
    FractionOrder(score, total, 2.0, n + 1.0);
  }

  /** With at least two services, every weight lies between 1/(2n - 1) and 2/(n + 1). */
  lemma WeightBounds(s: State, ids: seq<string>, i: nat)
    requires NonNegative(s) && |ids| >= 2 && i < |ids|
    ensures var n := |ids| as real;
      1.0 / (2.0 * n - 1.0) <= Weight(s, ids, ids[i]) <= 2.0 / (n + 1.0)
  {
    ScoresAreHalves(s, ids);
    TotalAround(Scores(s, ids), i);
    ShareRange(Scores(s, ids)[i], Total(Scores(s, ids)), |ids| as real);
  }

  function WeightTotal(s: State, ids: seq<string>, all: seq<string>): real
    requires NonNegative(s) && forall id :: id in ids ==> id in all
  {
    if ids == [] then 0.0 else WeightTotal(s, ids[..|ids| - 1], all) + Weight(s, all, ids[|ids| - 1])
  }

  lemma {:induction false} WeightTotalIsShare(s: State, all: seq<string>, m: nat)
    requires NonNegative(s) && |all| >= 2 && m <= |all| && Total(Scores(s, all)) > 0.0
    ensures WeightTotal(s, all[..m], all) == Total(Scores(s, all)[..m]) / Total(Scores(s, all))
  {
    if m > 0 {
      WeightTotalIsShare(s, all, m - 1);
      WeightTotalSnoc(s, all, m);
      assert Scores(s, all)[..m][..m - 1] == Scores(s, all)[..m - 1];
      AddShares(Total(Scores(s, all)[..m - 1]), Scores(s, all)[m - 1], Total(Scores(s, all)));
    }
  }

  lemma AddShares(a: real, b: real, d: real)
    requires d > 0.0
    ensures a / d + b / d == (a + b) / d
  {
  }

  /** The weights of at least two services add up to 1 when a service counts as often as it is listed. */
  lemma ListedWeightsSumToOne(s: State, ids: seq<string>)
    requires NonNegative(s) && |ids| >= 2
    ensures WeightTotal(s, ids, ids) == 1.0
  {
    ScoresAreHalves(s, ids);
    TotalBounds(Scores(s, ids));
    WholeSequence(ids);
    WholeSequence(Scores(s, ids));
    WeightTotalIsShare(s, ids, |ids|);
    WholeShare(Total(Scores(s, ids)));
  }

  /** The sum of the values of a map. */
  ghost function Sum(m: map<string, real>): real {
    if m == map[] then 0.0
    else
      var k :| k in m;
      m[k] + Sum(m - {k})
  }

  lemma {:induction false} SumPick(m: map<string, real>, k: string)
    requires k in m
    ensures Sum(m) == m[k] + Sum(m - {k})
  {
    var j :| j in m && Sum(m) == m[j] + Sum(m - {j});
    if j != k {
      SumPick(m - {j}, k);
      SumPick(m - {k}, j);
      assert m - {j} - {k} == m - {k} - {j};
    }
  }

  ghost predicate Distinct(ids: seq<string>) {
    forall i, j :: 0 <= i < j < |ids| ==> ids[i] != ids[j]
  }

  /** The balance of the first `m` listed services among all of `ids`. */
  ghost function Balance(s: State, ids: seq<string>, m: nat): map<string, real>
    requires NonNegative(s) && m <= |ids|
  {
    map id | id in ids[..m] :: Weight(s, ids, id)
  }

  lemma BalanceGrows(s: State, ids: seq<string>, m: nat)
    requires NonNegative(s) && 0 < m <= |ids|
    ensures var id := ids[m - 1];
      Sum(Balance(s, ids, m)) == Sum(Balance(s, ids, m - 1)) + if id in ids[..m - 1] then 0.0 else Weight(s, ids, id)
  {
    var id := ids[m - 1];
    assert ids[..m] == ids[..m - 1] + [id];
    if id in ids[..m - 1] {
      assert Balance(s, ids, m) == Balance(s, ids, m - 1);
    } else {
      SumPick(Balance(s, ids, m), id);
      assert Balance(s, ids, m) - {id} == Balance(s, ids, m - 1);
    }
  }

  lemma DistinctSnoc(ids: seq<string>, m: nat)
    requires 0 < m <= |ids|
    ensures Distinct(ids[..m]) <==> Distinct(ids[..m - 1]) && ids[m - 1] !in ids[..m - 1]
  {
    assert ids[..m] == ids[..m - 1] + [ids[m - 1]];
  }

  lemma WeightTotalSnoc(s: State, ids: seq<string>, m: nat)
    requires NonNegative(s) && 0 < m <= |ids|
    ensures WeightTotal(s, ids[..m], ids) == WeightTotal(s, ids[..m - 1], ids) + Weight(s, ids, ids[m - 1])
  {
    assert ids[..m][..m - 1] == ids[..m - 1];
  }

  lemma {:induction false} BalanceAgainstList(s: State, ids: seq<string>, m: nat)
    requires NonNegative(s) && |ids| >= 2 && m <= |ids|
    ensures Sum(Balance(s, ids, m)) <= WeightTotal(s, ids[..m], ids)
    ensures Sum(Balance(s, ids, m)) == WeightTotal(s, ids[..m], ids) <==> Distinct(ids[..m])
  {
    if m > 0 {
      BalanceAgainstList(s, ids, m - 1);
      BalanceGrows(s, ids, m);
      DistinctSnoc(ids, m);
      WeightPositive(s, ids, m - 1);
      WeightTotalSnoc(s, ids, m);
    } else {
      assert Balance(s, ids, 0) == map[];
    }
  }

  lemma WeightPositive(s: State, ids: seq<string>, i: nat)
    requires NonNegative(s) && |ids| >= 2 && i < |ids|
    ensures Weight(s, ids, ids[i]) > 0.0
  {
    WeightBounds(s, ids, i);
    assert 1.0 / (2.0 * |ids| as real - 1.0) > 0.0;
  }

  /** What the balancer returns for at least two listed services adds up to 1 exactly when none is listed twice. */
  lemma WeightsSumToOneIff(s: State, ids: seq<string>, result: map<string, real>)
    requires NonNegative(s) && |ids| >= 2
    requires forall id :: id in result <==> id in ids
    requires forall id :: id in result ==> result[id] == Weight(s, ids, id)
    ensures Sum(result) <= 1.0
    ensures Sum(result) == 1.0 <==> Distinct(ids)
  {
    WholeSequence(ids);
    assert result == Balance(s, ids, |ids|);
    BalanceAgainstList(s, ids, |ids|);
    ListedWeightsSumToOne(s, ids);
  }

  lemma WholeSequence<T>(s: seq<T>)
    ensures s[..|s|] == s
  {
  }

  lemma WholeShare(d: real)
    requires d > 0.0
    ensures d / d == 1.0
  {
  }

  lemma ScoreFallsWithLoad(peak: real, a: real, b: real)
    requires peak >= 1.0 && 0.0 <= a <= b
    ensures peak / (a + peak) >= peak / (b + peak)
  {
    MulKeepsOrder(peak, a + peak, b + peak);
    FractionOrder(peak, b + peak, peak, a + peak);
  }

  lemma MulKeepsOrder(p: real, x: real, y: real)
    requires p >= 0.0 && x <= y
    ensures p * x <= p * y
  {
    assert p * (y - x) >= 0.0;
  }

  /** A service with a lower load never gets a smaller weight. */
  lemma LowerLoadNeverSmallerWeight(s: State, ids: seq<string>, a: string, b: string)
    requires NonNegative(s) && a in ids && b in ids && LoadOf(s, a) <= LoadOf(s, b)
    ensures Weight(s, ids, a) >= Weight(s, ids, b)
  {
    var peak := Peak(s, ids);
    ScoreFallsWithLoad(peak, LoadOf(s, a), LoadOf(s, b));
    if |ids| >= 2 {
      ScoresAreHalves(s, ids);
      TotalBounds(Scores(s, ids));
      ShareOrder(Score(s, peak, b), Score(s, peak, a), Total(Scores(s, ids)));
    }
  }

  lemma ShareOrder(a: real, b: real, d: real)
    requires d > 0.0 && a <= b
    ensures a / d <= b / d
  {
    assert a * d <= b * d;
    FractionOrder(a, d, b, d);
  }

  lemma {:induction false} TotalOfConstant(scores: seq<real>, x: real)
    requires forall i :: 0 <= i < |scores| ==> scores[i] == x
    ensures Total(scores) == |scores| as real * x
  {
    if scores != [] {
      TotalOfConstant(scores[..|scores| - 1], x);
      assert (|scores| as real - 1.0) * x + x == |scores| as real * x;
    }
  }

  lemma BusyAmongIdle(scores: seq<real>)
    requires |scores| >= 2 && scores[|scores| - 1] == 0.5
    requires forall i :: 0 <= i < |scores| - 1 ==> scores[i] == 1.0
    ensures Total(scores) > 0.0 && 0.5 / Total(scores) == 1.0 / (2.0 * |scores| as real - 1.0)
  {
    TotalOfConstant(scores[..|scores| - 1], 1.0);
    EqualFractions(0.5, Total(scores), 1.0, 2.0 * |scores| as real - 1.0);
  }

  lemma IdleAmongBusy(scores: seq<real>)
    requires |scores| >= 2 && scores[|scores| - 1] == 1.0
    requires forall i :: 0 <= i < |scores| - 1 ==> scores[i] == 0.5
    ensures Total(scores) > 0.0 && 1.0 / Total(scores) == 2.0 / (|scores| as real + 1.0)
  {
    TotalOfConstant(scores[..|scores| - 1], 0.5);
    EqualFractions(1.0, Total(scores), 2.0, |scores| as real + 1.0);
  }

  /** The lower bound is attained by a service at the peak among idle ones. */
  lemma LowerBoundIsTight(s: State, ids: seq<string>)
    requires NonNegative(s) && |ids| >= 2 && LoadOf(s, ids[|ids| - 1]) == Peak(s, ids)
    requires forall i :: 0 <= i < |ids| - 1 ==> LoadOf(s, ids[i]) == 0.0
    ensures Weight(s, ids, ids[|ids| - 1]) == 1.0 / (2.0 * |ids| as real - 1.0)
  {
    ScoreAtPeak(s, Peak(s, ids), ids[|ids| - 1]);
    forall i | 0 <= i < |ids| - 1 ensures Scores(s, ids)[i] == 1.0 {
      ScoreIdle(s, Peak(s, ids), ids[i]);
    }
    BusyAmongIdle(Scores(s, ids));
  }

  /** The upper bound is attained by an idle service among services at the peak. */
  lemma UpperBoundIsTight(s: State, ids: seq<string>)
    requires NonNegative(s) && |ids| >= 2 && LoadOf(s, ids[|ids| - 1]) == 0.0
    requires forall i :: 0 <= i < |ids| - 1 ==> LoadOf(s, ids[i]) == Peak(s, ids)
    ensures Weight(s, ids, ids[|ids| - 1]) == 2.0 / (|ids| as real + 1.0)
  {
    ScoreIdle(s, Peak(s, ids), ids[|ids| - 1]);
    forall i | 0 <= i < |ids| - 1 ensures Scores(s, ids)[i] == 0.5 {
      ScoreAtPeak(s, Peak(s, ids), ids[i]);
    }
    IdleAmongBusy(Scores(s, ids));
  }

  lemma ScoreAtPeak(s: State, peak: real, id: string)
    requires peak >= 1.0 && LoadOf(s, id) == peak
    ensures Score(s, peak, id) == 0.5
  {
    EqualFractions(peak, LoadOf(s, id) + peak, 1.0, 2.0);
  }

  lemma ScoreIdle(s: State, peak: real, id: string)
    requires peak >= 1.0 && LoadOf(s, id) == 0.0
    ensures Score(s, peak, id) == 1.0
  {
  }
}
