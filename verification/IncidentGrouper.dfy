/** The incident grouper of one tenant: the service index, the choice of incident for an event,
    scores, and the cap on open incidents. The topology does not change while it runs. */
module IncidentGrouper {

  const PROVISIONAL_CAP := 0.69

  datatype IncidentStatus = Candidate | Investigating | Reported | Paging | Resolved | Suppressed | Expired

  datatype Event = Event(id: string, service: string, score: real, provisional: bool, createdAt: int)

  datatype SuppressedBy = Nobody | ByIncident(id: nat) | ByReason(reason: string)

  datatype Incident = Incident(status: IncidentStatus, services: seq<string>, eventIDs: seq<string>, provisional: bool,
                               score: real, fingerprint: string, suppressedBy: SuppressedBy, lastSeen: int,
                               updatedAt: int)

  datatype Config = Config(window: int, dedupeTTL: int, maxOpenIncidents: int, maxEventsPerIncident: nat)

  /** The services within the configured hops of a service; empty when the topology is silent. */
  type Topology = string -> seq<string>

  /** Incidents are numbered in order of creation. */
  datatype State = State(incidents: map<nat, Incident>, byService: map<string, seq<nat>>,
                         byFingerprint: map<string, nat>,
                         closedAt: map<nat, int>, scores: map<nat, map<string, real>>, last: nat)

  const Start := State(map[], map[], map[], map[], map[], 0)

  predicate IsOpen(s: IncidentStatus) { s in {Candidate, Investigating, Reported, Paging} }

  predicate Near(topo: Topology, service: string, s: string) { s == service || s in topo(service) }

  /** Some service of the incident has s in its neighbourhood. */
  predicate Covers(topo: Topology, services: seq<string>, s: string) {
    exists i :: 0 <= i < |services| && Near(topo, services[i], s)
  }

  function Listed(byService: map<string, seq<nat>>, s: string): seq<nat> { if s in byService then byService[s] else [] }

  // ---------- The index ----------

  function AddTo(byService: map<string, seq<nat>>, s: string, id: nat): map<string, seq<nat>> {
    if id in Listed(byService, s) then byService else byService[s := Listed(byService, s) + [id]]
  }

  function AddAll(byService: map<string, seq<nat>>, ss: seq<string>, id: nat): map<string, seq<nat>> {
    if ss == [] then byService else AddTo(AddAll(byService, ss[..|ss| - 1], id), ss[|ss| - 1], id)
  }

  function Registered(topo: Topology, byService: map<string, seq<nat>>, service: string,
                      id: nat): map<string, seq<nat>> {
    AddAll(AddTo(byService, service, id), topo(service), id)
  }

  /** The index lists an incident under a service exactly when the incident covers the service. */
  ghost predicate IndexRight(topo: Topology, incidents: map<nat, Incident>, byService: map<string, seq<nat>>) {
    forall s, id :: id in Listed(byService, s) <==> id in incidents && Covers(topo, incidents[id].services, s)
  }

  lemma AddToLists(byService: map<string, seq<nat>>, s: string, id: nat, t: string, j: nat)
    ensures j in Listed(AddTo(byService, s, id), t) <==> j in Listed(byService, t) || (j == id && t == s)
  {
  }

  lemma {:induction false} AddAllLists(byService: map<string, seq<nat>>, ss: seq<string>, id: nat, t: string, j: nat)
    ensures j in Listed(AddAll(byService, ss, id), t) <==> j in Listed(byService, t) || (j == id && t in ss)
    decreases |ss|
  {
    if ss != [] {
      var front := ss[..|ss| - 1];
      AddAllLists(byService, front, id, t, j);
      AddToLists(AddAll(byService, front, id), ss[|ss| - 1], id, t, j);
      assert ss == front + [ss[|ss| - 1]];
    }
  }

  lemma RegisteredLists(topo: Topology, byService: map<string, seq<nat>>, service: string, id: nat, t: string, j: nat)
    ensures j in Listed(Registered(topo, byService, service, id), t) <==>
            j in Listed(byService, t) || (j == id && Near(topo, service, t))
  {
    AddToLists(byService, service, id, t, j);
    AddAllLists(AddTo(byService, service, id), topo(service), id, t, j);
  }

  lemma CoversMore(topo: Topology, services: seq<string>, service: string, s: string)
    ensures Covers(topo, services + [service], s) <==> Covers(topo, services, s) || Near(topo, service, s)
  {
    var more := services + [service];
    if Covers(topo, services, s) {
      var i :| 0 <= i < |services| && Near(topo, services[i], s);
      assert more[i] == services[i];
    }
    if Near(topo, service, s) { assert more[|services|] == service; }
  }

  // ---------- Attaching an event ----------

  function Grown(services: seq<string>, s: string): seq<string> { if s in services then services else services + [s] }

  function LastOf(ids: seq<string>, n: nat): seq<string> { if |ids| > n then ids[|ids| - n..] else ids }

  function ScoresOf(scores: map<nat, map<string, real>>, id: nat): map<string, real> {
    if id in scores then scores[id] else map[]
  }

  function Raised(m: map<string, real>, s: string, score: real): map<string, real> {
    if score > (if s in m then m[s] else 0.0) then m[s := score] else m
  }

  /** The highest score of any service, zero if none is above it. */
  ghost predicate IsTop(m: map<string, real>, top: real) {
    top >= 0.0 && (forall s <- m :: m[s] <= top) && (top == 0.0 || exists s <- m :: m[s] == top)
  }

  function Clamp01(x: real): real { if x < 0.0 then 0.0 else if x > 1.0 then 1.0 else x }

  function Score(top: real, distinct: nat, provisional: bool): real {
    var score := Clamp01(top * (1.0 + 0.05 * (distinct as real - 1.0)));
    if provisional && score > PROVISIONAL_CAP then PROVISIONAL_CAP else score
  }

  function Updated(cfg: Config, inc: Incident, e: Event, top: real): Incident {
    var services := Grown(inc.services, e.service);
    var provisional := inc.provisional || e.provisional;
    inc.(services := services, eventIDs := LastOf(inc.eventIDs + [e.id], cfg.maxEventsPerIncident),
         provisional := provisional,
         score := Score(top, |services|, provisional),
         lastSeen := if e.createdAt > inc.lastSeen then e.createdAt else inc.lastSeen,
         updatedAt := e.createdAt)
  }

  /** The state with the event attached to incident id, given the incident's top score. */
  function AttachedWith(cfg: Config, topo: Topology, st: State, id: nat, e: Event, top: real): State
    requires id in st.incidents
  {
    var inc := st.incidents[id];
    st.(incidents := st.incidents[id := Updated(cfg, inc, e, top)],
        byService := if e.service in inc.services then st.byService else Registered(topo, st.byService, e.service, id),
        scores := st.scores[id := Raised(ScoresOf(st.scores, id), e.service, e.score)])
  }

  ghost predicate Attaches(cfg: Config, topo: Topology, st: State, id: nat, e: Event, next: State)
    requires id in st.incidents
  {
    exists top :: IsTop(Raised(ScoresOf(st.scores, id), e.service, e.score), top) &&
      next == AttachedWith(cfg, topo, st, id, e, top)
  }

  // ---------- What holds between calls ----------

  ghost predicate ScoresRight(incidents: map<nat, Incident>) {
    forall id <- incidents :: 0.0 <= incidents[id].score <= 1.0 &&
      (incidents[id].provisional ==> incidents[id].score <= PROVISIONAL_CAP)
  }

  function OpenSet(incidents: map<nat, Incident>): set<nat> { set id | id in incidents && IsOpen(incidents[id].status) }

  function Cap(cfg: Config): nat { if cfg.maxOpenIncidents > 0 then cfg.maxOpenIncidents else 0 }

  ghost predicate Numbered(st: State) {
    (forall id <- st.incidents :: id <= st.last) &&
    forall fp <- st.byFingerprint :: st.byFingerprint[fp] in st.incidents
  }

  ghost predicate Consistent(topo: Topology, st: State) {
    IndexRight(topo, st.incidents, st.byService) && ScoresRight(st.incidents) && Numbered(st)
  }

  lemma ScoreRange(top: real, distinct: nat, provisional: bool)
    ensures 0.0 <= Score(top, distinct, provisional) <= 1.0 &&
            (provisional ==> Score(top, distinct, provisional) <= PROVISIONAL_CAP)
  {
  }

  lemma AttachKeepsIndex(topo: Topology, incidents: map<nat, Incident>, byService: map<string, seq<nat>>, id: nat,
                         service: string, inc: Incident)
    requires IndexRight(topo, incidents, byService) && id in incidents &&
             inc.services == Grown(incidents[id].services, service)
    ensures IndexRight(topo, incidents[id := inc],
                       if service in incidents[id].services then byService
                       else Registered(topo, byService, service, id))
  {
    hide Covers, Near, Registered, Listed;
    var after := incidents[id := inc];
    var index := if service in incidents[id].services then byService else Registered(topo, byService, service, id);
    forall s, j: nat ensures j in Listed(index, s) <==> j in after && Covers(topo, after[j].services, s) {
      RegisteredLists(topo, byService, service, id, s, j);
      CoversMore(topo, incidents[id].services, service, s);
      assert j in Listed(byService, s) <==> j in incidents && Covers(topo, incidents[j].services, s);
    }
  }

  lemma AttachKeeps(cfg: Config, topo: Topology, st: State, id: nat, e: Event, top: real)
    requires Consistent(topo, st) && id in st.incidents
    ensures Consistent(topo, AttachedWith(cfg, topo, st, id, e, top))
    ensures OpenSet(AttachedWith(cfg, topo, st, id, e, top).incidents) == OpenSet(st.incidents)
  {
    hide IndexRight, Registered, Score, Raised, LastOf;
    var inc := Updated(cfg, st.incidents[id], e, top);
    AttachKeepsIndex(topo, st.incidents, st.byService, id, e.service, inc);
    ScoreRange(top, |inc.services|, inc.provisional);
  }

  // ---------- Which incident an event joins ----------

  predicate InWindow(cfg: Config, inc: Incident, e: Event) {
    IsOpen(inc.status) && inc.updatedAt != 0 && e.createdAt - inc.updatedAt <= cfg.window
  }

  datatype Option<T> = None | Some(value: T)

  function FirstInWindow(cfg: Config, incidents: map<nat, Incident>, ids: seq<nat>, e: Event): Option<nat> {
    if ids == [] then None
    else if ids[0] in incidents && InWindow(cfg, incidents[ids[0]], e) then Some(ids[0])
    else FirstInWindow(cfg, incidents, ids[1..], e)
  }

  lemma {:induction false} FirstFinds(cfg: Config, incidents: map<nat, Incident>, ids: seq<nat>, e: Event)
    ensures var r := FirstInWindow(cfg, incidents, ids, e);
            if r.Some? then r.value in ids && r.value in incidents && InWindow(cfg, incidents[r.value], e)
            else forall id <- ids :: id in incidents ==> !InWindow(cfg, incidents[id], e)
    decreases |ids|
  {
    if ids != [] { FirstFinds(cfg, incidents, ids[1..], e); }
  }

  /** The indexed lookup finds an open incident in its window near the event exactly when a scan
      of every incident would, and what it finds is such a one. */
  lemma LookupIsFullScan(cfg: Config, topo: Topology, st: State, e: Event)
    requires Consistent(topo, st)
    ensures var r := FirstInWindow(cfg, st.incidents, Listed(st.byService, e.service), e);
            (r.Some? <==> exists id <- st.incidents ::
               InWindow(cfg, st.incidents[id], e) && Covers(topo, st.incidents[id].services, e.service)) &&
            (r.Some? ==> r.value in st.incidents && InWindow(cfg, st.incidents[r.value], e) &&
                         Covers(topo, st.incidents[r.value].services, e.service))
  {
    hide Covers, InWindow;
    FirstFinds(cfg, st.incidents, Listed(st.byService, e.service), e);
    forall id: nat ensures id in Listed(st.byService, e.service) <==>
      id in st.incidents && Covers(topo, st.incidents[id].services, e.service) {
    }
  }

  /** A repeat of a known fingerprint rejoins its incident while that is open, or closed only lately. */
  predicate Rejoins(cfg: Config, st: State, fp: string, e: Event) {
    fp in st.byFingerprint && st.byFingerprint[fp] in st.incidents &&
    var id := st.byFingerprint[fp];
    IsOpen(st.incidents[id].status) || (id in st.closedAt && e.createdAt - st.closedAt[id] <= cfg.dedupeTTL)
  }

  // ---------- The cap ----------

  ghost predicate IsLowest(incidents: map<nat, Incident>, v: nat) {
    v in OpenSet(incidents) && forall id <- OpenSet(incidents) :: incidents[v].score <= incidents[id].score
  }

  function Closed(st: State, v: nat, status: IncidentStatus, now: int): State
    requires v in st.incidents
  {
    st.(incidents := st.incidents[v := st.incidents[v].(status := status)], closedAt := st.closedAt[v := now])
  }

  /** Over the cap one open incident of the lowest score expires; nothing else changes. */
  ghost predicate Enforced(cfg: Config, st: State, now: int, next: State) {
    if |OpenSet(st.incidents)| > cfg.maxOpenIncidents && OpenSet(st.incidents) != {} then
      exists v :: v in st.incidents && IsLowest(st.incidents, v) && next == Closed(st, v, Expired, now)
    else next == st
  }

  lemma CloseKeeps(topo: Topology, st: State, v: nat, status: IncidentStatus, now: int)
    requires Consistent(topo, st) && v in st.incidents && !IsOpen(status)
    ensures Consistent(topo, Closed(st, v, status, now))
    ensures OpenSet(Closed(st, v, status, now).incidents) == OpenSet(st.incidents) - {v}
  {
    hide Covers;
    var t := Closed(st, v, status, now);
    forall s, id: nat ensures id in Listed(t.byService, s) <==>
      id in t.incidents && Covers(topo, t.incidents[id].services, s) {
      assert id in Listed(st.byService, s) <==> id in st.incidents && Covers(topo, st.incidents[id].services, s);
    }
  }

  lemma EnforcedKeeps(cfg: Config, topo: Topology, st: State, now: int, next: State)
    requires Consistent(topo, st) && |OpenSet(st.incidents)| <= Cap(cfg) + 1 && Enforced(cfg, st, now, next)
    ensures Consistent(topo, next) && |OpenSet(next.incidents)| <= Cap(cfg)
  {
    hide Consistent, IsLowest;
    if |OpenSet(st.incidents)| > cfg.maxOpenIncidents && OpenSet(st.incidents) != {} {
      var v :| v in st.incidents && IsLowest(st.incidents, v) && next == Closed(st, v, Expired, now);
      LowestOpen(st.incidents, v);
      CloseKeeps(topo, st, v, Expired, now);
    }
  }

  lemma LowestOpen(incidents: map<nat, Incident>, v: nat)
    requires IsLowest(incidents, v)
    ensures v in OpenSet(incidents) && v in incidents
  {
  }

  /** The open incidents seen so far, counted, with one of the lowest score. */
  ghost predicate Scanned(incidents: map<nat, Incident>, todo: set<nat>, lowest: Option<nat>, open: nat) {
    var seen := OpenSet(incidents) - todo;
    todo <= incidents.Keys && open == |seen| &&
    if seen == {} then lowest == None
    else
      lowest.Some? && lowest.value in seen &&
      forall id <- seen :: incidents[lowest.value].score <= incidents[id].score
  }

  lemma ScanStarts(incidents: map<nat, Incident>)
    ensures Scanned(incidents, incidents.Keys, None, 0)
  {
    assert OpenSet(incidents) - incidents.Keys == {};
  }

  lemma ScanStep(incidents: map<nat, Incident>, todo: set<nat>, lowest: Option<nat>, open: nat, id: nat)
    requires Scanned(incidents, todo, lowest, open) && id in todo
    ensures id in incidents && (lowest.Some? ==> lowest.value in incidents)
    ensures !IsOpen(incidents[id].status) ==> Scanned(incidents, todo - {id}, lowest, open)
    ensures IsOpen(incidents[id].status) ==>
              Scanned(incidents, todo - {id},
                      if lowest == None || incidents[id].score < incidents[lowest.value].score then Some(id)
                      else lowest, open + 1)
  {
    var all := OpenSet(incidents);
    assert all - (todo - {id}) == if id in all then (all - todo) + {id} else all - todo;
  }

  lemma ScanEnds(incidents: map<nat, Incident>, lowest: Option<nat>, open: nat)
    requires Scanned(incidents, {}, lowest, open)
    ensures open == |OpenSet(incidents)|
    ensures if OpenSet(incidents) == {} then lowest == None
            else lowest.Some? && lowest.value in incidents && IsLowest(incidents, lowest.value)
  {
    assert OpenSet(incidents) - {} == OpenSet(incidents);
  }

  // ---------- One event ----------

  function Fresh(e: Event): Incident { Incident(Candidate, [], [], false, 0.0, "", Nobody, e.createdAt, e.createdAt) }

  function Opened(st: State, e: Event): State {
    st.(incidents := st.incidents[st.last + 1 := Fresh(e)], last := st.last + 1)
  }

  function Labelled(st: State, id: nat, fp: string, always: bool): State
    requires id in st.incidents
  {
    st.(incidents := if always || st.incidents[id].fingerprint == ""
        then st.incidents[id := st.incidents[id].(fingerprint := fp)] else st.incidents,
        byFingerprint := st.byFingerprint[fp := id])
  }

  function MarkedRepeat(st: State, id: nat): State
    requires id in st.incidents
  {
    st.(incidents := st.incidents[id := st.incidents[id].(suppressedBy := ByIncident(id))])
  }

  ghost predicate Rejoined(cfg: Config, topo: Topology, st: State, id: nat, e: Event, next: State) {
    id in st.incidents &&
    exists mid :: Attaches(cfg, topo, st, id, e, mid) && id in mid.incidents && next == MarkedRepeat(mid, id)
  }

  ghost predicate Joined(cfg: Config, topo: Topology, st: State, id: nat, e: Event, fp: string, next: State) {
    id in st.incidents &&
    exists mid :: Attaches(cfg, topo, st, id, e, mid) && id in mid.incidents && next == Labelled(mid, id, fp, false)
  }

  ghost predicate OpenedNew(cfg: Config, topo: Topology, st: State, e: Event, fp: string, now: int, next: State) {
    var id := st.last + 1;
    exists mid :: Attaches(cfg, topo, Opened(st, e), id, e, mid) && id in mid.incidents &&
      Enforced(cfg, Labelled(mid, id, fp, true), now, next)
  }

  /** What adding an event may lead to. */
  ghost predicate Added(cfg: Config, topo: Topology, st: State, e: Event, fp: string, now: int, next: State, id: nat,
                        isNew: bool) {
    var found := FirstInWindow(cfg, st.incidents, Listed(st.byService, e.service), e);
    if Rejoins(cfg, st, fp, e) then id == st.byFingerprint[fp] && !isNew && Rejoined(cfg, topo, st, id, e, next)
    else if found.Some? then id == found.value && isNew && Joined(cfg, topo, st, id, e, fp, next)
    else id == st.last + 1 && isNew && OpenedNew(cfg, topo, st, e, fp, now, next)
  }

  lemma OpenKeeps(topo: Topology, st: State, e: Event)
    requires Consistent(topo, st)
    ensures Consistent(topo, Opened(st, e)) && OpenSet(Opened(st, e).incidents) == OpenSet(st.incidents) + {st.last + 1}
  {
    hide Covers;
    var t := Opened(st, e);
    forall s, id: nat ensures id in Listed(t.byService, s) <==>
      id in t.incidents && Covers(topo, t.incidents[id].services, s) {
      assert id in Listed(st.byService, s) <==> id in st.incidents && Covers(topo, st.incidents[id].services, s);
      NothingCovered(topo, s);
    }
  }

  lemma NothingCovered(topo: Topology, s: string)
    ensures !Covers(topo, [], s)
  {
  }

  lemma RelabelKeeps(topo: Topology, st: State, next: State, id: nat)
    requires Consistent(topo, st) && id in st.incidents && next.incidents.Keys == st.incidents.Keys
    requires forall j <- st.incidents :: next.incidents[j] == st.incidents[j] ||
               next.incidents[j] == st.incidents[j].(fingerprint := next.incidents[j].fingerprint,
                                                     suppressedBy := next.incidents[j].suppressedBy)
    requires next.byService == st.byService && next.last == st.last
    requires forall fp <- next.byFingerprint ::
               next.byFingerprint[fp] == id ||
               (fp in st.byFingerprint && next.byFingerprint[fp] == st.byFingerprint[fp])
    ensures Consistent(topo, next) && OpenSet(next.incidents) == OpenSet(st.incidents)
  {
    hide Covers;
    forall s, j: nat ensures j in Listed(next.byService, s) <==>
      j in next.incidents && Covers(topo, next.incidents[j].services, s) {
      assert j in Listed(st.byService, s) <==> j in st.incidents && Covers(topo, st.incidents[j].services, s);
    }
  }

  lemma RejoinedKeeps(cfg: Config, topo: Topology, st: State, id: nat, e: Event, next: State)
    requires Consistent(topo, st) && Rejoined(cfg, topo, st, id, e, next)
    ensures Consistent(topo, next) && OpenSet(next.incidents) == OpenSet(st.incidents)
  {
    hide Consistent, Attaches, OpenSet;
    var mid :| Attaches(cfg, topo, st, id, e, mid) && id in mid.incidents && next == MarkedRepeat(mid, id);
    AttachesKeeps(cfg, topo, st, id, e, mid);
    RelabelKeeps(topo, mid, next, id);
  }

  lemma JoinedKeeps(cfg: Config, topo: Topology, st: State, id: nat, e: Event, fp: string, next: State)
    requires Consistent(topo, st) && Joined(cfg, topo, st, id, e, fp, next)
    ensures Consistent(topo, next) && OpenSet(next.incidents) == OpenSet(st.incidents)
  {
    hide Consistent, Attaches, OpenSet;
    var mid :| Attaches(cfg, topo, st, id, e, mid) && id in mid.incidents && next == Labelled(mid, id, fp, false);
    AttachesKeeps(cfg, topo, st, id, e, mid);
    RelabelKeeps(topo, mid, next, id);
  }

  lemma OpenedNewKeeps(cfg: Config, topo: Topology, st: State, e: Event, fp: string, now: int, next: State)
    requires Consistent(topo, st) && |OpenSet(st.incidents)| <= Cap(cfg) && OpenedNew(cfg, topo, st, e, fp, now, next)
    ensures Consistent(topo, next) && |OpenSet(next.incidents)| <= Cap(cfg)
  {
    hide Consistent, Enforced, Attaches, OpenSet, Cap;
    var id := st.last + 1;
    OpenKeeps(topo, st, e);
    var mid :| Attaches(cfg, topo, Opened(st, e), id, e, mid) && id in mid.incidents &&
      Enforced(cfg, Labelled(mid, id, fp, true), now, next);
    AttachesKeeps(cfg, topo, Opened(st, e), id, e, mid);
    RelabelKeeps(topo, mid, Labelled(mid, id, fp, true), id);
    OneMore(OpenSet(st.incidents), st.last + 1);
    EnforcedKeeps(cfg, topo, Labelled(mid, id, fp, true), now, next);
  }

  /** Every event leaves the index right, the scores in range, provisional ones capped, and no
      more open incidents than the cap. */
  lemma AddKeeps(cfg: Config, topo: Topology, st: State, e: Event, fp: string, now: int, next: State, id: nat,
                 isNew: bool)
    requires Consistent(topo, st) && |OpenSet(st.incidents)| <= Cap(cfg) &&
             Added(cfg, topo, st, e, fp, now, next, id, isNew)
    ensures Consistent(topo, next) && |OpenSet(next.incidents)| <= Cap(cfg)
  {
    hide Consistent, Rejoined, Joined, OpenedNew, OpenSet, Rejoins, FirstInWindow, Cap;
    if Rejoins(cfg, st, fp, e) {
      RejoinedKeeps(cfg, topo, st, id, e, next);
    } else if FirstInWindow(cfg, st.incidents, Listed(st.byService, e.service), e).Some? {
      JoinedKeeps(cfg, topo, st, id, e, fp, next);
    } else {
      OpenedNewKeeps(cfg, topo, st, e, fp, now, next);
    }
  }

  lemma OneMore(s: set<nat>, x: nat)
    ensures |s + {x}| <= |s| + 1
  {
    if x in s { assert s + {x} == s; }
  }

  lemma AttachesKeeps(cfg: Config, topo: Topology, st: State, id: nat, e: Event, next: State)
    requires Consistent(topo, st) && id in st.incidents && Attaches(cfg, topo, st, id, e, next)
    ensures Consistent(topo, next) && OpenSet(next.incidents) == OpenSet(st.incidents)
  {
    hide Consistent, AttachedWith, IsTop, Raised;
    var top :| IsTop(Raised(ScoresOf(st.scores, id), e.service, e.score), top) &&
      next == AttachedWith(cfg, topo, st, id, e, top);
    AttachKeeps(cfg, topo, st, id, e, top);
  }

  lemma StartConsistent(topo: Topology)
    ensures Consistent(topo, Start) && OpenSet(Start.incidents) == {}
  {
  }

  // ---------- The code ----------

  class Grouper {
    const cfg: Config
    const topo: Topology
    const fingerprint: Event -> string
    var incidents: map<nat, Incident>
    var byService: map<string, seq<nat>>
    var byFingerprint: map<string, nat>
    var closedAt: map<nat, int>
    var scores: map<nat, map<string, real>>
    var last: nat

    function Current(): State
      reads this
    {
      State(incidents, byService, byFingerprint, closedAt, scores, last)
    }

    ghost predicate Valid()
      reads this
    {
      Consistent(topo, Current()) && |OpenSet(incidents)| <= Cap(cfg)
    }

    constructor (cfg: Config, topo: Topology, fingerprint: Event -> string)
      ensures Valid() && Current() == Start && this.cfg == cfg && this.topo == topo && this.fingerprint == fingerprint
    {
      this.cfg, this.topo, this.fingerprint := cfg, topo, fingerprint;
      incidents, byService, byFingerprint, closedAt, scores, last := map[], map[], map[], map[], map[], 0;
      new;
      StartConsistent(topo);
    }

    static method AddToByService(byService: map<string, seq<nat>>, service: string, id: nat)
        returns (r: map<string, seq<nat>>)
      ensures r == AddTo(byService, service, id)
    {
      var ids := if service in byService then byService[service] else [];
      for i := 0 to |ids|
        invariant id !in ids[..i]
      {
        if ids[i] == id { return byService; }
      }
      return byService[service := ids + [id]];
    }

    method RegisterServiceForIncident(id: nat, service: string)
      modifies this`byService
      ensures byService == Registered(topo, old(byService), service, id)
    {
      byService := AddToByService(byService, service, id);
      ghost var was := byService;
      var neighbors := topo(service);
      for i := 0 to |neighbors|
        invariant byService == AddAll(was, neighbors[..i], id)
      {
        assert neighbors[..i + 1][..i] == neighbors[..i];
        byService := AddToByService(byService, neighbors[i], id);
      }
      assert neighbors[..|neighbors|] == neighbors;
    }

    /** The highest of the scores, in whatever order the map yields them. */
    static method TopScore(m: map<string, real>) returns (top: real)
      ensures IsTop(m, top)
    {
      top := 0.0;
      var todo := m.Keys;
      while todo != {}
        invariant todo <= m.Keys && top >= 0.0
        invariant forall s <- m :: s in todo || m[s] <= top
        invariant top == 0.0 || exists s <- m :: m[s] == top
        decreases |todo|
      {
        var s :| s in todo;
        todo := todo - {s};
        if m[s] > top { top := m[s]; }
      }
    }

    method AttachEvent(id: nat, e: Event)
      requires id in incidents
      modifies this`incidents, this`byService, this`scores
      ensures id in incidents && Attaches(cfg, topo, old(Current()), id, e, Current())
    {
      hide Raised, Registered, IsTop, Updated;
      ghost var was := Current();
      var inc := incidents[id];
      if e.service !in inc.services {
        RegisterServiceForIncident(id, e.service);
      }
      var own := RaiseScore(if id in scores then scores[id] else map[], e.service, e.score);
      scores := scores[id := own];
      var top := TopScore(own);
      inc := Refreshed(cfg, inc, e, top);
      incidents := incidents[id := inc];
      assert Current() == AttachedWith(cfg, topo, was, id, e, top);
    }

    /** The incident's own fields after the event. */
    static method Refreshed(cfg: Config, inc: Incident, e: Event, top: real) returns (r: Incident)
      ensures r == Updated(cfg, inc, e, top)
    {
      hide LastOf, Score;
      var eventIDs := Trimmed(inc.eventIDs + [e.id], cfg.maxEventsPerIncident);
      var services := inc.services;
      if e.service !in services { services := services + [e.service]; }
      var provisional := inc.provisional || e.provisional;
      r := inc.(services := services, eventIDs := eventIDs, provisional := provisional,
                score := Score(top, |services|, provisional),
                lastSeen := if e.createdAt > inc.lastSeen then e.createdAt else inc.lastSeen, updatedAt := e.createdAt);
    }

    static method Trimmed(ids: seq<string>, n: nat) returns (r: seq<string>)
      ensures r == LastOf(ids, n)
    {
      r := ids;
      if |r| > n { r := r[|r| - n..]; }
    }

    static method RaiseScore(m: map<string, real>, s: string, score: real) returns (r: map<string, real>)
      ensures r == Raised(m, s, score)
    {
      r := m;
      if score > (if s in m then m[s] else 0.0) { r := r[s := score]; }
    }

    method EnforceMaxOpenIncidents(now: int)
      modifies this`incidents, this`closedAt
      ensures Enforced(cfg, old(Current()), now, Current())
    {
      var lowest: Option<nat>, open := CountOpen(incidents);
      if open > cfg.maxOpenIncidents && lowest.Some? {
        var v := lowest.value;
        incidents := incidents[v := incidents[v].(status := Expired)];
        closedAt := closedAt[v := now];
      }
    }

    static method CountOpen(incidents: map<nat, Incident>) returns (lowest: Option<nat>, open: nat)
      ensures open == |OpenSet(incidents)|
      ensures if OpenSet(incidents) == {} then lowest == None
              else lowest.Some? && lowest.value in incidents && IsLowest(incidents, lowest.value)
    {
      hide OpenSet, Scanned, IsLowest;
      lowest, open := None, 0;
      var todo := incidents.Keys;
      ScanStarts(incidents);
      while todo != {}
        invariant Scanned(incidents, todo, lowest, open)
        decreases |todo|
      {
        var id :| id in todo;
        ScanStep(incidents, todo, lowest, open, id);
        todo := todo - {id};
        if IsOpen(incidents[id].status) {
          open := open + 1;
          if lowest == None || incidents[id].score < incidents[lowest.value].score { lowest := Some(id); }
        }
      }
      ScanEnds(incidents, lowest, open);
    }

    static method Find(cfg: Config, incidents: map<nat, Incident>, ids: seq<nat>, e: Event) returns (found: Option<nat>)
      ensures found == FirstInWindow(cfg, incidents, ids, e)
    {
      for i := 0 to |ids|
        invariant FirstInWindow(cfg, incidents, ids, e) == FirstInWindow(cfg, incidents, ids[i..], e)
      {
        if ids[i] in incidents && InWindow(cfg, incidents[ids[i]], e) { return Some(ids[i]); }
      }
      return None;
    }

    method Rejoin(id: nat, e: Event)
      requires id in incidents
      modifies this`incidents, this`byService, this`scores
      ensures Rejoined(cfg, topo, old(Current()), id, e, Current())
    {
      hide Attaches;
      AttachEvent(id, e);
      ghost var mid := Current();
      incidents := incidents[id := incidents[id].(suppressedBy := ByIncident(id))];
      assert Current() == MarkedRepeat(mid, id);
    }

    method Join(id: nat, e: Event, fp: string)
      requires id in incidents
      modifies this`incidents, this`byService, this`scores, this`byFingerprint
      ensures Joined(cfg, topo, old(Current()), id, e, fp, Current())
    {
      hide Attaches;
      AttachEvent(id, e);
      ghost var mid := Current();
      if incidents[id].fingerprint == "" { incidents := incidents[id := incidents[id].(fingerprint := fp)]; }
      byFingerprint := byFingerprint[fp := id];
      assert Current() == Labelled(mid, id, fp, false);
    }

    method OpenIncident(e: Event, fp: string, now: int) returns (id: nat)
      modifies this
      ensures id == old(last) + 1 && OpenedNew(cfg, topo, old(Current()), e, fp, now, Current())
    {
      hide Attaches, Enforced;
      ghost var was := Current();
      last := last + 1;
      id := last;
      incidents := incidents[id := Fresh(e)];
      assert Current() == Opened(was, e);
      AttachEvent(id, e);
      ghost var mid := Current();
      incidents := incidents[id := incidents[id].(fingerprint := fp)];
      byFingerprint := byFingerprint[fp := id];
      assert Current() == Labelled(mid, id, fp, true);
      EnforceMaxOpenIncidents(now);
    }

    method Add(e: Event, now: int) returns (id: nat, isNew: bool)
      requires Valid()
      modifies this
      ensures Valid()
      ensures Added(cfg, topo, old(Current()), e, fingerprint(e), now, Current(), id, isNew)
    {
      hide Consistent, Rejoined, Joined, OpenedNew, OpenSet, Cap, FirstInWindow;
      ghost var was := Current();
      var fp := fingerprint(e);
      if fp in byFingerprint && byFingerprint[fp] in incidents {
        id := byFingerprint[fp];
        var eligible := IsOpen(incidents[id].status);
        if !eligible && id in closedAt && e.createdAt - closedAt[id] <= cfg.dedupeTTL { eligible := true; }
        if eligible {
          isNew := false;
          Rejoin(id, e);
          AddKeeps(cfg, topo, was, e, fp, now, Current(), id, isNew);
          return;
        }
      }
      isNew := true;
      var ids := if e.service in byService then byService[e.service] else [];
      var found := Find(cfg, incidents, ids, e);
      FirstFinds(cfg, incidents, ids, e);
      if found.Some? {
        id := found.value;
        Join(id, e, fp);
      } else {
        id := OpenIncident(e, fp, now);
      }
      AddKeeps(cfg, topo, was, e, fp, now, Current(), id, isNew);
    }

    method Suppress(id: nat, reason: string, now: int) returns (ok: bool)
      requires Valid()
      modifies this`incidents, this`closedAt
      ensures Valid() && ok == (id in old(incidents))
      ensures Current() == if ok then old(Suppressing(Current(), id, reason, now)) else old(Current())
    {
      if id !in incidents { return false; }
      SuppressKeeps(topo, Current(), id, reason, now);
      incidents := incidents[id := incidents[id].(status := Suppressed, suppressedBy := ByReason(reason))];
      closedAt := closedAt[id := now];
      return true;
    }
  }

  function Suppressing(st: State, id: nat, reason: string, now: int): State {
    if id in st.incidents then
      st.(incidents := st.incidents[id := st.incidents[id].(status := Suppressed, suppressedBy := ByReason(reason))],
          closedAt := st.closedAt[id := now])
    else st
  }

  lemma SuppressKeeps(topo: Topology, st: State, id: nat, reason: string, now: int)
    requires Consistent(topo, st) && id in st.incidents
    ensures Consistent(topo, Suppressing(st, id, reason, now))
    ensures |OpenSet(Suppressing(st, id, reason, now).incidents)| <= |OpenSet(st.incidents)|
  {
    hide Consistent;
    CloseKeeps(topo, st, id, Suppressed, now);
    var mid, t := Closed(st, id, Suppressed, now), Suppressing(st, id, reason, now);
    RelabelKeeps(topo, mid, t, id);
    Fewer(OpenSet(st.incidents), id);
  }

  lemma Fewer(s: set<nat>, x: nat)
    ensures |s - {x}| <= |s|
  {
    if x !in s { assert s - {x} == s; }
  }
}
