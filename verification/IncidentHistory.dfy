/** What an incident says of the events attached to it, over any sequence of Add and Suppress. */
module IncidentHistory {
  import opened IncidentGrouper

  // ---------- Facts about a sequence of events ----------

  function ServicesOf(es: seq<Event>): set<string> { set e | e in es :: e.service }

  function IDsOf(es: seq<Event>): seq<string> {
    if es == [] then [] else IDsOf(es[..|es| - 1]) + [es[|es| - 1].id]
  }

  /** The last n of them, or all if there are no more. */
  function Tail(ids: seq<string>, n: nat): seq<string> { if |ids| <= n then ids else ids[|ids| - n..] }

  /** top is the highest of these scores, or zero if none is above it. */
  ghost predicate IsHighest(es: seq<Event>, top: real) {
    top >= 0.0 && (forall e <- es :: e.score <= top) && (top == 0.0 || exists e <- es :: e.score == top)
  }

  /** The score of n services with this top score: five hundredths more for each further service,
      between 0 and 1, and at most 0.69 while provisional. */
  function Weighed(top: real, n: nat, provisional: bool): real {
    var raw := top + top * 5.0 / 100.0 * (n as real - 1.0);
    var most := if provisional then 0.69 else 1.0;
    if raw <= 0.0 then 0.0 else if raw >= most then most else raw
  }

  // ---------- One incident ----------

  ghost predicate NoRepeat(services: seq<string>) {
    forall i, j :: 0 <= i < j < |services| ==> services[i] != services[j]
  }

  ghost predicate BestScores(scores: map<string, real>, es: seq<Event>) {
    (forall s <- scores :: scores[s] > 0.0 && exists e <- es :: e.service == s && e.score == scores[s]) &&
    forall e <- es :: e.score > 0.0 ==> e.service in scores && e.score <= scores[e.service]
  }

  /** The incident is what these events make of it. */
  ghost predicate Tells(cfg: Config, inc: Incident, scores: map<string, real>, es: seq<Event>) {
    es != [] &&
    inc.updatedAt == es[|es| - 1].createdAt &&
    (forall e <- es :: e.createdAt <= inc.lastSeen) && (exists e <- es :: e.createdAt == inc.lastSeen) &&
    inc.eventIDs == Tail(IDsOf(es), cfg.maxEventsPerIncident) &&
    (set s | s in inc.services) == ServicesOf(es) && NoRepeat(inc.services) &&
    (inc.provisional <==> exists e <- es :: e.provisional) && BestScores(scores, es) &&
    exists top :: IsHighest(es, top) && inc.score == Weighed(top, |inc.services|, inc.provisional)
  }

  lemma ServicesGrow(services: seq<string>, es: seq<Event>, e: Event)
    requires (set s | s in services) == ServicesOf(es) && NoRepeat(services)
    ensures (set s | s in Grown(services, e.service)) == ServicesOf(es + [e]) && NoRepeat(Grown(services, e.service))
  {
    assert forall x :: x in es + [e] <==> x in es || x == e;
    assert ServicesOf(es + [e]) == ServicesOf(es) + {e.service};
    var more := Grown(services, e.service);
    assert (set s | s in more) == (set s | s in services) + {e.service};
  }

  lemma TailGrows(ids: seq<string>, x: string, n: nat)
    ensures Tail(ids + [x], n) == LastOf(Tail(ids, n) + [x], n)
  {
  }

  lemma IDsGrow(es: seq<Event>, e: Event)
    ensures IDsOf(es + [e]) == IDsOf(es) + [e.id]
  {
    assert (es + [e])[..|es|] == es;
  }

  lemma ScoresGrow(scores: map<string, real>, es: seq<Event>, e: Event)
    requires BestScores(scores, es)
    ensures BestScores(Raised(scores, e.service, e.score), es + [e])
  {
    var more := Raised(scores, e.service, e.score);
    forall s | s in more ensures more[s] > 0.0 && exists x <- es + [e] :: x.service == s && x.score == more[s] {
      if s in scores && more[s] == scores[s] {
        var x :| x in es && x.service == s && x.score == scores[s];
        assert x in es + [e];
      } else {
        assert e in es + [e];
      }
    }
    forall x | x in es + [e] && x.score > 0.0 ensures x.service in more && x.score <= more[x.service] {
      assert x in es || x == e;
    }
  }

  lemma TopIsHighest(scores: map<string, real>, es: seq<Event>, top: real)
    requires BestScores(scores, es) && IsTop(scores, top)
    ensures IsHighest(es, top)
  {
    forall e | e in es ensures e.score <= top {
    }
    if top != 0.0 {
      var s :| s in scores && scores[s] == top;
      var e :| e in es && e.service == s && e.score == scores[s];
    }
  }

  lemma ScoreIsWeighed(top: real, n: nat, provisional: bool)
    ensures Score(top, n, provisional) == Weighed(top, n, provisional)
  {
    var k := n as real - 1.0;
    assert top * (1.0 + 0.05 * k) == top + top * 0.05 * k;
    assert top * 5.0 / 100.0 == top * 0.05;
  }

  /** One event more. */
  lemma AttachTells(cfg: Config, inc: Incident, scores: map<string, real>, es: seq<Event>, e: Event, top: real)
    requires Tells(cfg, inc, scores, es) && IsTop(Raised(scores, e.service, e.score), top)
    ensures Tells(cfg, Updated(cfg, inc, e, top), Raised(scores, e.service, e.score), es + [e])
  {
    ServicesGrow(inc.services, es, e);
    TailGrows(IDsOf(es), e.id, cfg.maxEventsPerIncident);
    IDsGrow(es, e);
    ScoresGrow(scores, es, e);
    TopIsHighest(Raised(scores, e.service, e.score), es + [e], top);
    var next := Updated(cfg, inc, e, top);
    ScoreIsWeighed(top, |next.services|, next.provisional);
    hide BestScores, NoRepeat, IDsOf, Tail, LastOf, Grown, ServicesOf, Score, Weighed, Raised, IsTop, IsHighest;
    FlagsGrow(inc, es, e, next);
  }

  lemma FlagsGrow(inc: Incident, es: seq<Event>, e: Event, next: Incident)
    requires (forall x <- es :: x.createdAt <= inc.lastSeen) && (exists x <- es :: x.createdAt == inc.lastSeen)
    requires inc.provisional <==> exists x <- es :: x.provisional
    requires next.provisional == (inc.provisional || e.provisional)
    requires next.lastSeen == if e.createdAt > inc.lastSeen then e.createdAt else inc.lastSeen
    ensures forall x <- es + [e] :: x.createdAt <= next.lastSeen
    ensures exists x <- es + [e] :: x.createdAt == next.lastSeen
    ensures next.provisional <==> exists x <- es + [e] :: x.provisional
  {
    var more := es + [e];
    assert forall x :: x in more <==> x in es || x == e;
    var y :| y in es && y.createdAt == inc.lastSeen;
    assert y in more && e in more;
    if next.provisional && !e.provisional {
      var z :| z in es && z.provisional;
      assert z in more;
    }
  }

  /** The first event of a new incident. */
  lemma FirstTells(cfg: Config, e: Event, top: real)
    requires IsTop(Raised(map[], e.service, e.score), top)
    ensures Tells(cfg, Updated(cfg, Fresh(e), e, top), Raised(map[], e.service, e.score), [e])
  {
    NoScores();
    hide BestScores, Score, Weighed, IsTop, IsHighest, Raised;
    assert [] + [e] == [e];
    IDsGrow([], e);
    TailGrows([], e.id, cfg.maxEventsPerIncident);
    ScoresGrow(map[], [], e);
    TopIsHighest(Raised(map[], e.service, e.score), [e], top);
    var next := Updated(cfg, Fresh(e), e, top);
    ScoreIsWeighed(top, |next.services|, next.provisional);
    assert e in [e] && next.services == [e.service];
    assert ServicesOf([e]) == {e.service};
  }

  lemma NoScores()
    ensures BestScores(map[], [])
  {
  }

  // ---------- The whole grouper ----------

  type History = map<nat, seq<Event>>

  ghost predicate AllTell(cfg: Config, st: State, h: History) {
    st.scores.Keys <= st.incidents.Keys && (forall id <- st.incidents :: id <= st.last) &&
    forall id <- st.incidents :: id in h && Tells(cfg, st.incidents[id], ScoresOf(st.scores, id), h[id])
  }

  function Grew(h: History, id: nat, e: Event): History { h[id := (if id in h then h[id] else []) + [e]] }

  lemma AttachesTell(cfg: Config, topo: Topology, st: State, id: nat, e: Event, mid: State, h: History)
    requires AllTell(cfg, st, h) && id in st.incidents && Attaches(cfg, topo, st, id, e, mid)
    ensures AllTell(cfg, mid, Grew(h, id, e))
  {
    hide Tells, AttachedWith, Updated, Raised, IsTop, ScoresOf;
    var top :| IsTop(Raised(ScoresOf(st.scores, id), e.service, e.score), top) &&
               mid == AttachedWith(cfg, topo, st, id, e, top);
    AttachTells(cfg, st.incidents[id], ScoresOf(st.scores, id), h[id], e, top);
    AttachedParts(cfg, topo, st, id, e, top);
  }

  lemma AttachedParts(cfg: Config, topo: Topology, st: State, id: nat, e: Event, top: real)
    requires id in st.incidents
    ensures var mid := AttachedWith(cfg, topo, st, id, e, top);
            var raised := Raised(ScoresOf(st.scores, id), e.service, e.score);
            && mid.incidents == st.incidents[id := Updated(cfg, st.incidents[id], e, top)] && mid.last == st.last
            && mid.scores.Keys == st.scores.Keys + {id}
            && forall j: nat :: ScoresOf(mid.scores, j) == if j == id then raised else ScoresOf(st.scores, j)
  {
    hide Updated, Raised, Registered;
  }

  /** A new incident, opened and given its event. */
  lemma OpensTell(cfg: Config, topo: Topology, st: State, e: Event, mid: State, h: History)
    requires AllTell(cfg, st, h) && st.last + 1 !in h && Attaches(cfg, topo, Opened(st, e), st.last + 1, e, mid)
    ensures AllTell(cfg, mid, Grew(h, st.last + 1, e))
  {
    hide Tells, AttachedWith, Updated, Raised, IsTop;
    var id, at := st.last + 1, Opened(st, e);
    assert id !in st.incidents && ScoresOf(at.scores, id) == map[] && at.incidents[id] == Fresh(e);
    assert forall j <- st.incidents :: j != id && at.incidents[j] == st.incidents[j];
    hide ScoresOf, Fresh;
    var top :| IsTop(Raised(ScoresOf(at.scores, id), e.service, e.score), top) &&
               mid == AttachedWith(cfg, topo, at, id, e, top);
    FirstTells(cfg, e, top);
    assert [] + [e] == [e];
    AttachedParts(cfg, topo, at, id, e, top);
  }

  /** Labels, statuses and suppression change nothing that an incident tells. */
  lemma RelabelTells(cfg: Config, st: State, next: State, h: History)
    requires AllTell(cfg, st, h) && next.incidents.Keys == st.incidents.Keys
    requires next.scores == st.scores && next.last == st.last
    requires forall id <- st.incidents ::
               var a, b := st.incidents[id], next.incidents[id];
               b == a.(status := b.status, fingerprint := b.fingerprint, suppressedBy := b.suppressedBy)
    ensures AllTell(cfg, next, h)
  {
    forall id | id in next.incidents
      ensures id in h && Tells(cfg, next.incidents[id], ScoresOf(next.scores, id), h[id])
    {
      SameTells(cfg, st.incidents[id], next.incidents[id], ScoresOf(st.scores, id), h[id]);
    }
  }

  lemma SameTells(cfg: Config, a: Incident, b: Incident, scores: map<string, real>, es: seq<Event>)
    requires Tells(cfg, a, scores, es)
    requires b == a.(status := b.status, fingerprint := b.fingerprint, suppressedBy := b.suppressedBy)
    ensures Tells(cfg, b, scores, es)
  {
  }

  lemma AddTells(cfg: Config, topo: Topology, st: State, e: Event, fp: string, now: int, next: State, id: nat,
                 isNew: bool, h: History)
    requires AllTell(cfg, st, h) && h.Keys == st.incidents.Keys && Added(cfg, topo, st, e, fp, now, next, id, isNew)
    ensures AllTell(cfg, next, Grew(h, id, e)) && Grew(h, id, e).Keys == next.incidents.Keys
  {
    hide AllTell, FirstInWindow, Rejoins, Listed, Rejoined, Joined, OpenedNew, Grew;
    if Rejoins(cfg, st, fp, e) {
      RejoinTells(cfg, topo, st, e, next, id, h);
    } else if FirstInWindow(cfg, st.incidents, Listed(st.byService, e.service), e).Some? {
      JoinTells(cfg, topo, st, e, fp, next, id, h);
    } else {
      OpenTells(cfg, topo, st, e, fp, now, next, h);
    }
  }

  lemma RejoinTells(cfg: Config, topo: Topology, st: State, e: Event, next: State, id: nat, h: History)
    requires AllTell(cfg, st, h) && h.Keys == st.incidents.Keys && Rejoined(cfg, topo, st, id, e, next)
    ensures AllTell(cfg, next, Grew(h, id, e)) && Grew(h, id, e).Keys == next.incidents.Keys
  {
    hide AllTell, Attaches;
    var mid :| Attaches(cfg, topo, st, id, e, mid) && id in mid.incidents && next == MarkedRepeat(mid, id);
    AttachesTell(cfg, topo, st, id, e, mid, h);
    AttachesKeys(cfg, topo, st, id, e, mid);
    RelabelTells(cfg, mid, next, Grew(h, id, e));
  }

  lemma JoinTells(cfg: Config, topo: Topology, st: State, e: Event, fp: string, next: State, id: nat, h: History)
    requires AllTell(cfg, st, h) && h.Keys == st.incidents.Keys && Joined(cfg, topo, st, id, e, fp, next)
    ensures AllTell(cfg, next, Grew(h, id, e)) && Grew(h, id, e).Keys == next.incidents.Keys
  {
    hide AllTell, Attaches;
    var mid :| Attaches(cfg, topo, st, id, e, mid) && id in mid.incidents && next == Labelled(mid, id, fp, false);
    AttachesTell(cfg, topo, st, id, e, mid, h);
    AttachesKeys(cfg, topo, st, id, e, mid);
    RelabelTells(cfg, mid, next, Grew(h, id, e));
  }

  lemma OpenTells(cfg: Config, topo: Topology, st: State, e: Event, fp: string, now: int, next: State, h: History)
    requires AllTell(cfg, st, h) && h.Keys == st.incidents.Keys && OpenedNew(cfg, topo, st, e, fp, now, next)
    ensures AllTell(cfg, next, Grew(h, st.last + 1, e)) && Grew(h, st.last + 1, e).Keys == next.incidents.Keys
  {
    hide AllTell, Attaches, Enforced;
    var id := st.last + 1;
    var mid :| Attaches(cfg, topo, Opened(st, e), id, e, mid) && id in mid.incidents &&
      Enforced(cfg, Labelled(mid, id, fp, true), now, next);
    NewNumber(cfg, st, h);
    OpensTell(cfg, topo, st, e, mid, h);
    AttachesKeys(cfg, topo, Opened(st, e), id, e, mid);
    RelabelTells(cfg, mid, Labelled(mid, id, fp, true), Grew(h, id, e));
    EnforcedTells(cfg, Labelled(mid, id, fp, true), now, next, Grew(h, id, e));
  }

  lemma NewNumber(cfg: Config, st: State, h: History)
    requires AllTell(cfg, st, h) && h.Keys == st.incidents.Keys
    ensures st.last + 1 !in h && st.last + 1 !in st.incidents
  {
  }

  lemma AttachesKeys(cfg: Config, topo: Topology, st: State, id: nat, e: Event, mid: State)
    requires id in st.incidents && Attaches(cfg, topo, st, id, e, mid)
    ensures mid.incidents.Keys == st.incidents.Keys
  {
    hide Updated, Raised, Registered, IsTop;
  }

  lemma EnforcedTells(cfg: Config, st: State, now: int, next: State, h: History)
    requires AllTell(cfg, st, h) && Enforced(cfg, st, now, next)
    ensures AllTell(cfg, next, h) && next.incidents.Keys == st.incidents.Keys
  {
    hide AllTell, OpenSet, IsLowest;
    if next != st { RelabelTells(cfg, st, next, h); }
  }

  // ---------- Which incident an event joins ----------

  /** The incident is open, and its last event is no older than the grouping window. */
  predicate Recent(cfg: Config, inc: Incident, es: seq<Event>, e: Event) {
    inc.status in {Candidate, Investigating, Reported, Paging} && es != [] && es[|es| - 1].createdAt != 0 &&
    e.createdAt - es[|es| - 1].createdAt <= cfg.window
  }

  /** Some service of the incident is the event's or has it in its neighbourhood. */
  predicate NearTo(topo: Topology, inc: Incident, e: Event) {
    exists s <- inc.services :: s == e.service || e.service in topo(s)
  }

  /** The fingerprint names an incident that is open or was closed no longer ago than the time to live. */
  predicate Repeats(cfg: Config, st: State, fp: string, e: Event) {
    fp in st.byFingerprint && st.byFingerprint[fp] in st.incidents &&
    var id := st.byFingerprint[fp];
    st.incidents[id].status in {Candidate, Investigating, Reported, Paging} ||
    (id in st.closedAt && e.createdAt <= st.closedAt[id] + cfg.dedupeTTL)
  }

  /** An event that repeats a known fingerprint goes back to its incident and is not new. Any other
      is new, and joins an incident that is there exactly when some open incident has a recent event
      and a service near the event's; the one it joins is of that kind. */
  lemma JoinsExactly(cfg: Config, topo: Topology, st: State, e: Event, fp: string, now: int, next: State, id: nat,
                     isNew: bool, h: History)
    requires Consistent(topo, st) && AllTell(cfg, st, h) && Added(cfg, topo, st, e, fp, now, next, id, isNew)
    ensures isNew <==> !Repeats(cfg, st, fp, e)
    ensures !isNew ==> id == st.byFingerprint[fp]
    ensures isNew ==>
              (id in st.incidents <==>
                 exists j <- st.incidents ::
                   Recent(cfg, st.incidents[j], h[j], e) && NearTo(topo, st.incidents[j], e))
    ensures isNew && id in st.incidents ==>
              Recent(cfg, st.incidents[id], h[id], e) && NearTo(topo, st.incidents[id], e)
  {
    hide Consistent, Joined, Rejoined, OpenedNew, InWindow, Covers, FirstInWindow, Recent, NearTo, Tells;
    LookupIsFullScan(cfg, topo, st, e);
    forall j | j in st.incidents
      ensures InWindow(cfg, st.incidents[j], e) <==> Recent(cfg, st.incidents[j], h[j], e)
      ensures Covers(topo, st.incidents[j].services, e.service) <==> NearTo(topo, st.incidents[j], e)
    {
      SameWindow(cfg, st.incidents[j], ScoresOf(st.scores, j), h[j], e);
      SameCover(topo, st.incidents[j], e);
    }
  }

  lemma SameWindow(cfg: Config, inc: Incident, scores: map<string, real>, es: seq<Event>, e: Event)
    requires Tells(cfg, inc, scores, es)
    ensures InWindow(cfg, inc, e) <==> Recent(cfg, inc, es, e)
  {
  }

  lemma SameCover(topo: Topology, inc: Incident, e: Event)
    ensures Covers(topo, inc.services, e.service) <==> NearTo(topo, inc, e)
  {
    if Covers(topo, inc.services, e.service) {
      var i :| 0 <= i < |inc.services| && Near(topo, inc.services[i], e.service);
      assert inc.services[i] in inc.services;
    }
    if NearTo(topo, inc, e) {
      var s :| s in inc.services && (s == e.service || e.service in topo(s));
      var i :| 0 <= i < |inc.services| && inc.services[i] == s;
      assert Near(topo, inc.services[i], e.service);
    }
  }

  // ---------- Every run ----------

  datatype Op = Add(e: Event, fp: string, now: int, id: nat, isNew: bool) | Suppress(id: nat, reason: string, now: int)

  /** What the grouper's methods promise of the state after a call; id and isNew are Add's answer. */
  ghost predicate Steps(cfg: Config, topo: Topology, st: State, op: Op, next: State) {
    match op
    case Add(e, fp, now, id, isNew) => Added(cfg, topo, st, e, fp, now, next, id, isNew)
    case Suppress(id, reason, now) => next == Suppressing(st, id, reason, now)
  }

  ghost predicate IsRun(cfg: Config, topo: Topology, ops: seq<Op>, states: seq<State>) {
    |states| == |ops| + 1 && states[0] == Start &&
    forall n: nat {:trigger Follows(cfg, topo, ops, states, n)} :: n < |ops| ==> Follows(cfg, topo, ops, states, n)
  }

  ghost predicate Follows(cfg: Config, topo: Topology, ops: seq<Op>, states: seq<State>, n: nat)
    requires n < |ops| && |states| == |ops| + 1
  {
    Steps(cfg, topo, states[n], ops[n], states[n + 1])
  }

  /** The events each incident has been given by the first n operations, oldest first. */
  function HistoryAt(ops: seq<Op>, n: nat): History
    requires n <= |ops|
  {
    if n == 0 then map[]
    else
      var op := ops[n - 1];
      if op.Add? then Grew(HistoryAt(ops, n - 1), op.id, op.e) else HistoryAt(ops, n - 1)
  }

  /** Over every run each incident is what the events it was given make of it: the last ids, the
      services once each, provisional if any of them was, last seen at the latest and updated at
      the last, and the score of its services and of the highest event score. */
  lemma {:induction false} IncidentsTell(cfg: Config, topo: Topology, ops: seq<Op>, states: seq<State>, n: nat)
    requires IsRun(cfg, topo, ops, states) && n <= |ops|
    ensures AllTell(cfg, states[n], HistoryAt(ops, n)) && HistoryAt(ops, n).Keys == states[n].incidents.Keys
    decreases n
  {
    hide AllTell, Added, Start;
    if n == 0 {
      NothingTold(cfg);
    } else {
      IncidentsTell(cfg, topo, ops, states, n - 1);
      assert Follows(cfg, topo, ops, states, n - 1);
      var st, op, next, h := states[n - 1], ops[n - 1], states[n], HistoryAt(ops, n - 1);
      match op
      case Add(e, fp, now, id, isNew) => AddTells(cfg, topo, st, e, fp, now, next, id, isNew, h);
      case Suppress(id, reason, now) => if id in st.incidents { RelabelTells(cfg, st, next, h); }
    }
  }

  lemma NothingTold(cfg: Config)
    ensures AllTell(cfg, Start, map[]) && Start.incidents == map[]
  {
  }

  // ---------- Labels and closings over every run ----------

  /** The incident that each fingerprint was last seen in. */
  function SeenIn(ops: seq<Op>, n: nat): map<string, nat>
    requires n <= |ops|
  {
    if n == 0 then map[]
    else if ops[n - 1].Add? then SeenIn(ops, n - 1)[ops[n - 1].fp := ops[n - 1].id]
    else SeenIn(ops, n - 1)
  }

  /** The first fingerprint, "" not counting, among the events given to each incident. */
  function FirstLabels(ops: seq<Op>, n: nat): map<nat, string>
    requires n <= |ops|
  {
    if n == 0 then map[]
    else if ops[n - 1].Add? then Relabelled(FirstLabels(ops, n - 1), ops[n - 1].id, ops[n - 1].fp)
    else FirstLabels(ops, n - 1)
  }

  function Relabelled(names: map<nat, string>, id: nat, fp: string): map<nat, string> {
    if id in names && names[id] != "" then names else names[id := fp]
  }

  /** Fingerprints lead to where they were last seen, and an incident bears its first. */
  ghost predicate Labels(st: State, seen: map<string, nat>, names: map<nat, string>) {
    st.byFingerprint == seen && names.Keys == st.incidents.Keys &&
    (forall id <- names :: st.incidents[id].fingerprint == names[id]) &&
    forall fp <- seen :: seen[fp] in names && (fp == "" || names[seen[fp]] != "")
  }

  /** Closed incidents, and no others, have a closing time; nothing is anything else. */
  ghost predicate Closings(st: State) {
    (forall id <- st.incidents :: st.incidents[id].status in {Candidate, Suppressed, Expired}) &&
    forall id: nat :: id in st.closedAt <==> id in st.incidents && st.incidents[id].status != Candidate
  }

  /** Attaching an event changes no label, status or closing. */
  ghost predicate SameStanding(a: State, b: State) {
    b.byFingerprint == a.byFingerprint && b.closedAt == a.closedAt && b.incidents.Keys == a.incidents.Keys &&
    forall id <- a.incidents :: b.incidents[id].fingerprint == a.incidents[id].fingerprint &&
                                b.incidents[id].status == a.incidents[id].status
  }

  lemma AttachesStands(cfg: Config, topo: Topology, st: State, id: nat, e: Event, mid: State)
    requires id in st.incidents && Attaches(cfg, topo, st, id, e, mid)
    ensures SameStanding(st, mid)
  {
    hide Raised, Registered, IsTop, Score, Grown, LastOf;
  }

  lemma StandingKeeps(a: State, b: State, seen: map<string, nat>, names: map<nat, string>)
    requires SameStanding(a, b)
    ensures Labels(a, seen, names) ==> Labels(b, seen, names)
    ensures Closings(a) ==> Closings(b)
  {
  }

  lemma RepeatStands(st: State, id: nat)
    requires id in st.incidents
    ensures SameStanding(st, MarkedRepeat(st, id))
  {
  }

  lemma RejoinLabels(cfg: Config, topo: Topology, st: State, e: Event, fp: string, next: State, id: nat,
                     seen: map<string, nat>, names: map<nat, string>)
    requires Labels(st, seen, names) && Closings(st)
    requires fp in st.byFingerprint && id == st.byFingerprint[fp] && Rejoined(cfg, topo, st, id, e, next)
    ensures Labels(next, seen[fp := id], Relabelled(names, id, fp)) && Closings(next)
  {
    KnownLabel(st, fp, seen, names);
    hide Attaches, Labels, Closings, SameStanding, MarkedRepeat;
    var mid :| Attaches(cfg, topo, st, id, e, mid) && id in mid.incidents && next == MarkedRepeat(mid, id);
    AttachesStands(cfg, topo, st, id, e, mid);
    StandingKeeps(st, mid, seen, names);
    RepeatStands(mid, id);
    StandingKeeps(mid, next, seen, names);
  }

  /** A fingerprint that leads to an incident adds nothing to its label. */
  lemma KnownLabel(st: State, fp: string, seen: map<string, nat>, names: map<nat, string>)
    requires Labels(st, seen, names) && fp in st.byFingerprint
    ensures seen[fp := st.byFingerprint[fp]] == seen && Relabelled(names, st.byFingerprint[fp], fp) == names
  {
  }

  lemma JoinLabels(cfg: Config, topo: Topology, st: State, e: Event, fp: string, next: State, id: nat,
                   seen: map<string, nat>, names: map<nat, string>)
    requires Labels(st, seen, names) && Closings(st)
    requires Joined(cfg, topo, st, id, e, fp, next)
    ensures Labels(next, seen[fp := id], Relabelled(names, id, fp)) && Closings(next)
  {
    hide Attaches, Labels, Closings, SameStanding, Labelled, Relabelled;
    var mid :| Attaches(cfg, topo, st, id, e, mid) && id in mid.incidents && next == Labelled(mid, id, fp, false);
    AttachesStands(cfg, topo, st, id, e, mid);
    StandingKeeps(st, mid, seen, names);
    LabelledKeeps(mid, id, fp, false, seen, names);
  }

  /** Writing the label, which is done whatever it was only when it was none. */
  lemma LabelledKeeps(st: State, id: nat, fp: string, always: bool, seen: map<string, nat>, names: map<nat, string>)
    requires id in st.incidents && (always ==> st.incidents[id].fingerprint == "")
    requires Labels(st, seen, names) && Closings(st)
    ensures Labels(Labelled(st, id, fp, always), seen[fp := id], Relabelled(names, id, fp))
    ensures Closings(Labelled(st, id, fp, always))
  {
  }

  lemma OpenedLabels(st: State, e: Event, fp: string, seen: map<string, nat>, names: map<nat, string>)
    requires (forall j <- st.incidents :: j <= st.last) && Labels(st, seen, names) && Closings(st)
    ensures Labels(Opened(st, e), seen, names[st.last + 1 := ""]) && Closings(Opened(st, e))
    ensures Relabelled(names[st.last + 1 := ""], st.last + 1, fp) == Relabelled(names, st.last + 1, fp)
  {
  }

  lemma OpenLabels(cfg: Config, topo: Topology, st: State, e: Event, fp: string, now: int, next: State,
                   seen: map<string, nat>, names: map<nat, string>)
    requires (forall j <- st.incidents :: j <= st.last) && Labels(st, seen, names) && Closings(st)
    requires OpenedNew(cfg, topo, st, e, fp, now, next)
    ensures Labels(next, seen[fp := st.last + 1], Relabelled(names, st.last + 1, fp)) && Closings(next)
  {
    var id, at := st.last + 1, Opened(st, e);
    OpenedLabels(st, e, fp, seen, names);
    assert at.incidents[id].fingerprint == "";
    hide Attaches, Enforced, Labels, Closings, Labelled, Relabelled, Opened;
    var mid :| Attaches(cfg, topo, at, id, e, mid) && id in mid.incidents &&
      Enforced(cfg, Labelled(mid, id, fp, true), now, next);
    AttachesStands(cfg, topo, at, id, e, mid);
    StandingKeeps(at, mid, seen, names[id := ""]);
    LabelledKeeps(mid, id, fp, true, seen, names[id := ""]);
    EnforcedStands(cfg, Labelled(mid, id, fp, true), now, next, seen[fp := id], Relabelled(names, id, fp));
  }

  /** What one event does to labels and closings. */
  lemma AddLabels(cfg: Config, topo: Topology, st: State, e: Event, fp: string, now: int, next: State, id: nat,
                  isNew: bool, seen: map<string, nat>, names: map<nat, string>)
    requires (forall j <- st.incidents :: j <= st.last) && Labels(st, seen, names) && Closings(st)
    requires Added(cfg, topo, st, e, fp, now, next, id, isNew)
    ensures Labels(next, seen[fp := id], Relabelled(names, id, fp)) && Closings(next)
  {
    hide FirstInWindow, Listed, Rejoined, Joined, OpenedNew, Labels, Closings;
    if Rejoins(cfg, st, fp, e) {
      RejoinLabels(cfg, topo, st, e, fp, next, id, seen, names);
    } else if FirstInWindow(cfg, st.incidents, Listed(st.byService, e.service), e).Some? {
      JoinLabels(cfg, topo, st, e, fp, next, id, seen, names);
    } else {
      OpenLabels(cfg, topo, st, e, fp, now, next, seen, names);
    }
  }

  lemma EnforcedStands(cfg: Config, st: State, now: int, next: State, seen: map<string, nat>, names: map<nat, string>)
    requires Enforced(cfg, st, now, next) && Closings(st) && Labels(st, seen, names)
    ensures Closings(next) && Labels(next, seen, names)
  {
    hide OpenSet, IsLowest;
  }

  /** Over every run a fingerprint leads to the incident it was last seen in, an incident bears the
      first fingerprint it was given, and exactly the suppressed and expired have a closing time. */
  lemma {:induction false} LabelsTell(cfg: Config, topo: Topology, ops: seq<Op>, states: seq<State>, n: nat)
    requires IsRun(cfg, topo, ops, states) && n <= |ops|
    ensures Labels(states[n], SeenIn(ops, n), FirstLabels(ops, n)) && Closings(states[n])
    decreases n
  {
    hide AllTell, Added, Labels, Closings, Start;
    if n == 0 {
      NoLabels();
    } else {
      LabelsTell(cfg, topo, ops, states, n - 1);
      IncidentsTell(cfg, topo, ops, states, n - 1);
      assert Follows(cfg, topo, ops, states, n - 1);
      var st, op, next := states[n - 1], ops[n - 1], states[n];
      NumbersKnown(cfg, st, HistoryAt(ops, n - 1));
      match op
      case Add(e, fp, now, id, isNew) =>
        AddLabels(cfg, topo, st, e, fp, now, next, id, isNew, SeenIn(ops, n - 1), FirstLabels(ops, n - 1));
      case Suppress(id, reason, now) =>
        SuppressLabels(st, id, reason, now, SeenIn(ops, n - 1), FirstLabels(ops, n - 1));
    }
  }

  lemma NoLabels()
    ensures Labels(Start, map[], map[]) && Closings(Start)
  {
  }

  lemma SuppressLabels(st: State, id: nat, reason: string, now: int, seen: map<string, nat>, names: map<nat, string>)
    requires Labels(st, seen, names) && Closings(st)
    ensures Labels(Suppressing(st, id, reason, now), seen, names) && Closings(Suppressing(st, id, reason, now))
  {
  }

  lemma NumbersKnown(cfg: Config, st: State, h: History)
    requires AllTell(cfg, st, h)
    ensures forall id <- st.incidents :: id <= st.last
  {
  }

  // ---------- Which incident expires ----------

  /** v, open until now, is the one incident whose status changed, and none that is open scores less. */
  ghost predicate OneExpired(open: set<nat>, next: State, v: nat) {
    v in open && open <= next.incidents.Keys && next.incidents[v].status == Expired &&
    forall j <- open :: next.incidents[v].score <= next.incidents[j].score &&
                        (j != v ==> next.incidents[j].status != Expired)
  }

  /** Only an event that opens an incident can close one: one of the lowest score, exactly when the
      open ones are then more than the cap. */
  lemma ExpiresByScore(cfg: Config, topo: Topology, st: State, e: Event, fp: string, now: int, next: State, id: nat,
                       isNew: bool)
    requires Numbered(st) && Added(cfg, topo, st, e, fp, now, next, id, isNew)
    ensures var open := OpenSet(st.incidents) + if id in st.incidents then {} else {id};
            if id !in st.incidents && |open| > cfg.maxOpenIncidents
            then exists v: nat :: OneExpired(open, next, v) && OpenSet(next.incidents) == open - {v}
            else OpenSet(next.incidents) == open
  {
    if id in st.incidents {
      OldOnesStand(cfg, topo, st, e, fp, now, next, id, isNew);
    } else {
      assert OpenedNew(cfg, topo, st, e, fp, now, next);
      NewOneOpen(cfg, topo, st, e, fp, now, next);
    }
  }

  lemma LabelOpen(st: State, id: nat, fp: string, always: bool)
    requires id in st.incidents
    ensures OpenSet(Labelled(st, id, fp, always).incidents) == OpenSet(st.incidents)
  {
    var next := Labelled(st, id, fp, always);
    assert next.incidents.Keys == st.incidents.Keys;
    SameOpen(st, next);
  }

  /** The same statuses. */
  lemma SameOpen(a: State, b: State)
    requires b.incidents.Keys == a.incidents.Keys
    requires forall id <- a.incidents :: b.incidents[id].status == a.incidents[id].status
    ensures OpenSet(b.incidents) == OpenSet(a.incidents)
  {
  }

  lemma OneMoreOpen(st: State, e: Event)
    requires Numbered(st)
    ensures OpenSet(Opened(st, e).incidents) == OpenSet(st.incidents) + {st.last + 1}
    ensures st.last + 1 in Opened(st, e).incidents
  {
  }

  lemma NewOneOpen(cfg: Config, topo: Topology, st: State, e: Event, fp: string, now: int, next: State)
    requires Numbered(st) && OpenedNew(cfg, topo, st, e, fp, now, next)
    ensures var open := OpenSet(st.incidents) + {st.last + 1};
            if |open| > cfg.maxOpenIncidents
            then exists v: nat :: OneExpired(open, next, v) && OpenSet(next.incidents) == open - {v}
            else OpenSet(next.incidents) == open
  {
    var id, at := st.last + 1, Opened(st, e);
    OneMoreOpen(st, e);
    hide Attaches, Enforced, Opened, OpenSet, OneExpired, Labelled;
    var mid :| Attaches(cfg, topo, at, id, e, mid) && id in mid.incidents &&
      Enforced(cfg, Labelled(mid, id, fp, true), now, next);
    AttachesStands(cfg, topo, at, id, e, mid);
    SameOpen(at, mid);
    LabelOpen(mid, id, fp, true);
    OneExpires(cfg, Labelled(mid, id, fp, true), now, next);
  }

  lemma OneExpires(cfg: Config, st: State, now: int, next: State)
    requires Enforced(cfg, st, now, next)
    ensures var open := OpenSet(st.incidents);
            if |open| > cfg.maxOpenIncidents && open != {}
            then exists v: nat :: OneExpired(open, next, v) && OpenSet(next.incidents) == open - {v}
            else OpenSet(next.incidents) == open
  {
    var open := OpenSet(st.incidents);
    if |open| > cfg.maxOpenIncidents && open != {} {
      var v :| v in st.incidents && IsLowest(st.incidents, v) && next == Closed(st, v, Expired, now);
      assert OpenSet(next.incidents) == open - {v};
      assert OneExpired(open, next, v);
    }
  }

  lemma OldOnesStand(cfg: Config, topo: Topology, st: State, e: Event, fp: string, now: int, next: State, id: nat,
                     isNew: bool)
    requires id in st.incidents && Numbered(st) && Added(cfg, topo, st, e, fp, now, next, id, isNew)
    ensures OpenSet(next.incidents) == OpenSet(st.incidents)
  {
    hide Attaches, FirstInWindow, Rejoins, OpenSet, OpenedNew, Listed;
    assert id != st.last + 1;
    var mid :| Attaches(cfg, topo, st, id, e, mid) && id in mid.incidents &&
      (next == MarkedRepeat(mid, id) || next == Labelled(mid, id, fp, false));
    AttachesStands(cfg, topo, st, id, e, mid);
    SameOpen(st, mid);
    RepeatStands(mid, id);
    SameOpen(mid, MarkedRepeat(mid, id));
    LabelOpen(mid, id, fp, false);
  }
}
