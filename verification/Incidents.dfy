/** The incident workflow: a table of incidents beside an append-only history. */
module Incidents {
  import opened Basics
  import opened PythonText

  type IncidentId = nat
  type EventId = nat
  type Time = nat

  datatype Status = New | Acknowledged | Investigating | Monitoring | Resolved | FalsePositive

  datatype Incident = Incident(
    eventId: EventId, status: Status, severity: string, protocol: Option<string>, owner: Option<string>,
    createdAt: Time, updatedAt: Time, dueAt: Time, acknowledgedAt: Option<Time>, closedAt: Option<Time>,
    disposition: Option<string>)

  datatype HistoryRow = HistoryRow(
    incident: IncidentId, from: Option<Status>, to: Status, actor: string, note: Option<string>, changedAt: Time)

  datatype Table = Table(incidents: map<IncidentId, Incident>, history: seq<HistoryRow>)

  const EMPTY_TABLE: Table := Table(map[], [])

  /** An event; `observedAt` is `None` when its timestamp does not parse. */
  datatype Event = Event(id: EventId, score: int, severity: string, observedAt: Option<Time>)

  datatype Error = MissingActor | UnknownIncident | InvalidTransition(previous: Status, status: Status)

  datatype Result<T> = Ok(value: T) | Err(error: Error)

  function Transitions(s: Status): set<Status> {
    match s
    case New => {Acknowledged, Investigating, FalsePositive}
    case Acknowledged => {Investigating, Monitoring, Resolved, FalsePositive}
    case Investigating => {Monitoring, Resolved, FalsePositive}
    case Monitoring => {Investigating, Resolved, FalsePositive}
    case Resolved => {}
    case FalsePositive => {}
  }

  predicate Terminal(s: Status) {
    s in {Resolved, FalsePositive}
  }

  predicate InHand(s: Status) {
    s in {Acknowledged, Investigating, Monitoring}
  }

  function Rank(s: Status): nat {
    match s
    case New => 0
    case Acknowledged => 1
    case Investigating => 2
    case Monitoring => 3
    case Resolved => 4
    case FalsePositive => 4
  }

  /** The workflow: only NEW and terminal statuses are never entered again or never left; work
      moves forward except from monitoring back to investigating; only an incident in hand is
      resolved, any open one may be a false positive, and only a new one is acknowledged. */
  lemma WorkflowShape(s: Status, t: Status)
    ensures Transitions(s) == {} <==> Terminal(s)
    ensures t in Transitions(s) ==> Rank(t) > Rank(s) || (s == Monitoring && t == Investigating)
    ensures New !in Transitions(s)
    ensures Acknowledged in Transitions(s) <==> s == New
    ensures Resolved in Transitions(s) <==> InHand(s)
    ensures FalsePositive in Transitions(s) <==> !Terminal(s)
    ensures Investigating in Transitions(s) <==> !Terminal(s) && s != Investigating
    ensures Monitoring in Transitions(s) <==> s in {Acknowledged, Investigating}
  {
  }

  // ----- text

  /** Python's `" ".join(s.split())`: words separated by single spaces. */
  function JoinedWords(s: string): string {
    if s == [] then []
    else
      var init, last := JoinedWords(s[..|s| - 1]), s[|s| - 1];
      if IsSpace(last) then init
      else if init == [] || (|s| > 1 && !IsSpace(s[|s| - 2])) then init + [last]
      else init + [' ', last]
  }

  lemma {:induction false} BlankOnly(s: string)
    ensures JoinedWords(s) == [] <==> forall i :: 0 <= i < |s| ==> IsSpace(s[i])
  {
    if s != [] {
      BlankOnly(s[..|s| - 1]);
    }
  }

  function Actor(actor: string): string {
    Take(JoinedWords(actor), 100)
  }

  function Note(note: string): Option<string> {
    var text := Take(JoinedWords(note), 2000);
    if text == [] then None else Some(text)
  }

  // ----- the two operations on the tables

  function NewIncident(e: Event, slaMinutes: int, protocol: Option<string>, now: Time): Incident {
    var created := if e.observedAt.Some? then e.observedAt.value else now;
    var due := created + 60 * Max(1, slaMinutes);
    Incident(e.id, New, e.severity, protocol, None, created, created, due, None, None, None)
  }

  function OpeningRow(id: IncidentId, createdAt: Time): HistoryRow {
    HistoryRow(id, None, New, "white-radar", Some("Automatically opened from an explainable priority threshold."),
               createdAt)
  }

  /** Whether an insertion would break a key: the incident's own, or the event's. */
  predicate Clashes(t: Table, id: IncidentId, eventId: EventId) {
    id in t.incidents || exists other :: other in t.incidents && t.incidents[other].eventId == eventId
  }

  function Opened(idOf: EventId -> IncidentId, t: Table, e: Event, minimumScore: int, slaMinutes: int,
                  protocol: Option<string>, now: Time): Table
  {
    var id := idOf(e.id);
    if e.score < Max(0, Min(100, minimumScore)) || Clashes(t, id, e.id) then t
    else
      var row := NewIncident(e, slaMinutes, protocol, now);
      Table(t.incidents[id := row], t.history + [OpeningRow(id, row.createdAt)])
  }

  function Moved(row: Incident, status: Status, actor: string, note: Option<string>, now: Time): Incident {
    row.(status := status,
         owner := if row.owner.Some? && row.owner.value != "" then row.owner else Some(actor),
         updatedAt := now,
         acknowledgedAt := if InHand(status) && row.acknowledgedAt.None? then Some(now) else row.acknowledgedAt,
         closedAt := if Terminal(status) then Some(now) else None,
         disposition := if Terminal(status) && note.Some? then note else row.disposition)
  }

  function TransitionError(t: Table, id: IncidentId, status: Status, actor: string): Option<Error> {
    if Actor(actor) == "" then Some(MissingActor)
    else if id !in t.incidents then Some(UnknownIncident)
    else if status !in Transitions(t.incidents[id].status) then Some(InvalidTransition(t.incidents[id].status, status))
    else None
  }

  function Transitioned(t: Table, id: IncidentId, status: Status, actor: string, note: string, now: Time): Table {
    if TransitionError(t, id, status, actor).Some? then t
    else
      var row := t.incidents[id];
      Table(t.incidents[id := Moved(row, status, Actor(actor), Note(note), now)],
            t.history + [HistoryRow(id, Some(row.status), status, Actor(actor), Note(note), now)])
  }

  class RadarStore {
    const idOf: EventId -> IncidentId
    var incidents: map<IncidentId, Incident>
    var history: seq<HistoryRow>

    constructor (idOf: EventId -> IncidentId)
      ensures this.idOf == idOf && Contents() == EMPTY_TABLE
    {
      this.idOf := idOf;
      incidents, history := map[], [];
    }

    function Contents(): Table
      reads this
    {
      Table(incidents, history)
    }

    method OpenIncident(e: Event, minimumScore: int, slaMinutes: int, protocol: Option<string>, now: Time)
      returns (r: Option<Incident>)
      modifies this
      ensures Contents() == Opened(idOf, old(Contents()), e, minimumScore, slaMinutes, protocol, now)
      ensures r == if e.score < Max(0, Min(100, minimumScore)) || idOf(e.id) !in incidents then None
                   else Some(incidents[idOf(e.id)])
    {
      hide Clashes, OpeningRow;
      if e.score < Max(0, Min(100, minimumScore)) {
        return None;
      }
      var createdAt := if e.observedAt.Some? then e.observedAt.value else now;
      var dueAt := createdAt + 60 * Max(1, slaMinutes);
      var id := idOf(e.id);
      if !Clashes(Table(incidents, history), id, e.id) {
        var row := Incident(e.id, New, e.severity, protocol, None, createdAt, createdAt, dueAt, None, None, None);
        incidents := incidents[id := row];
        history := history + [OpeningRow(id, createdAt)];
      }
      r := if id in incidents then Some(incidents[id]) else None;
    }

    method TransitionIncident(id: IncidentId, status: Status, actor: string, note: string, now: Time)
      returns (r: Result<Incident>)
      modifies this
      ensures Contents() == Transitioned(old(Contents()), id, status, actor, note, now)
      ensures var error := TransitionError(old(Contents()), id, status, actor);
              if error.Some? then r == Err(error.value) else id in incidents && r == Ok(incidents[id])
    {
      var normalizedActor, normalizedNote := Actor(actor), Note(note);
      if normalizedActor == "" {
        return Err(MissingActor);
      }
      if id !in incidents {
        return Err(UnknownIncident);
      }
      var row := incidents[id];
      var previous := row.status;
      if status !in Transitions(previous) {
        return Err(InvalidTransition(previous, status));
      }
      var acknowledgedAt := row.acknowledgedAt;
      if InHand(status) && acknowledgedAt.None? {
        acknowledgedAt := Some(now);
      }
      var closedAt := if Terminal(status) then Some(now) else None;
      var disposition := if closedAt.Some? && normalizedNote.Some? then normalizedNote else row.disposition;
      var owner := if row.owner.Some? && row.owner.value != "" then row.owner else Some(normalizedActor);
      incidents :=
        incidents[id := row.(status := status, owner := owner, updatedAt := now, acknowledgedAt := acknowledgedAt,
                                        closedAt := closedAt, disposition := disposition)];
      history := history + [HistoryRow(id, Some(previous), status, normalizedActor, normalizedNote, now)];
      r := Ok(incidents[id]);
    }
  }

  // ----- what a history says about its incident

  function HistoryOf(history: seq<HistoryRow>, id: IncidentId): seq<HistoryRow> {
    if history == [] then []
    else
      HistoryOf(history[..|history| - 1], id)
        + (if history[|history| - 1].incident == id then [history[|history| - 1]] else [])
  }

  /** Starts with null to NEW; every later row leaves the status before it along an allowed edge. */
  predicate Linked(h: seq<HistoryRow>) {
    && h != [] && h[0].from == None && h[0].to == New
    && forall i :: 0 < i < |h| ==>
       h[i].from == Some(h[i - 1].to) && h[i].to in Transitions(h[i - 1].to) && h[i].actor != ""
  }

  /** When the incident was first taken in hand. */
  function FirstInHand(h: seq<HistoryRow>): Option<Time> {
    if h == [] then None
    else
      var before := FirstInHand(h[..|h| - 1]);
      if before.Some? then before
      else if InHand(h[|h| - 1].to) then Some(h[|h| - 1].changedAt)
      else None
  }

  /** The row is what its history says: status and update time of the last entry, owner by the
      first transition, acknowledged when first in hand, closed by a terminal entry and disposed
      of with that entry's note. */
  predicate Explains(h: seq<HistoryRow>, row: Incident)
    requires h != []
  {
    var last := h[|h| - 1];
    && row.status == last.to && row.updatedAt == last.changedAt && row.createdAt == h[0].changedAt
    && row.owner == (if |h| == 1 then None else Some(h[1].actor))
    && row.acknowledgedAt == FirstInHand(h)
    && row.closedAt == (if Terminal(last.to) then Some(last.changedAt) else None)
    && row.disposition == (if Terminal(last.to) then last.note else None)
  }

  ghost predicate SoundAt(idOf: EventId -> IncidentId, t: Table, id: IncidentId) {
    var h := HistoryOf(t.history, id);
    if id in t.incidents then Linked(h) && Explains(h, t.incidents[id]) && idOf(t.incidents[id].eventId) == id
    else h == []
  }

  ghost predicate Sound(idOf: EventId -> IncidentId, t: Table) {
    forall id :: SoundAt(idOf, t, id)
  }

  lemma HistoryOfAppend(history: seq<HistoryRow>, row: HistoryRow, id: IncidentId)
    ensures HistoryOf(history + [row], id)
            == if row.incident == id then HistoryOf(history, id) + [row] else HistoryOf(history, id)
  {
    assert (history + [row])[..|history|] == history;
  }

  lemma OpenedSound(idOf: EventId -> IncidentId, t: Table, e: Event, minimumScore: int, slaMinutes: int,
                    protocol: Option<string>, now: Time)
    requires Sound(idOf, t)
    ensures Sound(idOf, Opened(idOf, t, e, minimumScore, slaMinutes, protocol, now))
  {
    hide NewIncident, OpeningRow, Linked, Explains, Clashes;
    var id := idOf(e.id);
    if e.score >= Max(0, Min(100, minimumScore)) && !Clashes(t, id, e.id) {
      var row := NewIncident(e, slaMinutes, protocol, now);
      var t' := Opened(idOf, t, e, minimumScore, slaMinutes, protocol, now);
      OpeningExplains(id, e, slaMinutes, protocol, now);
      ClashesOwn(t, id, e.id);
      forall other ensures SoundAt(idOf, t', other) {
        assert SoundAt(idOf, t, other);
        HistoryOfAppend(t.history, OpeningRow(id, row.createdAt), other);
      }
    }
  }

  lemma ClashesOwn(t: Table, id: IncidentId, eventId: EventId)
    requires !Clashes(t, id, eventId)
    ensures id !in t.incidents
  {
  }

  lemma OpeningExplains(id: IncidentId, e: Event, slaMinutes: int, protocol: Option<string>, now: Time)
    ensures var row := NewIncident(e, slaMinutes, protocol, now);
            && OpeningRow(id, row.createdAt).incident == id && row.eventId == e.id
            && Linked([] + [OpeningRow(id, row.createdAt)]) && Explains([] + [OpeningRow(id, row.createdAt)], row)
  {
    var row := NewIncident(e, slaMinutes, protocol, now);
    var h := [] + [OpeningRow(id, row.createdAt)];
    assert h[..0] == [] && FirstInHand([]) == None;
  }

  lemma MovedExplained(h: seq<HistoryRow>, row: Incident, next: HistoryRow)
    requires Linked(h) && Explains(h, row)
    requires next.from == Some(row.status) && next.to in Transitions(row.status) && next.actor != ""
    ensures Linked(h + [next]) && Explains(h + [next], Moved(row, next.to, next.actor, next.note, next.changedAt))
  {
    var longer := h + [next];
    assert longer[..|h|] == h;
    assert |h| > 1 ==> h[1].actor != "";
  }

  lemma TransitionedSound(idOf: EventId -> IncidentId, t: Table, id: IncidentId, status: Status, actor: string,
                          note: string, now: Time)
    requires Sound(idOf, t)
    ensures Sound(idOf, Transitioned(t, id, status, actor, note, now))
  {
    hide Actor, Note, Linked, Explains, Transitions;
    var t' := Transitioned(t, id, status, actor, note, now);
    if TransitionError(t, id, status, actor).None? {
      var next := HistoryRow(id, Some(t.incidents[id].status), status, Actor(actor), Note(note), now);
      forall other ensures SoundAt(idOf, t', other) {
        assert SoundAt(idOf, t, other);
        HistoryOfAppend(t.history, next, other);
        if other == id {
          MovedExplained(HistoryOf(t.history, id), t.incidents[id], next);
        }
      }
    }
  }

  // ----- runs

  datatype Command =
    | Open(event: Event, minimumScore: int, slaMinutes: int, protocol: Option<string>, now: Time)
    | Transition(id: IncidentId, status: Status, actor: string, note: string, now: Time)

  function Apply(idOf: EventId -> IncidentId, t: Table, c: Command): Table {
    match c
    case Open(event, minimumScore, slaMinutes, protocol, now) =>
      Opened(idOf, t, event, minimumScore, slaMinutes, protocol, now)
    case Transition(id, status, actor, note, now) => Transitioned(t, id, status, actor, note, now)
  }

  function Run(idOf: EventId -> IncidentId, t: Table, commands: seq<Command>): Table
    decreases commands
  {
    if commands == [] then t else Run(idOf, Apply(idOf, t, commands[0]), commands[1..])
  }

  lemma {:induction false} RunSound(idOf: EventId -> IncidentId, t: Table, commands: seq<Command>)
    requires Sound(idOf, t)
    ensures Sound(idOf, Run(idOf, t, commands))
    decreases commands
  {
    if commands != [] {
      hide Opened, Transitioned, Sound;
      match commands[0] {
        case Open(event, minimumScore, slaMinutes, protocol, now) =>
          OpenedSound(idOf, t, event, minimumScore, slaMinutes, protocol, now);
        case Transition(id, status, actor, note, now) => TransitionedSound(idOf, t, id, status, actor, note, now);
      }
      RunSound(idOf, Apply(idOf, t, commands[0]), commands[1..]);
    }
  }

  lemma EmptySound(idOf: EventId -> IncidentId, t: Table)
    requires t == EMPTY_TABLE
    ensures Sound(idOf, t)
  {
    forall id ensures SoundAt(idOf, t, id) {
      assert HistoryOf(t.history, id) == [];
    }
  }

  /** Every run from the empty store: each incident's history starts with null to NEW, follows
      allowed edges and explains the incident's row. */
  lemma EveryRunSound(idOf: EventId -> IncidentId, t: Table, commands: seq<Command>)
    requires t == EMPTY_TABLE
    ensures Sound(idOf, Run(idOf, t, commands))
  {
    EmptySound(idOf, t);
    RunSound(idOf, t, commands);
  }

  /** What a sound store says of each incident. */
  lemma IncidentFacts(idOf: EventId -> IncidentId, t: Table, id: IncidentId)
    requires Sound(idOf, t) && id in t.incidents
    ensures var row := t.incidents[id];
            && (row.closedAt.Some? <==> Terminal(row.status))
            && (row.status in {Acknowledged, Investigating, Monitoring, Resolved} ==> row.acknowledgedAt.Some?)
            && (row.status == New ==> row.acknowledgedAt.None?)
            && (row.owner.None? <==> row.status == New)
            && (forall other :: other in t.incidents && t.incidents[other].eventId == row.eventId ==> other == id)
  {
    assert SoundAt(idOf, t, id);
    var h := HistoryOf(t.history, id);
    InHandBefore(h);
    NewOnlyFirst(h, |h| - 1);
    forall other | other in t.incidents && t.incidents[other].eventId == t.incidents[id].eventId ensures other == id {
      assert SoundAt(idOf, t, other);
    }
  }

  lemma NewOnlyFirst(h: seq<HistoryRow>, i: nat)
    requires Linked(h) && i < |h|
    ensures h[i].to == New <==> i == 0
  {
    assert i > 0 ==> h[i].to in Transitions(h[i - 1].to);
  }

  lemma {:induction false} InHandBefore(h: seq<HistoryRow>)
    requires Linked(h)
    ensures h[|h| - 1].to in {Acknowledged, Investigating, Monitoring, Resolved} ==> FirstInHand(h).Some?
    ensures |h| == 1 ==> FirstInHand(h).None?
    decreases |h|
  {
    if |h| > 1 {
      InHandBefore(h[..|h| - 1]);
      assert h[|h| - 1].to in Transitions(h[|h| - 2].to);
    } else {
      assert FirstInHand(h[..0]) == None;
    }
  }

  /** What later commands leave alone. */
  ghost predicate Later(t: Table, t': Table) {
    t.history <= t'.history && forall id :: id in t.incidents ==> LaterRow(t, t', id)
  }

  ghost predicate LaterRow(t: Table, t': Table, id: IncidentId)
    requires id in t.incidents
  {
    id in t'.incidents &&
    var a, b := t.incidents[id], t'.incidents[id];
    && (Terminal(a.status) ==> b == a)
    && (a.acknowledgedAt.Some? ==> b.acknowledgedAt == a.acknowledgedAt)
    && (a.owner.Some? ==> b.owner == a.owner)
    && b.eventId == a.eventId && b.severity == a.severity && b.protocol == a.protocol
    && b.createdAt == a.createdAt && b.dueAt == a.dueAt
  }

  lemma ApplyLater(idOf: EventId -> IncidentId, t: Table, c: Command)
    requires Sound(idOf, t)
    ensures Later(t, Apply(idOf, t, c))
  {
    hide HistoryOf, NewIncident, OpeningRow, Actor, Note, Clashes;
    var t' := Apply(idOf, t, c);
    forall id | id in t.incidents ensures LaterRow(t, t', id) {
      OwnerNamed(idOf, t, id);
      if c.Open? {
        ClashesOwnAll(t, idOf(c.event.id), c.event.id);
      }
    }
  }

  lemma ClashesOwnAll(t: Table, id: IncidentId, eventId: EventId)
    ensures id in t.incidents ==> Clashes(t, id, eventId)
  {
  }

  lemma OwnerNamed(idOf: EventId -> IncidentId, t: Table, id: IncidentId)
    requires Sound(idOf, t) && id in t.incidents
    ensures t.incidents[id].owner != Some("")
    ensures Terminal(t.incidents[id].status) ==> Transitions(t.incidents[id].status) == {}
  {
    assert SoundAt(idOf, t, id);
    var h := HistoryOf(t.history, id);
    assert |h| > 1 ==> h[1].actor != "";
  }

  lemma LaterLater(t: Table, u: Table, v: Table)
    requires Later(t, u) && Later(u, v)
    ensures Later(t, v)
  {
    forall id | id in t.incidents ensures LaterRow(t, v, id) {
      assert LaterRow(t, u, id) && LaterRow(u, v, id);
    }
  }

  /** Whatever commands follow, a terminal incident never changes again, an acknowledgement time
      and an owner once set never change, and no history row is lost or altered. */
  lemma {:induction false} RunLater(idOf: EventId -> IncidentId, t: Table, commands: seq<Command>)
    requires Sound(idOf, t)
    ensures Later(t, Run(idOf, t, commands))
    decreases commands
  {
    hide Sound, Apply, Later;
    if commands == [] {
      LaterSelf(t);
    } else {
      var next := Apply(idOf, t, commands[0]);
      OneSound(idOf, t, commands[0]);
      ApplyLater(idOf, t, commands[0]);
      RunLater(idOf, next, commands[1..]);
      LaterLater(t, next, Run(idOf, next, commands[1..]));
    }
  }

  lemma LaterSelf(t: Table)
    ensures Later(t, t)
  {
    forall id | id in t.incidents ensures LaterRow(t, t, id) {
    }
  }

  lemma OneSound(idOf: EventId -> IncidentId, t: Table, c: Command)
    requires Sound(idOf, t)
    ensures Sound(idOf, Apply(idOf, t, c))
  {
    RunSound(idOf, t, [c]);
    assert [c][1..] == [];
  }

  // ----- where incidents come from

  /** The command that opened an incident: its event's id, severity and time, the protocol it gave, a
      deadline of its minutes, at least one, after that time, and a score that reached its threshold
      moved into 0 to 100. */
  predicate OpenedBy(idOf: EventId -> IncidentId, c: Command, id: IncidentId, row: Incident) {
    c.Open? &&
    var minutes := if c.slaMinutes < 1 then 1 else c.slaMinutes;
    var threshold := if c.minimumScore < 0 then 0 else if c.minimumScore > 100 then 100 else c.minimumScore;
    && idOf(c.event.id) == id && row.eventId == c.event.id && row.severity == c.event.severity
    && row.protocol == c.protocol
    && row.createdAt == (if c.event.observedAt.Some? then c.event.observedAt.value else c.now)
    && row.dueAt == row.createdAt + 60 * minutes && c.event.score >= threshold
  }

  ghost predicate AllOpened(idOf: EventId -> IncidentId, t: Table, commands: seq<Command>) {
    forall id :: id in t.incidents ==>
      exists i :: 0 <= i < |commands| && OpenedBy(idOf, commands[i], id, t.incidents[id])
  }

  lemma {:induction false} RunSnoc(idOf: EventId -> IncidentId, t: Table, commands: seq<Command>, c: Command)
    ensures Run(idOf, t, commands + [c]) == Apply(idOf, Run(idOf, t, commands), c)
    decreases commands
  {
    hide Apply;
    var longer := commands + [c];
    if commands == [] {
      assert longer[1..] == [];
    } else {
      assert longer[0] == commands[0] && longer[1..] == commands[1..] + [c];
      RunSnoc(idOf, Apply(idOf, t, commands[0]), commands[1..], c);
    }
  }

  /** One command opens its own incident or leaves the fields of opening alone. */
  lemma ApplyOpens(idOf: EventId -> IncidentId, t: Table, c: Command, id: IncidentId)
    requires id in Apply(idOf, t, c).incidents
    ensures var row := Apply(idOf, t, c).incidents[id];
            || OpenedBy(idOf, c, id, row)
            || (id in t.incidents && row.eventId == t.incidents[id].eventId && row.severity == t.incidents[id].severity
                && row.protocol == t.incidents[id].protocol && row.createdAt == t.incidents[id].createdAt
                && row.dueAt == t.incidents[id].dueAt)
  {
    hide Clashes, OpeningRow, Actor, Note;
  }

  /** Over every run from the empty store, each incident was opened by one of the commands. */
  lemma {:induction false} EveryIncidentWasOpened(idOf: EventId -> IncidentId, commands: seq<Command>)
    ensures AllOpened(idOf, Run(idOf, EMPTY_TABLE, commands), commands)
  {
    if commands != [] {
      var before, last := commands[..|commands| - 1], commands[|commands| - 1];
      EveryIncidentWasOpened(idOf, before);
      assert commands == before + [last];
      RunSnoc(idOf, EMPTY_TABLE, before, last);
      var t, t' := Run(idOf, EMPTY_TABLE, before), Run(idOf, EMPTY_TABLE, commands);
      hide Run, Apply;
      forall id | id in t'.incidents
        ensures exists i :: 0 <= i < |commands| && OpenedBy(idOf, commands[i], id, t'.incidents[id])
      {
        ApplyOpens(idOf, t, last, id);
        if OpenedBy(idOf, last, id, t'.incidents[id]) {
          assert commands[|commands| - 1] == last;
        } else {
          var i :| 0 <= i < |before| && OpenedBy(idOf, before[i], id, t.incidents[id]);
          assert commands[i] == before[i] && OpenedBy(idOf, commands[i], id, t'.incidents[id]);
        }
      }
    }
  }

  /** And in a sound store an event that reaches the threshold has its incident afterwards, with a first
      history row by the program itself when it is a new one; one that does not changes nothing. */
  lemma QualifyingEventHasIncident(idOf: EventId -> IncidentId, t: Table, c: Command)
    requires Sound(idOf, t) && c.Open?
    ensures var threshold := if c.minimumScore < 0 then 0 else if c.minimumScore > 100 then 100 else c.minimumScore;
            var t', id := Apply(idOf, t, c), idOf(c.event.id);
            if c.event.score < threshold then t' == t
            else
              && id in t'.incidents
              && (id in t.incidents ==> t' == t)
              && (id !in t.incidents ==>
                    t'.history == t.history + [
                      HistoryRow(id, None, New, "white-radar",
                                 Some("Automatically opened from an explainable priority threshold."),
                                 t'.incidents[id].createdAt)])
  {
    hide NewIncident, HistoryOf, Linked, Explains;
    var id := idOf(c.event.id);
    if other :| other in t.incidents && t.incidents[other].eventId == c.event.id {
      assert SoundAt(idOf, t, other);
    }
  }

  /** The fate of a transition: it needs an actor that is not blank, a known incident and an allowed
      status, and reports the first of these that is missing. Then it adds one history row, from the
      status before to the new one, under the actor's words cut to 100 characters, with the note's
      words cut to 2,000, or none when the note is blank. Otherwise nothing changes. */
  lemma TransitionExactly(t: Table, id: IncidentId, status: Status, actor: string, note: string, now: Time)
    ensures var error := TransitionError(t, id, status, actor);
            var t' := Transitioned(t, id, status, actor, note, now);
            var blank := forall i :: 0 <= i < |actor| ==> IsSpace(actor[i]);
            && (error == Some(MissingActor) <==> blank)
            && (error == Some(UnknownIncident) <==> !blank && id !in t.incidents)
            && (error.Some? && error.value.InvalidTransition? <==>
                  !blank && id in t.incidents && status !in Transitions(t.incidents[id].status))
            && (error.Some? && error.value.InvalidTransition? ==>
                  error.value.previous == t.incidents[id].status && error.value.status == status)
            && (error.Some? ==> t' == t)
            && (error.None? ==>
                  && t'.history == t.history + [HistoryRow(id, Some(t.incidents[id].status), status,
                                                           Take(JoinedWords(actor), 100),
                                                           NoteText(note), now)]
                  && t'.incidents.Keys == t.incidents.Keys
                  && forall other :: other in t.incidents && other != id ==> t'.incidents[other] == t.incidents[other])
  {
    hide Transitions, Moved;
    BlankOnly(actor);
    BlankOnly(note);
    assert Actor(actor) == "" <==> JoinedWords(actor) == "";
  }

  function NoteText(note: string): Option<string> {
    if forall i :: 0 <= i < |note| ==> IsSpace(note[i]) then None else Some(Take(JoinedWords(note), 2000))
  }

  // ----- words

  /** The maximal runs of characters that are not white space. */
  function Words(s: string): seq<string> {
    if s == [] then []
    else
      var n := |s| - 1;
      var before := Words(s[..n]);
      if IsSpace(s[n]) then before
      else if before != [] && n > 0 && !IsSpace(s[n - 1]) then before[|before| - 1 := before[|before| - 1] + [s[n]]]
      else before + [[s[n]]]
  }

  function Joined(words: seq<string>): string {
    if words == [] then []
    else if |words| == 1 then words[0]
    else Joined(words[..|words| - 1]) + " " + words[|words| - 1]
  }

  lemma JoinedLast(words: seq<string>, c: char)
    requires words != []
    ensures var n := |words| - 1; Joined(words[n := words[n] + [c]]) == Joined(words) + [c]
  {
    var n := |words| - 1;
    var longer := words[n := words[n] + [c]];
    assert longer[..n] == words[..n];
    assert Joined(words[..n]) + " " + (words[n] + [c]) == (Joined(words[..n]) + " " + words[n]) + [c];
  }

  lemma WordsNotEmpty(s: string)
    ensures forall i :: 0 <= i < |Words(s)| ==> Words(s)[i] != []
    ensures Words(s) == [] <==> forall i :: 0 <= i < |s| ==> IsSpace(s[i])
  {
  }

  /** Normalizing a text joins its words with single spaces. */
  lemma {:induction false} JoinedWordsJoins(s: string)
    ensures JoinedWords(s) == Joined(Words(s))
  {
    if s != [] {
      var n := |s| - 1;
      JoinedWordsJoins(s[..n]);
      WordsNotEmpty(s[..n]);
      BlankOnly(s[..n]);
      var before := Words(s[..n]);
      if !IsSpace(s[n]) {
        if before != [] && n > 0 && !IsSpace(s[n - 1]) {
          JoinedLast(before, s[n]);
        } else {
          assert (before + [[s[n]]])[..|before|] == before;
        }
      }
    }
  }
}
