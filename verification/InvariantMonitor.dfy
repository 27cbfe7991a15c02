/** Edge detection over invariant checks: violations and recoveries. */
module InvariantMonitor {
  import opened Basics

  datatype CheckStatus = Held | Violated | Errored | Unavailable

  /** One check; `observed` is the text of the value read, `None` when nothing was read. */
  datatype Check = Check(status: CheckStatus, observed: Option<string>, block: nat)

  /** Checks as `check_invariant` makes them: a value was read exactly when it was compared. */
  predicate Genuine(c: Check) {
    c.observed.Some? <==> c.status in {Held, Violated}
  }

  datatype Stored = Stored(status: CheckStatus, observed: Option<string>, block: nat)

  datatype Emission = Recovery | Alarm

  type Key = (nat, string)

  datatype EventKey =
    EventKey(emission: Emission, key: Key, block: nat, status: CheckStatus, observed: Option<string>)

  datatype Monitor = Monitor(states: map<Key, Stored>, events: seq<EventKey>, emitted: nat)

  const IDLE: Monitor := Monitor(map[], [], 0)

  predicate Failing(s: CheckStatus) {
    s in {Violated, Errored}
  }

  /** `str(previous["observed_value"])`: a stored null becomes the text "None". */
  function PreviousValue(p: Stored): string {
    if p.observed.Some? then p.observed.value else "None"
  }

  predicate Changed(previous: Option<Stored>, c: Check) {
    || previous.None? || previous.value.status != c.status
    || c.observed != Some(PreviousValue(previous.value))
  }

  /** What one check emits, given the state stored before it. */
  function EmissionOf(previous: Option<Stored>, c: Check): Option<Emission> {
    if !Changed(previous, c) || c.status == Unavailable then None
    else if c.status == Held then
      if previous.Some? && Failing(previous.value.status) then Some(Recovery) else None
    else Some(Alarm)
  }

  function StateBefore(m: Monitor, key: Key): Option<Stored> {
    if key in m.states then Some(m.states[key]) else None
  }

  /** Record the check, then its event once. */
  function Recorded(m: Monitor, key: Key, c: Check): Monitor {
    var emission := EmissionOf(StateBefore(m, key), c);
    var states := m.states[key := Stored(c.status, c.observed, c.block)];
    if emission.None? then m.(states := states)
    else
      var event := EventKey(emission.value, key, c.block, c.status, c.observed);
      Monitor(states, if event in m.events then m.events else m.events + [event], m.emitted + 1)
  }

  class InvariantMonitor {
    var states: map<Key, Stored>
    var events: seq<EventKey>
    var emitted: nat

    constructor ()
      ensures Contents() == IDLE
    {
      states, events, emitted := map[], [], 0;
    }

    function Contents(): Monitor
      reads this
    {
      Monitor(states, events, emitted)
    }

    /** `record_invariant_state`: store the check and return the state it replaces. */
    method RecordState(key: Key, c: Check) returns (previous: Option<Stored>)
      modifies this`states
      ensures states == old(states)[key := Stored(c.status, c.observed, c.block)]
      ensures previous == StateBefore(old(Contents()), key)
    {
      previous := if key in states then Some(states[key]) else None;
      states := states[key := Stored(c.status, c.observed, c.block)];
    }

    method RecordTransition(key: Key, c: Check) returns (emission: Option<Emission>)
      modifies this
      ensures Contents() == Recorded(old(Contents()), key, c)
      ensures emission == EmissionOf(StateBefore(old(Contents()), key), c)
    {
      var previous := RecordState(key, c);
      var changed := || previous.None? || previous.value.status != c.status
                     || c.observed != Some(PreviousValue(previous.value));
      if !changed || c.status == Unavailable {
        return None;
      }
      var recovery := c.status == Held && previous.Some? && Failing(previous.value.status);
      if c.status == Held && !recovery {
        return None;
      }
      emission := Some(if recovery then Recovery else Alarm);
      var event := EventKey(emission.value, key, c.block, c.status, c.observed);
      if event !in events {
        events := events + [event];
      }
      emitted := emitted + 1;
    }
  }

  // ----- runs of checks of one invariant

  /** The state stored after the first n checks, starting from none. */
  function After(checks: seq<Check>, n: nat): Option<Stored>
    requires n <= |checks|
  {
    if n == 0 then None else Some(Stored(checks[n - 1].status, checks[n - 1].observed, checks[n - 1].block))
  }

  function EmittedAt(checks: seq<Check>, i: nat): Option<Emission>
    requires i < |checks|
  {
    EmissionOf(After(checks, i), checks[i])
  }

  /** An alarm at j, and no recovery from there up to n. */
  predicate OpenAlarm(checks: seq<Check>, j: nat, n: nat)
    requires n <= |checks|
  {
    && j < n && EmittedAt(checks, j) == Some(Alarm)
    && forall k :: j < k < n ==> EmittedAt(checks, k) != Some(Recovery)
  }

  lemma {:induction false} FailingWasAnnounced(checks: seq<Check>, n: nat)
    requires 0 < n <= |checks| && Failing(checks[n - 1].status)
    ensures exists j :: OpenAlarm(checks, j, n)
  {
    if EmittedAt(checks, n - 1) == Some(Alarm) {
      assert OpenAlarm(checks, n - 1, n);
    } else {
      FailingWasAnnounced(checks, n - 1);
      var j :| OpenAlarm(checks, j, n - 1);
      assert OpenAlarm(checks, j, n);
    }
  }

  /** Each recovery emitted answers an alarm emitted: some earlier check raised one, and no recovery
      lies between. Of recorded events this can fail: see `RecordedRecoveriesAnswered`. */
  lemma RecoveryAnswersAlarm(checks: seq<Check>, i: nat)
    requires i < |checks| && EmittedAt(checks, i) == Some(Recovery)
    ensures exists j :: OpenAlarm(checks, j, i)
  {
    FailingWasAnnounced(checks, i);
  }

  function CountOf(checks: seq<Check>, n: nat, e: Emission): nat
    requires n <= |checks|
  {
    if n == 0 then 0 else CountOf(checks, n - 1, e) + (if EmittedAt(checks, n - 1) == Some(e) then 1 else 0)
  }

  /** Recoveries emitted never outnumber alarms emitted, and lag behind while the invariant fails. */
  lemma {:induction false} RecoveriesNeverOutnumberAlarms(checks: seq<Check>, n: nat)
    requires n <= |checks|
    ensures CountOf(checks, n, Recovery) <= CountOf(checks, n, Alarm)
    ensures n > 0 && Failing(checks[n - 1].status) ==> CountOf(checks, n, Recovery) < CountOf(checks, n, Alarm)
  {
    if n > 0 {
      RecoveriesNeverOutnumberAlarms(checks, n - 1);
      if n > 1 {
        RecoveriesNeverOutnumberAlarms(checks, n - 2);
      }
    }
  }

  /** What genuine checks emit, by their statuses and values alone. An alarm: a violation or an error
      that is the first check, has another status or another value than the check before it, or is
      an error. A recovery: an ok right after a violation or an error. Nothing else. */
  lemma EmissionExactly(checks: seq<Check>, i: nat)
    requires i < |checks| && forall k :: 0 <= k < |checks| ==> Genuine(checks[k])
    ensures EmittedAt(checks, i) == Some(Alarm) <==>
              || checks[i].status == Errored
              || (checks[i].status == Violated
                  && (i == 0 || checks[i - 1].status != Violated || checks[i - 1].observed != checks[i].observed))
    ensures EmittedAt(checks, i) == Some(Recovery) <==>
              && checks[i].status == Held && i > 0
              && (checks[i - 1].status == Violated || checks[i - 1].status == Errored)
  {
  }

  /** Repeating an identical observation emits exactly when it is an error: nothing was read, and
      the stored null no longer equals it. Repeated ok and violated observations are silent. */
  lemma RepeatEmitsOnlyErrors(checks: seq<Check>, i: nat)
    requires 0 < i < |checks| && Genuine(checks[i])
    requires checks[i].status == checks[i - 1].status && checks[i].observed == checks[i - 1].observed
    ensures EmittedAt(checks, i).Some? <==> checks[i].status == Errored
    ensures EmittedAt(checks, i) != Some(Recovery)
  {
  }

  /** An ok after a failure is announced exactly when no unavailable check came between: `i` is
      the failing check, everything after it up to n is unavailable. */
  lemma RecoveryHiddenByUnavailable(checks: seq<Check>, i: nat, n: nat)
    requires i < n < |checks| && Failing(checks[i].status) && checks[n].status == Held
    requires forall k :: i < k < n ==> checks[k].status == Unavailable
    ensures EmittedAt(checks, n) == Some(Recovery) <==> n == i + 1
    ensures forall k :: i < k < n ==> EmittedAt(checks, k) == None
  {
  }

  // ----- runs over the whole monitor

  datatype Observation = Observation(key: Key, check: Check)

  function Run(m: Monitor, observations: seq<Observation>): Monitor
  {
    if observations == [] then m
    else
      var last := observations[|observations| - 1];
      Recorded(Run(m, observations[..|observations| - 1]), last.key, last.check)
  }

  /** The checks of one invariant, in order. */
  function ChecksOf(observations: seq<Observation>, key: Key): seq<Check> {
    if observations == [] then []
    else ChecksOf(observations[..|observations| - 1], key)
         + (if observations[|observations| - 1].key == key then [observations[|observations| - 1].check] else [])
  }

  /** Invariants do not disturb one another: the state kept for each is its own last check. */
  lemma {:induction false} StatesAreSeparate(observations: seq<Observation>, key: Key)
    ensures StateBefore(Run(IDLE, observations), key)
            == After(ChecksOf(observations, key), |ChecksOf(observations, key)|)
  {
    if observations != [] {
      StatesAreSeparate(observations[..|observations| - 1], key);
    }
  }

  /** What the monitor emits for an observation is what its own invariant's run of checks emits,
      so everything proved of such a run holds of each invariant in any interleaving. */
  lemma RunEmitsAsAlone(observations: seq<Observation>, last: Observation)
    ensures var checks := ChecksOf(observations + [last], last.key);
            && checks != []
            && EmissionOf(StateBefore(Run(IDLE, observations), last.key), last.check) == EmittedAt(checks, |checks| - 1)
  {
    StatesAreSeparate(observations, last.key);
    assert (observations + [last])[..|observations|] == observations;
    var before := ChecksOf(observations, last.key);
    AfterPrefix(before, before + [last.check], |before|);
  }

  /** The same in any interleaving: what a genuine check emits depends only on the last check of its
      own invariant before it. */
  lemma InterleavedEmission(observations: seq<Observation>, last: Observation)
    requires Genuine(last.check) && forall i :: 0 <= i < |observations| ==> Genuine(observations[i].check)
    ensures var checks := ChecksOf(observations, last.key);
            var c, n := last.check, |checks|;
            var emission := EmissionOf(StateBefore(Run(IDLE, observations), last.key), c);
            && (emission == Some(Alarm) <==>
                  || c.status == Errored
                  || (c.status == Violated
                      && (n == 0 || checks[n - 1].status != Violated || checks[n - 1].observed != c.observed)))
            && (emission == Some(Recovery) <==>
                  c.status == Held && n > 0 && (checks[n - 1].status == Violated || checks[n - 1].status == Errored))
  {
    hide Run;
    StatesAreSeparate(observations, last.key);
    GenuineChecks(observations, last.key);
  }

  lemma {:induction false} GenuineChecks(observations: seq<Observation>, key: Key)
    requires forall i :: 0 <= i < |observations| ==> Genuine(observations[i].check)
    ensures forall i :: 0 <= i < |ChecksOf(observations, key)| ==> Genuine(ChecksOf(observations, key)[i])
  {
    if observations != [] {
      GenuineChecks(observations[..|observations| - 1], key);
    }
  }

  lemma AfterPrefix(a: seq<Check>, b: seq<Check>, n: nat)
    requires n <= |a| && a <= b
    ensures After(a, n) == After(b, n)
  {
  }

  /** An error always emits, but its event is recorded once per block: repeated, it records a new
      event exactly when no event of that block and observation is recorded yet, and in particular
      none at the block of the check before it. */
  lemma RepeatedErrorRecordsOncePerBlock(m: Monitor, key: Key, c: Check, block: nat)
    requires c.status == Errored && c.observed == None
    ensures var once := Recorded(m, key, c);
            var twice := Recorded(once, key, c.(block := block));
            && once.emitted == m.emitted + 1 && twice.emitted == once.emitted + 1
            && (twice.events == once.events <==> EventKey(Alarm, key, block, Errored, None) in once.events)
            && (block == c.block ==> twice.events == once.events)
  {
    var once := Recorded(m, key, c);
    assert |once.events + [EventKey(Alarm, key, block, Errored, None)]| == |once.events| + 1;
    assert EventKey(Alarm, key, c.block, Errored, None) in once.events by {
      var event := EventKey(Alarm, key, c.block, Errored, None);
      assert event !in m.events ==> once.events[|m.events|] == event;
    }
  }

  /** No event is recorded twice. */
  lemma {:induction false} EventsAreDistinct(observations: seq<Observation>)
    ensures var events := Run(IDLE, observations).events;
            forall i, j :: 0 <= i < j < |events| ==> events[i] != events[j]
    ensures |Run(IDLE, observations).events| <= Run(IDLE, observations).emitted
  {
    if observations != [] {
      EventsAreDistinct(observations[..|observations| - 1]);
    }
  }

  // ----- recorded events against emissions

  /** The event that one check of an invariant emits, if any. */
  function EventOf(previous: Option<Stored>, key: Key, c: Check): Option<EventKey> {
    var emission := EmissionOf(previous, c);
    if emission.None? then None else Some(EventKey(emission.value, key, c.block, c.status, c.observed))
  }

  /** The event emitted for observation i of a run, recorded or not. */
  function EventAt(observations: seq<Observation>, i: nat): Option<EventKey>
    requires i < |observations|
  {
    EventOf(StateBefore(Run(IDLE, observations[..i]), observations[i].key), observations[i].key, observations[i].check)
  }

  predicate EmittedBefore(observations: seq<Observation>, event: EventKey, n: nat)
    requires n <= |observations|
  {
    exists j :: 0 <= j < n && EventAt(observations, j) == Some(event)
  }

  lemma RunStep(observations: seq<Observation>, i: nat)
    requires i < |observations|
    ensures Run(IDLE, observations[..i + 1])
            == Recorded(Run(IDLE, observations[..i]), observations[i].key, observations[i].check)
  {
    assert observations[..i + 1][..i] == observations[..i];
  }

  /** What is recorded is what was emitted. */
  lemma {:induction false} RecordedWasEmitted(observations: seq<Observation>, event: EventKey, n: nat)
    requires n <= |observations|
    ensures event in Run(IDLE, observations[..n]).events <==> EmittedBefore(observations, event, n)
  {
    if n > 0 {
      var i := n - 1;
      RecordedWasEmitted(observations, event, i);
      RunStep(observations, i);
      RecordedIn(Run(IDLE, observations[..i]), observations[i].key, observations[i].check, event);
      assert EmittedBefore(observations, event, n)
          <==> EmittedBefore(observations, event, i) || EventAt(observations, i) == Some(event);
    }
  }

  lemma RecordedIn(m: Monitor, key: Key, c: Check, event: EventKey)
    ensures event in Recorded(m, key, c).events
            <==> event in m.events || EventOf(StateBefore(m, key), key, c) == Some(event)
  {
  }

  /** An emission records an event exactly when no emission before it has the same kind, invariant,
      block, status and value; otherwise the recorded events stay as they are. */
  lemma EmissionRecordsExactly(observations: seq<Observation>, i: nat)
    requires i < |observations| && EventAt(observations, i).Some?
    ensures var event := EventAt(observations, i).value;
            var before := Run(IDLE, observations[..i]).events;
            var after := Run(IDLE, observations[..i + 1]).events;
            && after == (if EmittedBefore(observations, event, i) then before else before + [event])
            && (after != before <==> forall j :: 0 <= j < i ==> EventAt(observations, j) != Some(event))
  {
    var event := EventAt(observations, i).value;
    var before := Run(IDLE, observations[..i]).events;
    RunStep(observations, i);
    RecordedWasEmitted(observations, event, i);
    assert |before + [event]| == |before| + 1;
  }

  /** The elements of s at their first places only. */
  function Firsts(s: seq<EventKey>): (r: seq<EventKey>)
    ensures forall x :: x in r <==> x in s
    ensures |r| <= |s|
  {
    if s == [] then []
    else
      var before := s[..|s| - 1];
      var x := s[|s| - 1];
      assert s == before + [x];
      Firsts(before) + (if x in before then [] else [x])
  }

  predicate Distinct(s: seq<EventKey>) {
    forall i, j :: 0 <= i < j < |s| ==> s[i] != s[j]
  }

  /** Nothing is dropped exactly when nothing is repeated. */
  lemma {:induction false} FirstsKeepsDistinct(s: seq<EventKey>)
    ensures Firsts(s) == s <==> Distinct(s)
  {
    if s != [] {
      var before := s[..|s| - 1];
      FirstsKeepsDistinct(before);
      assert s == before + [s[|s| - 1]];
    }
  }

  /** The recorded events of one invariant, in order. */
  function EventsOf(events: seq<EventKey>, key: Key): seq<EventKey> {
    if events == [] then []
    else
      EventsOf(events[..|events| - 1], key)
      + (if events[|events| - 1].key == key then [events[|events| - 1]] else [])
  }

  /** The events that the first n checks of one invariant emit, repetitions included. */
  function EmittedBy(checks: seq<Check>, key: Key, n: nat): seq<EventKey>
    requires n <= |checks|
  {
    if n == 0 then []
    else
      var event := EventOf(After(checks, n - 1), key, checks[n - 1]);
      EmittedBy(checks, key, n - 1) + (if event.None? then [] else [event.value])
  }

  lemma {:induction false} EventsOfAll(events: seq<EventKey>, key: Key, event: EventKey)
    requires event.key == key
    ensures event in EventsOf(events, key) <==> event in events
  {
    if events != [] {
      EventsOfAll(events[..|events| - 1], key, event);
      assert events == events[..|events| - 1] + [events[|events| - 1]];
    }
  }

  lemma EventsOfSnoc(events: seq<EventKey>, event: EventKey, key: Key)
    ensures EventsOf(events + [event], key) == EventsOf(events, key) + (if event.key == key then [event] else [])
  {
    assert (events + [event])[..|events|] == events;
  }

  lemma {:induction false} EmittedByPrefix(a: seq<Check>, b: seq<Check>, key: Key, n: nat)
    requires n <= |a| && a <= b
    ensures EmittedBy(a, key, n) == EmittedBy(b, key, n)
  {
    if n > 0 {
      EmittedByPrefix(a, b, key, n - 1);
      AfterPrefix(a, b, n - 1);
    }
  }

  lemma FirstsSnoc(s: seq<EventKey>, x: EventKey)
    ensures Firsts(s + [x]) == Firsts(s) + (if x in s then [] else [x])
  {
    assert (s + [x])[..|s|] == s;
  }

  /** What one check adds to the recorded events of an invariant. */
  lemma RecordedEventsOf(m: Monitor, last: Observation, key: Key)
    ensures var event := EventOf(StateBefore(m, last.key), last.key, last.check);
            EventsOf(Recorded(m, last.key, last.check).events, key)
            == EventsOf(m.events, key)
               + (if last.key == key && event.Some? && event.value !in EventsOf(m.events, key) then [event.value]
                  else [])
  {
    var event := EventOf(StateBefore(m, last.key), last.key, last.check);
    if event.Some? {
      EventsOfSnoc(m.events, event.value, key);
      if last.key == key {
        EventsOfAll(m.events, key, event.value);
      }
    }
  }

  lemma EmittedByStep(checks: seq<Check>, c: Check, key: Key)
    ensures var event := EventOf(After(checks, |checks|), key, c);
            EmittedBy(checks + [c], key, |checks| + 1)
            == EmittedBy(checks, key, |checks|) + (if event.None? then [] else [event.value])
  {
    hide EventOf;
    var longer := checks + [c];
    EmittedByPrefix(checks, longer, key, |checks|);
    AfterPrefix(checks, longer, |checks|);
    assert longer[|checks|] == c;
  }

  /** What one more check adds to the first emissions of its invariant. */
  lemma FirstEmissionsStep(checks: seq<Check>, c: Check, key: Key)
    ensures var event := EventOf(After(checks, |checks|), key, c);
            var first := Firsts(EmittedBy(checks, key, |checks|));
            Firsts(EmittedBy(checks + [c], key, |checks| + 1))
            == first + (if event.Some? && event.value !in first then [event.value] else [])
  {
    hide EventOf, EmittedBy, After;
    var event := EventOf(After(checks, |checks|), key, c);
    var emitted := EmittedBy(checks, key, |checks|);
    EmittedByStep(checks, c, key);
    if event.Some? {
      FirstsSnoc(emitted, event.value);
    } else {
      assert emitted + [] == emitted;
    }
  }

  /** In any interleaving, the recorded events of an invariant are what its own checks emit, each at
      its first place only. */
  lemma {:induction false} RecordedAreFirstEmissions(observations: seq<Observation>, key: Key)
    ensures var checks := ChecksOf(observations, key);
            EventsOf(Run(IDLE, observations).events, key) == Firsts(EmittedBy(checks, key, |checks|))
  {
    hide EventsOf, EmittedBy, Firsts, Recorded, EventOf, After, StateBefore;
    if observations == [] {
      FirstEmissionsOfNone(key);
    } else {
      var before := observations[..|observations| - 1];
      var last := observations[|observations| - 1];
      var checks := ChecksOf(before, key);
      RecordedAreFirstEmissions(before, key);
      RecordedEventsOf(Run(IDLE, before), last, key);
      if last.key == key {
        assert ChecksOf(observations, key) == checks + [last.check];
        StatesAreSeparate(before, key);
        FirstEmissionsStep(checks, last.check, key);
      } else {
        assert ChecksOf(observations, key) == checks;
      }
    }
  }

  lemma FirstEmissionsOfNone(key: Key)
    ensures EventsOf(IDLE.events, key) == [] && Firsts(EmittedBy([], key, 0)) == []
  {
  }

  /** The emissions of checks that never share a block are all different. */
  predicate SeparateBlocks(checks: seq<Check>) {
    forall i, j :: 0 <= i < j < |checks| ==> checks[i].block != checks[j].block
  }

  lemma {:induction false} EmittedBlocks(checks: seq<Check>, key: Key, n: nat)
    requires n <= |checks| && SeparateBlocks(checks)
    ensures forall event :: event in EmittedBy(checks, key, n) ==>
                            exists i :: 0 <= i < n && checks[i].block == event.block
    ensures Distinct(EmittedBy(checks, key, n))
  {
    if n > 0 {
      EmittedBlocks(checks, key, n - 1);
    }
  }

  /** An invariant's recorded events are its emissions, in order, exactly when no emission repeats
      another; so it is whenever no two of its checks share a block. */
  lemma RecordedAreEmissions(observations: seq<Observation>, key: Key)
    ensures var checks := ChecksOf(observations, key);
            var emitted := EmittedBy(checks, key, |checks|);
            && (EventsOf(Run(IDLE, observations).events, key) == emitted <==> Distinct(emitted))
            && (SeparateBlocks(checks) ==> EventsOf(Run(IDLE, observations).events, key) == emitted)
  {
    var checks := ChecksOf(observations, key);
    RecordedAreFirstEmissions(observations, key);
    FirstsKeepsDistinct(EmittedBy(checks, key, |checks|));
    if SeparateBlocks(checks) {
      EmittedBlocks(checks, key, |checks|);
    }
  }

  /** In a list of events, each recovery directly follows an alarm. */
  predicate Answered(events: seq<EventKey>) {
    forall i :: 0 <= i < |events| && events[i].emission == Recovery ==>
                i > 0 && events[i - 1].emission == Alarm
  }

  lemma {:induction false} EmissionsAnswered(checks: seq<Check>, key: Key, n: nat)
    requires n <= |checks|
    ensures var emitted := EmittedBy(checks, key, n);
            && Answered(emitted)
            && (n > 0 && Failing(checks[n - 1].status) ==>
                emitted != [] && emitted[|emitted| - 1].emission == Alarm)
  {
    if n > 0 {
      EmissionsAnswered(checks, key, n - 1);
    }
  }

  /** What the monitor promises of its events: when no two checks of an invariant share a block, the
      event recorded for it just before a recorded recovery is an alarm. */
  lemma RecordedRecoveriesAnswered(observations: seq<Observation>, key: Key)
    requires SeparateBlocks(ChecksOf(observations, key))
    ensures Answered(EventsOf(Run(IDLE, observations).events, key))
  {
    var checks := ChecksOf(observations, key);
    RecordedAreEmissions(observations, key);
    EmissionsAnswered(checks, key, |checks|);
  }

  lemma RunOfFour(a: Observation, b: Observation, c: Observation, d: Observation)
    ensures var m := Recorded(Recorded(IDLE, a.key, a.check), b.key, b.check);
            Run(IDLE, [a, b, c, d]) == Recorded(Recorded(m, c.key, c.check), d.key, d.check)
  {
    hide Recorded;
    var s := [a, b, c, d];
    RunStep(s, 0);
    RunStep(s, 1);
    RunStep(s, 2);
    RunStep(s, 3);
    assert s[..4] == s;
  }

  lemma SecondAlarmUnrecorded(key: Key)
    ensures var error := Check(Errored, None, 5);
            var m := Recorded(Recorded(Recorded(IDLE, key, error), key, Check(Held, Some("1"), 5)), key, error);
            && m.events == [EventKey(Alarm, key, 5, Errored, None), EventKey(Recovery, key, 5, Held, Some("1"))]
            && m.emitted == 3 && StateBefore(m, key) == Some(Stored(Errored, None, 5))
  {
    var error := Check(Errored, None, 5);
    var alarm, recovery := EventKey(Alarm, key, 5, Errored, None), EventKey(Recovery, key, 5, Held, Some("1"));
    var one := Recorded(IDLE, key, error);
    assert one.events == [alarm] && one.emitted == 1 && StateBefore(one, key) == Some(Stored(Errored, None, 5));
    var two := Recorded(one, key, Check(Held, Some("1"), 5));
    assert two.events == [alarm, recovery] && two.emitted == 2;
    assert StateBefore(two, key) == Some(Stored(Held, Some("1"), 5));
    assert alarm in two.events;
  }

  /** Checks that share a block break it: the second alarm of block 5 repeats the first and is not
      recorded, so the two recoveries follow one another. */
  lemma UnansweredRecovery()
    ensures var key: Key := (1, "supply");
            var error := Check(Errored, None, 5);
            var observations := [Observation(key, error), Observation(key, Check(Held, Some("1"), 5)),
                                 Observation(key, error), Observation(key, Check(Held, Some("1"), 6))];
            && Run(IDLE, observations).events == [EventKey(Alarm, key, 5, Errored, None),
                                                  EventKey(Recovery, key, 5, Held, Some("1")),
                                                  EventKey(Recovery, key, 6, Held, Some("1"))]
            && Run(IDLE, observations).emitted == 4
            && !Answered(Run(IDLE, observations).events)
  {
    hide Run;
    var key: Key := (1, "supply");
    SecondAlarmUnrecorded(key);
    var error, held := Check(Errored, None, 5), Check(Held, Some("1"), 5);
    var later := Check(Held, Some("1"), 6);
    RunOfFour(Observation(key, error), Observation(key, held), Observation(key, error), Observation(key, later));
    var m := Recorded(Recorded(Recorded(IDLE, key, error), key, held), key, error);
    var alarm, recovery := EventKey(Alarm, key, 5, Errored, None), EventKey(Recovery, key, 5, Held, Some("1"));
    var events := Recorded(m, key, later).events;
    assert events == [alarm, recovery, EventKey(Recovery, key, 6, Held, Some("1"))];
    assert events[2].emission == Recovery && events[1].emission == Recovery;
  }
}
