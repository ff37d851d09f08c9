/**
 * The event log panel: a newest-first buffer of at most ten entries, fed by
 * six bus subscriptions and emptied by its Clear button.
 */
module EventLogger {

  import opened Strings
  import opened Events

  /** How many entries the log keeps. */
  const Capacity := 10

  /**
   * One log line. `id` is the clock reading as text, `timestamp` the ISO
   * text of the same instant (supplied by the caller) and `data` the payload
   * the event carried.
   */
  datatype LogEntry = LogEntry(id: string, event: string, timestamp: string, data: Payload)

  function Min(a: int, b: int): int {
    if a < b then a else b
  }

  /** `[newLog, ...prevLogs].slice(0, 10)`. */
  function Push(logs: seq<LogEntry>, e: LogEntry): (r: seq<LogEntry>)
    ensures |r| == Min(Capacity, |logs| + 1)
    ensures r[0] == e
    ensures r[1..] == logs[..Min(Capacity - 1, |logs|)]
  {
    ([e] + logs)[..Min(Capacity, |logs| + 1)]
  }

  /** The six events the panel subscribes to. */
  predicate Logged(e: EventName) {
    e in {ActivityAdded, ActivityUpdated, ActivityDeleted, ThemeChanged, MenuToggled, SettingsUpdated}
  }

  function Reverse<T>(s: seq<T>): (r: seq<T>)
    ensures |r| == |s|
    ensures forall i :: 0 <= i < |s| ==> r[i] == s[|s| - 1 - i]
  {
    if s == [] then [] else Reverse(s[1..]) + [s[0]]
  }

  /** The log after adding the entries `es`, oldest first, to `logs`. */
  function Replay(logs: seq<LogEntry>, es: seq<LogEntry>): seq<LogEntry> {
    if es == [] then logs else Push(Replay(logs, es[..|es| - 1]), es[|es| - 1])
  }

  /**
   * After any run of additions the log is the newest ten of everything ever
   * added, newest first: only the oldest entries are ever dropped.
   */
  lemma {:induction false} ReplayKeepsNewest(logs: seq<LogEntry>, es: seq<LogEntry>)
    requires |logs| <= Capacity
    ensures Replay(logs, es) == (Reverse(es) + logs)[..Min(Capacity, |es| + |logs|)]
  {
    if es != [] {
      var init, e := es[..|es| - 1], es[|es| - 1];
      ReplayKeepsNewest(logs, init);
      var x := Reverse(init) + logs;
      assert Reverse(es) == [e] + Reverse(init);
      assert Reverse(es) + logs == [e] + x;
      var k := Min(Capacity, |x|);
      var n := Min(Capacity, |x| + 1);
      assert Min(Capacity, k + 1) == n;
      assert ([e] + x[..k])[..n] == ([e] + x)[..n];
      assert Replay(logs, es) == Push(x[..k], e) == ([e] + x[..k])[..n];
      assert |es| + |logs| == |x| + 1;
    }
  }

  /** The log never holds more than ten entries, whatever is added. */
  lemma ReplayBounded(logs: seq<LogEntry>, es: seq<LogEntry>)
    requires |logs| <= Capacity
    ensures |Replay(logs, es)| <= Capacity
    ensures |es| >= Capacity ==> |Replay(logs, es)| == Capacity
  {
    ReplayKeepsNewest(logs, es);
  }

  class EventLog {
    var logs: seq<LogEntry>

    predicate Valid()
      reads this
    {
      |logs| <= Capacity
    }

    constructor ()
      ensures Valid() && logs == []
    {
      logs := [];
    }

    /** `addLog`: the new entry goes to the front and the oldest beyond ten falls off. */
    method AddLog(event: string, data: Payload, now: nat, iso: string)
      requires Valid()
      modifies this
      ensures Valid()
      ensures logs == Push(old(logs), LogEntry(NatToString(now), event, iso, data))
    {
      logs := Push(logs, LogEntry(NatToString(now), event, iso, data));
    }

    /** The six listeners: a subscribed event adds one entry tagged with its name. */
    method Handle(n: Notice, now: nat, iso: string)
      requires Valid()
      modifies this
      ensures Valid()
      ensures Logged(n.event) ==> logs == Push(old(logs), LogEntry(NatToString(now), NameOf(n.event), iso, n.payload))
      ensures !Logged(n.event) ==> logs == old(logs)
    {
      if Logged(n.event) {
        AddLog(NameOf(n.event), n.payload, now, iso);
      }
    }

    /** `clearLogs`. */
    method ClearLogs()
      modifies this
      ensures Valid() && logs == []
    {
      logs := [];
    }
  }

  /** Two subscribed events in a row leave the later one on top, the earlier one second. */
  method HandleTwice(log: EventLog, n1: Notice, n2: Notice, t1: nat, t2: nat, iso1: string, iso2: string)
    requires log.Valid() && Logged(n1.event) && Logged(n2.event)
    modifies log
    ensures log.Valid()
    ensures |log.logs| >= 2
    ensures log.logs[0] == LogEntry(NatToString(t2), NameOf(n2.event), iso2, n2.payload)
    ensures log.logs[1] == LogEntry(NatToString(t1), NameOf(n1.event), iso1, n1.payload)
  {
    log.Handle(n1, t1, iso1);
    log.Handle(n2, t2, iso2);
  }
}
