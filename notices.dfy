/**
 * The decision half of `checkChargerAvailability`: which notifications a pass
 * over the snapshot yields, their wording, and the tracker state left behind.
 * `Poll` is one whole cycle as a function of the state before it; the
 * `Tracker` class runs the same cycle imperatively.
 */
module Notices {
  import opened Wrappers
  import Text
  import opened ChargerDiff

  /** The three kinds of notification a cycle can send. */
  datatype Notice =
    | Summary(free: nat)                  // the "contended" count after a charger started charging
    | BecameFree(names: seq<string>)      // chargers that became available
    | StoppedCharging(names: seq<string>) // chargers that finished charging

  /** Position of each kind in the order the cycle sends them. */
  function Rank(n: Notice): nat
  {
    match n
    case Summary(_) => 0
    case BecameFree(_) => 1
    case StoppedCharging(_) => 2
  }

  /** The summary fires when some charger changed into charging while fewer
      chargers are free than at the end of the previous cycle. */
  predicate Contended(d: Diff, lastFree: int)
  {
    d.chargingChanged && lastFree > d.freeCount
  }

  /** The notifications of one cycle, in sending order. The per-charger ones
      are held back on the first run; the summary is not. */
  function Decide(d: Diff, lastFree: int, initialRun: bool): (r: seq<Notice>)
    ensures forall i, j :: 0 <= i < j < |r| ==> Rank(r[i]) < Rank(r[j])
    ensures Summary(d.freeCount) in r <==> Contended(d, lastFree)
    ensures BecameFree(d.available) in r <==> !initialRun && d.available != []
    ensures StoppedCharging(d.completed) in r <==> !initialRun && d.completed != []
    ensures forall n :: n in r ==> n == Summary(d.freeCount) || n == BecameFree(d.available) || n == StoppedCharging(d.completed)
  {
    (if Contended(d, lastFree) then [Summary(d.freeCount)] else [])
    + (if !initialRun && d.available != [] then [BecameFree(d.available)] else [])
    + (if !initialRun && d.completed != [] then [StoppedCharging(d.completed)] else [])
  }

  /** The text of a notification, before the status strip is appended. */
  function Render(n: Notice): string
  {
    match n
    case Summary(free) =>
      if free == 0 then NoneLeftIcon + " 0 chargers available"
      else FreeIcon + " " + Text.DecimalText(free) + " charger(s) available."
    case BecameFree(names) =>
      FreeIcon + " " + Text.Join(names) + " " + (if |names| == 1 then "is" else "are") + " available!"
    case StoppedCharging(names) =>
      CompleteIcon + " " + Text.Join(names) + " " + (if |names| == 1 then "has" else "have") + " stopped charging."
  }

  /** A count summary states its count in decimal, with the "0 chargers" wording for none. */
  lemma SummaryWording(free: nat)
    ensures free == 0 ==> Render(Summary(free)) == NoneLeftIcon + " 0 chargers available"
    ensures free > 0 ==> exists t :: Render(Summary(free)) == FreeIcon + " " + t + " charger(s) available."
                                     && (forall i :: 0 <= i < |t| ==> Text.IsDigit(t[i])) && Text.DecimalValue(t) == free
  {
    if free > 0 {
      Text.DecimalRoundTrip(free);
      var t := Text.DecimalText(free);
      assert Render(Summary(free)) == FreeIcon + " " + t + " charger(s) available.";
    }
  }

  /** One name takes "is"/"has", several take "are"/"have". */
  lemma VerbAgreement(names: seq<string>)
    requires names != []
    ensures |names| == 1 ==> Render(BecameFree(names)) == FreeIcon + " " + names[0] + " " + "is" + " available!"
    ensures |names| == 1 ==> Render(StoppedCharging(names)) == CompleteIcon + " " + names[0] + " " + "has" + " stopped charging."
    ensures |names| > 1 ==> Render(BecameFree(names)) == FreeIcon + " " + Text.Join(names) + " " + "are" + " available!"
    ensures |names| > 1 ==> Render(StoppedCharging(names)) == CompleteIcon + " " + Text.Join(names) + " " + "have" + " stopped charging."
  {
  }

  /** Each notification followed by a blank line and the status strip. */
  function Messages(notices: seq<Notice>, strip: string): (msgs: seq<string>)
    ensures |msgs| == |notices|
  {
    seq(|notices|, i requires 0 <= i < |notices| => Render(notices[i]) + "\n\n" + strip)
  }

  /** `Decide` as its three parts, in sending order. */
  lemma DecideParts(d: Diff, lastFree: int, initialRun: bool)
    ensures initialRun ==> Decide(d, lastFree, initialRun) == (if Contended(d, lastFree) then [Summary(d.freeCount)] else [])
    ensures !initialRun ==>
              Decide(d, lastFree, initialRun) ==
                (if Contended(d, lastFree) then [Summary(d.freeCount)] else [])
                + (if d.available != [] then [BecameFree(d.available)] else [])
                + (if d.completed != [] then [StoppedCharging(d.completed)] else [])
  {
  }

  /** Sending one more notification appends one more message. */
  lemma MessagesSnoc(notices: seq<Notice>, n: Notice, strip: string)
    ensures Messages(notices + [n], strip) == Messages(notices, strip) + [Render(n) + "\n\n" + strip]
  {
  }

  /** The module-level state of the notifier. */
  datatype TrackerState = TrackerState(statuses: map<string, int>, lastFree: nat, initialRun: bool)

  /** The state at process start. */
  const Start: TrackerState := TrackerState(map[], 0, true)

  /** A state reachable from `Start`: the first-run flag is only up while the saved count is 0. */
  predicate Baseline(st: TrackerState)
  {
    st.initialRun ==> st.lastFree == 0
  }

  /** The state after a cycle and the messages it handed to `notifyTeams`, in order. */
  datatype Outcome = Outcome(state: TrackerState, msgs: seq<string>)

  /** One cycle. `fetched` is the charger list the provider returned, or `None`
      when the request failed, in which case nothing changes and nothing is sent. */
  function Poll(st: TrackerState, fetched: Option<seq<Charger>>): (o: Outcome)
    ensures fetched.None? ==> o == Outcome(st, [])
    ensures fetched.Some? ==> !o.state.initialRun && o.state.lastFree == CountMode(fetched.value, Free)
    ensures fetched.Some? ==> forall i :: 0 <= i < |o.msgs| ==>
              exists n :: o.msgs[i] == Render(n) + "\n\n" + StatusStrip(fetched.value)
    ensures Baseline(st) ==> Baseline(o.state)
  {
    match fetched
    case None => Outcome(st, [])
    case Some(s) =>
      var d := Scan(st.statuses, s);
      ScanFreeCount(st.statuses, s);
      ScanStrip(st.statuses, s);
      var notices := Decide(d, st.lastFree, st.initialRun);
      var msgs := Messages(notices, d.strip);
      assert forall i :: 0 <= i < |msgs| ==> msgs[i] == Render(notices[i]) + "\n\n" + StatusStrip(s);
      Outcome(TrackerState(d.statuses, d.freeCount, false), msgs)
  }

  /** A successful cycle in terms of the pass over the snapshot. */
  lemma PollSucceeds(st: TrackerState, s: seq<Charger>)
    ensures var d := Scan(st.statuses, s);
            Poll(st, Some(s)) ==
              Outcome(TrackerState(d.statuses, d.freeCount, false), Messages(Decide(d, st.lastFree, st.initialRun), d.strip))
  {
  }

  /** A successful cycle records every snapshot charger's mode (the last entry
      wins for a repeated id) and leaves every other recorded charger as it was. */
  lemma PollRecordsModes(st: TrackerState, s: seq<Charger>)
    ensures Poll(st, Some(s)).state.statuses.Keys == st.statuses.Keys + Ids(s)
    ensures forall i :: 0 <= i < |s| && LastOf(s, i) ==> Poll(st, Some(s)).state.statuses[s[i].id] == s[i].mode
    ensures forall id :: id in st.statuses && id !in Ids(s) ==> Poll(st, Some(s)).state.statuses[id] == st.statuses[id]
  {
    ScanStatuses(st.statuses, s);
  }

  /** The first cycle from a baseline state sends nothing: the per-charger
      messages are held back and the summary cannot fire against a saved count of 0. */
  lemma FirstCycleSilent(st: TrackerState, s: seq<Charger>)
    requires st.initialRun && Baseline(st)
    ensures Poll(st, Some(s)).msgs == []
    ensures !Poll(st, Some(s)).state.initialRun
  {
  }

  /** After a cycle that was not the first, the "available" message is sent iff
      some charger became free, the "stopped charging" message iff some charger
      became complete; with distinct ids these list exactly those chargers. */
  lemma PollTransitions(st: TrackerState, s: seq<Charger>)
    requires !st.initialRun && Distinct(s)
    ensures var d := Scan(st.statuses, s);
            Decide(d, st.lastFree, false) ==
              (if Contended(d, st.lastFree) then [Summary(CountMode(s, Free))] else [])
              + (if Into(st.statuses, s, Free) != [] then [BecameFree(Into(st.statuses, s, Free))] else [])
              + (if Into(st.statuses, s, Complete) != [] then [StoppedCharging(Into(st.statuses, s, Complete))] else [])
    ensures Contended(Scan(st.statuses, s), st.lastFree) <==>
              (exists i :: 0 <= i < |s| && s[i].mode == Charging && Changed(st.statuses, s[i]))
              && st.lastFree > CountMode(s, Free)
  {
    ScanTransitions(st.statuses, s);
    ScanFreeCount(st.statuses, s);
  }

  /** Feeding the same snapshot (distinct ids) twice in a row: the second cycle
      sends nothing and leaves the state as the first left it. */
  lemma {:induction false} RepeatedSnapshotIsQuiet(st: TrackerState, s: seq<Charger>)
    requires Distinct(s)
    ensures var first := Poll(st, Some(s));
            Poll(first.state, Some(s)) == Outcome(first.state, [])
  {
    var d1 := Scan(st.statuses, s);
    var m1 := d1.statuses;
    ScanStatuses(st.statuses, s);
    forall i | 0 <= i < |s| ensures s[i].id in m1 && m1[s[i].id] == s[i].mode {
      assert LastOf(s, i);
    }
    ScanAgainstItself(m1, s);
    ScanFreeCount(st.statuses, s);
    ScanFreeCount(m1, s);
    var d2 := Scan(m1, s);
    assert Decide(d2, d1.freeCount, false) == [];
  }
}
