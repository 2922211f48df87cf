/**
 * The notifier's module-level state (`previousChargerStatuses`,
 * `previousFreeChargerCount`, `initialRun`) as one object, and
 * `checkChargerAvailability` as a method that updates it in place.
 */
module Tracker {
  import opened Wrappers
  import opened ChargerDiff
  import opened Notices

  class Tracker {
    /** Last observed operating mode per charger id. */
    var statuses: map<string, int>
    /** Number of free chargers at the end of the last successful cycle. */
    var lastFree: nat
    /** No cycle has completed yet. */
    var initialRun: bool

    function State(): TrackerState
      reads this
    {
      TrackerState(statuses, lastFree, initialRun)
    }

    ghost predicate Valid()
      reads this
    {
      Baseline(State())
    }

    constructor ()
      ensures Valid()
      ensures State() == Start
    {
      statuses := map[];
      lastFree := 0;
      initialRun := true;
    }

    /** The loop of `checkChargerAvailability`: walks the snapshot, records each
        charger's mode and collects the loop variables. */
    method ScanSnapshot(chargers: seq<Charger>)
      returns (available: seq<string>, completed: seq<string>, chargingChanged: bool, free: nat, strip: string)
      modifies this`statuses
      ensures Diff(available, completed, chargingChanged, free, strip, statuses) == Scan(old(statuses), chargers)
    {
      available, completed := [], [];
      strip := "";
      free := 0;
      chargingChanged := false;
      for i := 0 to |chargers|
        invariant Diff(available, completed, chargingChanged, free, strip, statuses) == Scan(old(statuses), chargers[..i])
      {
        var c := chargers[i];
        var name := DisplayName(c.name);
        strip := strip + Icon(c.mode) + " ";
        if c.id !in statuses || statuses[c.id] != c.mode {
          if c.mode == Free {
            free := free + 1;
            available := available + [name];
          } else if c.mode == Authorizing {
          } else if c.mode == Complete {
            completed := completed + [name];
          } else if c.mode == Charging {
            chargingChanged := true;
          }
          statuses := statuses[c.id := c.mode];
        } else if c.mode == Free {
          free := free + 1;
        }
        assert chargers[..i + 1][..i] == chargers[..i];
      }
      assert chargers[..|chargers|] == chargers;
    }

    /** The sending part of `checkChargerAvailability`: the count summary, then
        (after the first run) the "available" and "stopped charging" messages,
        each followed by a blank line and the status strip. */
    method Compose(available: seq<string>, completed: seq<string>, chargingChanged: bool, free: nat, strip: string)
      returns (msgs: seq<string>)
      ensures msgs == Messages(Decide(Diff(available, completed, chargingChanged, free, strip, statuses), lastFree, initialRun), strip)
    {
      ghost var d := Diff(available, completed, chargingChanged, free, strip, statuses);
      ghost var notices: seq<Notice> := [];
      msgs := [];
      if chargingChanged && lastFree > free {
        MessagesSnoc(notices, Summary(free), strip);
        notices, msgs := notices + [Summary(free)], msgs + [Render(Summary(free)) + "\n\n" + strip];
      }
      assert msgs == Messages(notices, strip);
      assert notices == if Contended(d, lastFree) then [Summary(d.freeCount)] else [];
      ghost var summary := notices;
      if !initialRun {
        if |available| > 0 {
          MessagesSnoc(notices, BecameFree(available), strip);
          notices, msgs := notices + [BecameFree(available)], msgs + [Render(BecameFree(available)) + "\n\n" + strip];
        }
        assert msgs == Messages(notices, strip);
        assert notices == summary + if d.available != [] then [BecameFree(d.available)] else [];
        ghost var before := notices;
        if |completed| > 0 {
          MessagesSnoc(notices, StoppedCharging(completed), strip);
          notices, msgs := notices + [StoppedCharging(completed)], msgs + [Render(StoppedCharging(completed)) + "\n\n" + strip];
        }
        assert msgs == Messages(notices, strip);
        assert notices == before + if d.completed != [] then [StoppedCharging(d.completed)] else [];
      }
      DecideParts(d, lastFree, initialRun);
    }

    /** One poll cycle over the fetched charger list (`None` when the request
        failed). Returns the messages handed to `notifyTeams`, in order. */
    method Cycle(fetched: Option<seq<Charger>>) returns (msgs: seq<string>)
      requires Valid()
      modifies this
      ensures Valid()
      ensures Outcome(State(), msgs) == Poll(old(State()), fetched)
      ensures fetched.None? ==> State() == old(State()) && msgs == []
    {
      if fetched.None? {
        return [];
      }
      var chargers := fetched.value;
      var available, completed, chargingChanged, free, strip := ScanSnapshot(chargers);
      msgs := Compose(available, completed, chargingChanged, free, strip);
      if initialRun {
        initialRun := false;
      }
      lastFree := free;
      PollSucceeds(old(State()), chargers);
    }
  }
}
