/** Worked cycles, stated as lemmas about `Poll`. */
module Scenarios {
  import opened Wrappers
  import Text
  import opened ChargerDiff
  import opened Notices

  lemma ScanSnoc(prev: map<string, int>, a: seq<Charger>, c: Charger)
    ensures Scan(prev, a + [c]) == Observe(Scan(prev, a), c)
  {
    assert (a + [c])[..|a|] == a;
  }

  /** The vendor label is cut from the end of a name. */
  lemma BayOneName()
    ensures DisplayName("Bay 1 Tobii") == "Bay 1"
  {
    var s := "Bay 1 Tobii";
    assert Text.OccursAt(s, VendorLabel, 5);
    forall j: nat | j < 5 ensures !Text.OccursAt(s, VendorLabel, j) {
      assert s[j + 1] != VendorLabel[1];
    }
    Text.RemoveFirstCutsEarliest(s, VendorLabel);
  }

  const SeenCharging: Charger := Charger("c1", "Bay 1 Tobii", Charging)
  const SeenFree: Charger := Charger("c1", "Bay 1 Tobii", Free)
  const AfterFirst: TrackerState := TrackerState(map["c1" := Charging], 0, false)

  /** The first cycle only records the charger. */
  lemma FirstSeenCharging()
    ensures Poll(Start, Some([SeenCharging])) == Outcome(AfterFirst, [])
  {
    ScanSnoc(map[], [], SeenCharging);
    assert [] + [SeenCharging] == [SeenCharging];
    assert Scan(map[], [SeenCharging]).statuses == map["c1" := Charging];
    PollSucceeds(Start, [SeenCharging]);
    FirstCycleSilent(Start, [SeenCharging]);
  }

  /** The pass of the second cycle lists the charger under its display name. */
  lemma SecondSeenFreeScan()
    ensures Scan(AfterFirst.statuses, [SeenFree]) == Diff(["Bay 1"], [], false, 1, FreeIcon + " ", map["c1" := Free])
  {
    ScanSnoc(AfterFirst.statuses, [], SeenFree);
    assert [] + [SeenFree] == [SeenFree];
    BayOneName();
  }

  /** A charger seen charging on the first cycle, then free on the second:
      the first cycle is silent, the second announces it by its display name. */
  lemma ChargingThenFree()
    ensures var first := Poll(Start, Some([SeenCharging]));
            && first.msgs == []
            && first.state.lastFree == 0
            && Poll(first.state, Some([SeenFree])).msgs
               == [FreeIcon + " " + "Bay 1" + " " + "is" + " available!" + "\n\n" + FreeIcon + " "]
  {
    FirstSeenCharging();
    SecondSeenFreeScan();
    var d2 := Scan(AfterFirst.statuses, [SeenFree]);
    PollSucceeds(AfterFirst, [SeenFree]);
    assert Decide(d2, 0, false) == [BecameFree(["Bay 1"])];
    VerbAgreement(["Bay 1"]);
    var text := FreeIcon + " " + "Bay 1" + " " + "is" + " available!";
    assert Render(BecameFree(["Bay 1"])) == text;
    assert Messages([BecameFree(["Bay 1"])], d2.strip) == [text + "\n\n" + d2.strip];
    assert text + "\n\n" + (FreeIcon + " ") == text + "\n\n" + FreeIcon + " ";
  }

  const Lot: map<string, int> := map["a" := Free, "b" := Free, "c" := Free]
  const StartsA: Charger := Charger("a", "A", Charging)
  const StaysB: Charger := Charger("b", "B", Free)
  const StaysC: Charger := Charger("c", "C", Free)

  /** The pass over the three chargers: one changed into charging, two still free. */
  lemma ThreeChargersScan()
    ensures Scan(Lot, [StartsA, StaysB, StaysC])
            == Diff([], [], true, 2, ChargingIcon + " " + FreeIcon + " " + FreeIcon + " ", Lot["a" := Charging])
  {
    assert [] + [StartsA] == [StartsA];
    assert [StartsA] + [StaysB] == [StartsA, StaysB];
    assert [StartsA, StaysB] + [StaysC] == [StartsA, StaysB, StaysC];
    ScanSnoc(Lot, [], StartsA);
    ScanSnoc(Lot, [StartsA], StaysB);
    ScanSnoc(Lot, [StartsA, StaysB], StaysC);
    var d0 := Scan(Lot, [StartsA]);
    assert d0 == Diff([], [], true, 0, ChargingIcon + " ", Lot["a" := Charging]);
    var d1 := Scan(Lot, [StartsA, StaysB]);
    assert d1 == Diff([], [], true, 1, ChargingIcon + " " + FreeIcon + " ", d0.statuses);
  }

  /** The summary text for two free chargers, with the strip appended. */
  lemma TwoLeftMessage(d: Diff)
    requires d == Diff([], [], true, 2, ChargingIcon + " " + FreeIcon + " " + FreeIcon + " ", Lot["a" := Charging])
    ensures Messages(Decide(d, 3, false), d.strip)
            == [FreeIcon + " " + "2" + " charger(s) available." + "\n\n" + ChargingIcon + " " + FreeIcon + " " + FreeIcon + " "]
  {
    assert Decide(d, 3, false) == [Summary(2)];
    assert Text.DecimalText(2) == "2";
    var text := FreeIcon + " " + "2" + " charger(s) available.";
    assert Render(Summary(2)) == text;
    assert Messages([Summary(2)], d.strip) == [text + "\n\n" + d.strip];
    assert text + "\n\n" + (ChargingIcon + " " + FreeIcon + " " + FreeIcon + " ")
        == text + "\n\n" + ChargingIcon + " " + FreeIcon + " " + FreeIcon + " ";
  }

  /** Three free chargers, one of which starts charging: the count summary goes
      out with the new free count and the strip. */
  lemma OneOfThreeStartsCharging()
    ensures Poll(TrackerState(Lot, 3, false), Some([StartsA, StaysB, StaysC])).msgs
            == [FreeIcon + " " + "2" + " charger(s) available." + "\n\n" + ChargingIcon + " " + FreeIcon + " " + FreeIcon + " "]
  {
    var s := [StartsA, StaysB, StaysC];
    PollSucceeds(TrackerState(Lot, 3, false), s);
    ThreeChargersScan();
    TwoLeftMessage(Scan(Lot, s));
  }
}
