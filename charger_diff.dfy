/**
 * What one pass of `checkChargerAvailability` computes from a snapshot: the
 * status strip, the chargers that became free or finished charging, whether
 * some charger went into charging, how many chargers are free, and the new
 * per-charger mode table.
 */
module ChargerDiff {
  import Text

  /** Operating modes the notifier knows. Any other code is carried as it is. */
  const Free := 1
  const Authorizing := 2
  const Charging := 3
  const Complete := 5

  /** The icon literals, kept code point for code point as they appear in the
      source (mis-decoded UTF-8 of the intended emoji). */
  const FreeIcon: string := "\U{E2}\U{153}\U{2026}"
  const AuthorizingIcon: string := "\U{E2}\U{2020}\U{BA}"
  const ChargingIcon: string := "\U{E2}\U{161}\U{A1}"
  const CompleteIcon: string := "\U{F0}\U{178}\U{201D}\U{2039}"
  const NoneLeftIcon: string := "\U{E2}\U{152}"

  /** The vendor label stripped from display names. */
  const VendorLabel: string := " Tobii"

  /** One entry of the provider's charger list. */
  datatype Charger = Charger(id: string, name: string, mode: int)

  /** `statusIcons[mode]` inside a template literal: an unknown code renders as "undefined". */
  function Icon(mode: int): string
  {
    if mode == Free then FreeIcon
    else if mode == Authorizing then AuthorizingIcon
    else if mode == Charging then ChargingIcon
    else if mode == Complete then CompleteIcon
    else "undefined"
  }

  /** The name shown in messages. */
  function DisplayName(name: string): string
  {
    Text.RemoveFirst(name, VendorLabel)
  }

  /** The charger's mode differs from the recorded one, or none is recorded. */
  predicate Changed(statuses: map<string, int>, c: Charger)
  {
    c.id !in statuses || statuses[c.id] != c.mode
  }

  /** The loop's variables after some prefix of the snapshot. */
  datatype Diff = Diff(
    available: seq<string>,
    completed: seq<string>,
    chargingChanged: bool,
    freeCount: nat,
    strip: string,
    statuses: map<string, int>)

  /** One iteration of the loop over the snapshot, field by field. A change
      records the new mode; a change into 1 or 5 lists the display name; a change
      into 3 raises the charging flag; a change into 2 or an unknown code does
      nothing else. Every charger in mode 1 counts as free, changed or not. */
  function Observe(d: Diff, c: Charger): Diff
  {
    var name := DisplayName(c.name);
    var changed := Changed(d.statuses, c);
    Diff(
      if changed && c.mode == Free then d.available + [name] else d.available,
      if changed && c.mode == Complete then d.completed + [name] else d.completed,
      d.chargingChanged || (changed && c.mode == Charging),
      if c.mode == Free then d.freeCount + 1 else d.freeCount,
      d.strip + Icon(c.mode) + " ",
      if changed then d.statuses[c.id := c.mode] else d.statuses)
  }

  /** The loop run over the whole snapshot, starting from the recorded modes `prev`. */
  function Scan(prev: map<string, int>, s: seq<Charger>): Diff
    decreases |s|
  {
    if s == [] then Diff([], [], false, 0, "", prev)
    else Observe(Scan(prev, s[..|s| - 1]), s[|s| - 1])
  }

  // ---------------------------------------------------------------------------
  // Reference definitions, stated over the snapshot alone

  /** The number of snapshot entries in mode `m`. */
  function CountMode(s: seq<Charger>, m: int): nat
  {
    if s == [] then 0 else (if s[0].mode == m then 1 else 0) + CountMode(s[1..], m)
  }

  /** One icon followed by a space per charger, in snapshot order. */
  function StatusStrip(s: seq<Charger>): string
  {
    if s == [] then "" else Icon(s[0].mode) + " " + StatusStrip(s[1..])
  }

  /** The display names, in snapshot order, of chargers now in mode `m` whose
      mode differs from (or is missing in) `prev`. */
  function Into(prev: map<string, int>, s: seq<Charger>, m: int): seq<string>
  {
    if s == [] then []
    else (if s[0].mode == m && Changed(prev, s[0]) then [DisplayName(s[0].name)] else []) + Into(prev, s[1..], m)
  }

  /** The ids in the snapshot. */
  function Ids(s: seq<Charger>): set<string>
  {
    set i | 0 <= i < |s| :: s[i].id
  }

  /** No later entry of the snapshot has the same id as entry `i`. */
  predicate LastOf(s: seq<Charger>, i: int)
    requires 0 <= i < |s|
  {
    forall j :: i < j < |s| ==> s[j].id != s[i].id
  }

  /** No two snapshot entries share an id. */
  predicate Distinct(s: seq<Charger>)
  {
    forall i, j :: 0 <= i < j < |s| ==> s[i].id != s[j].id
  }

  // ---------------------------------------------------------------------------
  // Append lemmas for the reference definitions

  lemma {:induction false} CountModeAppend(a: seq<Charger>, c: Charger, m: int)
    ensures CountMode(a + [c], m) == CountMode(a, m) + (if c.mode == m then 1 else 0)
  {
    if a != [] {
      assert (a + [c])[1..] == a[1..] + [c];
      CountModeAppend(a[1..], c, m);
    }
  }

  lemma {:induction false} StatusStripAppend(a: seq<Charger>, c: Charger)
    ensures StatusStrip(a + [c]) == StatusStrip(a) + Icon(c.mode) + " "
  {
    if a != [] {
      assert (a + [c])[1..] == a[1..] + [c];
      StatusStripAppend(a[1..], c);
    }
  }

  lemma {:induction false} IntoAppend(prev: map<string, int>, a: seq<Charger>, c: Charger, m: int)
    ensures Into(prev, a + [c], m) ==
            Into(prev, a, m) + (if c.mode == m && Changed(prev, c) then [DisplayName(c.name)] else [])
  {
    if a != [] {
      assert (a + [c])[1..] == a[1..] + [c];
      IntoAppend(prev, a[1..], c, m);
    }
  }

  lemma IdsAppend(a: seq<Charger>, c: Charger)
    ensures Ids(a + [c]) == Ids(a) + {c.id}
  {
    var s := a + [c];
    forall id | id in Ids(s) ensures id in Ids(a) + {c.id} {
      var i :| 0 <= i < |s| && s[i].id == id;
      if i < |a| { assert a[i].id == id; }
    }
    forall id | id in Ids(a) ensures id in Ids(s) {
      var i :| 0 <= i < |a| && a[i].id == id;
      assert s[i].id == id;
    }
    assert s[|a|].id == c.id;
  }

  // ---------------------------------------------------------------------------
  // What the loop computes

  /** Whatever branch is taken, the charger's mode ends up recorded. */
  lemma ObserveRecords(d: Diff, c: Charger)
    ensures Observe(d, c).statuses == d.statuses[c.id := c.mode]
  {
  }

  /** The lists and the flag grow only on a change, each by its own mode. */
  lemma ObserveTransitions(d: Diff, c: Charger)
    ensures Observe(d, c).available ==
              d.available + (if c.mode == Free && Changed(d.statuses, c) then [DisplayName(c.name)] else [])
    ensures Observe(d, c).completed ==
              d.completed + (if c.mode == Complete && Changed(d.statuses, c) then [DisplayName(c.name)] else [])
    ensures Observe(d, c).chargingChanged == (d.chargingChanged || (c.mode == Charging && Changed(d.statuses, c)))
  {
  }

  /** The free count covers every charger in mode 1, whether or not its mode changed. */
  lemma {:induction false} ScanFreeCount(prev: map<string, int>, s: seq<Charger>)
    ensures Scan(prev, s).freeCount == CountMode(s, Free)
    decreases |s|
  {
    if s != [] {
      var a := s[..|s| - 1];
      ScanFreeCount(prev, a);
      CountModeAppend(a, s[|s| - 1], Free);
      assert a + [s[|s| - 1]] == s;
    }
  }

  /** The status strip is one icon and a space per charger, in snapshot order. */
  lemma {:induction false} ScanStrip(prev: map<string, int>, s: seq<Charger>)
    ensures Scan(prev, s).strip == StatusStrip(s)
    decreases |s|
  {
    if s != [] {
      var a := s[..|s| - 1];
      var c := s[|s| - 1];
      ScanStrip(prev, a);
      StatusStripAppend(a, c);
      assert a + [c] == s;
      calc {
        Scan(prev, s).strip;
        Observe(Scan(prev, a), c).strip;
        Scan(prev, a).strip + Icon(c.mode) + " ";
        StatusStrip(a + [c]);
      }
    }
  }

  /** The pass records exactly the chargers recorded before plus those in the snapshot. */
  lemma {:induction false} ScanKeys(prev: map<string, int>, s: seq<Charger>)
    ensures Scan(prev, s).statuses.Keys == prev.Keys + Ids(s)
    decreases |s|
  {
    if s != [] {
      var a := s[..|s| - 1];
      var c := s[|s| - 1];
      ScanKeys(prev, a);
      ObserveRecords(Scan(prev, a), c);
      assert s == a + [c];
      IdsAppend(a, c);
    }
  }

  /** A charger absent from the snapshot keeps its recorded mode. */
  lemma {:induction false} ScanKeepsOthers(prev: map<string, int>, s: seq<Charger>, id: string)
    requires id in prev && id !in Ids(s)
    ensures id in Scan(prev, s).statuses && Scan(prev, s).statuses[id] == prev[id]
    decreases |s|
  {
    if s != [] {
      var a := s[..|s| - 1];
      var c := s[|s| - 1];
      assert s == a + [c];
      IdsAppend(a, c);
      ScanKeepsOthers(prev, a, id);
      ObserveRecords(Scan(prev, a), c);
    }
  }

  /** A charger in the snapshot ends up recorded with the mode of its last entry. */
  lemma {:induction false} ScanLastWins(prev: map<string, int>, s: seq<Charger>, i: int)
    requires 0 <= i < |s| && LastOf(s, i)
    ensures s[i].id in Scan(prev, s).statuses && Scan(prev, s).statuses[s[i].id] == s[i].mode
    decreases |s|
  {
    var a := s[..|s| - 1];
    var c := s[|s| - 1];
    ObserveRecords(Scan(prev, a), c);
    if i < |s| - 1 {
      assert s[i] == a[i];
      assert LastOf(a, i);
      ScanLastWins(prev, a, i);
    }
  }

  /** After the pass, every charger of the snapshot is recorded with its mode
      (the last entry wins when ids repeat) and every other recorded charger is untouched. */
  lemma ScanStatuses(prev: map<string, int>, s: seq<Charger>)
    ensures Scan(prev, s).statuses.Keys == prev.Keys + Ids(s)
    ensures forall i :: 0 <= i < |s| && LastOf(s, i) ==> Scan(prev, s).statuses[s[i].id] == s[i].mode
    ensures forall id :: id in prev && id !in Ids(s) ==> Scan(prev, s).statuses[id] == prev[id]
  {
    ScanKeys(prev, s);
    forall i | 0 <= i < |s| && LastOf(s, i) ensures Scan(prev, s).statuses[s[i].id] == s[i].mode {
      ScanLastWins(prev, s, i);
    }
    forall id | id in prev && id !in Ids(s) ensures Scan(prev, s).statuses[id] == prev[id] {
      ScanKeepsOthers(prev, s, id);
    }
  }

  /** With distinct ids, the pass finds exactly the chargers whose mode differs
      from the recorded one: the "available" list names those now free, the
      "completed" list those now complete, and the charging flag is raised iff
      some charger changed into charging. */
  lemma {:induction false} ScanTransitions(prev: map<string, int>, s: seq<Charger>)
    requires Distinct(s)
    ensures Scan(prev, s).available == Into(prev, s, Free)
    ensures Scan(prev, s).completed == Into(prev, s, Complete)
    ensures Scan(prev, s).chargingChanged <==>
              exists i :: 0 <= i < |s| && s[i].mode == Charging && Changed(prev, s[i])
    decreases |s|
  {
    if s != [] {
      var a := s[..|s| - 1];
      var c := s[|s| - 1];
      assert a + [c] == s;
      assert Distinct(a);
      ScanTransitions(prev, a);
      ScanStatuses(prev, a);
      assert c.id !in Ids(a) by {
        forall i | 0 <= i < |a| ensures a[i].id != c.id {
          assert a[i] == s[i];
        }
      }
      assert Changed(Scan(prev, a).statuses, c) == Changed(prev, c);
      ObserveTransitions(Scan(prev, a), c);
      IntoAppend(prev, a, c, Free);
      IntoAppend(prev, a, c, Complete);
      if Scan(prev, a).chargingChanged {
        var i :| 0 <= i < |a| && a[i].mode == Charging && Changed(prev, a[i]);
        assert s[i] == a[i];
      }
      if exists i :: 0 <= i < |s| && s[i].mode == Charging && Changed(prev, s[i]) {
        var i :| 0 <= i < |s| && s[i].mode == Charging && Changed(prev, s[i]);
        if i < |s| - 1 { assert a[i] == s[i]; }
      }
    }
  }

  /** Some entry of the snapshot is in mode `m` and shows as `name`. */
  predicate NamedInMode(s: seq<Charger>, m: int, name: string)
  {
    exists i :: 0 <= i < |s| && s[i].mode == m && DisplayName(s[i].name) == name
  }

  /** Every name in `names` belongs to an entry of the snapshot in mode `m`. */
  predicate AllNamedInMode(names: seq<string>, s: seq<Charger>, m: int)
  {
    forall k :: 0 <= k < |names| ==> NamedInMode(s, m, names[k])
  }

  lemma AllNamedInModeSnoc(names: seq<string>, a: seq<Charger>, c: Charger, m: int)
    requires AllNamedInMode(names, a, m)
    ensures AllNamedInMode(names, a + [c], m)
    ensures c.mode == m ==> AllNamedInMode(names + [DisplayName(c.name)], a + [c], m)
  {
    var s := a + [c];
    forall k | 0 <= k < |names| ensures NamedInMode(s, m, names[k]) {
      assert NamedInMode(a, m, names[k]);
      var i :| 0 <= i < |a| && a[i].mode == m && DisplayName(a[i].name) == names[k];
      assert s[i] == a[i];
    }
    if c.mode == m {
      assert s[|a|] == c;
      assert NamedInMode(s, m, DisplayName(c.name));
    }
  }

  /** Whatever the ids, only chargers in mode 1 are listed as available and only
      chargers in mode 5 as completed: modes 2, 3 and unknown codes never are. */
  lemma {:induction false} ScanListsOnlyTheirMode(prev: map<string, int>, s: seq<Charger>)
    ensures AllNamedInMode(Scan(prev, s).available, s, Free)
    ensures AllNamedInMode(Scan(prev, s).completed, s, Complete)
    decreases |s|
  {
    if s != [] {
      var a := s[..|s| - 1];
      var c := s[|s| - 1];
      assert a + [c] == s;
      ScanListsOnlyTheirMode(prev, a);
      var d := Scan(prev, a);
      ObserveTransitions(d, c);
      AllNamedInModeSnoc(d.available, a, c, Free);
      AllNamedInModeSnoc(d.completed, a, c, Complete);
    } else {
      assert Scan(prev, s).available == [] && Scan(prev, s).completed == [];
    }
  }

  /** Against a table that already holds every charger's current mode, the pass
      reports nothing new: empty lists, no charging flag, the table unchanged. */
  lemma {:induction false} ScanAgainstItself(m: map<string, int>, s: seq<Charger>)
    requires forall i :: 0 <= i < |s| ==> s[i].id in m && m[s[i].id] == s[i].mode
    ensures Scan(m, s).available == [] && Scan(m, s).completed == []
    ensures !Scan(m, s).chargingChanged
    ensures Scan(m, s).statuses == m
    decreases |s|
  {
    if s != [] {
      var a := s[..|s| - 1];
      forall i | 0 <= i < |a| ensures a[i].id in m && m[a[i].id] == a[i].mode {
        assert a[i] == s[i];
      }
      ScanAgainstItself(m, a);
    }
  }
}
