/**
 * The quiet-hours gate at the top of `notifyTeams`: a message is dropped when
 * the local hour is at or after the start of the silent period, or before its
 * end, or the weekday is one of the silent days. The three tests are joined by
 * a plain OR; there is no special handling of a window that does not wrap
 * midnight.
 */
module QuietHours {

  /** The three configuration values the gate reads. */
  datatype Config = Config(startSilentHour: int, endSilentHour: int, silentDays: seq<string>)

  /** The values shipped in config.js. */
  const Shipped: Config := Config(16, 6, ["Saturday", "Sunday"])

  /** The clock reading `notifyTeams` takes for each message: hour of day and weekday name. */
  datatype Clock = Clock(hour: int, day: string)

  /** Delivery is suppressed. */
  predicate Silent(hour: int, day: string, cfg: Config)
  {
    hour >= cfg.startSilentHour || hour < cfg.endSilentHour || day in cfg.silentDays
  }

  /** Delivery goes ahead exactly in the hours from the end up to, not including,
      the start, on a non-silent day. This holds for every configuration: when the
      start is at or before the end, that window is empty. */
  lemma DeliveryWindow(hour: int, day: string, cfg: Config)
    ensures !Silent(hour, day, cfg) <==>
              cfg.endSilentHour <= hour < cfg.startSilentHour && day !in cfg.silentDays
  {
  }

  /** With start at or before end, the literal OR covers every hour: nothing is ever sent. */
  lemma NonWrappingWindowAlwaysSilent(hour: int, day: string, cfg: Config)
    requires cfg.startSilentHour <= cfg.endSilentHour
    ensures Silent(hour, day, cfg)
  {
  }

  /** Under the shipped configuration, messages go out from 06:00 to 15:59 on
      weekdays other than Saturday and Sunday, and at no other time. */
  lemma ShippedSchedule(hour: int, day: string)
    requires 0 <= hour < 24
    ensures !Silent(hour, day, Shipped) <==> 6 <= hour <= 15 && day != "Saturday" && day != "Sunday"
  {
  }

  /** The messages of one cycle that get past the gate, each judged at its own
      clock reading (`notifyTeams` reads the clock once per message). */
  function Delivered(msgs: seq<string>, clocks: seq<Clock>, cfg: Config): (sent: seq<string>)
    requires |clocks| == |msgs|
    ensures |sent| <= |msgs|
    ensures forall k :: 0 <= k < |sent| ==>
              exists i :: 0 <= i < |msgs| && sent[k] == msgs[i] && !Silent(clocks[i].hour, clocks[i].day, cfg)
    ensures forall i :: 0 <= i < |msgs| && !Silent(clocks[i].hour, clocks[i].day, cfg) ==> msgs[i] in sent
    ensures (forall i :: 0 <= i < |clocks| ==> !Silent(clocks[i].hour, clocks[i].day, cfg)) ==> sent == msgs
    ensures (forall i :: 0 <= i < |clocks| ==> Silent(clocks[i].hour, clocks[i].day, cfg)) ==> sent == []
  {
    if msgs == [] then []
    else
      var rest := Delivered(msgs[1..], clocks[1..], cfg);
      if Silent(clocks[0].hour, clocks[0].day, cfg) then rest else [msgs[0]] + rest
  }

  /** Messages are sent in the order they were composed: one more message
      judged at one more clock reading is appended, or dropped, at the end. */
  lemma {:induction false} DeliveredSnoc(msgs: seq<string>, clocks: seq<Clock>, m: string, c: Clock, cfg: Config)
    requires |clocks| == |msgs|
    ensures Delivered(msgs + [m], clocks + [c], cfg) ==
              Delivered(msgs, clocks, cfg) + (if Silent(c.hour, c.day, cfg) then [] else [m])
    decreases |msgs|
  {
    if msgs == [] {
      assert (msgs + [m])[1..] == [] && (clocks + [c])[1..] == [];
    } else {
      assert (msgs + [m])[1..] == msgs[1..] + [m];
      assert (clocks + [c])[1..] == clocks[1..] + [c];
      DeliveredSnoc(msgs[1..], clocks[1..], m, c, cfg);
    }
  }
}
