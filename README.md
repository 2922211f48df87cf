# Zaptec charger notifier: state diffing and notification decisions

This project models the core of `ZaptecTeamsNotifier.js`. That file polls the Zaptec charger API, compares each charger's operating mode with the mode seen on the previous poll, and sends Microsoft Teams messages. It announces chargers that became free and chargers that stopped charging. It also sends a count summary when a charger starts charging and fewer chargers are free than before. Nothing is delivered during quiet hours.

Modules:

- `Wrappers` (`wrappers.dfy`): the `Option` type. A failed fetch is `None`.
- `Text` (`text.dfy`): three string operations the messages use.
  - `String.prototype.replace` with a string pattern. It removes the first occurrence only.
  - `Array.prototype.join(", ")`.
  - The decimal text of a count inside a template literal.
- `QuietHours` (`quiet_hours.dfy`): the quiet-hours test of `notifyTeams`. It keeps the literal OR of the three conditions. It also has a filter that applies the test to each message of a cycle, each at its own clock reading.
- `ChargerDiff` (`charger_diff.dfy`): the charger record, the icon table and the display name.
  - `Observe` is one iteration of the loop over the snapshot, field by field.
  - `Scan` is the whole loop, folded left to right.
  - Lemmas relate `Scan` to definitions stated over the snapshot alone: the free count, the status strip, the recorded modes, and the "became free" and "became complete" lists.
- `Notices` (`notices.dfy`): what the loop's result turns into.
  - `Decide` chooses the notifications.
  - `Render` words them.
  - `Messages` appends the blank line and the status strip.
  - `Poll` is one whole cycle as a function of the state before it. Its lemmas cover first-cycle silence, idempotence on a repeated snapshot and the recorded-mode update.
- `Tracker` (`tracker.dfy`): the three module-level variables (`previousChargerStatuses`, `previousFreeChargerCount`, `initialRun`) as fields of a class.
  - `ScanSnapshot` is the source's `for` loop, branch for branch, including the empty Authorizing branch. It updates the mode map in place and is proved equal to `Scan`.
  - `Compose` pushes the messages in the source's order.
  - `Cycle` runs a whole poll and is proved equal to `Poll`.
- `Scenarios` (`scenarios.dfy`): two worked cycles with their exact message text.

The icon literals are kept code point for code point as the source file has them. They are mis-decoded UTF-8 of the intended emoji, and the model treats them as opaque constants. An operating mode outside 1, 2, 3 and 5 shows as the text `undefined` in the status strip, because that is what the template literal renders.

Where the code differs from what its configuration file and comments suggest, the model follows the code:

- With `startSilentHour <= endSilentHour`, the literal OR is silent at every hour. It does not leave a narrow window open (`QuietHours.NonWrappingWindowAlwaysSilent`).
- In the code the count summary comes before the first-run check, so the first-run flag does not silence it. It still cannot fire on the first cycle, because the saved free count starts at 0 (`Notices.FirstCycleSilent`).
- `config.js` lists `timeZone`, `silentStart` and `iconSet` keys (lines 4, 5 and 9) that the notifier never reads: no time-zone handling and no icon-set choice happen in the code. The vendor suffix is the fixed `" Tobii"`, and there is no charge-history watcher and no first-run switch.

## Model

| member | source | states |
|---|---|---|
| Text.IndexFrom | ZaptecTeamsNotifier.js:71 | the search behind `replace` returns an index where the pattern occurs, and no earlier occurrence exists at or after the start index; `None` means no occurrence at all |
| Text.RemoveFirst | ZaptecTeamsNotifier.js:71 | `name.replace(" Tobii", "")` with a string pattern: the text before the first occurrence of the pattern joined to the text after it, or the name itself when the pattern does not occur |
| Text.RemoveFirstCutsEarliest | ZaptecTeamsNotifier.js:71 | `replace(pat, "")` returns the name unchanged when the pattern does not occur, and otherwise cuts out exactly one copy at its earliest position (the length drops by the pattern's length or not at all) |
| Text.Join | ZaptecTeamsNotifier.js:102 | joining with ", " gives the only name itself for one name, begins with the first name, and has the total length of the names plus two characters per separator |
| Text.JoinSnoc | ZaptecTeamsNotifier.js:102 | joining one more name appends ", " and that name to the joined earlier names, so all names appear in list order separated by ", " |
| Text.DecimalText | ZaptecTeamsNotifier.js:94 | the rendered count is a non-empty string of decimal digits with no leading zero unless the count is 0 |
| Text.DecimalRoundTrip | ZaptecTeamsNotifier.js:94 | reading the rendered count back as a decimal numeral gives the count |
| QuietHours.Silent | ZaptecTeamsNotifier.js:131 | a message is dropped when the hour is at or after the start hour, or before the end hour, or the weekday is a silent day (the plain OR of the three tests) |
| QuietHours.DeliveryWindow | ZaptecTeamsNotifier.js:131 | for every configuration, a message is delivered exactly in the hours from the end hour up to, but not including, the start hour, on a day not listed as silent (an empty window when the start is at or before the end) |
| QuietHours.NonWrappingWindowAlwaysSilent | ZaptecTeamsNotifier.js:131 | when the start hour is at or before the end hour, the literal OR suppresses every message at every hour |
| QuietHours.ShippedSchedule | ZaptecTeamsNotifier.js:131 | with the shipped values (16, 6, Saturday and Sunday), messages go out from 06:00 to 15:59 on other days and never otherwise |
| QuietHours.Delivered | ZaptecTeamsNotifier.js:124-134 | each message is checked against its own clock reading: every sent message is a message of the cycle whose reading is not silent, and every message whose reading is not silent is sent; all are sent when no reading is silent, none when every reading is silent |
| QuietHours.DeliveredSnoc | ZaptecTeamsNotifier.js:124-134 | messages that pass the gate keep the order in which they were composed: one more message is appended at the end when its reading is not silent, and dropped otherwise |
| ChargerDiff.Icon | ZaptecTeamsNotifier.js:46-51 | modes 1, 2, 3 and 5 show their icon literal; any other code shows as the text "undefined" |
| ChargerDiff.DisplayName | ZaptecTeamsNotifier.js:71 | the name shown in messages is the provider's name with the first " Tobii" removed |
| ChargerDiff.Observe | ZaptecTeamsNotifier.js:71-90 | one loop iteration: a changed or unrecorded mode is written to the table; a change into 1 lists the name as available, into 5 as completed, into 3 raises the charging flag; every entry in mode 1 adds to the free count; the strip gets the icon and a space |
| ChargerDiff.Scan | ZaptecTeamsNotifier.js:53-91 | the loop over the whole snapshot, from empty lists, a cleared flag, a count of 0, an empty strip and the saved mode table |
| ChargerDiff.ObserveRecords | ZaptecTeamsNotifier.js:76-89 | whichever branch the loop takes, the charger's id maps to its snapshot mode afterwards (a changed mode is written; an unchanged one is already there) |
| ChargerDiff.ScanFreeCount | ZaptecTeamsNotifier.js:77-89 | the free count after the loop is the number of snapshot entries in mode 1, whether their mode changed or not |
| ChargerDiff.ScanStrip | ZaptecTeamsNotifier.js:74 | the status strip is one icon followed by a space per charger, in snapshot order |
| ChargerDiff.ScanKeys | ZaptecTeamsNotifier.js:87 | after the loop the recorded ids are exactly the previously recorded ids plus the snapshot's ids |
| ChargerDiff.ScanKeepsOthers | ZaptecTeamsNotifier.js:70-91 | a recorded charger that is absent from the snapshot keeps its recorded mode |
| ChargerDiff.ScanLastWins | ZaptecTeamsNotifier.js:70-91 | a charger in the snapshot is recorded with the mode of its last entry |
| ChargerDiff.ScanStatuses | ZaptecTeamsNotifier.js:70-91 | the three facts above together: recorded ids, last entry wins, other chargers untouched |
| ChargerDiff.ScanTransitions | ZaptecTeamsNotifier.js:76-86 | with distinct ids, "available" is exactly the display names, in snapshot order, of chargers whose mode changed (or was unrecorded) into 1, "completed" the same for 5, and the charging flag is raised iff some charger changed into 3 |
| ChargerDiff.ScanListsOnlyTheirMode | ZaptecTeamsNotifier.js:77-85 | for any snapshot, each "available" name belongs to an entry in mode 1 and each "completed" name to an entry in mode 5, so modes 2, 3 and unknown codes are never listed |
| ChargerDiff.ScanAgainstItself | ZaptecTeamsNotifier.js:76-89 | for any snapshot, repeated ids included, against a table already holding every entry's current mode, the loop lists nothing, raises no flag and leaves the table as it was |
| Notices.Contended | ZaptecTeamsNotifier.js:93 | the summary condition: some charger changed into charging and the saved free count exceeds the count now free |
| Notices.Decide | ZaptecTeamsNotifier.js:93-116 | notifications come in the order summary, "available", "stopped charging"; the summary is present iff a charger changed into charging and the saved free count exceeds the new one; the two lists are sent iff not on the first run and non-empty; nothing else is sent |
| Notices.Render | ZaptecTeamsNotifier.js:94-109 | the text of each notification: the count summary, the joined names with "is"/"are" available, or with "has"/"have" stopped charging |
| Notices.SummaryWording | ZaptecTeamsNotifier.js:94 | the summary reads "0 chargers available" after the cross icon when none are free, and otherwise the free icon, a decimal numeral of the count and " charger(s) available." |
| Notices.VerbAgreement | ZaptecTeamsNotifier.js:101-109 | one name takes "is" or "has"; several names take "are" or "have" and are joined with ", " |
| Notices.Messages | ZaptecTeamsNotifier.js:95-111 | one message per notification; the order and the format (text, blank line, status strip) are stated by `Notices.MessagesSnoc` |
| Notices.MessagesSnoc | ZaptecTeamsNotifier.js:95-111 | sending one more notification appends one message, its text followed by a blank line and the status strip |
| Notices.Poll | ZaptecTeamsNotifier.js:43-122 | a failed fetch changes no state and sends nothing; a successful one clears the first-run flag, saves the number of chargers in mode 1, makes every message end with a blank line and the status strip, and keeps "first run implies saved count 0" |
| Notices.PollRecordsModes | ZaptecTeamsNotifier.js:70-91 | after a successful cycle every snapshot charger is recorded with its last snapshot mode and every other recorded charger is unchanged |
| Notices.FirstCycleSilent | ZaptecTeamsNotifier.js:99-116 | the first cycle from the start state sends no message at all and clears the first-run flag |
| Notices.PollTransitions | ZaptecTeamsNotifier.js:93-112 | after the first run, with distinct ids, the cycle sends the summary iff some charger changed into charging and the saved count exceeds the number now free; it sends "available" for exactly the chargers that changed into 1 and "stopped charging" for exactly those that changed into 5 |
| Notices.RepeatedSnapshotIsQuiet | ZaptecTeamsNotifier.js:76-117 | feeding the same snapshot with distinct ids twice in a row: the second cycle sends nothing and leaves the state exactly as the first left it |
| Tracker.Tracker.constructor | ZaptecTeamsNotifier.js:12-14 | the process starts with an empty mode table, a saved free count of 0 and the first-run flag set |
| Tracker.Tracker.ScanSnapshot | ZaptecTeamsNotifier.js:70-91 | the in-place loop leaves the mode table and the loop variables equal to the pass over the snapshot |
| Tracker.Tracker.Compose | ZaptecTeamsNotifier.js:93-112 | the messages pushed are the decided notifications, worded and followed by the strip, in sending order |
| Tracker.Tracker.Cycle | ZaptecTeamsNotifier.js:43-122 | a cycle updates the three variables and returns the messages exactly as the cycle function says; a failed fetch leaves all three unchanged and sends nothing |
| Scenarios.BayOneName | ZaptecTeamsNotifier.js:71 | "Bay 1 Tobii" is shown as "Bay 1" |
| Scenarios.ChargingThenFree | ZaptecTeamsNotifier.js:70-117 | a charger first seen charging gives a silent first cycle; when it turns free, the next cycle sends "<free icon> Bay 1 is available!" with the strip |
| Scenarios.OneOfThreeStartsCharging | ZaptecTeamsNotifier.js:93-97 | three free chargers, one of which starts charging, make the cycle send exactly "<free icon> 2 charger(s) available." with the strip |

## Left out

- HTTP: the token request, the charger list request and the Teams webhook post go through axios and are not modelled. The fetched list is an input, and `None` stands for a failed request. A message "sent" is an element of the returned sequence.
- `refreshBearerToken`: the base64 credential header, the token request and the bearer token are not modelled. The token is an opaque string, and nothing about it can be checked.
- The MessageCard JSON payload is fixed boilerplate around the message text and is not modelled.
- A failed webhook post is caught and logged, and the next message is still attempted. `QuietHours.Delivered` models only the quiet-hours gate, not post failures.
- Clock and locale: `new Date().getHours()` and the `en-us` weekday name are inputs (`QuietHours.Clock`).
- Logging (`logWithTimestamp`, `console.*`) has no effect on behaviour and is not modelled.
- Scheduling (`setInterval`, the startup block and the second bootstrap in `node.js`) is not modelled, and neither are overlapping async runs. Cycles are modelled as running one after another.
- `config.js` is data only. Its three quiet-hours values appear as `QuietHours.Shipped`.
- Malformed provider data is not modelled. A charger whose `Name` is not a string, or a response without a `Data` array, throws inside the `try`. The mode map may then be partly updated while the free count and the first-run flag stay as they were. In the model, names are always strings and the list is always a sequence.
- JavaScript object keys: the map is keyed by the charger id string. The special key `"__proto__"` is not modelled; on a plain object it is never stored, so such a charger would be "changed" on every poll.
- Operating modes are integers. JSON values of other types and loose-equality coercions are not modelled.
- ChargerDiff.ScanTransitions: the exact lists are stated only for snapshots with distinct ids. For repeated ids, `ChargerDiff.ScanListsOnlyTheirMode` states only that each listed name comes from an entry of the right mode.
- Notices.RepeatedSnapshotIsQuiet: it is stated for snapshots with distinct ids. With a repeated id in two different modes, the second cycle does report a change.
- Notices.PollTransitions: it is stated for snapshots with distinct ids, as Zaptec charger ids are unique. With a repeated id, the change is measured against the earlier entry of the same cycle, which `ChargerDiff.ScanListsOnlyTheirMode` and `Notices.PollRecordsModes` still cover.
- Text.Join: its own contract fixes the one-name case, the first name and the length. The order of the later names after ", " is stated by `Text.JoinSnoc`.
