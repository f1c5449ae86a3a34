# ESP32 Power Tracker dashboard client — a Dafny model

This project models the client side of the ESP32 Power Tracker web page (`app.js`). The page
keeps a live view of four monitored loads ("channels"). It receives telemetry pushed over a
WebSocket and reconciles it into what it shows:

- one tile per channel: voltage, current, power, energy and relay ON/OFF;
- the relay check boxes and the usage-limit boxes;
- the four totals;
- the device lines: cost, uptime, last reset, firmware version, IP;
- the price box;
- the notification list;
- a rolling chart window of the 20 newest points.

The page also turns button presses into command messages for the device.

Modules (one file each):

- `Wrappers` (`wrappers.dfy`): `Option`, for JSON fields that may be absent.
- `Decimal` (`decimal.dfy`): `String(n)` and `padStart(2, "0")`, with a read-back round trip.
- `TimeFormat` (`time_format.dfy`): the 12-hour clock of `updateDateTime`, the clock line,
  the chart label and `formatUptime`.
- `Commands` (`commands.dfy`): the `Command` variant, the `NumField` reading of an input box,
  and the timer, limit, price and relay encoders.
- `Telemetry` (`telemetry.dfy`): the inbound `Frame`, the shown records (`Tile`, `Totals`,
  `Meta`, `NotifLine`), and the per-field fallbacks (`x || 0`, `|| "N/A"`, `|| 8`, ...).
- `Reconcile` and `ReconcileFacts` (`reconcile.dfy`): the message handler as a pure function
  `Receive` from the shown state (`Panel`) before a message to the state after it, with the
  lemmas about it.
- `ChartWindow` (`chart_window.dfy`): the push/shift window `Slide` and the class `Chart`
  holding the label array and the four data arrays.
- `Dashboard` (`dashboard.dfy`): the class `Client`. Its fields are what the page shows. Its
  methods are the handlers. Each handler is proved to produce exactly `Receive` (or the
  matching encoder), with the loops of the source and their invariants.

Measurements are `real`, so sums are exact. Missing JSON fields are `Option`. An input box is
`NumField`: `Blank`, `Num(v)` (the number `parseInt`/`parseFloat` read) or `NaN`. The clock is
a `DateTime` parameter holding the values the `Date` getters return. The page's host name is a
constructor parameter.

### Behaviour of the code worth knowing

- A message's update is not atomic. An entry whose `id` is not 1 to 4 makes `document.getElementById("v"+i)` return `null`. Writing to it throws inside the first
  `forEach`, and the `catch` at app.js:201 ends the handler. The tiles and check boxes of the
  entries before it have already been rewritten. Totals, device lines, price, limits and chart
  stay as they were (`BadEntryStopsHandler`).
- Only an EMPTY limit or price box falls back to its default. Text that `parseFloat` cannot read stays NaN. JSON then sends the limit's
  `seconds` and the price as `null` (`LimitSeconds`, `PriceCommand`). An unreadable timer box
  gives 0, because `NaN > 0` is false.
- Fallbacks test truthiness, not presence:
  - a `price` of 0 shows 8;
  - a `limitHours` of 0 shows 12;
  - an empty `fwVersion` shows "N/A";
  - an empty `ip` shows the page's host name;
  - a `lastReset` or notification `time` of 0 shows "N/A".
- `loads: []` is truthy in JavaScript. Such a message is processed: totals become 0, the device
  lines are rewritten and the chart gets four zero points.

## Model

| member | source | states |
|---|---|---|
| `Decimal.NatToString` | app.js:19-25 | `String(n)` is a non-empty digit string with no leading zero, one digit exactly for n < 10 |
| `Decimal.Pad2` | app.js:19-25 | `padStart(2,"0")` gives at least two digits, exactly two below 100, and they still read as n |
| `Decimal.NatToStringRoundTrip` | app.js:19-25 | reading back the digits of `String(n)` gives n |
| `Decimal.IntToString` | app.js:216 | the text of a non-negative integer is its `String(n)` digits; a negative one's is a minus sign followed by the digits of its magnitude |
| `Decimal.IntToStringInjective` | app.js:216 | the text of an integer, negative ones included, determines the integer |
| `TimeFormat.Hour12` | app.js:27 | the 12-hour dial value is in 1..12 and congruent to the hour mod 12, so 0 and 12 show 12 |
| `TimeFormat.Meridiem` | app.js:26 | the suffix is "PM" exactly when the 24-hour hour is at least 12, otherwise "AM" |
| `TimeFormat.TwelveHourRoundTrip` | app.js:26-27 | dial value plus suffix determine the 24-hour hour again |
| `TimeFormat.TwelveHourOnto` | app.js:26-27 | every dial value and suffix is shown for exactly one 24-hour hour |
| `TimeFormat.ClockText` | app.js:15-31 | the clock line is `timeStr · dateStr · day`: the 12-hour dial value, padded minutes and seconds, AM/PM, then `dd/mm/yyyy` with the month counted from 1, then the weekday name |
| `TimeFormat.ChartLabel` | app.js:186 | a label is the unpadded hour, a colon, and digits that read as the minute: exactly two of them for minutes below 60 |
| `TimeFormat.ChartLabelInjective` | app.js:186 | two labels are equal only for the same hour and minute |
| `TimeFormat.ClockTextReadsBack` | app.js:15-31 | two equal clock lines come from the same date, month, year, weekday, hour, minute and second |
| `TimeFormat.JsRem` | app.js:211-215 | `%` is what remains after the quotient rounded toward zero: a = b·trunc(a/b) + r, the Euclidean remainder for non-negative input and in (-b, 0] otherwise |
| `TimeFormat.UptimeParts` | app.js:209-215 | for seconds ≥ 0: d·86400 + h·3600 + m·60 + s = seconds, with h < 24, m < 60, s < 60 |
| `TimeFormat.UptimePartsUnique` | app.js:209-215 | that split is the only one with those bounds |
| `TimeFormat.FormatUptime` | app.js:209-217 | a non-negative uptime shows the four fields `<d>d <h>h <m>m <s>s` of its unique split; a negative one starts with a minus sign |
| `TimeFormat.FormatUptimeInjective` | app.js:209-217 | two non-negative uptimes with the same `"<d>d <h>h <m>m <s>s"` text are equal |
| `TimeFormat.UptimeOfMinusOne` | app.js:209-217 | a negative uptime is split with signed remainders: -1 shows "-1d -1h -1m -1s" |
| `Commands.Round` | app.js:88 | `Math.round` gives the integer within one half below and strictly less than one half above |
| `Commands.RelayCommand` | app.js:58-62 | a flip of switch i sends `relay` with id i and the box's new state |
| `Commands.TimerMinutes` | app.js:73-74 | minutes are the number read when it is positive, else 0 (empty box and NaN included) |
| `Commands.TimerCommand` | app.js:71-75 | `setTimer` carries the selected channel and those minutes |
| `Commands.TimerMinutesStable` | app.js:73-74 | re-encoding the minutes a timer command carries gives the same command |
| `Commands.LimitSecondsOf` | app.js:88 | seconds ≥ 1; the nearest whole second to h·3600 once that is at least 0.5; otherwise 1 |
| `Commands.LimitSeconds` | app.js:81-89 | an empty box gives the seconds of 12 hours, a number h gives max(1, round(h·3600)), and unreadable text, and only that, gives `null` |
| `Commands.LimitCommands` | app.js:80-91 | one `setLimit` per box, ids 1, 2, 3, 4 in box order, each with that box's seconds |
| `Commands.PriceCommand` | app.js:96-99 | empty box sends 8, a number sends itself, unreadable text sends `null` |
| `Commands.BlankLimitIsTwelveHours` | app.js:82-88 | an empty limit box sends 43200 seconds |
| `Commands.WholeHoursExact` | app.js:88 | a whole number n ≥ 1 of hours sends exactly 3600·n seconds |
| `Commands.TinyLimitIsOneSecond` | app.js:88 | limits of 0.0001, 0 and -2 hours are sent as 1 second, never 0 |
| `Telemetry.Reading` | app.js:154-164 | `Number(x‖0)`: a missing reading counts as 0 |
| `Telemetry.TileOf` | app.js:153-158 | a tile shows the entry's voltage, current, power and energy (each 0 if missing) and ON exactly when `relay` is true |
| `Telemetry.SwitchOf` | app.js:159 | the check box is ticked exactly when `relay` is true |
| `Telemetry.Contribution` | app.js:161-164 | one entry adds its voltage, current, power and energy (each 0 if missing) to the totals |
| `Telemetry.MetaOf` | app.js:172-175 | cost is the message's cost or 0; uptime is `formatUptime(uptime‖0)`; the last reset is shown exactly when non-zero, and then as given; a non-empty firmware version is shown, otherwise "N/A" |
| `Telemetry.FormatUptimeOf` | app.js:173 | a present uptime is formatted; a missing or zero one shows "0d 0h 0m 0s" |
| `Telemetry.IpOf` | app.js:176 | a non-empty `ip` is shown, otherwise the page's host name |
| `Telemetry.PriceShown` | app.js:177 | a non-zero `price` is shown, otherwise 8 |
| `Telemetry.LimitShown` | app.js:182 | a non-zero `limitHours` is shown, otherwise 12 |
| `Telemetry.LineOf` | app.js:225-226 | a notification shows its own time when it is non-zero and "N/A" otherwise, and its text or "" |
| `Reconcile.FirstInvalid` | app.js:152-154 | the tile loop gets through exactly the entries before the first one whose id is not 1..4 |
| `Reconcile.LastIndex` | app.js:152-158 | the index of the last entry with an id, or -1 when none has it |
| `Reconcile.FirstIndex` | app.js:189 | `find`: the index of the first entry with an id, or the length when none has it |
| `Reconcile.Scatter` | app.js:152-159 | after writing the entries in order, the last entry's channel holds its value and a channel no entry names keeps its old one |
| `Reconcile.ScatterAt` | app.js:152-159 | after the loop a channel's slot holds the last entry's value for it; an unnamed channel keeps its old value |
| `Reconcile.ScatterIdempotent` | app.js:152-159 | writing the same entries twice gives what writing them once gives |
| `Reconcile.SumTotals` | app.js:150-165 | the totals of no entries are zero and of one entry are its readings |
| `Reconcile.SumTotalsAppend` | app.js:150-165 | the totals of a list are the totals of its parts added: a plain sum from zero |
| `Reconcile.TotalsAreChannelSum` | app.js:150-165 | with distinct ids, the totals are the sum over channels 1-4 of each listed channel's readings |
| `Reconcile.ChartPoint` | app.js:189-190 | a channel's point is the power of the first entry with its id (0 if missing), or 0 if unlisted |
| `Reconcile.ChartPoints` | app.js:188-191 | four points, channel 1 first |
| `Reconcile.NewestFirst` | app.js:218-228 | the list has one line per record; the top line is the batch's last record and the bottom line its first |
| `Reconcile.NewestFirstAt` | app.js:218-228 | line k of the list shows the notification k places from the end of the batch |
| `Reconcile.LimitFieldOf` | app.js:182 | the limit box shows a non-zero `limitHours`, otherwise 12 |
| `Reconcile.ApplyState` | app.js:149-183 | a `state` message never touches the notification list; when every id is 1..4 it sets the totals to the entries' sum, the device lines to `MetaOf`, the IP line to `IpOf` and the price box to `PriceShown`; when one is not, totals, device lines, IP, price and limit boxes stay as they were |
| `Reconcile.Receive` | app.js:145-203 | every message keeps the page's shape |
| `Reconcile.ChartEffect` | app.js:149-191 | the chart gets points exactly for a `state` message with `loads` whose ids are all 1..4 |
| `ReconcileFacts.ReceiveIdempotent` | app.js:145-203 | receiving any message twice in a row shows the same as receiving it once |
| `ReconcileFacts.StateShowsLastEntry` | app.js:152-159 | a listed channel's tile, switch and limit box come from its last entry; limit 12 when `limitHours` is missing or 0 |
| `ReconcileFacts.StateKeepsAbsentChannels` | app.js:152-159 | a channel no entry names keeps its tile, switch and limit box |
| `ReconcileFacts.CompleteStateWrites` | app.js:149-183 | a `state` message whose ids are all 1..4 changes exactly the tiles, switches and limit boxes of the listed channels, the totals, the device lines, the IP line and the price box |
| `ReconcileFacts.TotalsFromThisMessageOnly` | app.js:150-168 | the totals are the sum over this message's entries, whatever was shown before |
| `ReconcileFacts.BadEntryStopsHandler` | app.js:152-154 | an entry with an id outside 1..4 leaves only the earlier entries' tile and switch writes; no chart point |
| `ReconcileFacts.NotifsReplaceList` | app.js:195-196 | a `notifs` message, an empty batch included, changes only the list, which becomes the batch newest first: line k shows the record k places from the end |
| `ReconcileFacts.ClearedEmptiesList` | app.js:198-200 | a `cleared` message empties the list and changes nothing else |
| `ReconcileFacts.OtherFramesIgnored` | app.js:145-203 | unparsable text, `state` without `loads`, `notifs` without a list and unknown types change nothing |
| `ReconcileFacts.ChartAgreesWithTile` | app.js:152-190 | with distinct ids, a listed channel's chart point is its tile's power |
| `ReconcileFacts.DuplicateIdSplitsTileAndChart` | app.js:152-190 | with one channel listed twice, its tile is the second entry's and its chart point the first entry's power |
| `ReconcileFacts.OnlyChannelTwoReports` | app.js:149-183 | only channel 2 at 230 W, relay on: its tile ON at 230 W, total 230 W, channel 1 unchanged, limit box 12 |
| `ReconcileFacts.SavedLimitsEchoState` | app.js:80-91 | after a `state` message, "Save limits" sends each listed channel's reported limit in seconds; 43200 if none (exact only as far as the box keeps the value, see Left out) |
| `ChartWindow.Slide` | app.js:186-191 | one push then shift: the new point is last, the rest are the newest old points, one dropped only when 20 were held |
| `ChartWindow.SlideAll` | app.js:186-191 | a window of at most 20 grows by each push up to 20 points, and its last point is the last one pushed |
| `ChartWindow.SlideAllKeepsNewest` | app.js:186-191 | after any pushes the window holds exactly the newest 20 points ever pushed |
| `ChartWindow.Lockstep` | app.js:120-125 | arrays fed equally many points stay equally long and at most 20 long |
| `ChartWindow.Chart.constructor` | app.js:120-125 | the chart starts with no labels and four empty data arrays |
| `ChartWindow.Chart.Append` | app.js:185-191 | labels and each data array become their `Slide` with the new point; all stay equal and at most 20 long |
| `Dashboard.Client.constructor` | app.js:10-53 | tiles start at 0 and OFF, the IP line shows the host name, list and chart are empty |
| `Dashboard.Client.OnMessage` | app.js:145-204 | the shown state becomes `Receive` of the old one; the chart slides by `ChartEffect`'s points or stays as it was |
| `Dashboard.Client.ShowLoads` | app.js:150-165 | tiles and switches become `Scatter` over the entries the loop reached; the sum is their totals |
| `Dashboard.Client.ShowDevice` | app.js:168-177 | totals, device lines, IP line and price box are set from the message |
| `Dashboard.Client.ShowLimits` | app.js:180-183 | limit boxes become `Scatter` of the entries' limits |
| `Dashboard.Client.ShowNotifs` | app.js:218-229 | the list becomes the batch newest first |
| `Dashboard.Client.OnNotifsFetched` | app.js:104-108 | a fetched document's `notifs`, or an empty list, is shown newest first |
| `Dashboard.Client.ClearClicked` | app.js:109-112 | "Clear" sends `clearNotifs` and empties the list |
| `Dashboard.Client.ToggleRelay` | app.js:58-62 | flipping switch i (its state changes) changes that box only and sends `relay` for i with its new state |
| `Dashboard.Client.SaveLimits` | app.js:80-91 | the loop over the four boxes yields exactly `LimitCommands` of the boxes |
| `Dashboard.Client.SavePrice` | app.js:96-99 | `setPrice` with the box's price, 8 if empty, `null` if unreadable |

## Left out

- WebSocket transport: connecting to port 81, and the open, close and error logging (app.js:6-7, 141-143). The `GetState` command sent 500 ms after load (app.js:236) appears only as the `Command.GetState` value; the timer is not modelled.
- JSON text: parsing inbound text and serialising commands. Inbound messages are already-decoded `Frame` values. Commands are `Command` values.
- HTTP fetches of `/notifs.json` and `/logs.json`, and the jsPDF export (app.js:104-108, 128-136). The fetched notifications arrive as a parameter of `OnNotifsFetched`. The export, which prints the first 1500 characters of the log document, is not modelled.
- Chart.js construction, rendering and `chart.update()` (app.js:117-127, 193). Only the label and data arrays are modelled.
- DOM plumbing: building the tiles, element look-ups, `setInterval`, and the timer preset buttons that copy their minutes into the custom box (app.js:33-53, 60-62, 68-70). The shown values are the fields of `Client`. The timer's load selector and minutes box are parameters of `TimerCommand`.
- User typing into the limit and price boxes is not modelled; the boxes change only through `state` messages.
- Initial markup: the page markup sets the starting relay check boxes, limit boxes and price box, so these are constructor parameters. The starting totals and device lines are `None`.
- Floating point: `toFixed`, `toLocaleString` and binary rounding (app.js:154-177, 182, 190, 225). Readings are exact reals.
- ReconcileFacts.SavedLimitsEchoState: the limit box receives `Number(limitHours).toFixed(2)` (app.js:182) and the price box `toFixed(2)` of the price (app.js:177), and "Save limits" and "Save price" read those boxes back. The model keeps the exact value in the box, so the echo it proves holds in the source only for limits and prices with at most two decimals. For `limitHours` 1.005 the source sends 3600 or 3636 seconds where the model sends 3618. `Dashboard.Client.SavePrice` after a `state` message has the same gap. A present channel's chart point is the number whose `toFixed(2)` text the source pushes, and an absent channel's is the number 0; both are one `real`.
- `parseInt` and `parseFloat` over text: an input box is modelled by what they return (`Blank`, `Num`, `NaN`). Which texts give which number, and `Infinity`, are not modelled.
- Entry ids: ids are integers. A string id such as `"2"` would reach the tile but not the chart (`===` at app.js:189); this is not modelled.
- Non-numeric JSON values where numbers are expected: a string `cost`, for example, would make `toFixed` throw. Such values are not modelled.
- The uptime text and the clock line are modelled as strings. Notification times and the last reset are kept as epoch milliseconds, because their locale text is not modelled.
- HTML injection: a notification message is inserted with `innerHTML` (app.js:226). The model keeps the message as text.
- login.js is not part of this model. It is a form handler that checks a hard-coded credential list and writes `localStorage`.
