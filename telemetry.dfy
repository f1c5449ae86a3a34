/** The messages the device pushes over the socket, and the values the page shows for them. */
module Telemetry {
  import opened Wrappers
  import TimeFormat

  /** One entry of a `state` message's `loads` list. A field the message leaves out is `None`. */
  datatype Load = Load(
    id: int,
    voltage: Option<real>,
    current: Option<real>,
    power: Option<real>,
    energy: Option<real>,
    relay: Option<bool>,
    limitHours: Option<real>)

  /** One notification record: when (epoch milliseconds) and what. */
  datatype Notif = Notif(time: Option<int>, message: Option<string>)

  /** One inbound text message after `JSON.parse`. `Unparsable` stands for text that does not
      parse and for a parsed value whose `.type` cannot be read (`null`): both end in the
      `catch`. Any other value is an object whose fields may each be absent. */
  datatype Frame =
    | Unparsable
    | Object(
        kind: Option<string>,
        loads: Option<seq<Load>>,
        notifs: Option<seq<Notif>>,
        cost: Option<real>,
        uptime: Option<int>,
        lastReset: Option<int>,
        fwVersion: Option<string>,
        ip: Option<string>,
        price: Option<real>)

  /** The five lines of one channel's tile. */
  datatype Tile = Tile(voltage: real, current: real, power: real, energy: real, on: bool)

  /** The four total lines. */
  datatype Totals = Totals(voltage: real, current: real, power: real, energy: real)

  /** The device lines: cost, uptime text, last reset (`None` shows "N/A"), firmware version. */
  datatype Meta = Meta(cost: real, uptime: string, lastReset: Option<int>, fwVersion: string)

  /** One shown notification: its time (`None` shows "N/A") and its text. */
  datatype NotifLine = NotifLine(time: Option<int>, text: string)

  const ZeroTotals := Totals(0.0, 0.0, 0.0, 0.0)

  /** A tile as first built: "0 V", "0 A", "0 W", "0 Wh", "OFF". */
  const ZeroTile := Tile(0.0, 0.0, 0.0, 0.0, false)

  /** What `Number(x || 0)` makes of a measurement that may be missing. */
  function Reading(x: Option<real>): (r: real)
    ensures x.None? ==> r == 0.0
    ensures x.Some? ==> r == x.value
  {
    x.GetOr(0.0)
  }

  /** JavaScript truthiness of an optional number: present and not zero. */
  predicate TruthyNum<N(==)>(x: Option<N>, zero: N) {
    x.Some? && x.value != zero
  }

  /** The tile one entry produces. */
  function TileOf(entry: Load): (t: Tile)
    ensures t.voltage == Reading(entry.voltage) && t.current == Reading(entry.current)
    ensures t.power == Reading(entry.power) && t.energy == Reading(entry.energy)
    ensures t.on <==> entry.relay == Some(true)
  {
    Tile(Reading(entry.voltage), Reading(entry.current), Reading(entry.power), Reading(entry.energy),
      entry.relay == Some(true))
  }

  /** The relay switch position one entry sets (`!!L.relay`). */
  function SwitchOf(entry: Load): (on: bool)
    ensures on <==> entry.relay == Some(true)
  {
    entry.relay == Some(true)
  }

  /** What one entry adds to the totals. */
  function Contribution(entry: Load): (c: Totals)
    ensures c.voltage == Reading(entry.voltage) && c.current == Reading(entry.current)
    ensures c.power == Reading(entry.power) && c.energy == Reading(entry.energy)
  {
    Totals(Reading(entry.voltage), Reading(entry.current), Reading(entry.power), Reading(entry.energy))
  }

  function AddTotals(a: Totals, b: Totals): Totals {
    Totals(a.voltage + b.voltage, a.current + b.current, a.power + b.power, a.energy + b.energy)
  }

  /** The device lines a `state` message produces; each field falls back on its own. */
  function MetaOf(f: Frame): (m: Meta)
    requires f.Object?
    ensures m.cost == Reading(f.cost)
    ensures m.uptime == FormatUptimeOf(f.uptime)
    ensures m.lastReset == if TruthyNum(f.lastReset, 0) then f.lastReset else None
    ensures f.fwVersion.Some? && f.fwVersion.value != "" ==> m.fwVersion == f.fwVersion.value
    ensures f.fwVersion.None? || f.fwVersion == Some("") ==> m.fwVersion == "N/A"
  {
    Meta(
      Reading(f.cost),
      FormatUptimeOf(f.uptime),
      if TruthyNum(f.lastReset, 0) then f.lastReset else None,
      if f.fwVersion.Some? && f.fwVersion.value != "" then f.fwVersion.value else "N/A")
  }

  /** `formatUptime(data.uptime || 0)`: a missing uptime reads as no time at all. */
  function FormatUptimeOf(uptime: Option<int>): (text: string)
    ensures uptime.Some? ==> text == TimeFormat.FormatUptime(uptime.value)
    ensures uptime.None? || uptime == Some(0) ==> text == "0d 0h 0m 0s"
  {
    TimeFormat.UptimePartsUnique(0, 0, 0, 0, 0);
    TimeFormat.FormatUptime(uptime.GetOr(0))
  }

  /** The IP line: the message's `ip`, or the page's own host name when it is missing or empty. */
  function IpOf(f: Frame, hostname: string): (ip: string)
    requires f.Object?
    ensures f.ip.Some? && f.ip.value != "" ==> ip == f.ip.value
    ensures f.ip.None? || f.ip == Some("") ==> ip == hostname
  {
    if f.ip.Some? && f.ip.value != "" then f.ip.value else hostname
  }

  /** The price box after a `state` message: `Number(data.price || 8)`, so a price of 0 shows 8. */
  function PriceShown(f: Frame): (p: real)
    requires f.Object?
    ensures TruthyNum(f.price, 0.0) ==> p == f.price.value
    ensures !TruthyNum(f.price, 0.0) ==> p == 8.0
  {
    if TruthyNum(f.price, 0.0) then f.price.value else 8.0
  }

  /** The limit box one entry sets: its `limitHours`, or "12" when that is missing or zero. */
  function LimitShown(entry: Load): (hours: real)
    ensures TruthyNum(entry.limitHours, 0.0) ==> hours == entry.limitHours.value
    ensures !TruthyNum(entry.limitHours, 0.0) ==> hours == 12.0
  {
    if TruthyNum(entry.limitHours, 0.0) then entry.limitHours.value else 12.0
  }

  /** How one notification is shown: "N/A" for a missing or zero time, "" for a missing text. */
  function LineOf(n: Notif): (line: NotifLine)
    ensures line.time == if TruthyNum(n.time, 0) then n.time else None
    ensures line.text == n.message.GetOr("")
  {
    NotifLine(if TruthyNum(n.time, 0) then n.time else None, n.message.GetOr(""))
  }
}
