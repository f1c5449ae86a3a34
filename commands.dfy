/** The commands the page sends to the device, and the numeric policies of their encoders. */
module Commands {
  import opened Wrappers

  /** What the page reads from a numeric input box: the box is empty, its text starts with a
      number (`parseInt` / `parseFloat` give that number), or it does not (they give NaN). */
  datatype NumField<T> = Blank | Num(value: T) | NaN

  /** One outbound message. `None` in `seconds` or `price` is the JSON `null` that
      `JSON.stringify` writes for NaN. */
  datatype Command =
    | Relay(id: int, state: bool)
    | SetTimer(id: int, minutes: int)
    | SetLimit(id: int, seconds: Option<int>)
    | SetPrice(price: Option<real>)
    | ClearNotifs
    | GetState

  /** `Math.round`: the nearest integer, halves rounded up. */
  function Round(x: real): (r: int)
    ensures r as real - 0.5 <= x < r as real + 0.5
  {
    (x + 0.5).Floor
  }

  /** The relay switch of channel `id` was flipped to `checked`. */
  function RelayCommand(id: int, checked: bool): (c: Command)
    ensures c.Relay? && c.id == id && c.state == checked
  {
    Relay(id, checked)
  }

  /** The minutes a timer command carries: `parseInt(value || "0")`, then `val > 0 ? val : 0`. */
  function TimerMinutes(field: NumField<int>): (minutes: nat)
    ensures field.Num? && field.value > 0 ==> minutes == field.value
    ensures !(field.Num? && field.value > 0) ==> minutes == 0
  {
    match field
    case Blank => 0     // the empty box is read as "0"
    case Num(v) => if v > 0 then v else 0
    case NaN => 0       // NaN > 0 is false
  }

  /** "Apply timer": the selected channel and the minutes from the custom box. */
  function TimerCommand(selected: int, field: NumField<int>): (c: Command)
    ensures c.SetTimer? && c.id == selected && c.minutes == TimerMinutes(field)
  {
    SetTimer(selected, TimerMinutes(field))
  }

  /** `Math.max(1, Math.round(h * 3600))`: a limit in hours as whole seconds, at least one. */
  function LimitSecondsOf(hours: real): (seconds: int)
    ensures seconds >= 1
    ensures hours * 3600.0 >= 0.5 ==> seconds as real - 0.5 <= hours * 3600.0 < seconds as real + 0.5
    ensures hours * 3600.0 < 0.5 ==> seconds == 1
  {
    var rounded := Round(hours * 3600.0);
    if rounded > 1 then rounded else 1
  }

  /** The seconds one limit box encodes: an empty box means 12 hours; text `parseFloat`
      cannot read stays NaN through `Math.round` and `Math.max` and is sent as `null`. */
  function LimitSeconds(field: NumField<real>): (seconds: Option<int>)
    ensures field.NaN? <==> seconds.None?
    ensures seconds.Some? ==> seconds.value >= 1
    ensures field.Blank? ==> seconds == Some(LimitSecondsOf(12.0))
    ensures field.Num? ==> seconds == Some(LimitSecondsOf(field.value))
  {
    match field
    case Blank => Some(LimitSecondsOf(12.0))
    case Num(h) => Some(LimitSecondsOf(h))
    case NaN => None
  }

  /** "Save limits": one `setLimit` per box, for channels 1, 2, 3 and 4 in that order. */
  function LimitCommands(fields: seq<NumField<real>>): (cmds: seq<Command>)
    ensures |cmds| == |fields|
    ensures forall k :: 0 <= k < |cmds| ==> cmds[k] == SetLimit(k + 1, LimitSeconds(fields[k]))
  {
    seq(|fields|, k requires 0 <= k < |fields| => SetLimit(k + 1, LimitSeconds(fields[k])))
  }

  /** "Save price": `parseFloat(value || "8")`. */
  function PriceCommand(field: NumField<real>): (c: Command)
    ensures c.SetPrice?
    ensures field.Blank? ==> c.price == Some(8.0)
    ensures field.Num? ==> c.price == Some(field.value)
    ensures field.NaN? ==> c.price.None?
  {
    match field
    case Blank => SetPrice(Some(8.0))
    case Num(p) => SetPrice(Some(p))
    case NaN => SetPrice(None)
  }

  /** An empty limit box is the default twelve hours: 43200 seconds. */
  lemma BlankLimitIsTwelveHours()
    ensures LimitSeconds(Blank) == Some(43200)
  {
    assert Round(12.0 * 3600.0) == 43200;
  }

  /** A limit of a whole number of hours is sent as exactly that many hours of seconds. */
  lemma WholeHoursExact(n: nat)
    requires n >= 1
    ensures LimitSeconds(Num(n as real)) == Some(n * 3600)
  {
    var x := n as real * 3600.0;
    assert x == (n * 3600) as real;
    assert Round(x) == n * 3600;
  }

  /** A tiny limit is never sent as zero seconds (zero would read as "no limit"). */
  lemma TinyLimitIsOneSecond()
    ensures LimitSeconds(Num(0.0001)) == Some(1)
    ensures LimitSeconds(Num(0.0)) == Some(1)
    ensures LimitSeconds(Num(-2.0)) == Some(1)
  {
  }

  /** Re-encoding the minutes a timer command carries gives the same command back. */
  lemma TimerMinutesStable(selected: int, field: NumField<int>)
    ensures TimerCommand(selected, Num(TimerCommand(selected, field).minutes)) == TimerCommand(selected, field)
  {
  }
}
