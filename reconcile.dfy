/** What one inbound message does to what the page shows: the `ws.onmessage` handler
    (app.js:145-204) as a function from the shown state before to the shown state after. */
module Reconcile {
  import opened Wrappers
  import opened Telemetry
  import opened Commands

  /** The page has tiles, switches and limit boxes for channels 1 to 4. */
  const Channels := 4

  predicate ValidId(id: int) {
    1 <= id <= Channels
  }

  predicate AllValid(loads: seq<Load>) {
    forall i :: 0 <= i < |loads| ==> ValidId(loads[i].id)
  }

  predicate DistinctIds(loads: seq<Load>) {
    forall i, j :: 0 <= i < j < |loads| ==> loads[i].id != loads[j].id
  }

  /** How many entries the tile loop writes before it meets an id with no tile: looking up
      that tile gives `null`, writing its text throws, and the `catch` ends the handler. */
  function FirstInvalid(loads: seq<Load>): (n: nat)
    ensures n <= |loads|
    ensures forall i :: 0 <= i < n ==> ValidId(loads[i].id)
    ensures n < |loads| ==> !ValidId(loads[n].id)
  {
    if loads == [] || !ValidId(loads[0].id) then 0 else 1 + FirstInvalid(loads[1..])
  }

  /** The first entry whose id names no channel is where the tile loop stops. */
  lemma FirstInvalidAt(loads: seq<Load>, i: int)
    requires 0 <= i < |loads| && !ValidId(loads[i].id)
    requires forall j :: 0 <= j < i ==> ValidId(loads[j].id)
    ensures FirstInvalid(loads) == i && !AllValid(loads)
  {
  }

  /** The index of the last entry with this id, or -1: the entry whose writes a tile keeps. */
  function LastIndex(loads: seq<Load>, id: int): (i: int)
    ensures -1 <= i < |loads|
    ensures i >= 0 ==> loads[i].id == id
    ensures forall j :: i < j < |loads| ==> loads[j].id != id
  {
    if loads == [] then -1
    else if loads[|loads| - 1].id == id then |loads| - 1
    else LastIndex(loads[..|loads| - 1], id)
  }

  /** The index of the first entry with this id, or `|loads|`: the entry `Array.find` returns. */
  function FirstIndex(loads: seq<Load>, id: int): (i: nat)
    ensures i <= |loads|
    ensures i < |loads| ==> loads[i].id == id
    ensures forall j :: 0 <= j < i ==> loads[j].id != id
  {
    if loads == [] then 0
    else if loads[0].id == id then 0
    else 1 + FirstIndex(loads[1..], id)
  }

  /** Writing, entry by entry in order, one per-channel value of each entry into the slot of
      its channel (tiles, relay switches or limit boxes). */
  function Scatter<T>(slots: seq<T>, loads: seq<Load>, f: Load -> T): (r: seq<T>)
    requires |slots| == Channels && AllValid(loads)
    ensures |r| == Channels
    ensures loads != [] ==> r[loads[|loads| - 1].id - 1] == f(loads[|loads| - 1])
    ensures forall id {:trigger LastIndex(loads, id)} ::
      ValidId(id) && LastIndex(loads, id) < 0 ==> r[id - 1] == slots[id - 1]
  {
    if loads == [] then slots
    else
      var last := loads[|loads| - 1];
      Scatter(slots, loads[..|loads| - 1], f)[last.id - 1 := f(last)]
  }

  /** After the writes a slot holds what the last entry for its channel wrote, and a channel
      no entry names keeps its value. */
  lemma {:induction false} ScatterAt<T>(slots: seq<T>, loads: seq<Load>, f: Load -> T, k: int)
    requires |slots| == Channels && AllValid(loads) && 0 <= k < Channels
    ensures var i := LastIndex(loads, k + 1);
      Scatter(slots, loads, f)[k] == if i >= 0 then f(loads[i]) else slots[k]
  {
    if loads != [] {
      var init := loads[..|loads| - 1];
      ScatterAt(slots, init, f, k);
      if loads[|loads| - 1].id != k + 1 {
        var i := LastIndex(init, k + 1);
        assert i >= 0 ==> init[i] == loads[i];
      }
    }
  }

  /** Writing one more entry updates its channel's slot on top of the earlier writes. */
  lemma ScatterStep<T>(slots: seq<T>, loads: seq<Load>, f: Load -> T, i: int)
    requires |slots| == Channels && 0 <= i < |loads| && AllValid(loads[..i + 1])
    ensures AllValid(loads[..i])
    ensures Scatter(slots, loads[..i + 1], f) == Scatter(slots, loads[..i], f)[loads[i].id - 1 := f(loads[i])]
  {
    assert loads[..i + 1][..i] == loads[..i];
  }

  /** Writing the same entries a second time changes nothing. */
  lemma ScatterIdempotent<T>(slots: seq<T>, loads: seq<Load>, f: Load -> T)
    requires |slots| == Channels && AllValid(loads)
    ensures Scatter(Scatter(slots, loads, f), loads, f) == Scatter(slots, loads, f)
  {
    var once := Scatter(slots, loads, f);
    forall k | 0 <= k < Channels
      ensures Scatter(once, loads, f)[k] == once[k]
    {
      ScatterAt(slots, loads, f, k);
      ScatterAt(once, loads, f, k);
    }
  }

  /** The totals of one message: the four readings summed over exactly its entries, a missing
      reading counted as 0, starting from zero. */
  function SumTotals(loads: seq<Load>): (sum: Totals)
    ensures loads == [] ==> sum == ZeroTotals
    ensures |loads| == 1 ==> sum == Contribution(loads[0])
  {
    if loads == [] then ZeroTotals
    else AddTotals(SumTotals(loads[..|loads| - 1]), Contribution(loads[|loads| - 1]))
  }

  /** One more entry adds its readings to the sum of the earlier ones. */
  lemma SumTotalsStep(loads: seq<Load>, i: int)
    requires 0 <= i < |loads|
    ensures SumTotals(loads[..i + 1]) == AddTotals(SumTotals(loads[..i]), Contribution(loads[i]))
  {
    assert loads[..i + 1][..i] == loads[..i];
  }

  /** The sum splits over any division of the entries: it is a sum, not a running balance. */
  lemma {:induction false} SumTotalsAppend(a: seq<Load>, b: seq<Load>)
    ensures SumTotals(a + b) == AddTotals(SumTotals(a), SumTotals(b))
  {
    if b != [] {
      var init := b[..|b| - 1];
      assert (a + b)[..|a + b| - 1] == a + init;
      SumTotalsAppend(a, init);
    } else {
      assert a + b == a;
    }
  }

  /** What the message says about one channel: the readings of its last entry, or zeros. */
  function ChannelTotals(loads: seq<Load>, id: int): Totals {
    var i := LastIndex(loads, id);
    if i >= 0 then Contribution(loads[i]) else ZeroTotals
  }

  /** With each channel listed at most once, the totals are the sum of the four channels'
      readings in this message, so a channel the message leaves out adds nothing. */
  lemma {:induction false} TotalsAreChannelSum(loads: seq<Load>)
    requires AllValid(loads) && DistinctIds(loads)
    ensures SumTotals(loads) == AddTotals(
      AddTotals(ChannelTotals(loads, 1), ChannelTotals(loads, 2)),
      AddTotals(ChannelTotals(loads, 3), ChannelTotals(loads, 4)))
  {
    if loads == [] {
      assert ChannelTotals(loads, 1) == ChannelTotals(loads, 2) == ZeroTotals;
      assert ChannelTotals(loads, 3) == ChannelTotals(loads, 4) == ZeroTotals;
    } else {
      var init, last := loads[..|loads| - 1], loads[|loads| - 1];
      InitKeepsIds(loads);
      TotalsAreChannelSum(init);
      ChannelTotalsStep(loads, 1);
      ChannelTotalsStep(loads, 2);
      ChannelTotalsStep(loads, 3);
      ChannelTotalsStep(loads, 4);
      AddIntoSlot(ChannelTotals(init, 1), ChannelTotals(init, 2), ChannelTotals(init, 3),
        ChannelTotals(init, 4), Contribution(last), last.id);
    }
  }

  lemma InitKeepsIds(loads: seq<Load>)
    requires loads != [] && AllValid(loads) && DistinctIds(loads)
    ensures AllValid(loads[..|loads| - 1]) && DistinctIds(loads[..|loads| - 1])
  {
    var init := loads[..|loads| - 1];
    assert forall i :: 0 <= i < |init| ==> init[i] == loads[i];
  }

  /** Adding x to a sum of four shares, one of which is zero, is putting x in that share. */
  lemma AddIntoSlot(a: Totals, b: Totals, c: Totals, d: Totals, x: Totals, slot: int)
    requires 1 <= slot <= 4
    requires [a, b, c, d][slot - 1] == ZeroTotals
    ensures AddTotals(AddTotals(AddTotals(a, b), AddTotals(c, d)), x) == AddTotals(
      AddTotals(if slot == 1 then x else a, if slot == 2 then x else b),
      AddTotals(if slot == 3 then x else c, if slot == 4 then x else d))
  {
  }

  /** Adding an entry at the end changes only its own channel's share, from zero to its readings. */
  lemma ChannelTotalsStep(loads: seq<Load>, id: int)
    requires loads != [] && DistinctIds(loads)
    ensures var init, last := loads[..|loads| - 1], loads[|loads| - 1];
      ChannelTotals(loads, id) == if id == last.id then Contribution(last) else ChannelTotals(init, id)
    ensures var init, last := loads[..|loads| - 1], loads[|loads| - 1];
      ChannelTotals(init, last.id) == ZeroTotals
  {
    var init, last := loads[..|loads| - 1], loads[|loads| - 1];
    assert forall i :: 0 <= i < |init| ==> init[i] == loads[i];
    assert LastIndex(init, last.id) == -1;
    if id != last.id {
      var i := LastIndex(init, id);
      assert i >= 0 ==> init[i] == loads[i];
    }
  }

  /** The chart point of one channel: the power of the first entry with its id, or 0. */
  function ChartPoint(loads: seq<Load>, id: int): (v: real)
    ensures FirstIndex(loads, id) == |loads| ==> v == 0.0
    ensures FirstIndex(loads, id) < |loads| ==> v == Reading(loads[FirstIndex(loads, id)].power)
  {
    var i := FirstIndex(loads, id);
    if i < |loads| then Reading(loads[i].power) else 0.0
  }

  /** The four points one `state` message adds to the chart, channel 1 first. */
  function ChartPoints(loads: seq<Load>): (points: seq<real>)
    ensures |points| == Channels
    ensures forall k :: 0 <= k < Channels ==> points[k] == ChartPoint(loads, k + 1)
  {
    [ChartPoint(loads, 1), ChartPoint(loads, 2), ChartPoint(loads, 3), ChartPoint(loads, 4)]
  }

  /** The shown list of a notification batch: the batch reversed, newest first. */
  function NewestFirst(batch: seq<Notif>): (lines: seq<NotifLine>)
    ensures |lines| == |batch|
    ensures batch != [] ==> lines[0] == LineOf(batch[|batch| - 1])
    ensures batch != [] ==> lines[|lines| - 1] == LineOf(batch[0])
  {
    if batch == [] then [] else NewestFirst(batch[1..]) + [LineOf(batch[0])]
  }

  /** Line k of the list shows the k-th notification counted from the end of the batch. */
  lemma {:induction false} NewestFirstAt(batch: seq<Notif>, k: int)
    requires 0 <= k < |batch|
    ensures NewestFirst(batch)[k] == LineOf(batch[|batch| - 1 - k])
  {
    if k < |batch| - 1 {
      NewestFirstAt(batch[1..], k);
    }
  }

  /** Everything the page shows apart from the chart. */
  datatype Panel = Panel(
    tiles: seq<Tile>,
    switches: seq<bool>,
    limits: seq<NumField<real>>,
    totals: Option<Totals>,   // None until the first complete `state` message
    meta: Option<Meta>,       // None until the first complete `state` message
    ip: string,
    price: NumField<real>,
    notifs: seq<NotifLine>)
  {
    predicate WellFormed() {
      |tiles| == Channels && |switches| == Channels && |limits| == Channels
    }
  }

  predicate IsState(f: Frame) {
    f.Object? && f.kind == Some("state") && f.loads.Some?
  }

  predicate IsNotifs(f: Frame) {
    f.Object? && f.kind == Some("notifs") && f.notifs.Some?
  }

  predicate IsCleared(f: Frame) {
    f.Object? && f.kind == Some("cleared")
  }

  /** The limit box an entry sets. */
  function LimitFieldOf(entry: Load): (box: NumField<real>)
    ensures TruthyNum(entry.limitHours, 0.0) ==> box == Num(entry.limitHours.value)
    ensures !TruthyNum(entry.limitHours, 0.0) ==> box == Num(12.0)
  {
    Num(LimitShown(entry))
  }

  /** A `state` message: the tile loop, then (when no entry stopped it) the totals, the device
      lines, the price box and the limit boxes. */
  function ApplyState(p: Panel, f: Frame, hostname: string): (q: Panel)
    requires p.WellFormed() && IsState(f)
    ensures q.WellFormed()
    ensures q.notifs == p.notifs
    ensures FirstInvalid(f.loads.value) < |f.loads.value| ==>
      q.totals == p.totals && q.meta == p.meta && q.ip == p.ip && q.price == p.price &&
      q.limits == p.limits
    ensures FirstInvalid(f.loads.value) == |f.loads.value| ==>
      q.totals == Some(SumTotals(f.loads.value)) && q.meta == Some(MetaOf(f)) &&
      q.ip == IpOf(f, hostname) && q.price == Num(PriceShown(f))
  {
    var loads := f.loads.value;
    var written := FirstInvalid(loads);
    var shown := p.(
      tiles := Scatter(p.tiles, loads[..written], TileOf),
      switches := Scatter(p.switches, loads[..written], SwitchOf));
    if written < |loads| then shown
    else
      assert loads[..written] == loads;
      shown.(
        totals := Some(SumTotals(loads)),
        meta := Some(MetaOf(f)),
        ip := IpOf(f, hostname),
        price := Num(PriceShown(f)),
        limits := Scatter(p.limits, loads, LimitFieldOf))
  }

  /** The shown state after one inbound message; `hostname` is the page's own host. */
  function Receive(p: Panel, f: Frame, hostname: string): (q: Panel)
    requires p.WellFormed()
    ensures q.WellFormed()
  {
    if IsState(f) then ApplyState(p, f, hostname)
    else if IsNotifs(f) then p.(notifs := NewestFirst(f.notifs.value))
    else if IsCleared(f) then p.(notifs := [])
    else p
  }

  /** The points one message adds to the chart, if it gets that far. */
  function ChartEffect(f: Frame): (points: Option<seq<real>>)
    ensures points.Some? <==> IsState(f) && AllValid(f.loads.value)
    ensures points.Some? ==> points.value == ChartPoints(f.loads.value)
  {
    if IsState(f) && AllValid(f.loads.value) then Some(ChartPoints(f.loads.value)) else None
  }
}

/** Properties of one inbound message's effect. */
module ReconcileFacts {
  import opened Wrappers
  import opened Telemetry
  import opened Commands
  import opened Reconcile

  /** Receiving the same message twice in a row shows the same as receiving it once: every
      write is an overwrite, and the totals start from zero. */
  lemma ReceiveIdempotent(p: Panel, f: Frame, hostname: string)
    requires p.WellFormed()
    ensures Receive(Receive(p, f, hostname), f, hostname) == Receive(p, f, hostname)
  {
    if IsState(f) {
      var loads := f.loads.value;
      var n := FirstInvalid(loads);
      ScatterIdempotent(p.tiles, loads[..n], TileOf);
      ScatterIdempotent(p.switches, loads[..n], SwitchOf);
      if n == |loads| {
        assert loads[..n] == loads;
        ScatterIdempotent(p.limits, loads, LimitFieldOf);
      }
    }
  }

  /** A `state` message whose entries all name a channel sets, for every channel it lists, the
      tile, the relay switch and the limit box from the LAST entry for that channel: ON exactly
      when its `relay` is true, and a limit of 12 hours when `limitHours` is missing or 0. */
  lemma StateShowsLastEntry(p: Panel, f: Frame, hostname: string, k: int)
    requires p.WellFormed() && IsState(f) && AllValid(f.loads.value) && 0 <= k < Channels
    requires LastIndex(f.loads.value, k + 1) >= 0
    ensures var q, entry := Receive(p, f, hostname), f.loads.value[LastIndex(f.loads.value, k + 1)];
      q.tiles[k] == TileOf(entry) && (q.switches[k] <==> entry.relay == Some(true)) &&
      q.limits[k] == LimitFieldOf(entry)
  {
    var loads := f.loads.value;
    assert loads[..FirstInvalid(loads)] == loads;
    ScatterAt(p.tiles, loads, TileOf, k);
    ScatterAt(p.switches, loads, SwitchOf, k);
    ScatterAt(p.limits, loads, LimitFieldOf, k);
  }

  /** A channel that no entry of a `state` message names keeps its tile, its relay switch and
      its limit box: there is no reset to zero or OFF. */
  lemma StateKeepsAbsentChannels(p: Panel, f: Frame, hostname: string, k: int)
    requires p.WellFormed() && IsState(f) && 0 <= k < Channels
    requires forall i :: 0 <= i < |f.loads.value| ==> f.loads.value[i].id != k + 1
    ensures var q := Receive(p, f, hostname);
      q.tiles[k] == p.tiles[k] && q.switches[k] == p.switches[k] && q.limits[k] == p.limits[k]
  {
    var loads := f.loads.value;
    var n := FirstInvalid(loads);
    assert LastIndex(loads[..n], k + 1) == -1;
    ScatterAt(p.tiles, loads[..n], TileOf, k);
    ScatterAt(p.switches, loads[..n], SwitchOf, k);
    if n == |loads| {
      assert loads[..n] == loads;
      ScatterAt(p.limits, loads, LimitFieldOf, k);
    }
  }

  /** The totals a complete `state` message shows are the sums over its own entries, whatever
      was shown before: nothing carries over from earlier messages. */
  lemma TotalsFromThisMessageOnly(p: Panel, p': Panel, f: Frame, hostname: string)
    requires p.WellFormed() && p'.WellFormed() && IsState(f) && AllValid(f.loads.value)
    ensures Receive(p, f, hostname).totals == Some(SumTotals(f.loads.value))
    ensures Receive(p, f, hostname).totals == Receive(p', f, hostname).totals
  {
  }

  /** An entry whose id names no channel stops the handler there: the entries before it have
      already rewritten their tiles and switches, and nothing else changes. */
  lemma BadEntryStopsHandler(p: Panel, f: Frame, hostname: string)
    requires p.WellFormed() && IsState(f) && !AllValid(f.loads.value)
    ensures var q, n := Receive(p, f, hostname), FirstInvalid(f.loads.value);
      n < |f.loads.value| &&
      q == p.(tiles := Scatter(p.tiles, f.loads.value[..n], TileOf),
              switches := Scatter(p.switches, f.loads.value[..n], SwitchOf))
    ensures ChartEffect(f).None?
  {
  }

  /** A `notifs` message replaces the shown list by its batch, newest first; what was shown
      before does not matter. */
  lemma NotifsReplaceList(p: Panel, f: Frame, hostname: string)
    requires p.WellFormed() && IsNotifs(f)
    ensures Receive(p, f, hostname) == p.(notifs := NewestFirst(f.notifs.value))
    ensures var q, batch := Receive(p, f, hostname), f.notifs.value;
      |q.notifs| == |batch| &&
      forall k :: 0 <= k < |batch| ==> q.notifs[k] == LineOf(batch[|batch| - 1 - k])
  {
    forall k | 0 <= k < |f.notifs.value| {
      NewestFirstAt(f.notifs.value, k);
    }
  }

  /** A `state` message whose entries all name a channel rewrites, in one go, the tiles, the
      switches and the limit boxes of the channels it lists, the totals, the device lines, the IP
      line and the price box; the notification list stays. */
  lemma CompleteStateWrites(p: Panel, f: Frame, hostname: string)
    requires p.WellFormed() && IsState(f) && AllValid(f.loads.value)
    ensures var loads := f.loads.value;
      Receive(p, f, hostname) == p.(
        tiles := Scatter(p.tiles, loads, TileOf),
        switches := Scatter(p.switches, loads, SwitchOf),
        totals := Some(SumTotals(loads)),
        meta := Some(MetaOf(f)),
        ip := IpOf(f, hostname),
        price := Num(PriceShown(f)),
        limits := Scatter(p.limits, loads, LimitFieldOf))
  {
    assert f.loads.value[..FirstInvalid(f.loads.value)] == f.loads.value;
  }

  /** A `cleared` message empties the list and touches nothing else. */
  lemma ClearedEmptiesList(p: Panel, f: Frame, hostname: string)
    requires p.WellFormed() && IsCleared(f)
    ensures Receive(p, f, hostname) == p.(notifs := [])
  {
  }

  /** Text that does not parse, a `state` message without `loads`, a `notifs` message without a
      list and any other `type` change nothing. */
  lemma OtherFramesIgnored(p: Panel, f: Frame, hostname: string)
    requires p.WellFormed()
    requires !IsState(f) && !IsNotifs(f) && !IsCleared(f)
    ensures Receive(p, f, hostname) == p
    ensures ChartEffect(f).None?
  {
  }

  /** When each channel is listed at most once, the chart point of a listed channel is the
      power its tile shows. */
  lemma ChartAgreesWithTile(p: Panel, f: Frame, hostname: string, k: int)
    requires p.WellFormed() && IsState(f) && AllValid(f.loads.value) && DistinctIds(f.loads.value)
    requires 0 <= k < Channels && LastIndex(f.loads.value, k + 1) >= 0
    ensures ChartEffect(f).Some?
    ensures ChartEffect(f).value[k] == Receive(p, f, hostname).tiles[k].power
  {
    var loads := f.loads.value;
    StateShowsLastEntry(p, f, hostname, k);
    assert FirstIndex(loads, k + 1) == LastIndex(loads, k + 1);
  }

  /** After a complete `state` message, "Save limits" sends back, for each channel the message
      lists, the limit it reported in seconds; a channel reported without a limit (or with 0)
      is sent twelve hours, 43200 seconds. */
  lemma SavedLimitsEchoState(p: Panel, f: Frame, hostname: string, k: int)
    requires p.WellFormed() && IsState(f) && AllValid(f.loads.value) && 0 <= k < Channels
    requires LastIndex(f.loads.value, k + 1) >= 0
    ensures var entry := f.loads.value[LastIndex(f.loads.value, k + 1)];
      var cmds := LimitCommands(Receive(p, f, hostname).limits);
      |cmds| == Channels && cmds[k] == SetLimit(k + 1, Some(LimitSecondsOf(LimitShown(entry)))) &&
      (!TruthyNum(entry.limitHours, 0.0) ==> cmds[k] == SetLimit(k + 1, Some(43200)))
  {
    StateShowsLastEntry(p, f, hostname, k);
    var entry := f.loads.value[LastIndex(f.loads.value, k + 1)];
    assert Receive(p, f, hostname).limits[k] == Num(LimitShown(entry));
    assert Round(12.0 * 3600.0) == 43200;
  }

  /** With a channel listed twice, the tile shows the second entry and the chart the first:
      `forEach` keeps overwriting, `Array.find` stops at the first match. */
  lemma DuplicateIdSplitsTileAndChart(p: Panel, f: Frame, hostname: string, k: int)
    requires p.WellFormed() && IsState(f) && 0 <= k < Channels
    requires |f.loads.value| == 2 && f.loads.value[0].id == k + 1 && f.loads.value[1].id == k + 1
    ensures Receive(p, f, hostname).tiles[k] == TileOf(f.loads.value[1])
    ensures ChartEffect(f).Some? && ChartEffect(f).value[k] == Reading(f.loads.value[0].power)
  {
    var loads := f.loads.value;
    assert AllValid(loads) && LastIndex(loads, k + 1) == 1 && FirstIndex(loads, k + 1) == 0;
    StateShowsLastEntry(p, f, hostname, k);
  }

  /** Only channel 2 reports, relay on, 230 W: its tile reads ON and 230 W, and the total power
      is 230 W. */
  lemma OnlyChannelTwoReports(p: Panel)
    requires p.WellFormed()
    ensures var entry := Load(2, Some(230.0), Some(1.0), Some(230.0), Some(5.0), Some(true), None);
      var f := Object(Some("state"), Some([entry]), None, None, None, None, None, None, None);
      var q := Receive(p, f, "host");
      q.tiles[1].on && q.tiles[1].power == 230.0 && q.totals == Some(Totals(230.0, 1.0, 230.0, 5.0)) &&
      q.tiles[0] == p.tiles[0] && q.limits[1] == Num(12.0)
  {
    var entry := Load(2, Some(230.0), Some(1.0), Some(230.0), Some(5.0), Some(true), None);
    var f := Object(Some("state"), Some([entry]), None, None, None, None, None, None, None);
    assert AllValid([entry]) && LastIndex([entry], 2) == 0;
    StateShowsLastEntry(p, f, "host", 1);
    StateKeepsAbsentChannels(p, f, "host", 0);
    assert [entry][..0] == [];
    assert SumTotals([entry]) == Totals(230.0, 1.0, 230.0, 5.0);
    TotalsFromThisMessageOnly(p, p, f, "host");
  }
}
