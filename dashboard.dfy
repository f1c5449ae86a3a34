/** The page's live state and its handlers: the socket's message handler, the notification
    list, and the buttons that send commands. */
module Dashboard {
  import opened Wrappers
  import opened Telemetry
  import opened Commands
  import opened Reconcile
  import opened ReconcileFacts
  import opened ChartWindow
  import TimeFormat

  class Client {
    var tiles: seq<Tile>
    var switches: seq<bool>           // the relay check boxes
    var limits: seq<NumField<real>>   // the limit boxes, in hours
    var totals: Option<Totals>
    var meta: Option<Meta>
    var ip: string
    var price: NumField<real>         // the price box
    var notifs: seq<NotifLine>        // the shown list, top first
    const hostname: string            // `location.hostname`
    const chart: Chart

    ghost predicate Valid()
      reads this, chart
    {
      |tiles| == Channels && |switches| == Channels && |limits| == Channels && chart.Valid()
    }

    /** Everything shown apart from the chart. */
    function View(): Panel
      reads this
    {
      Panel(tiles, switches, limits, totals, meta, ip, price, notifs)
    }

    /** The page as loaded: tiles reading 0 and OFF, the host name as the IP, an empty chart.
        The check boxes, limit boxes and price box start as the page markup has them. */
    constructor (host: string, switches0: seq<bool>, limits0: seq<NumField<real>>, price0: NumField<real>)
      requires |switches0| == Channels && |limits0| == Channels
      ensures Valid() && fresh(chart) && hostname == host
      ensures View() == Panel([ZeroTile, ZeroTile, ZeroTile, ZeroTile], switches0, limits0, None, None, host, price0, [])
      ensures chart.labels == [] && chart.datasets == [[], [], [], []]
    {
      tiles := [ZeroTile, ZeroTile, ZeroTile, ZeroTile];
      switches, limits, price := switches0, limits0, price0;
      totals, meta := None, None;
      ip, hostname := host, host;
      notifs := [];
      chart := new Chart();
    }

    /** `ws.onmessage`: one inbound message, received at local time `now`. */
    method OnMessage(f: Frame, now: TimeFormat.DateTime)
      requires Valid()
      modifies this, chart
      ensures Valid()
      ensures View() == Receive(old(View()), f, hostname)
      ensures ChartEffect(f).None? ==>
        chart.labels == old(chart.labels) && chart.datasets == old(chart.datasets)
      ensures ChartEffect(f).Some? ==>
        chart.labels == Slide(old(chart.labels), TimeFormat.ChartLabel(now)) &&
        forall k :: 0 <= k < Channels ==>
          chart.datasets[k] == Slide(old(chart.datasets)[k], ChartEffect(f).value[k])
    {
      ghost var before := View();
      if IsState(f) {
        var loads := f.loads.value;
        var complete, sum := ShowLoads(loads);
        if !complete {
          BadEntryStopsHandler(before, f, hostname);
          return;
        }
        ShowDevice(f, sum);
        ShowLimits(loads);
        assert loads[..FirstInvalid(loads)] == loads;
        CompleteStateWrites(before, f, hostname);
        chart.Append(TimeFormat.ChartLabel(now), ChartPoints(loads));
      } else if IsNotifs(f) {
        ShowNotifs(f.notifs.value);
      } else if IsCleared(f) {
        notifs := [];
      }
    }

    /** The lines written once the first loop is through: totals, device lines, price box. */
    method ShowDevice(f: Frame, sum: Totals)
      requires f.Object?
      modifies this`totals, this`meta, this`ip, this`price
      ensures totals == Some(sum) && meta == Some(MetaOf(f))
      ensures ip == IpOf(f, hostname) && price == Num(PriceShown(f))
    {
      totals := Some(sum);
      meta := Some(MetaOf(f));
      ip := IpOf(f, hostname);
      price := Num(PriceShown(f));
    }

    /** The first loop over `loads`: each entry rewrites its channel's tile and check box and
        adds its readings to the totals. An entry whose id has no tile stops the loop. */
    method ShowLoads(loads: seq<Load>) returns (complete: bool, sum: Totals)
      requires |tiles| == Channels && |switches| == Channels
      modifies this`tiles, this`switches
      ensures complete == AllValid(loads)
      ensures complete ==> sum == SumTotals(loads)
      ensures tiles == Scatter(old(tiles), loads[..FirstInvalid(loads)], TileOf)
      ensures switches == Scatter(old(switches), loads[..FirstInvalid(loads)], SwitchOf)
    {
      sum := ZeroTotals;
      var i := 0;
      while i < |loads|
        invariant 0 <= i <= |loads|
        invariant forall j :: 0 <= j < i ==> ValidId(loads[j].id)
        invariant tiles == Scatter(old(tiles), loads[..i], TileOf)
        invariant switches == Scatter(old(switches), loads[..i], SwitchOf)
        invariant sum == SumTotals(loads[..i])
      {
        var entry := loads[i];
        if !ValidId(entry.id) {
          // there is no element "v<id>": writing its text throws, and the catch ends the handler
          FirstInvalidAt(loads, i);
          return false, sum;
        }
        ScatterStep(old(tiles), loads, TileOf, i);
        ScatterStep(old(switches), loads, SwitchOf, i);
        SumTotalsStep(loads, i);
        tiles := tiles[entry.id - 1 := TileOf(entry)];
        switches := switches[entry.id - 1 := SwitchOf(entry)];
        sum := AddTotals(sum, Contribution(entry));
        i := i + 1;
      }
      assert loads[..i] == loads;
      complete := true;
    }

    /** The second loop over `loads`: each entry sets its channel's limit box. */
    method ShowLimits(loads: seq<Load>)
      requires |limits| == Channels && AllValid(loads)
      modifies this`limits
      ensures limits == Scatter(old(limits), loads, LimitFieldOf)
    {
      var i := 0;
      while i < |loads|
        invariant 0 <= i <= |loads|
        invariant limits == Scatter(old(limits), loads[..i], LimitFieldOf)
      {
        limits := limits[loads[i].id - 1 := LimitFieldOf(loads[i])];
        assert loads[..i + 1][..i] == loads[..i];
        i := i + 1;
      }
      assert loads[..i] == loads;
    }

    /** `showNotifs`: empty the list, then add the batch from its last record to its first. */
    method ShowNotifs(batch: seq<Notif>)
      modifies this`notifs
      ensures notifs == NewestFirst(batch)
    {
      notifs := [];
      var i := |batch|;
      while i > 0
        invariant 0 <= i <= |batch|
        invariant notifs == NewestFirst(batch[i..])
      {
        i := i - 1;
        assert batch[i..][1..] == batch[i + 1..];
        notifs := notifs + [LineOf(batch[i])];
      }
    }

    /** "Refresh": the fetched document's `notifs`, or an empty list when it has none. */
    method OnNotifsFetched(body: Option<seq<Notif>>)
      modifies this`notifs
      ensures notifs == NewestFirst(body.GetOr([]))
    {
      ShowNotifs(body.GetOr([]));
    }

    /** "Clear": ask the device to clear its notifications and empty the list at once. */
    method ClearClicked() returns (c: Command)
      modifies this`notifs
      ensures c == ClearNotifs && notifs == []
    {
      c := ClearNotifs;
      notifs := [];
    }

    /** The user flips the relay check box of channel `id`; its `change` event fires only when
        the box's state actually changes. */
    method ToggleRelay(id: int, checked: bool) returns (c: Command)
      requires ValidId(id) && |switches| == Channels
      requires checked == !switches[id - 1]
      modifies this`switches
      ensures switches == old(switches)[id - 1 := checked]
      ensures c == Relay(id, checked)
    {
      switches := switches[id - 1 := checked];
      c := RelayCommand(id, checked);
    }

    /** "Save limits": one `setLimit` per limit box, channels 1 to 4 in order. */
    method SaveLimits() returns (cmds: seq<Command>)
      requires |limits| == Channels
      ensures cmds == LimitCommands(limits)
    {
      cmds := [];
      var k := 0;
      while k < Channels
        invariant 0 <= k <= Channels
        invariant |cmds| == k
        invariant forall j :: 0 <= j < k ==> cmds[j] == SetLimit(j + 1, LimitSeconds(limits[j]))
      {
        cmds := cmds + [SetLimit(k + 1, LimitSeconds(limits[k]))];
        k := k + 1;
      }
    }

    /** "Save price": the price box, 8 when it is empty. */
    method SavePrice() returns (c: Command)
      ensures c.SetPrice?
      ensures price.Blank? ==> c == SetPrice(Some(8.0))
      ensures price.Num? ==> c == SetPrice(Some(price.value))
      ensures price.NaN? ==> c == SetPrice(None)
    {
      c := PriceCommand(price);
    }
  }
}
