// The app's controller: the state it caches from the device, one method per
// Bluetooth callback or button action, and the requests it hands to the
// Bluetooth stack and the notification centre, kept as an output log.
module App {
  import opened Wire
  import opened StatusFlags
  import opened Channels

  /** The identity of a discovered peripheral. */
  type Peripheral = nat

  const ALERT_TITLE: string := "Milk is done cooking"
  const ALERT_BODY: string := "Time to add the starter culture!"

  /** A request the controller issues to the Bluetooth stack or the notification centre. */
  datatype Request =
    | StartManager
    | ScanForPeripherals(service: Uuid)
    | Connect(peripheral: Peripheral)
    | StopScan
    | DiscoverServices(service: Uuid)
    | DiscoverCharacteristics(service: Uuid)
    | SetNotifyValue(ch: Characteristic)
    | ReadValue(ch: Characteristic)
    | WriteValue(ch: Characteristic, payload: seq<Byte>)
    | PostNotification(title: string, body: string)

  /** The local notification posted while the device reports incubating. */
  const IncubationAlert: Request := PostNotification(ALERT_TITLE, ALERT_BODY)

  /**
   * The values the controller caches and shows: the status, the two
   * durations in milliseconds, the two temperatures, the status label's
   * text (None before the first refresh), the remaining time the timer label
   * shows (None when blank; its formatting is not modelled) and whether the
   * button shows "pause".
   */
  datatype Mirror = Mirror(
    status: StatusOptions,
    cookTime: Word,
    incubationTime: Word,
    innerTemp: Byte,
    outerTemp: Byte,
    statusText: Option<Label>,
    timerText: Option<Word>,
    showsPause: bool)

  /** What one value update does: the new cached state, the requests issued, and whether the app traps. */
  datatype Reception = Reception(mirror: Mirror, requests: seq<Request>, trapped: bool)

  /** The label and button refresh that follows a status change. */
  function Refreshed(m: Mirror): (r: Mirror)
    ensures r.statusText == Some(LabelOf(m.status))
    ensures r.timerText == (if ClearsTimer(LabelOf(m.status)) then None else m.timerText)
    ensures r.showsPause <==> m.status.Contains(RUNNING)
    ensures r.(statusText := m.statusText, timerText := m.timerText, showsPause := m.showsPause) == m
  {
    var shown := LabelOf(m.status);
    m.(statusText := Some(shown),
       timerText := if shown == Cooling || shown == Idle then None else m.timerText,
       showsPause := ShowsPause(m.status))
  }

  /** The effect of a value update on the characteristic bound to channel `k`. */
  function Receive(m: Mirror, k: Channel, payload: seq<Byte>): (r: Reception)
    // status: replaced wholesale by the first byte (0 for an empty payload), label refreshed, alert while incubating
    ensures k == StatusCh ==>
      && !r.trapped
      && r.mirror == Refreshed(m.(status := StatusOptions(DecodeStatus(payload))))
      && r.requests == (if r.mirror.status.Contains(INCUBATING) then [IncubationAlert] else [])
    // cook time: a whole word or a trap; the timer shows it only while cooking
    ensures k == CookTimeCh ==>
      && r.requests == []
      && (r.trapped <==> |payload| < 4)
      && (r.trapped ==> r.mirror == m)
      && (!r.trapped ==>
            && LoadWord(payload) == Some(r.mirror.cookTime)
            && r.mirror == m.(cookTime := r.mirror.cookTime,
                              timerText := if m.status.Contains(COOKING) then Some(r.mirror.cookTime) else m.timerText))
    // incubation time: empty means 0 and leaves the timer; otherwise like cook time, gated by incubating
    ensures k == IncubationTimeCh ==>
      && r.requests == []
      && (r.trapped <==> 0 < |payload| < 4)
      && (r.trapped ==> r.mirror == m)
      && (payload == [] ==> r.mirror == m.(incubationTime := 0))
      && (|payload| >= 4 ==>
            && LoadWord(payload) == Some(r.mirror.incubationTime)
            && r.mirror == m.(incubationTime := r.mirror.incubationTime,
                              timerText := if m.status.Contains(INCUBATING) then Some(r.mirror.incubationTime) else m.timerText))
    // temperatures: byte 0 is inner, byte 1 is outer
    ensures k == TempsCh ==>
      && r.requests == []
      && (r.trapped <==> |payload| < 2)
      && (|payload| >= 2 ==> r.mirror == m.(innerTemp := payload[0], outerTemp := payload[1]))
    ensures k == ChartsCh ==> r == Reception(m, [], false)
  {
    match k
    case StatusCh =>
      var m' := Refreshed(m.(status := StatusOptions(DecodeStatus(payload))));
      Reception(m', if m'.status.Contains(INCUBATING) then [IncubationAlert] else [], false)
    case CookTimeCh =>
      (match LoadWord(payload)
       case None => Reception(m, [], true)
       case Some(ms) =>
         Reception(m.(cookTime := ms, timerText := if m.status.Contains(COOKING) then Some(ms) else m.timerText), [], false))
    case IncubationTimeCh =>
      if |payload| == 0 then Reception(m.(incubationTime := 0), [], false)
      else
        (match LoadWord(payload)
         case None => Reception(m, [], true)
         case Some(ms) =>
           Reception(m.(incubationTime := ms, timerText := if m.status.Contains(INCUBATING) then Some(ms) else m.timerText), [], false))
    case TempsCh =>
      if |payload| == 0 then Reception(m, [], true)
      else if |payload| == 1 then Reception(m.(innerTemp := payload[0]), [], true)
      else Reception(m.(innerTemp := payload[0], outerTemp := payload[1]), [], false)
    case ChartsCh =>
      Reception(m, [], false)
  }

  /** One notification subscription per discovered characteristic, in discovery order. */
  function Subscriptions(chs: seq<Characteristic>): (r: seq<Request>)
    ensures |r| == |chs|
    ensures forall i :: 0 <= i < |chs| ==> r[i] == SetNotifyValue(chs[i])
  {
    if chs == [] then [] else Subscriptions(chs[..|chs| - 1]) + [SetNotifyValue(chs[|chs| - 1])]
  }

  /** The one-shot reads of status, cook time and incubation time, cut short at the first unbound slot (where the app traps). */
  function InitialReads(s: Slots): (r: seq<Request>)
    ensures |r| <= 3
    ensures |r| >= 1 <==> s.status.Some?
    ensures |r| >= 2 <==> s.status.Some? && s.cookTime.Some?
    ensures |r| == 3 <==> s.status.Some? && s.cookTime.Some? && s.incubationTime.Some?
    ensures |r| >= 1 ==> r[0] == ReadValue(s.status.value)
    ensures |r| >= 2 ==> r[1] == ReadValue(s.cookTime.value)
    ensures |r| == 3 ==> r[2] == ReadValue(s.incubationTime.value)
  {
    if s.status.None? then []
    else if s.cookTime.None? then [ReadValue(s.status.value)]
    else if s.incubationTime.None? then [ReadValue(s.status.value), ReadValue(s.cookTime.value)]
    else [ReadValue(s.status.value), ReadValue(s.cookTime.value), ReadValue(s.incubationTime.value)]
  }

  class ViewController {
    var statusCh: Option<Characteristic>
    var cookTimeCh: Option<Characteristic>
    var incubationTimeCh: Option<Characteristic>
    var tempsCh: Option<Characteristic>
    var chartsCh: Option<Characteristic>

    var device: Option<Peripheral>

    var status: StatusOptions
    var cookTime: Word
    var incubationTime: Word
    var outerTemp: Byte
    var innerTemp: Byte

    var statusText: Option<Label>
    var timerText: Option<Word>
    var showsPause: bool

    /** Every request issued so far, oldest first. */
    var requests: seq<Request>

    function Bound(): Slots
      reads this
    {
      Slots(statusCh, cookTimeCh, incubationTimeCh, tempsCh, chartsCh)
    }

    function View(): Mirror
      reads this
    {
      Mirror(status, cookTime, incubationTime, innerTemp, outerTemp, statusText, timerText, showsPause)
    }

    constructor ()
      ensures Bound() == Unbound && device == None
      ensures View() == Mirror(StatusOptions(0), 0, 0, 0, 0, None, None, false)
      ensures requests == []
    {
      statusCh, cookTimeCh, incubationTimeCh, tempsCh, chartsCh := None, None, None, None, None;
      device := None;
      status := StatusOptions(0);
      cookTime, incubationTime := 0, 0;
      outerTemp, innerTemp := 0, 0;
      statusText, timerText, showsPause := None, None, false;
      requests := [];
    }

    // ------------------------------------------------------------ commands

    /** The play/pause button: flip running, write the status, refresh label and button. */
    method ToggleDevice() returns (trapped: bool)
      modifies this`status, this`requests, this`statusText, this`timerText, this`showsPause
      ensures trapped <==> old(statusCh).Some? && device.None?
      ensures status == if statusCh.Some? then WithCookingDefault(Toggled(old(status))) else Toggled(old(status))
      ensures requests == old(requests) + if statusCh.Some? && !trapped then [WriteValue(statusCh.value, EncodeStatus(status.rawValue))] else []
      ensures !trapped ==> View() == Refreshed(old(View()).(status := status))
      ensures trapped ==> statusText == old(statusText) && timerText == old(timerText) && showsPause == old(showsPause)
    {
      if status.Contains(RUNNING) {
        status := status.Remove(RUNNING);
      } else {
        status := status.Insert(RUNNING);
      }
      trapped := UpdateStatus();
      if trapped {
        return;
      }
      UpdateStatusText();
      UpdateActionButton();
    }

    /** Writes the status to the device when the status slot is bound, adding cooking to a bare running status first. */
    method UpdateStatus() returns (trapped: bool)
      modifies this`status, this`requests
      ensures statusCh.None? ==> !trapped && status == old(status) && requests == old(requests)
      ensures statusCh.Some? ==> status == WithCookingDefault(old(status)) && (trapped <==> device.None?)
      ensures statusCh.Some? ==> requests == old(requests) + if trapped then [] else [WriteValue(statusCh.value, EncodeStatus(status.rawValue))]
    {
      if statusCh.None? {
        return false;
      }
      if status.Contains(RUNNING) && status.Subtracting(RUNNING).IsEmpty() {
        status := status.Insert(COOKING);
      }
      if device.None? {
        return true;
      }
      requests := requests + [WriteValue(statusCh.value, EncodeStatus(status.rawValue))];
      trapped := false;
    }

    method UpdateActionButton()
      modifies this`showsPause
      ensures showsPause <==> status.Contains(RUNNING)
    {
      if status.Contains(RUNNING) {
        showsPause := true;
      } else {
        showsPause := false;
      }
    }

    method UpdateStatusText()
      modifies this`statusText, this`timerText
      ensures statusText == Some(LabelOf(status))
      ensures timerText == if ClearsTimer(LabelOf(status)) then None else old(timerText)
    {
      var text: Label;
      if status.Contains(COOKING) {
        text := Cooking;
      } else if status.Contains(COOLING) {
        text := Cooling;
        timerText := None;
      } else if status.Contains(INCUBATING) {
        text := Incubating;
      } else {
        text := Idle;
        timerText := None;
      }
      statusText := Some(text);
    }

    // ------------------------------------------------------------ central manager callbacks

    method DidUpdateState(poweredOn: bool)
      modifies this`requests
      ensures requests == old(requests) + if poweredOn then [ScanForPeripherals(SERVICE_UUID)] else []
    {
      if poweredOn {
        requests := requests + [ScanForPeripherals(SERVICE_UUID)];
      }
    }

    method DidDiscover(peripheral: Peripheral)
      modifies this`requests, this`device
      ensures requests == old(requests) + [Connect(peripheral)]
      ensures device == Some(peripheral)
    {
      requests := requests + [Connect(peripheral)];
      device := Some(peripheral);
    }

    method DidConnect() returns (trapped: bool)
      modifies this`requests
      ensures trapped <==> device.None?
      ensures requests == old(requests) + [StopScan] + if trapped then [] else [DiscoverServices(SERVICE_UUID)]
    {
      requests := requests + [StopScan];
      if device.None? {
        return true;
      }
      requests := requests + [DiscoverServices(SERVICE_UUID)];
      trapped := false;
    }

    /** Forgets the peripheral and starts a new manager; the slots and the cached values are kept. */
    method DidDisconnect()
      modifies this`requests, this`device
      ensures device == None
      ensures requests == old(requests) + [StartManager]
    {
      device := None;
      requests := requests + [StartManager];
    }

    // ------------------------------------------------------------ peripheral callbacks

    method DidDiscoverServices(services: seq<Uuid>) returns (trapped: bool)
      modifies this`requests
      ensures trapped <==> services == []
      ensures requests == old(requests) + if trapped then [] else [DiscoverCharacteristics(services[0])]
    {
      if services == [] {
        return true;
      }
      requests := requests + [DiscoverCharacteristics(services[0])];
      trapped := false;
    }

    /**
     * Binds each discovered characteristic to the slot its identifier names,
     * subscribes to every one of them, then reads status, cook time and
     * incubation time, trapping at the first of these slots left unbound.
     */
    method DidDiscoverCharacteristics(chs: seq<Characteristic>) returns (trapped: bool)
      modifies this`statusCh, this`cookTimeCh, this`incubationTimeCh, this`tempsCh, this`chartsCh, this`requests
      ensures Bound() == BindAll(old(Bound()), chs)
      ensures requests == old(requests) + Subscriptions(chs) + InitialReads(Bound())
      ensures trapped <==> statusCh.None? || cookTimeCh.None? || incubationTimeCh.None?
    {
      var i := 0;
      while i < |chs|
        invariant 0 <= i <= |chs|
        invariant Bound() == BindAll(old(Bound()), chs[..i])
        invariant requests == old(requests) + Subscriptions(chs[..i])
      {
        var ch := chs[i];
        Bind(ch);
        requests := requests + [SetNotifyValue(ch)];
        assert chs[..i + 1][..i] == chs[..i];
        i := i + 1;
      }
      assert chs[..i] == chs;
      trapped := ReadInitialValues();
    }

    /** The identifier switch for one discovered characteristic. */
    method Bind(ch: Characteristic)
      modifies this`statusCh, this`cookTimeCh, this`incubationTimeCh, this`tempsCh, this`chartsCh
      ensures Bound() == BindOne(old(Bound()), ch)
    {
      if ch.uuid == STATUS_UUID {
        statusCh := Some(ch);
      } else if ch.uuid == COOK_TIME_UUID {
        cookTimeCh := Some(ch);
      } else if ch.uuid == INCUBATION_TIME_UUID {
        incubationTimeCh := Some(ch);
      } else if ch.uuid == TEMPS_UUID {
        tempsCh := Some(ch);
      } else if ch.uuid == CHARTS_UUID {
        chartsCh := Some(ch);
      }
    }

    /** The one-shot reads of status, cook time and incubation time, trapping at the first of these slots that is unbound. */
    method ReadInitialValues() returns (trapped: bool)
      modifies this`requests
      ensures requests == old(requests) + InitialReads(Bound())
      ensures trapped <==> statusCh.None? || cookTimeCh.None? || incubationTimeCh.None?
    {
      if statusCh.None? {
        return true;
      }
      requests := requests + [ReadValue(statusCh.value)];
      if cookTimeCh.None? {
        return true;
      }
      requests := requests + [ReadValue(cookTimeCh.value)];
      if incubationTimeCh.None? {
        return true;
      }
      requests := requests + [ReadValue(incubationTimeCh.value)];
      trapped := false;
    }

    /** A value update: dispatched on the slot holding `c`; an unmatched characteristic changes nothing. */
    method DidUpdateValue(c: Characteristic, payload: seq<Byte>) returns (trapped: bool)
      modifies this`status, this`cookTime, this`incubationTime, this`innerTemp, this`outerTemp
      modifies this`statusText, this`timerText, this`showsPause, this`requests
      ensures Route(Bound(), c).None? ==> !trapped && View() == old(View()) && requests == old(requests)
      ensures Route(Bound(), c).Some? ==>
        var r := Receive(old(View()), Route(Bound(), c).value, payload);
        View() == r.mirror && requests == old(requests) + r.requests && trapped == r.trapped
    {
      trapped := false;
      if statusCh == Some(c) {
        StatusUpdated(payload);
      } else if cookTimeCh == Some(c) {
        trapped := CookTimeUpdated(payload);
      } else if incubationTimeCh == Some(c) {
        trapped := IncubationTimeUpdated(payload);
      } else if tempsCh == Some(c) {
        trapped := TempsUpdated(payload);
      }
    }

    /** The status arm: the first byte replaces the status, the alert is posted while incubating, label and button are refreshed. */
    method StatusUpdated(payload: seq<Byte>)
      modifies this`status, this`statusText, this`timerText, this`showsPause, this`requests
      ensures var r := Receive(old(View()), StatusCh, payload);
        View() == r.mirror && requests == old(requests) + r.requests
    {
      status := StatusOptions(DecodeStatus(payload));
      if status.Contains(INCUBATING) {
        requests := requests + [IncubationAlert];
      }
      UpdateStatusText();
      UpdateActionButton();
    }

    /** The cook time arm: a `UInt32` load, shown while cooking. */
    method CookTimeUpdated(payload: seq<Byte>) returns (trapped: bool)
      modifies this`cookTime, this`timerText
      ensures var r := Receive(old(View()), CookTimeCh, payload);
        View() == r.mirror && r.requests == [] && trapped == r.trapped
    {
      var loaded := LoadWord(payload);
      if loaded.None? {
        return true;
      }
      cookTime := loaded.value;
      if status.Contains(COOKING) {
        timerText := Some(cookTime);
      }
      trapped := false;
    }

    /** The incubation time arm: empty means 0; otherwise a `UInt32` load, shown while incubating. */
    method IncubationTimeUpdated(payload: seq<Byte>) returns (trapped: bool)
      modifies this`incubationTime, this`timerText
      ensures var r := Receive(old(View()), IncubationTimeCh, payload);
        View() == r.mirror && r.requests == [] && trapped == r.trapped
    {
      if |payload| == 0 {
        incubationTime := 0;
        return false;
      }
      var loaded := LoadWord(payload);
      if loaded.None? {
        return true;
      }
      incubationTime := loaded.value;
      if status.Contains(INCUBATING) {
        timerText := Some(incubationTime);
      }
      trapped := false;
    }

    /** The temperatures arm: byte 0 is the inner, byte 1 the outer temperature. */
    method TempsUpdated(payload: seq<Byte>) returns (trapped: bool)
      modifies this`innerTemp, this`outerTemp
      ensures var r := Receive(old(View()), TempsCh, payload);
        View() == r.mirror && r.requests == [] && trapped == r.trapped
    {
      if |payload| == 0 {
        return true;
      }
      innerTemp := payload[0];
      if |payload| == 1 {
        return true;
      }
      outerTemp := payload[1];
      trapped := false;
    }
  }

  /** With the status slot bound and a device connected, toggling from idle writes 0b00000011 and shows "Cooking" with "pause". */
  method ToggleFromIdleScenario(vc: ViewController, c: Characteristic)
    requires vc.statusCh == Some(c) && vc.device.Some? && vc.status == StatusOptions(0)
    modifies vc
    ensures vc.status.rawValue == 0x03
    ensures vc.requests == old(vc.requests) + [WriteValue(c, [0x03])]
    ensures vc.statusText == Some(Cooking) && vc.showsPause
  {
    var trapped := vc.ToggleDevice();
  }
}
