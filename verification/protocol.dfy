// The two ends of the link together: the firmware's bit indices and the
// app's flags name the same bits, a value the firmware notifies reaches the
// app's handler for that characteristic and decodes back to what was sent,
// and a status the app writes is the status the firmware takes.
module Protocol {
  import opened Wire
  import opened StatusFlags
  import opened Channels
  import opened App
  import opened Firmware

  /** The app's slot for a characteristic identifier, None for the service identifier or an unknown one. */
  function ChannelFor(uuid: Uuid): (k: Option<Channel>)
    ensures k.Some? ==> UuidOf(k.value) == uuid
    ensures k.None? ==> forall c: Channel :: UuidOf(c) != uuid
  {
    if uuid == STATUS_UUID then Some(StatusCh)
    else if uuid == COOK_TIME_UUID then Some(CookTimeCh)
    else if uuid == INCUBATION_TIME_UUID then Some(IncubationTimeCh)
    else if uuid == TEMPS_UUID then Some(TempsCh)
    else if uuid == CHARTS_UUID then Some(ChartsCh)
    else None
  }

  /** What a firmware notification does to the app's cached state, once every slot is bound. */
  function Deliver(m: Mirror, n: Note): Reception
  {
    match ChannelFor(n.uuid)
    case None => Reception(m, [], false)
    case Some(k) => Receive(m, k, Payload(n.value))
  }

  /** Bit index i of the firmware's bit set and the app's flag of the same name test the same bit. */
  lemma FlagsAgree(s: Bitset)
    ensures Test(s, STATUS_RUNNING) <==> StatusOptions(s).Contains(RUNNING)
    ensures Test(s, STATUS_COOKING) <==> StatusOptions(s).Contains(COOKING)
    ensures Test(s, STATUS_COOLING) <==> StatusOptions(s).Contains(COOLING)
    ensures Test(s, STATUS_INCUBATING) <==> StatusOptions(s).Contains(INCUBATING)
  {
  }

  /** The byte the app writes for a status, handed to the firmware's write callback, becomes exactly the firmware's status. */
  method AppWriteReachesFirmware(s: StatusOptions, fw: Controller)
    modifies fw
    ensures fw.status == s.rawValue
    ensures StatusOptions(fw.status) == s
  {
    fw.OnStatusWrite(EncodeStatus(s.rawValue));
  }

  /**
   * A status notification replaces the app's status with exactly the
   * firmware's bits, refreshes the label and button from them, and posts
   * the alert exactly when the firmware reports incubating.
   */
  lemma StatusNoteDecoded(m: Mirror, s: Bitset)
    ensures var r := Deliver(m, Notify(STATUS_UUID, StatusValue(s)));
      && !r.trapped
      && r.mirror.status.rawValue == s
      && (r.mirror.showsPause <==> Test(s, STATUS_RUNNING))
      && (r.requests == [IncubationAlert] <==> Test(s, STATUS_INCUBATING))
      && (r.requests == [] <==> !Test(s, STATUS_INCUBATING))
  {
    FlagsAgree(s);
  }

  /** A time notification sets the matching cached duration to the firmware's count, and never traps. */
  lemma TimeNoteDecoded(m: Mirror, ms: Word)
    ensures var r := Deliver(m, Notify(COOK_TIME_UUID, Time(ms)));
      !r.trapped && r.requests == [] && r.mirror.cookTime == ms && r.mirror.incubationTime == m.incubationTime
    ensures var r := Deliver(m, Notify(INCUBATION_TIME_UUID, Time(ms)));
      !r.trapped && r.requests == [] && r.mirror.incubationTime == ms && r.mirror.cookTime == m.cookTime
  {
  }

  /**
   * The label the app shows agrees with the firmware's phase: cooking while
   * the firmware cooks, cooling once cooking has been cleared and cooling
   * set, incubating while the firmware incubates.
   */
  lemma LabelMatchesPhase(s: Bitset)
    ensures CookingPhase(s) ==> LabelOf(StatusOptions(s)) == Cooking
    ensures IncubatingPhase(s) ==> LabelOf(StatusOptions(s)) == Incubating
    ensures !Test(s, STATUS_COOKING) && Test(s, STATUS_COOLING) ==> LabelOf(StatusOptions(s)) == Cooling
    ensures !Test(s, STATUS_COOKING) && !Test(s, STATUS_COOLING) && !Test(s, STATUS_INCUBATING) ==> LabelOf(StatusOptions(s)) == Idle
  {
    FlagsAgree(s);
  }

  /** The status the app writes when started from idle puts the firmware in its cooking phase. */
  method StartScenario(vc: ViewController, c: Characteristic, fw: Controller)
    requires vc.statusCh == Some(c) && vc.device.Some? && vc.status == StatusOptions(0)
    modifies vc, fw
    ensures fw.status == 0x03 && CookingPhase(fw.status)
  {
    var written := |vc.requests|;
    var trapped := vc.ToggleDevice();
    fw.OnStatusWrite(vc.requests[written].payload);
  }

  /**
   * A whole run of the firmware: it cooks until the cook timer runs out,
   * cools, and stops in incubating with running cleared, announcing each
   * change of status.
   */
  method FirmwareRunScenario()
  {
    var fw := new Controller();
    fw.OnStatusWrite([0x03]);

    // first pass: no time has passed
    fw.Loop(1000);
    assert fw.status == 0x03 && fw.cookMsRemaining == INITIAL_COOK_MS;

    // the whole cook time passes: cooking ends and cooling is announced
    fw.Loop(1000 + INITIAL_COOK_MS);
    assert fw.status == 0x05 && fw.cookMsRemaining == 0;
    assert fw.notes[|fw.notes| - 1] == Notify(STATUS_UUID, StatusValue(0x05));

    // the next pass finds the target temperature: incubating, with running cleared
    fw.Loop(2000 + INITIAL_COOK_MS);
    assert fw.status == 0x08;
    assert fw.notes[|fw.notes| - 1] == Notify(STATUS_UUID, StatusValue(0x08));
  }

  /**
   * The app following those announcements on its bound status
   * characteristic: "Cooling" with the timer blanked, then "Incubating"
   * with "play" and the alert.
   */
  method AppFollowsRunScenario(vc: ViewController, c: Characteristic)
    requires vc.statusCh == Some(c)
    modifies vc
  {
    var before := vc.requests;
    var trapped := vc.DidUpdateValue(c, Payload(StatusValue(0x05)));
    assert LabelOf(StatusOptions(0x05)) == Cooling;
    assert vc.statusText == Some(Cooling) && vc.timerText == None && vc.requests == before;
    assert LabelOf(StatusOptions(0x08)) == Incubating && StatusOptions(0x08).Contains(INCUBATING);
    trapped := vc.DidUpdateValue(c, Payload(StatusValue(0x08)));
    assert vc.statusText == Some(Incubating) && !vc.showsPause;
    assert vc.requests == before + [IncubationAlert];
  }
}
