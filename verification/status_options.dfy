// The app's view of the status byte: an option set of four named flags and
// the rules the app derives from it (the toggle command with its cooking
// default, the displayed label, the play/pause button).
module StatusFlags {
  import opened Wire

  const RUNNING: StatusBits := 1 << 0
  const COOKING: StatusBits := 1 << 1
  const COOLING: StatusBits := 1 << 2
  const INCUBATING: StatusBits := 1 << 3

  /** An 8-bit option set; any bit pattern is a value, named or not. */
  datatype StatusOptions = StatusOptions(rawValue: StatusBits) {

    predicate Contains(flag: StatusBits) {
      rawValue & flag == flag
    }

    function Insert(flag: StatusBits): StatusOptions {
      StatusOptions(rawValue | flag)
    }

    function Subtracting(flag: StatusBits): StatusOptions {
      StatusOptions(rawValue & !flag)
    }

    /** The mutating `remove`, as the value it leaves behind. */
    function Remove(flag: StatusBits): StatusOptions {
      Subtracting(flag)
    }

    predicate IsEmpty() {
      rawValue == 0
    }
  }

  /** The four flags occupy bits 0 to 3, one bit each. */
  lemma FlagBits()
    ensures RUNNING == 0x01 && COOKING == 0x02 && COOLING == 0x04 && INCUBATING == 0x08
    ensures forall s: StatusOptions :: s.Contains(RUNNING) <==> s.rawValue & 1 != 0
    ensures forall s: StatusOptions :: s.Contains(COOKING) <==> (s.rawValue >> 1) & 1 != 0
    ensures forall s: StatusOptions :: s.Contains(COOLING) <==> (s.rawValue >> 2) & 1 != 0
    ensures forall s: StatusOptions :: s.Contains(INCUBATING) <==> (s.rawValue >> 3) & 1 != 0
  {
  }

  /** The toggle command: flips the running flag and nothing else. */
  function Toggled(s: StatusOptions): (r: StatusOptions)
    ensures r.rawValue ^ s.rawValue == RUNNING
    ensures r.Contains(RUNNING) <==> !s.Contains(RUNNING)
  {
    if s.Contains(RUNNING) then s.Remove(RUNNING) else s.Insert(RUNNING)
  }

  /**
   * Applied before the status is written: a status that is running and
   * nothing else also gets the cooking flag; every other status is kept.
   */
  function WithCookingDefault(s: StatusOptions): (r: StatusOptions)
    ensures s.rawValue == RUNNING ==> r.rawValue == RUNNING | COOKING
    ensures s.rawValue != RUNNING ==> r == s
  {
    if s.Contains(RUNNING) && s.Subtracting(RUNNING).IsEmpty() then s.Insert(COOKING) else s
  }

  /** From an empty status, one toggle asks the device for 0b00000011. */
  lemma ToggleFromIdle()
    ensures WithCookingDefault(Toggled(StatusOptions(0))).rawValue == 0x03
  {
  }

  /** The text of the status label. */
  datatype Label = Cooking | Cooling | Incubating | Idle

  /** The label shown for a status, by priority cooking, cooling, incubating, idle. */
  function LabelOf(s: StatusOptions): (l: Label)
    ensures l == Cooking <==> s.Contains(COOKING)
    ensures l == Cooling <==> !s.Contains(COOKING) && s.Contains(COOLING)
    ensures l == Incubating <==> !s.Contains(COOKING) && !s.Contains(COOLING) && s.Contains(INCUBATING)
    ensures l == Idle <==> !s.Contains(COOKING) && !s.Contains(COOLING) && !s.Contains(INCUBATING)
  {
    if s.Contains(COOKING) then Cooking
    else if s.Contains(COOLING) then Cooling
    else if s.Contains(INCUBATING) then Incubating
    else Idle
  }

  /** Whether refreshing the label also blanks the timer text. */
  predicate ClearsTimer(l: Label)
  {
    l == Cooling || l == Idle
  }

  /** The timer is blanked exactly when neither cooking nor incubating, or when cooling outranks incubating. */
  lemma ClearsTimerExactly(s: StatusOptions)
    ensures ClearsTimer(LabelOf(s)) <==> !s.Contains(COOKING) && (s.Contains(COOLING) || !s.Contains(INCUBATING))
  {
  }

  /** The action button shows "pause" exactly while running, "play" otherwise. */
  predicate ShowsPause(s: StatusOptions)
  {
    s.Contains(RUNNING)
  }
}
