// The app's five characteristic slots: how discovered characteristics are
// bound to them by identifier, and how an updated characteristic is routed
// back to the slot it fills.
module Channels {
  import opened Wire

  /** A discovered characteristic: an object identity (the handle) and its identifier. */
  datatype Characteristic = Characteristic(handle: nat, uuid: Uuid)

  datatype Channel = StatusCh | CookTimeCh | IncubationTimeCh | TempsCh | ChartsCh

  function UuidOf(k: Channel): Uuid
  {
    match k
    case StatusCh => STATUS_UUID
    case CookTimeCh => COOK_TIME_UUID
    case IncubationTimeCh => INCUBATION_TIME_UUID
    case TempsCh => TEMPS_UUID
    case ChartsCh => CHARTS_UUID
  }

  /** The five optional slots of the view controller, nil until bound. */
  datatype Slots = Slots(
    status: Option<Characteristic>,
    cookTime: Option<Characteristic>,
    incubationTime: Option<Characteristic>,
    temps: Option<Characteristic>,
    charts: Option<Characteristic>)

  const Unbound := Slots(None, None, None, None, None)

  function Get(s: Slots, k: Channel): Option<Characteristic>
  {
    match k
    case StatusCh => s.status
    case CookTimeCh => s.cookTime
    case IncubationTimeCh => s.incubationTime
    case TempsCh => s.temps
    case ChartsCh => s.charts
  }

  /** Every bound slot holds a characteristic carrying that slot's identifier. */
  ghost predicate WellFormed(s: Slots)
  {
    forall k :: Get(s, k).Some? ==> Get(s, k).value.uuid == UuidOf(k)
  }

  /** One arm of the identifier switch: binds the slot the identifier names, if any. */
  function BindOne(s: Slots, c: Characteristic): (r: Slots)
    ensures forall k :: Get(r, k) == if c.uuid == UuidOf(k) then Some(c) else Get(s, k)
  {
    if c.uuid == STATUS_UUID then s.(status := Some(c))
    else if c.uuid == COOK_TIME_UUID then s.(cookTime := Some(c))
    else if c.uuid == INCUBATION_TIME_UUID then s.(incubationTime := Some(c))
    else if c.uuid == TEMPS_UUID then s.(temps := Some(c))
    else if c.uuid == CHARTS_UUID then s.(charts := Some(c))
    else s
  }

  /**
   * The slots after the switch has run over the discovered characteristics
   * in order. Each slot either keeps its value or holds a discovered
   * characteristic with its own identifier; a slot whose identifier was
   * discovered is bound; one whose identifier was not discovered is kept.
   */
  function BindAll(s: Slots, chs: seq<Characteristic>): (r: Slots)
    ensures forall k :: Get(r, k) == Get(s, k) || (Get(r, k).Some? && Get(r, k).value in chs && Get(r, k).value.uuid == UuidOf(k))
    ensures forall k :: (exists c :: c in chs && c.uuid == UuidOf(k)) ==> Get(r, k).Some? && Get(r, k).value in chs && Get(r, k).value.uuid == UuidOf(k)
    ensures WellFormed(s) ==> WellFormed(r)
  {
    if chs == [] then s
    else
      var last := chs[|chs| - 1];
      var prefix := chs[..|chs| - 1];
      assert forall c :: c in chs <==> c in prefix || c == last;
      BindOne(BindAll(s, prefix), last)
  }

  /** The last discovered characteristic with a slot's identifier is the one that slot holds. */
  lemma {:induction false} LastMatchWins(s: Slots, chs: seq<Characteristic>, i: nat, k: Channel)
    requires i < |chs| && chs[i].uuid == UuidOf(k)
    requires forall j :: i < j < |chs| ==> chs[j].uuid != UuidOf(k)
    ensures Get(BindAll(s, chs), k) == Some(chs[i])
  {
    if i < |chs| - 1 {
      var prefix := chs[..|chs| - 1];
      LastMatchWins(s, prefix, i, k);
    }
  }

  /** The channel whose handler receives an update of `c`: the first slot holding it, in switch order; charts has no handler. */
  function Route(s: Slots, c: Characteristic): (r: Option<Channel>)
    ensures r.Some? ==> r.value != ChartsCh && Get(s, r.value) == Some(c)
    ensures r.None? ==> forall k :: k != ChartsCh ==> Get(s, k) != Some(c)
  {
    if s.status == Some(c) then Some(StatusCh)
    else if s.cookTime == Some(c) then Some(CookTimeCh)
    else if s.incubationTime == Some(c) then Some(IncubationTimeCh)
    else if s.temps == Some(c) then Some(TempsCh)
    else None
  }

  /** In well-formed slots, an update of a bound characteristic reaches exactly the handler of its own slot. */
  lemma RouteToOwnSlot(s: Slots, k: Channel, c: Characteristic)
    requires WellFormed(s) && k != ChartsCh && Get(s, k) == Some(c)
    ensures Route(s, c) == Some(k)
  {
    assert UuidOf(k) == c.uuid;
  }
}
