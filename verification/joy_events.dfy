/** The joystick events the Wii driver reports to SDL, and the change
    detection shared by its GameCube and Wii update handlers: hats composed
    from d-pad bits, one button event per changed mask, one axis event per
    changed reading. */
module JoyEvents {
  import opened Ints

  /** SDL's hat bits. */
  const HatCentered: bv8 := 0x00
  const HatUp: bv8 := 0x01
  const HatRight: bv8 := 0x02
  const HatDown: bv8 := 0x04
  const HatLeft: bv8 := 0x08

  /** SDL_PrivateJoystickHat / Button / Axis; `pressed` is SDL_PRESSED. */
  datatype Event =
    | HatEvent(hat: nat, direction: bv8)
    | ButtonEvent(button: nat, pressed: bool)
    | AxisEvent(axis: nat, value: s16)

  /** The hat value built by OR-ing in one bit per held direction. */
  function HatValue(up: bool, down: bool, left: bool, right: bool): (h: bv8)
    ensures h < 0x10
  {
    HatCentered
    | (if up then HatUp else 0)
    | (if down then HatDown else 0)
    | (if left then HatLeft else 0)
    | (if right then HatRight else 0)
  }

  /** Each direction is read back from its own bit, and only a hat with no
      direction held is centred. */
  lemma HatValueBits(up: bool, down: bool, left: bool, right: bool)
    ensures var h := HatValue(up, down, left, right);
      && (h & HatUp != 0) == up
      && (h & HatDown != 0) == down
      && (h & HatLeft != 0) == left
      && (h & HatRight != 0) == right
      && (h == HatCentered <==> !up && !down && !left && !right)
  {
  }

  /** Which buttons the Wii handler skips for the attached expansion. */
  datatype ButtonFilter = AllButtons | SkipNunchuk | SkipClassic

  /** wii_button_is_nunchuk: Z and C sit at positions 7 and 8 of the Wii
      button table, after the remote's own buttons and before the classic
      controller's. */
  function IsNunchukButton(i: int): (b: bool)
    ensures b <==> 7 <= i < 9
  {
    i == 7 || i == 8
  }

  /** wii_button_is_classic: the classic controller's buttons start at
      position 9, so no position counts as both a nunchuk and a classic button,
      although the two share scan codes. */
  function IsClassicButton(i: int): (b: bool)
    ensures b ==> !IsNunchukButton(i)
  {
    i >= 9
  }

  predicate Skipped(f: ButtonFilter, i: int) {
    || (f == SkipNunchuk && IsNunchukButton(i))
    || (f == SkipClassic && IsClassicButton(i))
  }

  /** The word has some bit of the mask set. */
  predicate Hits(word: bv32, mask: bv32) {
    word & mask != 0
  }

  /** A 16-bit button word (the PAD library's `u16`), kept zero-extended so
      both controllers share one width. */
  type Bits16 = x: bv32 | x < 0x1_0000

  /** The button loop from position `from` on: for each unskipped mask that the
      changed bits touch, a button event saying whether the mask is held. */
  function ButtonEvents(masks: seq<bv32>, changed: bv32, held: bv32, filter: ButtonFilter, from: nat): (es: seq<Event>)
    requires from <= |masks|
    ensures forall e :: e in es ==> e.ButtonEvent? && from <= e.button < |masks| && !Skipped(filter, e.button)
    decreases |masks| - from
  {
    if from == |masks| then []
    else
      var rest := ButtonEvents(masks, changed, held, filter, from + 1);
      if !Skipped(filter, from) && Hits(changed, masks[from]) then
        [ButtonEvent(from, Hits(held, masks[from]))] + rest
      else
        rest
  }

  /** Button `k` is reported, with state `pressed`, exactly when it is not
      skipped, the changed bits touch its mask, and `pressed` says whether the
      held bits do. */
  lemma {:induction false} ButtonEventsExact(masks: seq<bv32>, changed: bv32, held: bv32, filter: ButtonFilter,
                                             from: nat, k: nat, pressed: bool)
    requires from <= k < |masks|
    ensures ButtonEvent(k, pressed) in ButtonEvents(masks, changed, held, filter, from)
        <==> !Skipped(filter, k) && Hits(changed, masks[k]) && pressed == Hits(held, masks[k])
    decreases |masks| - from
  {
    if from < k {
      ButtonEventsExact(masks, changed, held, filter, from + 1, k, pressed);
    } else {
      var rest := ButtonEvents(masks, changed, held, filter, from + 1);
      assert ButtonEvent(k, pressed) !in rest;
    }
  }

  /** With no changed bit the loop reports nothing. */
  lemma {:induction false} ButtonEventsQuiet(masks: seq<bv32>, held: bv32, filter: ButtonFilter, from: nat)
    requires from <= |masks|
    ensures ButtonEvents(masks, 0, held, filter, from) == []
    decreases |masks| - from
  {
    if from < |masks| {
      assert !Hits(0, masks[from]);
      ButtonEventsQuiet(masks, held, filter, from + 1);
    }
  }

  predicate ButtonsIncreasing(es: seq<Event>) {
    forall a, b :: 0 <= a < b < |es| ==> es[a].ButtonEvent? && es[b].ButtonEvent? && es[a].button < es[b].button
  }

  /** The loop reports buttons in increasing order, each at most once. */
  lemma {:induction false} ButtonEventsOrdered(masks: seq<bv32>, changed: bv32, held: bv32, filter: ButtonFilter, from: nat)
    requires from <= |masks|
    ensures ButtonsIncreasing(ButtonEvents(masks, changed, held, filter, from))
    decreases |masks| - from
  {
    if from < |masks| {
      ButtonEventsOrdered(masks, changed, held, filter, from + 1);
      var rest := ButtonEvents(masks, changed, held, filter, from + 1);
      assert forall b :: 0 <= b < |rest| ==> rest[b] in rest;
      if !Skipped(filter, from) && Hits(changed, masks[from]) {
        var es := [ButtonEvent(from, Hits(held, masks[from]))] + rest;
        forall a, b | 0 <= a < b < |es| ensures es[a].ButtonEvent? && es[b].ButtonEvent? && es[a].button < es[b].button {
          assert es[b] == rest[b - 1];
          assert rest[b - 1] in rest;
          if a > 0 {
            assert es[a] == rest[a - 1];
            assert rest[a - 1].button < rest[b - 1].button;
          } else {
            assert es[a].button == from;
          }
        }
        assert ButtonEvents(masks, changed, held, filter, from) == es;
      }
    }
  }

  /** An axis event for `axis` exactly when the stored reading differs from the new one. */
  function AxisIfChanged(axis: nat, stored: int, reading: int, value: s16): (es: seq<Event>)
    ensures |es| <= 1
    ensures es != [] <==> stored != reading
    ensures forall e :: e in es ==> e == AxisEvent(axis, value)
  {
    if stored != reading then [AxisEvent(axis, value)] else []
  }

  /** Where an event is reported: the hat, the buttons, or one axis. */
  datatype Channel = Hats | Buttons | Axis(axis: nat)

  predicate On(e: Event, c: Channel) {
    match c
    case Hats => e.HatEvent?
    case Buttons => e.ButtonEvent?
    case Axis(k) => e.AxisEvent? && e.axis == k
  }

  /** The events a sequence reports on one channel, in order. */
  function Select(es: seq<Event>, c: Channel): (r: seq<Event>)
    ensures forall e :: e in r ==> e in es && On(e, c)
    ensures |r| <= |es|
  {
    if es == [] then []
    else (if On(es[0], c) then [es[0]] else []) + Select(es[1..], c)
  }

  /** An event is selected exactly when it occurs in the sequence and lies on the channel. */
  lemma {:induction false} SelectMember(es: seq<Event>, c: Channel, e: Event)
    ensures e in Select(es, c) <==> e in es && On(e, c)
  {
    if es != [] {
      SelectMember(es[1..], c, e);
      assert es == [es[0]] + es[1..];
    }
  }

  /** The channel an event is reported on. */
  function ChannelOf(e: Event): (c: Channel)
    ensures On(e, c)
    ensures forall d :: On(e, d) ==> d == c
  {
    match e
    case HatEvent(_, _) => Hats
    case ButtonEvent(_, _) => Buttons
    case AxisEvent(k, _) => Axis(k)
  }

  /** A sequence silent on every channel is empty. */
  lemma SilentEverywhere(es: seq<Event>)
    requires Select(es, Hats) == [] && Select(es, Buttons) == []
    requires forall k: nat :: Select(es, Axis(k)) == []
    ensures es == []
  {
    if es != [] {
      var c := ChannelOf(es[0]);
      assert false;
    }
  }

  lemma {:induction false} SelectAppend(a: seq<Event>, b: seq<Event>, c: Channel)
    ensures Select(a + b, c) == Select(a, c) + Select(b, c)
  {
    if a != [] {
      assert (a + b)[0] == a[0] && (a + b)[1..] == a[1..] + b;
      SelectAppend(a[1..], b, c);
      var h := if On(a[0], c) then [a[0]] else [];
      assert Select(a + b, c) == h + (Select(a[1..], c) + Select(b, c));
      assert Select(a, c) == h + Select(a[1..], c);
    } else {
      assert a + b == b;
    }
  }

  lemma SelectAppend3(a: seq<Event>, b: seq<Event>, d: seq<Event>, c: Channel)
    ensures Select(a + b + d, c) == Select(a, c) + Select(b, c) + Select(d, c)
  {
    SelectAppend(a, b, c);
    SelectAppend(a + b, d, c);
  }

  lemma SelectAppend4(a: seq<Event>, b: seq<Event>, d: seq<Event>, f: seq<Event>, c: Channel)
    ensures Select(a + b + d + f, c) == Select(a, c) + Select(b, c) + Select(d, c) + Select(f, c)
  {
    SelectAppend3(a, b, d, c);
    SelectAppend(a + b + d, f, c);
  }

  /** A sequence with nothing on the channel selects nothing; one with only
      that channel's events selects itself. */
  lemma {:induction false} SelectNone(es: seq<Event>, c: Channel)
    requires forall e :: e in es ==> !On(e, c)
    ensures Select(es, c) == []
  {
    if es != [] {
      assert es[0] in es;
      SelectNone(es[1..], c);
    }
  }

  lemma {:induction false} SelectAll(es: seq<Event>, c: Channel)
    requires forall e :: e in es ==> On(e, c)
    ensures Select(es, c) == es
  {
    if es != [] {
      assert es[0] in es;
      SelectAll(es[1..], c);
      assert es == [es[0]] + es[1..];
    }
  }

  /** AxisIfChanged reports on its own axis only. */
  lemma SelectAxisIfChanged(axis: nat, stored: int, reading: int, value: s16, k: nat)
    ensures Select(AxisIfChanged(axis, stored, reading, value), Axis(k))
         == if k == axis then AxisIfChanged(axis, stored, reading, value) else []
  {
  }

  /** One stored reading compared against a new one, and the value an event for it would carry. */
  datatype AxisUpdate = AxisUpdate(axis: nat, stored: int, reading: int, value: s16)

  /** The axis events of a run of updates, in order. */
  function AxisEvents(us: seq<AxisUpdate>): (es: seq<Event>)
    ensures |es| <= |us|
  {
    if us == [] then []
    else AxisIfChanged(us[0].axis, us[0].stored, us[0].reading, us[0].value) + AxisEvents(us[1..])
  }

  predicate DistinctAxes(us: seq<AxisUpdate>) {
    forall i, j :: 0 <= i < j < |us| ==> us[i].axis != us[j].axis
  }

  /** With distinct axes, each update's axis carries exactly the event its own
      comparison produces. */
  lemma {:induction false} SelectAxisEvents(us: seq<AxisUpdate>, i: nat)
    requires DistinctAxes(us) && i < |us|
    ensures Select(AxisEvents(us), Axis(us[i].axis))
         == AxisIfChanged(us[i].axis, us[i].stored, us[i].reading, us[i].value)
  {
    var u := us[0];
    var head := AxisIfChanged(u.axis, u.stored, u.reading, u.value);
    SelectAppend(head, AxisEvents(us[1..]), Axis(us[i].axis));
    SelectAxisIfChanged(u.axis, u.stored, u.reading, u.value, us[i].axis);
    if i == 0 {
      SelectAxisAbsent(us[1..], u.axis);
    } else {
      SelectAxisEvents(us[1..], i - 1);
    }
  }

  /** An axis no update names gets no event. */
  lemma {:induction false} SelectAxisAbsent(us: seq<AxisUpdate>, axis: nat)
    requires forall j :: 0 <= j < |us| ==> us[j].axis != axis
    ensures Select(AxisEvents(us), Axis(axis)) == []
  {
    if us != [] {
      var u := us[0];
      SelectAppend(AxisIfChanged(u.axis, u.stored, u.reading, u.value), AxisEvents(us[1..]), Axis(axis));
      SelectAxisIfChanged(u.axis, u.stored, u.reading, u.value, axis);
      SelectAxisAbsent(us[1..], axis);
    }
  }

  /** Every event of a run is an axis event for an axis in the updates' range. */
  lemma {:induction false} AxisEventsWithin(us: seq<AxisUpdate>, lo: nat, hi: nat)
    requires forall j :: 0 <= j < |us| ==> lo <= us[j].axis <= hi
    ensures forall e :: e in AxisEvents(us) ==> e.AxisEvent? && lo <= e.axis <= hi
  {
    if us != [] {
      AxisEventsWithin(us[1..], lo, hi);
    }
  }

  /** Hat events, then button events, then axis events: each channel selects its own part. */
  lemma SelectParts(hat: seq<Event>, buttons: seq<Event>, axes: seq<Event>)
    requires forall e :: e in hat ==> e.HatEvent?
    requires forall e :: e in buttons ==> e.ButtonEvent?
    requires forall e :: e in axes ==> e.AxisEvent?
    ensures Select(hat + buttons + axes, Hats) == hat
    ensures Select(hat + buttons + axes, Buttons) == buttons
    ensures forall k: nat :: Select(hat + buttons + axes, Axis(k)) == Select(axes, Axis(k))
  {
    SelectAppend3(hat, buttons, axes, Hats);
    SelectAll(hat, Hats);
    SelectNone(buttons, Hats);
    SelectNone(axes, Hats);
    SelectAppend3(hat, buttons, axes, Buttons);
    SelectNone(hat, Buttons);
    SelectAll(buttons, Buttons);
    SelectNone(axes, Buttons);
    forall k: nat ensures Select(hat + buttons + axes, Axis(k)) == Select(axes, Axis(k)) {
      SelectAppend3(hat, buttons, axes, Axis(k));
      SelectNone(hat, Axis(k));
      SelectNone(buttons, Axis(k));
    }
  }
}
