/** Tuners and the card reader sharing the power of one board. */
module BoardPower {
  /** Every method is one section under the device lock. `powers` and `starts` say
      whether switching on and initialising succeed, `drops` whether switching off
      does, of which the driver takes no notice. */
  class Board {
    var available: bool     // the device is plugged in
    var tuners: nat         // open tuners
    var cardRef: bool       // the device's record of the card's reference
    var card: bool          // the card layer's own record
    ghost var powered: bool // what the board really is
    ghost var stuck: bool   // the last command was to switch off, and failed

    predicate Used()
      reads this
    {
      tuners > 0 || cardRef
    }

    /** While the device is there, a board in use is powered, and one that is not in
        use is powered only if switching it off failed; both layers always agree
        about the card. */
    ghost predicate Valid()
      reads this
    {
      && card == cardRef
      && (available ==> (Used() ==> powered) && (!Used() ==> powered == stuck))
    }

    constructor ()
      ensures Valid() && available && tuners == 0 && !card && !powered && !stuck
    {
      available, tuners, cardRef, card, powered, stuck := true, 0, false, false, false, false;
    }

    method SwitchOn(powers: bool) returns (ok: bool)
      modifies this`powered, this`stuck
      ensures ok == powers
      ensures powered == (ok || old(powered)) && stuck == (!ok && old(stuck))
    {
      if powers { powered, stuck := true, false; }
      ok := powers;
    }

    /** Without a device there is nothing to switch. */
    method SwitchOff(drops: bool)
      modifies this`powered, this`stuck
      ensures powered == (old(powered) && !(available && drops))
      ensures stuck == if available then old(powered) && !drops else old(stuck)
    {
      if available {
        stuck := powered && !drops;
        powered := stuck;
      }
    }

    method OpenTuner(powers: bool, starts: bool, drops: bool) returns (ok: bool)
      requires Valid()
      modifies this`powered, this`stuck, this`tuners
      ensures Valid()
      ensures ok <==> starts && (old(tuners) > 0 || cardRef || powers)
      ensures tuners == old(tuners) + (if ok then 1 else 0)
      ensures drops && !old(stuck) ==> !stuck
    {
      if tuners == 0 && !cardRef {
        ok := SwitchOn(powers);
        if !ok { return; }
      }
      if !starts {
        if tuners == 0 && !cardRef { SwitchOff(drops); }
        return false;
      }
      tuners := tuners + 1;
      ok := true;
    }

    method ReleaseTuner(drops: bool) returns (ok: bool)
      requires Valid()
      modifies this`powered, this`stuck, this`tuners
      ensures Valid()
      ensures ok == (old(tuners) > 0) && tuners == old(tuners) - (if ok then 1 else 0)
      ensures drops && !old(stuck) ==> !stuck
    {
      if tuners == 0 { return false; }
      tuners := tuners - 1;
      if tuners == 0 && !cardRef { SwitchOff(drops); }
      ok := true;
    }

    /** The device's part: a tuner in use already keeps the board powered. */
    method Reference(on: bool, powers: bool, drops: bool) returns (ok: bool)
      modifies this`powered, this`stuck, this`cardRef
      ensures ok == (tuners > 0 || !on || powers)
      ensures cardRef == (if on then old(cardRef) || ok else false)
      ensures tuners > 0 ==> powered == old(powered) && stuck == old(stuck)
      ensures tuners == 0 && on ==> powered == (ok || old(powered)) && stuck == (!ok && old(stuck))
      ensures tuners == 0 && !on ==>
                && powered == (old(powered) && !(available && drops))
                && stuck == if available then old(powered) && !drops else old(stuck)
    {
      ok := true;
      if tuners == 0 {
        if on { ok := SwitchOn(powers); } else { SwitchOff(drops); }
      }
      if !on || ok { cardRef := on; }
    }

    /** The card layer's part: a card that does not start gives its reference back. */
    method SetCardPower(on: bool, powers: bool, starts: bool, drops: bool) returns (ok: bool)
      requires Valid()
      modifies this`powered, this`stuck, this`cardRef, this`card
      ensures Valid()
      ensures ok <==> old(card) == on || !on || (starts && (tuners > 0 || powers))
      ensures card == if ok then on else old(card)
      ensures drops && !old(stuck) ==> !stuck
    {
      if card == on { return true; }
      if !on {
        card := false;
        ok := Reference(false, powers, drops);
        return;
      }
      ok := Reference(true, powers, drops);
      if !ok { return; }
      if !starts {
        var _ := Reference(false, powers, drops);
        return false;
      }
      card := true;
    }

    method Unplug()
      requires Valid()
      modifies this`available
      ensures Valid() && !available
    {
      available := false;
    }
  }
}
