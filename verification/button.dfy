/** The four push buttons on GPIO port E (`button_getButton`). The pins
    are active low: a pressed button reads as a cleared bit, button 1 on
    bit 3 down to button 4 on bit 0. */
module Button {
  import opened Ints

  /** The bit of `GPIO_PORTE_DATA_R` wired to button b. */
  function Mask(b: nat): bv32
    requires 1 <= b <= 4
  {
    match b
    case 1 => 0x8
    case 2 => 0x4
    case 3 => 0x2
    case _ => 0x1
  }

  predicate Pressed(port: bv32, b: nat)
    requires 1 <= b <= 4
  {
    port & Mask(b) == 0
  }

  /** `button_getButton`: the lowest-numbered pressed button, checked in
      order 1 to 4, or 0 when none is pressed. */
  function GetButton(port: bv32): (r: byte)
    ensures r <= 4
    ensures r == 0 <==> forall b :: 1 <= b <= 4 ==> !Pressed(port, b)
    ensures r != 0 ==> Pressed(port, r) && forall b :: 1 <= b < r ==> !Pressed(port, b)
  {
    EachOfFour(port);
    if port & 0x8 == 0 then 1
    else if port & 0x4 == 0 then 2
    else if port & 0x2 == 0 then 3
    else if port & 0x1 == 0 then 4
    else 0
  }

  /** "No button pressed" spelled out for the four buttons. */
  lemma EachOfFour(port: bv32)
    ensures (forall b :: 1 <= b <= 4 ==> !Pressed(port, b))
            <==> !Pressed(port, 1) && !Pressed(port, 2) && !Pressed(port, 3) && !Pressed(port, 4)
  {
    if !Pressed(port, 1) && !Pressed(port, 2) && !Pressed(port, 3) && !Pressed(port, 4) {
      forall b | 1 <= b <= 4
        ensures !Pressed(port, b)
      {
        assert b == 1 || b == 2 || b == 3 || b == 4;
      }
    }
  }

  /** No button is reported exactly when all four button pins read high. */
  lemma NoneOfFour(port: bv32)
    ensures GetButton(port) == 0 <==> port & 0xF == 0xF
  {
  }

  /** Only the four button pins are read. */
  lemma OnlyButtonPinsRead(port: bv32)
    ensures GetButton(port) == GetButton(port & 0xF)
    ensures GetButton(port) == GetButton(port | 0xFFFF_FFF0)
  {
  }

  /** With several buttons held, the leftmost one (button 1 the leftmost)
      is reported, so button 4 is reported only when held alone. */
  lemma LeftmostWins(port: bv32)
    ensures GetButton(port) == 4 <==> port & 0xF == 0xE
  {
  }
}
