/** Counters of the app are C unsigned integers: they wrap. */
module Wrapping {
  import opened Types

  function Inc16(x: uint16): uint16 { if x == 0xFFFF then 0 else x + 1 }

  function Inc8(x: uint8): uint8 { if x == 0xFF then 0 else x + 1 }

  /** What a 16-bit counter shows after x increments from 0. */
  function Wrap16(x: nat): uint16 { if x <= 0xFFFF then x else Wrap16(x - 0x1_0000) }

  /** What an 8-bit counter shows after x increments from 0. */
  function Wrap8(x: nat): uint8 { if x <= 0xFF then x else Wrap8(x - 0x100) }

  lemma {:induction false} Wrap16IsMod(x: nat)
    ensures Wrap16(x) == x % 0x1_0000
  {
    if x <= 0xFFFF {
    } else {
      Wrap16IsMod(x - 0x1_0000);
      assert x % 0x1_0000 == (x - 0x1_0000) % 0x1_0000;
    }
  }

  lemma {:induction false} Wrap8IsMod(x: nat)
    ensures Wrap8(x) == x % 0x100
  {
    if x <= 0xFF {
    } else {
      Wrap8IsMod(x - 0x100);
      assert x % 0x100 == (x - 0x100) % 0x100;
    }
  }

  lemma {:induction false} WrapInc(x: nat)
    ensures Wrap16(x + 1) == Inc16(Wrap16(x))
    ensures Wrap8(x + 1) == Inc8(Wrap8(x))
    decreases x
  {
    if x <= 0xFFFF {
    } else {
      WrapInc(x - 0x1_0000);
    }
    if x <= 0xFF {
    } else {
      WrapInc(x - 0x100);
    }
  }

  /** Adding to a wrapped counter is adding to what it counts. */
  lemma {:induction false} WrapAdd(c: uint16, x: nat)
    ensures Wrap16(c + x) == if c + Wrap16(x) <= 0xFFFF then c + Wrap16(x) else c + Wrap16(x) - 0x1_0000
  {
    if x <= 0xFFFF {
    } else {
      WrapAdd(c, x - 0x1_0000);
    }
  }
}
