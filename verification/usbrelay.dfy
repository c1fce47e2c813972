/**
  The constants shared by the relay tool and the kernel driver: the channel
  range, the fixed channel-to-bit mapping and the mask of meaningful bits.
*/
module UsbRelay {

  const ProtoVersion: string := "1.1"

  const NumChannels: int := 4
  const MinChannel: int := 1
  const MaxChannel: int := NumChannels

  const DefaultDevice: string := "/dev/usbrelay0"

  /** `(uint8_t)((1U << NumChannels) - 1)`: one bit per channel. */
  const MaskAll: bv8 := ((1 as bv8) << NumChannels) - 1

  predicate ValidChannel(ch: int) {
    MinChannel <= ch <= MaxChannel
  }

  /** `USBRELAY_CH_TO_BIT`: channel n drives bit n-1, so channel 1 is the least significant bit. */
  function ChToBit(ch: int): (bit: bv8)
    requires ValidChannel(ch)
    ensures bit & MaskAll == bit
    ensures bit != 0 && bit & (bit - 1) == 0
  {
    if ch == 1 then 0x01 else if ch == 2 then 0x02 else if ch == 3 then 0x04 else 0x08
  }

  /** The table above is the header's shift, `1 << (n - 1)`. */
  lemma ChToBitIsShift(ch: int)
    requires ValidChannel(ch)
    ensures ChToBit(ch) == (1 as bv8) << (ch - 1)
  {
  }

  /** Whether channel `ch` is on in mask `m`. */
  predicate IsOn(m: bv8, ch: int)
    requires ValidChannel(ch)
  {
    m & ChToBit(ch) != 0
  }

  /** The mask with channel `ch` switched on and every other bit kept. */
  function SwitchOn(m: bv8, ch: int): (r: bv8)
    requires ValidChannel(ch)
    ensures IsOn(r, ch)
    ensures r & !ChToBit(ch) == m & !ChToBit(ch)
    ensures m & !MaskAll == 0 ==> r & !MaskAll == 0
  {
    BitUpdates(m, ChToBit(ch));
    m | ChToBit(ch)
  }

  /** The mask with channel `ch` switched off and every other bit kept. */
  function SwitchOff(m: bv8, ch: int): (r: bv8)
    requires ValidChannel(ch)
    ensures !IsOn(r, ch)
    ensures r & !ChToBit(ch) == m & !ChToBit(ch)
    ensures m & !MaskAll == 0 ==> r & !MaskAll == 0
  {
    BitUpdates(m, ChToBit(ch));
    m & !ChToBit(ch)
  }

  /** The mask with channel `ch` switched on or off as `on` says. */
  function WithChannel(m: bv8, ch: int, on: bool): (r: bv8)
    requires ValidChannel(ch)
    ensures IsOn(r, ch) == on
    ensures r & !ChToBit(ch) == m & !ChToBit(ch)
    ensures m & !MaskAll == 0 ==> r & !MaskAll == 0
  {
    if on then SwitchOn(m, ch) else SwitchOff(m, ch)
  }

  /** The mask with channel `ch` flipped and every other bit kept. */
  function FlipChannel(m: bv8, ch: int): (r: bv8)
    requires ValidChannel(ch)
    ensures IsOn(r, ch) == !IsOn(m, ch)
    ensures r & !ChToBit(ch) == m & !ChToBit(ch)
    ensures m & !MaskAll == 0 ==> r & !MaskAll == 0
  {
    BitUpdates(m, ChToBit(ch));
    m ^ ChToBit(ch)
  }

  /** Setting, clearing or flipping one bit inside `MaskAll`: what happens to that bit and to the rest. */
  lemma BitUpdates(m: bv8, bit: bv8)
    requires bit != 0 && bit & (bit - 1) == 0 && bit & MaskAll == bit
    ensures (m | bit) & bit != 0 && (m & !bit) & bit == 0
    ensures ((m ^ bit) & bit != 0) == !(m & bit != 0)
    ensures (m | bit) & !bit == m & !bit && (m & !bit) & !bit == m & !bit && (m ^ bit) & !bit == m & !bit
    ensures m & !MaskAll == 0 ==> (m | bit) & !MaskAll == 0 && (m & !bit) & !MaskAll == 0 && (m ^ bit) & !MaskAll == 0
  {
  }

  /** Two masks equal outside a single bit and agreeing on that bit are equal. */
  lemma EqualByBit(a: bv8, b: bv8, bit: bv8)
    requires bit & (bit - 1) == 0
    requires a & !bit == b & !bit && (a & bit != 0) == (b & bit != 0)
    ensures a == b
  {
  }

  /** Two masks that differ at most in channel `ch`'s bit agree on every other channel. */
  lemma OnlyBitChanges(m: bv8, r: bv8, ch: int)
    requires ValidChannel(ch)
    requires r & !ChToBit(ch) == m & !ChToBit(ch)
    ensures forall c | ValidChannel(c) && c != ch :: IsOn(r, c) == IsOn(m, c)
  {
    forall c | ValidChannel(c) && c != ch
      ensures IsOn(r, c) == IsOn(m, c)
    {
      ChannelBitsDisjoint(c, ch);
      assert m & ChToBit(c) == (m & !ChToBit(ch)) & ChToBit(c);
      assert r & ChToBit(c) == (r & !ChToBit(ch)) & ChToBit(c);
    }
  }

  lemma MaskAllIsLowNibble()
    ensures MaskAll == 0x0F
  {
  }

  lemma ValidChannelsAreOneToFour(ch: int)
    ensures ValidChannel(ch) <==> ch in {1, 2, 3, 4}
  {
  }

  /** The channel bits are pairwise distinct and do not overlap. */
  lemma ChannelBitsDisjoint(a: int, b: int)
    requires ValidChannel(a) && ValidChannel(b) && a != b
    ensures ChToBit(a) & ChToBit(b) == 0
    ensures ChToBit(a) != ChToBit(b)
  {
  }

  lemma ChannelBitValues()
    ensures ChToBit(1) == 0x01 && ChToBit(2) == 0x02 && ChToBit(3) == 0x04 && ChToBit(4) == 0x08
  {
  }

  /**
    A mask inside `MaskAll` is determined by the on/off state of the four
    channels: two such masks that agree on every channel are equal.
  */
  lemma MaskDeterminedByChannels(m: bv8, n: bv8)
    requires m & MaskAll == m && n & MaskAll == n
    requires forall ch | ValidChannel(ch) :: IsOn(m, ch) == IsOn(n, ch)
    ensures m == n
  {
    assert IsOn(m, 1) == IsOn(n, 1);
    assert IsOn(m, 2) == IsOn(n, 2);
    assert IsOn(m, 3) == IsOn(n, 3);
    assert IsOn(m, 4) == IsOn(n, 4);
  }
}
