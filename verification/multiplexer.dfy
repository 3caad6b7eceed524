/**
  Channel selection on the TCA9548A I2C multiplexer: a one-hot mask written
  to the multiplexer's fixed bus address. The mask is looked up in a table of
  eight entries with Python list indexing, so a negative channel counts from
  the end of the table and any other channel outside the table raises
  IndexError.
*/
module Multiplexer {
  import opened Actions

  /** Fixed by the TCA9548A hardware. */
  const Address: nat := 0x70

  /** Number of downstream buses the multiplexer can select. */
  const ChannelCount: nat := 8

  const ChannelMasks: seq<nat> := [0x01, 0x02, 0x04, 0x08, 0x10, 0x20, 0x40, 0x80]

  function Pow2(k: nat): (p: nat)
    ensures p >= 1
  {
    if k == 0 then 1 else 2 * Pow2(k - 1)
  }

  /** Bit `b` of `m`. */
  predicate HasBit(m: nat, b: nat) {
    if b == 0 then m % 2 == 1 else HasBit(m / 2, b - 1)
  }

  lemma {:induction false} PowerIsOneHot(c: nat, b: nat)
    ensures HasBit(Pow2(c), b) <==> b == c
  {
    if c == 0 {
      if b > 0 {
        ZeroHasNoBits(b - 1);
      }
    } else if b > 0 {
      assert Pow2(c) / 2 == Pow2(c - 1);
      PowerIsOneHot(c - 1, b - 1);
    }
  }

  lemma {:induction false} ZeroHasNoBits(b: nat)
    ensures !HasBit(0, b)
  {
    if b > 0 {
      ZeroHasNoBits(b - 1);
    }
  }

  lemma TableIsPowers(c: nat)
    requires c < ChannelCount
    ensures ChannelMasks[c] == Pow2(c)
  {
    assert Pow2(0) == 1 && Pow2(1) == 2 && Pow2(2) == 4 && Pow2(3) == 8;
    assert Pow2(4) == 16 && Pow2(5) == 32 && Pow2(6) == 64 && Pow2(7) == 128;
  }

  /** `MULTIPLEXER_CHANNEL_ARRAY[channel]`, with Python's indexing rules. */
  function ChannelMask(channel: int): Result<nat> {
    if 0 <= channel < |ChannelMasks| then Ok(ChannelMasks[channel])
    else if -|ChannelMasks| <= channel < 0 then Ok(ChannelMasks[channel + |ChannelMasks|])
    else Err(IndexError(channel))
  }

  /** A channel in the table selects exactly its own bus, a negative channel
      counts from the end of the table, and anything else is an IndexError
      carrying the channel. */
  lemma ChannelMaskSpec(channel: int)
    ensures 0 <= channel < ChannelCount ==>
              ChannelMask(channel) == Ok(Pow2(channel))
              && forall b :: 0 <= b < ChannelCount ==> (HasBit(ChannelMask(channel).value, b) <==> b == channel)
    ensures -(ChannelCount as int) <= channel < 0 ==> ChannelMask(channel) == Ok(Pow2(channel + ChannelCount))
    ensures ChannelMask(channel).Err? <==> channel >= ChannelCount as int || channel < -(ChannelCount as int)
    ensures ChannelMask(channel).Err? ==> ChannelMask(channel).error == IndexError(channel)
  {
    if 0 <= channel < |ChannelMasks| {
      TableIsPowers(channel);
      forall b | 0 <= b < ChannelCount
        ensures HasBit(ChannelMasks[channel], b) <==> b == channel
      {
        PowerIsOneHot(channel, b);
      }
    } else if -|ChannelMasks| <= channel < 0 {
      TableIsPowers(channel + |ChannelMasks|);
    }
  }

  /** `change_multiplexer_channel(channel)`: the bus write it issues. */
  function Select(channel: int): Result<Action> {
    match ChannelMask(channel)
    case Ok(mask) => Ok(MuxWrite(Address, mask))
    case Err(e) => Err(e)
  }

  /** Selecting a channel writes its one-hot mask to the multiplexer's
      address; a channel outside the table fails. */
  lemma SelectSpec(channel: int)
    ensures 0 <= channel < ChannelCount ==> Select(channel) == Ok(MuxWrite(Address, Pow2(channel)))
    ensures Select(channel).Ok? ==> Select(channel).value.MuxWrite? && Select(channel).value.address == 0x70
    ensures Select(channel).Err? <==> channel >= ChannelCount as int || channel < -(ChannelCount as int)
    ensures Select(channel).Err? ==> Select(channel).error == IndexError(channel)
  {
    ChannelMaskSpec(channel);
  }

  /** The channel a mask selects, when it selects exactly one: the inverse of
      `ChannelMask` on channels 0..7. */
  function ChannelOf(mask: nat): Option<nat> {
    if mask == 0x01 then Some(0)
    else if mask == 0x02 then Some(1)
    else if mask == 0x04 then Some(2)
    else if mask == 0x08 then Some(3)
    else if mask == 0x10 then Some(4)
    else if mask == 0x20 then Some(5)
    else if mask == 0x40 then Some(6)
    else if mask == 0x80 then Some(7)
    else None
  }

  lemma MaskRoundTrip(channel: nat)
    requires channel < ChannelCount
    ensures ChannelMask(channel).Ok? && ChannelOf(ChannelMask(channel).value) == Some(channel)
  {
    TableIsPowers(channel);
  }

  lemma ChannelOfSound(mask: nat, channel: nat)
    requires ChannelOf(mask) == Some(channel)
    ensures channel < ChannelCount && ChannelMask(channel) == Ok(mask)
  {
    TableIsPowers(channel);
  }
}
