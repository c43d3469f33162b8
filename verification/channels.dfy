/** The hard-coded channel allow-list that gates both event handlers. */
module Channels {

  /** Discord snowflake identifiers are C# `ulong` values. */
  newtype u64 = x: int | 0 <= x < 0x1_0000_0000_0000_0000

  /** The three channels the bot serves, fixed at build time. */
  const AllowedChannels: seq<u64> := [1259895562984226908, 1259848043092770928, 678077350231015437]

  /** `List<ulong>.Contains`: the channel is one of the allow-listed ones. */
  predicate IsAllowed(id: u64)
  {
    id in AllowedChannels
  }

  /** The allow-list holds exactly three distinct channels, and a channel is
      served exactly when its id is one of those three numbers. */
  lemma AllowListExact(id: u64)
    ensures |AllowedChannels| == 3
    ensures forall i, j :: 0 <= i < j < |AllowedChannels| ==> AllowedChannels[i] != AllowedChannels[j]
    ensures IsAllowed(id) <==>
      id == 1259895562984226908 || id == 1259848043092770928 || id == 678077350231015437
  {
  }
}
