/**
  The channel number allocator as the program runs it, with its fields updated in place.
 */
module ChannelNumberFinder {
  import opened Bits
  import opened ChannelNumbers
  import N = ChannelNumbers

  /** The allocator as the program keeps it. `used` is what the usage query answers while the lock is held. */
  class NumberFinder {
    var lastAllocatedNumber: uint16
    var directionIsDescending: bool
    const mask: uint16
    const outMask: uint16

    constructor (mask: uint16, outMask: uint16)
      ensures View() == Finder(0, false, mask, outMask)
    {
      this.mask, this.outMask := mask, outMask;
      lastAllocatedNumber, directionIsDescending := 0, false;
    }

    ghost function View(): Finder
      reads this
    {
      Finder(lastAllocatedNumber, directionIsDescending, mask, outMask)
    }

    method FindNext(used: set<nat>) returns (result: nat)
      modifies this
      ensures (View(), result) == N.FindNext(old(View()), used)
    {
      var raw := FindNextRaw(used);
      result := BitOr(raw, outMask);
    }

    method FindNextRaw(used: set<nat>) returns (next: uint16)
      modifies this
      ensures (View(), next) == N.FindNextRaw(old(View()), used)
      decreases Rank(View())
    {
      if directionIsDescending {
        if lastAllocatedNumber == 2 {
          OrganiseLowersRank(View(), used);
          Organise(used);
          next := FindNextRaw(used);
          return;
        }
        lastAllocatedNumber := if lastAllocatedNumber == 0 then ONES else lastAllocatedNumber - 1;
        next := lastAllocatedNumber;
      } else {
        if BitOr(lastAllocatedNumber, mask) == ONES {
          OrganiseLowersRank(View(), used);
          Organise(used);
          next := FindNextRaw(used);
          return;
        }
        var nextCandidate := if lastAllocatedNumber == ONES then 0 else lastAllocatedNumber + 1;
        lastAllocatedNumber := nextCandidate;
        next := nextCandidate;
      }
    }

    /** Scans the numbers from 1 until the next one would be the top, which for a top of 0 is a full cycle. */
    method Organise(used: set<nat>)
      modifies this
      ensures View() == N.Organise(old(View()), used)
    {
      var top := ONES - mask;
      var scanning, max, min := 0, 0, top;
      while (if scanning == ONES then 0 else scanning + 1) != top
        invariant 0 <= scanning <= View().ScanEnd()
        invariant View() == old(View())
        invariant max == Highest(View(), used, scanning) && min == Lowest(View(), used, scanning)
        decreases View().ScanEnd() - scanning
      {
        scanning := scanning + 1;
        if BitOr(scanning, outMask) in used {
          if scanning > max {
            max := scanning;
          }
          if scanning < min {
            min := scanning;
          }
        }
      }
      directionIsDescending := !directionIsDescending;
      lastAllocatedNumber := if directionIsDescending then min else max;
    }
  }
}
