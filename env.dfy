// The ambient sources the core reads: the wall clock (Date.now(), new Date())
// and the random id suffixes built from Date.now() and Math.random().
module Env {
  import opened Types

  /** A wall clock; its readings are arbitrary and recorded. */
  class Clock {
    var readings: seq<int>

    constructor ()
      ensures readings == []
    {
      readings := [];
    }

    method Now() returns (t: int)
      modifies this
      ensures readings == old(readings) + [t]
    {
      t :| true;
      readings := readings + [t];
    }
  }

  /** `${prefix}${Date.now()}_${random}`: an id with the given prefix and an
      unpredictable, non-empty rest. Nothing makes it fresh. */
  class IdSource {
    var minted: seq<string>

    constructor ()
      ensures minted == []
    {
      minted := [];
    }

    method Mint(prefix: string) returns (id: string)
      modifies this
      ensures HasPrefix(id, prefix) && |id| > |prefix|
      ensures minted == old(minted) + [id]
    {
      var stamp: string :| true;
      var random: string :| true;
      id := prefix + stamp + "_" + random;
      minted := minted + [id];
    }
  }
}
