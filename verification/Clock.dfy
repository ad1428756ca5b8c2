/** The tick clock: a 32-bit counter of 100 ms periods, deadlines on it, and when a deadline test can be trusted. */
module Clock {
  import opened Words

  const ONE_SECOND: nat := 10

  function GetTmr(varta: u32, tm: u32): u32 { Wrap32(varta + tm) }

  predicate CheckTmr(varta: u32, tm: u32) { varta >= tm }

  class Clock {
    var varta: u32

    constructor ()
      ensures varta == 0
    {
      varta := 0;
    }

    method PeriodicTimerCallback()
      modifies this
      ensures varta == Wrap32(old(varta) + 1)
    {
      varta := if varta == 0xFFFF_FFFF then 0 else varta + 1;
    }

    method Get(tm: u32) returns (deadline: u32)
      ensures deadline == GetTmr(varta, tm)
    {
      deadline := Wrap32(varta + tm);
    }

    method Check(tm: u32) returns (due: bool)
      ensures due == CheckTmr(varta, tm)
    {
      due := varta >= tm;
    }
  }

  /** The clock after n ticks. */
  function Later(varta: u32, n: nat): u32 { Wrap32(varta + n) }

  /**
   * A deadline set for tm ticks ahead is due after n ticks exactly when n >= tm, for every n up to the wrap of the
   * counter, if and only if the deadline itself does not wrap.
   */
  lemma DeadlineIsExact(varta: u32, tm: u32)
    ensures (forall n: nat :: varta + n < 0x1_0000_0000 ==> (CheckTmr(Later(varta, n), GetTmr(varta, tm)) <==> n >= tm))
      <==> varta + tm < 0x1_0000_0000
  {
    if varta + tm >= 0x1_0000_0000 {
      assert Later(varta, 0) == varta && CheckTmr(varta, GetTmr(varta, tm));
      assert !(0 >= tm);
    }
  }
}
