/**
 The daemon's sampling cadence: a monotonic deadline advanced by 600 ms per sample, compared with the clock
 in truncated milliseconds, and moved to the present after a stall.
*/
module Schedule {

  /** SAMPLE_INTERVAL_MS, and the nanoseconds in a millisecond and in a second. */
  const INTERVAL_MS: int := 600
  const MS: int := 1_000_000
  const SECOND: int := 1_000_000_000

  datatype Timespec = Timespec(sec: int, nsec: int)

  predicate Normalised(t: Timespec) {
    0 <= t.nsec < 1_000_000_000
  }

  /** The instant in nanoseconds. */
  function Nanos(t: Timespec): int {
    t.sec * 1_000_000_000 + t.nsec
  }

  /** C's division by a positive number truncates towards zero. */
  function TruncatedMs(nsec: int): int {
    if nsec >= 0 then nsec / 1_000_000 else -(-nsec / 1_000_000)
  }

  /** ms_until */
  function MsUntil(deadline: Timespec, now: Timespec): int {
    (deadline.sec - now.sec) * 1000 + TruncatedMs(deadline.nsec - now.nsec)
  }

  /** The timespec 600 ms later, in normalised form. */
  function Later(t: Timespec): Timespec {
    var nsec := t.nsec + 600_000_000;
    if nsec >= 1_000_000_000 then Timespec(t.sec + 1, nsec - 1_000_000_000) else Timespec(t.sec, nsec)
  }

  /** ms_until is within a millisecond of the exact difference, and its sign is never wrong by more. */
  lemma MsUntilExact(deadline: Timespec, now: Timespec)
    requires Normalised(deadline) && Normalised(now)
    ensures -MS < Nanos(deadline) - Nanos(now) - MsUntil(deadline, now) * MS < MS
    ensures MsUntil(deadline, now) <= 0 ==> Nanos(deadline) - Nanos(now) < MS
    ensures MsUntil(deadline, now) > 0 ==> Nanos(deadline) > Nanos(now)
  {
  }

  /** Truncation is towards zero: exchanging the two instants exactly negates the result. */
  lemma MsUntilAntisymmetric(a: Timespec, b: Timespec)
    ensures MsUntil(a, b) == -MsUntil(b, a)
  {
  }

  lemma LaterExact(t: Timespec)
    requires Normalised(t)
    ensures Normalised(Later(t)) && Nanos(Later(t)) == Nanos(t) + INTERVAL_MS * MS
  {
  }

  // ------------------------------------------------------------ the loop

  /** One pass of the loop: the clock reading at its start, and the one after the sample if it takes one. */
  datatype Pass = Pass(now: Timespec, end: Timespec)

  predicate Due(next: Timespec, now: Timespec) {
    MsUntil(next, now) <= 0
  }

  /** From the deadline on a sample is due, and until a millisecond before it none is. */
  lemma DueWindow(next: Timespec, now: Timespec)
    requires Normalised(next) && Normalised(now)
    ensures Nanos(now) >= Nanos(next) ==> Due(next, now)
    ensures Nanos(next) - Nanos(now) >= MS ==> !Due(next, now)
  {
    MsUntilExact(next, now);
  }

  /** The deadline after a sample that ended at `end`. */
  function Rescheduled(next: Timespec, end: Timespec): Timespec {
    if MsUntil(Later(next), end) <= 0 then Later(end) else Later(next)
  }

  function AfterPass(next: Timespec, p: Pass): Timespec {
    if Due(next, p.now) then Rescheduled(next, p.end) else next
  }

  /** next_sample, updated in place. */
  class Deadline {
    var sec: int
    var nsec: int

    ghost function Time(): Timespec
      reads this
    {
      Timespec(sec, nsec)
    }

    constructor (t: Timespec)
      ensures Time() == t
    {
      sec, nsec := t.sec, t.nsec;
    }

    /** advance_deadline */
    method Advance()
      requires Normalised(Time())
      modifies this
      ensures Time() == Later(old(Time()))
    {
      sec := sec + INTERVAL_MS / 1000;
      nsec := nsec + INTERVAL_MS % 1000 * MS;
      if nsec >= SECOND {
        nsec := nsec - SECOND;
        sec := sec + 1;
      }
    }

    /** The scheduling of one pass of the loop; sampled says whether it took a sample. */
    method RunPass(p: Pass) returns (sampled: bool)
      requires Normalised(Time()) && Normalised(p.now) && Normalised(p.end)
      modifies this
      ensures sampled <==> Due(old(Time()), p.now)
      ensures Time() == AfterPass(old(Time()), p) && Normalised(Time())
    {
      var waitMs := MsUntil(Timespec(sec, nsec), p.now);
      if waitMs <= 0 {
        Advance();
        if MsUntil(Timespec(sec, nsec), p.end) <= 0 {
          sec, nsec := p.end.sec, p.end.nsec;
          Advance();
        }
        sampled := true;
      } else {
        sampled := false;
      }
    }
  }

  // ------------------------------------------------------------- whole runs

  /** Readings of a monotonic clock, each normalised. */
  predicate Monotonic(passes: seq<Pass>) {
    && (forall i :: 0 <= i < |passes| ==>
          Normalised(passes[i].now) && Normalised(passes[i].end) && Nanos(passes[i].now) <= Nanos(passes[i].end))
    && (forall i, j :: 0 <= i < j < |passes| ==> Nanos(passes[i].end) <= Nanos(passes[j].now))
  }

  function Next(first: Timespec, passes: seq<Pass>): Timespec {
    if passes == [] then first else AfterPass(Next(first, passes[..|passes| - 1]), passes[|passes| - 1])
  }

  predicate Samples(first: Timespec, passes: seq<Pass>, i: nat)
    requires i < |passes|
  {
    Due(Next(first, passes[..i]), passes[i].now)
  }

  /** How many passes of the run took a sample. */
  ghost function Taken(first: Timespec, passes: seq<Pass>): nat {
    if passes == [] then 0
    else
      var n := |passes| - 1;
      Taken(first, passes[..n]) + if Samples(first, passes, n) then 1 else 0
  }

  /**
   After a sample the new deadline is at least 600 ms after the old one, strictly after the clock reading
   that ended the sample, and less than 601 ms ahead of it.
  */
  lemma SampleReschedules(next: Timespec, p: Pass)
    requires Normalised(next) && Normalised(p.now) && Normalised(p.end) && Nanos(p.now) <= Nanos(p.end)
    requires Due(next, p.now)
    ensures var after := AfterPass(next, p);
            && Normalised(after)
            && Nanos(after) >= Nanos(next) + INTERVAL_MS * MS
            && Nanos(p.end) < Nanos(after) < Nanos(p.end) + (INTERVAL_MS + 1) * MS
  {
    LaterExact(next);
    LaterExact(p.end);
    MsUntilExact(next, p.now);
    MsUntilExact(Later(next), p.end);
  }

  /** A sample that ends by 599 ms past its deadline never resyncs; one that ends 600 ms past it always does. */
  lemma ResyncWindow(next: Timespec, end: Timespec)
    requires Normalised(next) && Normalised(end)
    ensures Nanos(end) <= Nanos(next) + (INTERVAL_MS - 1) * MS ==> Rescheduled(next, end) == Later(next)
    ensures Nanos(end) >= Nanos(next) + INTERVAL_MS * MS ==> Rescheduled(next, end) == Later(end)
  {
    LaterExact(next);
    MsUntilExact(Later(next), end);
  }

  lemma {:induction false} NextNormalised(first: Timespec, passes: seq<Pass>)
    requires Normalised(first) && Monotonic(passes)
    ensures Normalised(Next(first, passes))
  {
    if passes != [] {
      var n := |passes| - 1;
      NextNormalised(first, passes[..n]);
      LaterExact(Next(first, passes[..n]));
      LaterExact(passes[n].end);
    }
  }

  /** Over any run the deadlines of successive samples are at least 600 ms apart. */
  lemma {:induction false} DeadlinesSpread(first: Timespec, passes: seq<Pass>)
    requires Normalised(first) && Monotonic(passes)
    ensures Nanos(Next(first, passes)) >= Nanos(first) + 600_000_000 * Taken(first, passes)
  {
    if passes != [] {
      var n := |passes| - 1;
      DeadlinesSpread(first, passes[..n]);
      NextNormalised(first, passes[..n]);
      if Samples(first, passes, n) {
        SampleReschedules(Next(first, passes[..n]), passes[n]);
      }
    }
  }

  /** No bursts: k samples up to a clock reading need more than k*600 - 601 ms since the first deadline. */
  lemma {:induction false} NeverBursts(first: Timespec, passes: seq<Pass>)
    requires Normalised(first) && Monotonic(passes) && passes != []
    requires Taken(first, passes) > 0
    ensures 600_000_000 * Taken(first, passes) < Nanos(passes[|passes| - 1].end) - Nanos(first) + 601_000_000
  {
    var n := |passes| - 1;
    NextNormalised(first, passes[..n]);
    if Samples(first, passes, n) {
      DeadlinesSpread(first, passes);
      SampleReschedules(Next(first, passes[..n]), passes[n]);
    } else {
      NeverBursts(first, passes[..n]);
      assert Nanos(passes[n - 1].end) <= Nanos(passes[n].now);
    }
  }

  /** Every sample of the run ends within 599 ms of its deadline. */
  predicate Prompt(first: Timespec, passes: seq<Pass>) {
    forall i: nat :: i < |passes| && Samples(first, passes, i) ==>
      Nanos(passes[i].end) <= Nanos(Next(first, passes[..i])) + 599_000_000
  }

  lemma PromptPrefix(first: Timespec, passes: seq<Pass>)
    requires passes != [] && Prompt(first, passes)
    ensures Prompt(first, passes[..|passes| - 1])
  {
    var init := passes[..|passes| - 1];
    forall i: nat | i < |init| && Samples(first, init, i)
      ensures Nanos(init[i].end) <= Nanos(Next(first, init[..i])) + 599_000_000
    {
      assert init[..i] == passes[..i];
      assert Samples(first, passes, i);
    }
  }

  /** As long as no sample is late, the k-th deadline is exactly the first one plus k * 600 ms. */
  lemma {:induction false} PromptIsExact(first: Timespec, passes: seq<Pass>)
    requires Normalised(first) && Monotonic(passes) && Prompt(first, passes)
    ensures Nanos(Next(first, passes)) == Nanos(first) + 600_000_000 * Taken(first, passes)
  {
    if passes != [] {
      var n := |passes| - 1;
      var init := passes[..n];
      PromptPrefix(first, passes);
      PromptIsExact(first, init);
      NextNormalised(first, init);
      if Samples(first, passes, n) {
        ResyncWindow(Next(first, init), passes[n].end);
        LaterExact(Next(first, init));
      }
    }
  }
}
