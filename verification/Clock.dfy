/** The fake clock of platform/deterministic: it moves only when it is read or slept on. */
module Clock {
  import opened Options

  const NSEC_PER_SEC: int := 1_000_000_000
  const TICK: int := 1_000_000

  datatype Timespec = Timespec(sec: int, nsec: int) {
    predicate Normal() {
      0 <= nsec < NSEC_PER_SEC
    }

    function Nanos(): int {
      sec * NSEC_PER_SEC + nsec
    }
  }

  const EFAULT: int := 14

  /** `__platform_now`. */
  class DeterministicClock {
    var now: Timespec

    constructor ()
      ensures now == Timespec(0, 0)
    {
      now := Timespec(0, 0);
    }

    /** clock_gettime(): every reading is a tick later; `wanted` says the result pointer is not null. */
    method GetTime(wanted: bool) returns (r: Option<Timespec>, errno: int)
      modifies this
      ensures !wanted ==> r.None? && errno == EFAULT && now == old(now)
      ensures wanted ==> r == Some(now) && errno == 0 && now.Nanos() == old(now.Nanos()) + TICK
      ensures old(now.Normal()) ==> now.Normal()
    {
      if !wanted {
        return None, EFAULT;
      }
      now := now.(nsec := now.nsec + TICK);
      if now.nsec >= NSEC_PER_SEC {
        now := Timespec(now.sec + 1, now.nsec - NSEC_PER_SEC);
      }
      return Some(now), 0;
    }

    /** clock_nanosleep(): time passes by exactly what was asked for; one carry is enough for a normal request. */
    method NanoSleep(request: Option<Timespec>) returns (errno: int)
      modifies this
      ensures request.None? ==> errno == EFAULT && now == old(now)
      ensures request.Some? ==> errno == 0 && now.Nanos() == old(now.Nanos()) + request.value.Nanos()
      ensures old(now.Normal()) && (request.Some? ==> request.value.Normal()) ==> now.Normal()
    {
      if request.None? {
        return EFAULT;
      }
      now := now.(nsec := now.nsec + request.value.nsec);
      if now.nsec >= NSEC_PER_SEC {
        now := Timespec(now.sec + 1, now.nsec - NSEC_PER_SEC);
      }
      now := now.(sec := now.sec + request.value.sec);
      return 0;
    }
  }
}
