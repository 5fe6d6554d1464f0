/** The two text truncations both provider screens apply to a booking: the
    booking number `#` followed by the first five characters of the id, and
    the time cut to `HH:MM`. */
module BookingDisplay {
  import opened Text

  /** `` `#${id.substring(0, 5)}` ``. */
  function BookingNumber(id: string): (r: string)
    ensures |r| == 1 + (if |id| < 5 then |id| else 5)
    ensures r[0] == '#' && r[1..] == id[..|r| - 1]
  {
    "#" + Take(id, 5)
  }

  /** `time.substring(0, 5)`: an `HH:MM:SS` time keeps its `HH:MM`. */
  function ShortTime(time: string): (r: string)
    ensures |r| <= 5 && |r| <= |time| && r == time[..|r|]
    ensures |time| >= 5 ==> |r| == 5
  {
    Take(time, 5)
  }

  /** Two bookings share a number exactly when their ids share the first
      five characters, so distinct ids can collide. */
  lemma NumberIffPrefix(a: string, b: string)
    ensures BookingNumber(a) == BookingNumber(b) <==> Take(a, 5) == Take(b, 5)
  {
    if BookingNumber(a) == BookingNumber(b) {
      assert BookingNumber(a)[1..] == Take(a, 5);
    }
  }

  /** The number of an id of at most five characters gives the id back. */
  lemma ShortIdRecoverable(id: string)
    requires |id| <= 5
    ensures BookingNumber(id)[1..] == id
  {
  }

  /** Cutting a time twice is cutting it once. */
  lemma ShortTimeIdempotent(time: string)
    ensures ShortTime(ShortTime(time)) == ShortTime(time)
  {
  }
}
