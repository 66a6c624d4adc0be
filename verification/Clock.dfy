/** The clock and the coarser times the database records: one second on SQLite
    (strftime with whole seconds), one microsecond on Postgres. */
module Clock {
  import opened Tables

  const SECOND: Time := 1_000_000_000
  const DAY: Time := 24 * HOUR

  /** The recorded form of a clock reading at a storage resolution. */
  function Trunc(res: Time, t: Time): Time
    requires res > 0
  {
    t - t % res
  }

  predicate Aligned(res: Time, t: Time)
    requires res > 0
  {
    t % res == 0
  }

  lemma TruncBounds(res: Time, t: Time)
    requires res > 0
    ensures Trunc(res, t) <= t < Trunc(res, t) + res
  {
  }

  lemma AtLeastOnce(res: Time, d: int)
    requires res > 0 && d >= 1
    ensures res * d >= res
  {
  }

  /** Euclidean division is unique. */
  lemma SameQuotient(res: Time, q: int, k: int, m: Time, r: Time)
    requires res > 0 && res * q + m == res * k + r && 0 <= m < res && 0 <= r < res
    ensures q == k && m == r
  {
    assert res * q - res * k == res * (q - k) && res * k - res * q == res * (k - q);
    if q > k { AtLeastOnce(res, q - k); }
    if k > q { AtLeastOnce(res, k - q); }
  }

  lemma Multiple(res: Time, k: int, r: Time)
    requires 0 <= r < res
    ensures (res * k + r) % res == r
  {
    var t := res * k + r;
    SameQuotient(res, t / res, k, t % res, r);
  }

  /** Truncation commutes with aligned shifts. */
  lemma TruncShift(res: Time, s: Time, t: Time)
    requires res > 0 && Aligned(res, s)
    ensures Trunc(res, s + t) == s + Trunc(res, t)
  {
    var k, q := s / res, t / res;
    assert s == res * k && t == res * q + t % res;
    assert res * (k + q) == res * k + res * q;
    Multiple(res, k + q, t % res);
  }

  lemma TruncAligned(res: Time, t: Time)
    requires res > 0
    ensures Aligned(res, Trunc(res, t))
  {
    assert Trunc(res, t) == res * (t / res) + 0;
    Multiple(res, t / res, 0);
  }

  /** Different recorded times are at least the resolution apart. */
  lemma AlignedApart(res: Time, s: Time, t: Time)
    requires res > 0 && Aligned(res, s) && Aligned(res, t) && s < t
    ensures s + res <= t
  {
    TruncShift(res, s, t - s);
    if t - s < res { Multiple(res, 0, t - s); }
  }

  lemma TruncMonotone(res: Time, s: Time, t: Time)
    requires res > 0 && s <= t
    ensures Trunc(res, s) <= Trunc(res, t)
  {
    TruncAligned(res, s);
    TruncShift(res, Trunc(res, s), t - Trunc(res, s));
    TruncBounds(res, s);
    var d := t - Trunc(res, s);
    assert d >= 0;
    TruncNonNegative(res, d);
  }

  lemma TruncNonNegative(res: Time, t: Time)
    requires res > 0 && t >= 0
    ensures 0 <= Trunc(res, t) <= t
  {
  }

  predicate GapKept(res: Time, window: Time, s: Time, now: Time)
    requires res > 0
  {
    Aligned(res, s) && now - s >= window ==> Trunc(res, now) - s >= window
  }

  /** A recorded stamp passes the cooldown test only at readings whose own record lies a
      full window later, exactly when the window is a multiple of the resolution. */
  lemma {:induction false} CooldownSurvivesTruncation(res: Time, window: Time)
    requires res > 0
    ensures Aligned(res, window) <==> forall s, now :: GapKept(res, window, s, now)
  {
    if Aligned(res, window) {
      forall s, now ensures GapKept(res, window, s, now) {
        if Aligned(res, s) && now - s >= window {
          CooldownGap(res, window, s, now);
          Multiple(res, 0, 0);
        }
      }
    } else {
      Multiple(res, 0, 0);
      assert !GapKept(res, window, 0, window);
    }
  }

  /** Whatever the window, records are at least the truncated window apart. */
  lemma {:induction false} CooldownGap(res: Time, window: Time, s: Time, now: Time)
    requires res > 0 && Aligned(res, s) && now - s >= window
    ensures Trunc(res, now) - s >= Trunc(res, window)
  {
    TruncShift(res, s, now - s);
    TruncMonotone(res, window, now - s);
  }

  predicate RecordedLater(res: Time, window: Time, w: Time, now: Time)
    requires res > 0
  {
    now - w >= window ==> Trunc(res, now) > w
  }

  /** Rows written once another row is ripe are recorded strictly behind it, exactly when
      the window is no shorter than the resolution. */
  lemma RipeBeatsNew(res: Time, window: Time)
    requires res > 0
    ensures window >= res <==> forall w, now :: RecordedLater(res, window, w, now)
  {
    if window >= res {
      forall w, now ensures RecordedLater(res, window, w, now) { TruncBounds(res, now); }
    } else {
      TruncBounds(res, window);
      if window >= 0 { Multiple(res, 0, window); }
      assert !RecordedLater(res, window, 0, window);
    }
  }
}
