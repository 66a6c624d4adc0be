/** The scheduler's batch: the first rows in weighted order, less those still too young. */
module Selection {
  import opened Tables
  import opened Clock

  /** What the scheduler reads of a waiting row. */
  datatype Entry = Entry(id: Id, userId: Id, weightedAt: Time)

  predicate Ripe(e: Entry, window: Time, now: Time) {
    now - e.weightedAt >= window
  }

  ghost predicate Ordered(es: seq<Entry>) {
    forall i, j :: 0 <= i < j < |es| ==> es[i].weightedAt <= es[j].weightedAt
  }

  /** The entries among the first n that are old enough, in order. */
  function RipeBelow(es: seq<Entry>, n: nat, window: Time, now: Time): seq<Entry>
    requires n <= |es|
  {
    if n == 0 then []
    else
      var rest := RipeBelow(es, n - 1, window, now);
      if Ripe(es[n - 1], window, now) then rest + [es[n - 1]] else rest
  }

  function RipeOnly(es: seq<Entry>, window: Time, now: Time): seq<Entry> {
    RipeBelow(es, |es|, window, now)
  }

  function Take<T>(s: seq<T>, n: nat): seq<T> {
    if n <= |s| then s[..n] else s
  }

  lemma {:induction false} RipeBelowIsPrefix(es: seq<Entry>, n: nat, window: Time, now: Time) returns (k: nat)
    requires Ordered(es) && n <= |es|
    ensures k <= n && RipeBelow(es, n, window, now) == es[..k]
    ensures forall i :: 0 <= i < k ==> Ripe(es[i], window, now)
    ensures forall i :: k <= i < n ==> !Ripe(es[i], window, now)
  {
    k := 0;
    if n > 0 {
      k := RipeBelowIsPrefix(es, n - 1, window, now);
      assert k < n - 1 ==> es[k].weightedAt <= es[n - 1].weightedAt;
      if Ripe(es[n - 1], window, now) {
        assert es[..n - 1] + [es[n - 1]] == es[..n];
        k := n;
      }
    }
  }

  /** In weighted order the ripe entries are a prefix, and every entry behind them is unripe. */
  lemma RipeIsPrefix(es: seq<Entry>, window: Time, now: Time) returns (k: nat)
    requires Ordered(es)
    ensures k <= |es| && RipeOnly(es, window, now) == es[..k]
    ensures forall i :: 0 <= i < k ==> Ripe(es[i], window, now)
    ensures forall i :: k <= i < |es| ==> !Ripe(es[i], window, now)
  {
    k := RipeBelowIsPrefix(es, |es|, window, now);
  }

  /** Fetching a batch and then dropping the young entries selects exactly what dropping
      the young entries of the whole list and then taking a batch would select. */
  lemma FetchThenFilter(es: seq<Entry>, batch: nat, window: Time, now: Time)
    requires Ordered(es)
    ensures RipeOnly(Take(es, batch), window, now) == Take(RipeOnly(es, window, now), batch)
  {
    var head := Take(es, batch);
    var k := RipeIsPrefix(es, window, now);
    var j := RipeIsPrefix(head, window, now);
    if j < |head| { assert !Ripe(head[j], window, now); }
    if j > 0 { assert Ripe(head[j - 1], window, now); }
    assert j == if k <= |head| then k else |head|;
    assert head[..j] == es[..j];
  }

  // ---------- a clock that moves while the entries are looked at ----------

  /** The entries among the first n that are old enough when the loop reaches them; `clock`
      gives the reading taken for each. */
  function Picked(es: seq<Entry>, n: nat, window: Time, clock: nat -> Time): seq<Entry>
    requires n <= |es|
  {
    if n == 0 then []
    else
      var rest := Picked(es, n - 1, window, clock);
      if Ripe(es[n - 1], window, clock(n - 1)) then rest + [es[n - 1]] else rest
  }

  lemma {:induction false} PickedMember(es: seq<Entry>, n: nat, window: Time, clock: nat -> Time, e: Entry)
    requires n <= |es|
    ensures e in Picked(es, n, window, clock) <==>
              exists i: nat :: i < n && es[i] == e && Ripe(e, window, clock(i))
    ensures |Picked(es, n, window, clock)| <= n
  {
    if n > 0 {
      PickedMember(es, n - 1, window, clock, e);
      assert es[n - 1] == e && Ripe(e, window, clock(n - 1)) ==> e in Picked(es, n, window, clock);
    }
  }

  /** The loop picks what one reading, taken before it, would pick, exactly when no entry
      ripens between that reading and its own. */
  lemma {:induction false} MovingClockExactly(es: seq<Entry>, n: nat, window: Time, now: Time, clock: nat -> Time)
    requires n <= |es| && forall i: nat :: i < n ==> now <= clock(i)
    ensures Picked(es, n, window, clock) == RipeBelow(es, n, window, now)
       <==> forall i: nat :: i < n && Ripe(es[i], window, clock(i)) ==> Ripe(es[i], window, now)
    ensures |RipeBelow(es, n, window, now)| <= |Picked(es, n, window, clock)|
  {
    if n > 0 {
      MovingClockExactly(es, n - 1, window, now, clock);
      var picked, ripe := Picked(es, n - 1, window, clock), RipeBelow(es, n - 1, window, now);
      var last := es[n - 1];
      if Ripe(last, window, now) && picked + [last] == ripe + [last] {
        assert picked == (picked + [last])[..|picked|] == (ripe + [last])[..|ripe|] == ripe;
      }
    }
  }

  /** When every entry is ripe at its own reading, all are picked. */
  lemma {:induction false} AllPicked(es: seq<Entry>, n: nat, window: Time, clock: nat -> Time)
    requires n <= |es| && forall i: nat :: i < n ==> Ripe(es[i], window, clock(i))
    ensures Picked(es, n, window, clock) == es[..n]
  {
    if n > 0 {
      AllPicked(es, n - 1, window, clock);
      assert Ripe(es[n - 1], window, clock(n - 1));
      assert es[..n - 1] + [es[n - 1]] == es[..n];
    }
  }

  /** The readings never go back, and the loop takes no longer than `span`. */
  ghost predicate NoLongerThan(clock: nat -> Time, span: Time) {
    forall i: nat, j: nat :: i <= j ==> clock(i) <= clock(j) <= clock(i) + span
  }

  /** The loop passes over entry i for being too young and picks the younger entry j. */
  predicate PassesOver(es: seq<Entry>, window: Time, clock: nat -> Time, i: nat, j: nat)
    requires i < |es| && j < |es|
  {
    es[i].weightedAt < es[j].weightedAt && !Ripe(es[i], window, clock(i)) && Ripe(es[j], window, clock(j))
  }

  /** A loop no longer than the storage resolution never passes over an older entry. */
  lemma ShortLoopIsFair(es: seq<Entry>, res: Time, window: Time, clock: nat -> Time, span: Time, i: nat, j: nat)
    requires res > 0 && span <= res && Ordered(es) && NoLongerThan(clock, span) && i < |es| && j < |es|
    requires Aligned(res, es[i].weightedAt) && Aligned(res, es[j].weightedAt)
    ensures !PassesOver(es, window, clock, i, j)
  {
    if es[i].weightedAt < es[j].weightedAt {
      assert i < j;
      assert clock(j) <= clock(i) + span;
      AlignedApart(res, es[i].weightedAt, es[j].weightedAt);
    }
  }

  lemma {:induction false} RipeMember(es: seq<Entry>, n: nat, window: Time, now: Time, e: Entry)
    requires n <= |es|
    ensures e in RipeBelow(es, n, window, now) <==> exists i :: 0 <= i < n && es[i] == e && Ripe(e, window, now)
    ensures |RipeBelow(es, n, window, now)| <= n
  {
    if n > 0 {
      RipeMember(es, n - 1, window, now, e);
    }
  }
}
