/**
 * The statistics cards of the dashboard (src/views/Dashboard.tsx): five counts
 * over the booking list, recomputed from the list and the current instant.
 */
module Dashboard {
  import opened Types

  datatype Stats = Stats(upcoming: nat, confirmed: nat, pending: nat, cancelled: nat, completed: nat)

  /** `bookings.filter(b => b.status === s).length`. */
  function CountStatus(bs: seq<Booking>, s: BookingStatus): (n: nat)
    ensures n <= |bs|
    decreases |bs|
  {
    if bs == [] then 0
    else (if bs[0].status == s then 1 else 0) + CountStatus(bs[1..], s)
  }

  /** `bookings.filter(b => b.start > now && b.status !== 'cancelled').length`. */
  function CountUpcoming(bs: seq<Booking>, now: int): (n: nat)
    ensures n <= |bs|
    decreases |bs|
  {
    if bs == [] then 0
    else (if bs[0].start > now && bs[0].status != Cancelled then 1 else 0) + CountUpcoming(bs[1..], now)
  }

  /** The effect body: the five counts for the current list. Since a status has
      exactly four values, the four status counts add up to the list length, and
      a booking counted as upcoming is never counted as cancelled. */
  function ComputeStats(bs: seq<Booking>, now: int): (r: Stats)
    ensures r.confirmed + r.pending + r.cancelled + r.completed == |bs|
    ensures r.upcoming + r.cancelled <= |bs|
    ensures r.upcoming <= |bs| && r.confirmed <= |bs| && r.pending <= |bs|
    ensures r.cancelled <= |bs| && r.completed <= |bs|
  {
    StatusCountsPartition(bs);
    UpcomingExcludesCancelled(bs, now);
    Stats(CountUpcoming(bs, now), CountStatus(bs, Confirmed), CountStatus(bs, Pending),
          CountStatus(bs, Cancelled), CountStatus(bs, Completed))
  }

  lemma {:induction false} StatusCountsPartition(bs: seq<Booking>)
    ensures CountStatus(bs, Confirmed) + CountStatus(bs, Pending)
          + CountStatus(bs, Cancelled) + CountStatus(bs, Completed) == |bs|
    decreases |bs|
  {
    if bs != [] {
      StatusCountsPartition(bs[1..]);
    }
  }

  lemma {:induction false} UpcomingExcludesCancelled(bs: seq<Booking>, now: int)
    ensures CountUpcoming(bs, now) + CountStatus(bs, Cancelled) <= |bs|
    decreases |bs|
  {
    if bs != [] {
      UpcomingExcludesCancelled(bs[1..], now);
    }
  }

  /** Counting is additive over concatenation. */
  lemma {:induction false} CountsAppend(xs: seq<Booking>, ys: seq<Booking>, now: int)
    ensures forall s :: CountStatus(xs + ys, s) == CountStatus(xs, s) + CountStatus(ys, s)
    ensures CountUpcoming(xs + ys, now) == CountUpcoming(xs, now) + CountUpcoming(ys, now)
    decreases |xs|
  {
    if xs == [] {
      assert xs + ys == ys;
    } else {
      assert (xs + ys)[0] == xs[0] && (xs + ys)[1..] == xs[1..] + ys;
      CountsAppend(xs[1..], ys, now);
    }
  }

  /** A newly created booking moves exactly its own status count by one, and the
      upcoming count by one exactly when it lies after `now` and is not cancelled. */
  lemma AppendOneBooking(bs: seq<Booking>, b: Booking, now: int)
    ensures var before, after := ComputeStats(bs, now), ComputeStats(bs + [b], now);
      && after.confirmed == before.confirmed + (if b.status == Confirmed then 1 else 0)
      && after.pending == before.pending + (if b.status == Pending then 1 else 0)
      && after.cancelled == before.cancelled + (if b.status == Cancelled then 1 else 0)
      && after.completed == before.completed + (if b.status == Completed then 1 else 0)
      && after.upcoming == before.upcoming + (if b.start > now && b.status != Cancelled then 1 else 0)
  {
    CountsAppend(bs, [b], now);
    assert [b][1..] == [];
  }

  /** The completed count looks at statuses only: dates and the current instant
      do not change it, although the card is labelled as this month's. */
  lemma {:induction false} CompletedIgnoresDates(xs: seq<Booking>, ys: seq<Booking>, now: int, now': int)
    requires |xs| == |ys|
    requires forall i :: 0 <= i < |xs| ==> xs[i].status == ys[i].status
    ensures ComputeStats(xs, now).completed == ComputeStats(ys, now').completed
    decreases |xs|
  {
    if xs != [] {
      CompletedIgnoresDates(xs[1..], ys[1..], now, now');
    }
  }

  /** Cancelling a future booking moves it from upcoming to cancelled. */
  lemma CancelMovesUpcomingToCancelled(xs: seq<Booking>, b: Booking, ys: seq<Booking>, now: int)
    requires b.start > now && b.status != Cancelled
    ensures var before, after := ComputeStats(xs + [b] + ys, now), ComputeStats(xs + [b.(status := Cancelled)] + ys, now);
      && after.upcoming + 1 == before.upcoming
      && after.cancelled == before.cancelled + 1
  {
    var c := b.(status := Cancelled);
    CountsAppend(xs + [b], ys, now);
    CountsAppend(xs, [b], now);
    CountsAppend(xs + [c], ys, now);
    CountsAppend(xs, [c], now);
    assert [b][1..] == [] && [c][1..] == [];
  }
}
