/** The admin dashboard's statistics: a count and three folds with seed 0 over the flight list. */
module AdminDashboard {
  import opened Records

  datatype Stats = Stats(totalFlights: nat, totalSeats: int, bookedSeats: int, revenue: int)

  /** `reduce((sum, f) => sum + f.seats_total, 0)`, folding from the left. */
  function TotalSeats(fs: seq<Flight>): int {
    if fs == [] then 0 else TotalSeats(fs[..|fs| - 1]) + fs[|fs| - 1].seatsTotal
  }

  /** `reduce((sum, f) => sum + (f.seats_total - f.seats_available), 0)`. */
  function BookedSeats(fs: seq<Flight>): int {
    if fs == [] then 0 else BookedSeats(fs[..|fs| - 1]) + fs[|fs| - 1].Booked()
  }

  /** `reduce((sum, f) => sum + f.price * (f.seats_total - f.seats_available), 0)`. */
  function Revenue(fs: seq<Flight>): int {
    if fs == [] then 0 else Revenue(fs[..|fs| - 1]) + fs[|fs| - 1].price * fs[|fs| - 1].Booked()
  }

  /** The seats still for sale over the whole list. */
  function AvailableSeats(fs: seq<Flight>): int {
    if fs == [] then 0 else AvailableSeats(fs[..|fs| - 1]) + fs[|fs| - 1].seatsAvailable
  }

  function CalculateStats(fs: seq<Flight>): (s: Stats)
    ensures s.totalFlights == |fs|
    ensures s.bookedSeats == s.totalSeats - AvailableSeats(fs)
  {
    BookedIsTotalMinusAvailable(fs);
    Stats(|fs|, TotalSeats(fs), BookedSeats(fs), Revenue(fs))
  }

  /** The booked seats are the capacity less the seats still for sale. */
  lemma {:induction false} BookedIsTotalMinusAvailable(fs: seq<Flight>)
    ensures BookedSeats(fs) == TotalSeats(fs) - AvailableSeats(fs)
  {
    if fs != [] {
      BookedIsTotalMinusAvailable(fs[..|fs| - 1]);
    }
  }

  /** Every flight's seat counts are in range: nothing is oversold and nothing sold is uncounted. */
  ghost predicate SeatCountsInRange(fs: seq<Flight>) {
    forall i :: 0 <= i < |fs| ==> 0 <= fs[i].seatsAvailable <= fs[i].seatsTotal
  }

  /** With every flight's counts in range, the booked seats lie between zero and the capacity,
      and with positive prices the revenue is non-negative. */
  lemma {:induction false} StatsBounds(fs: seq<Flight>)
    requires SeatCountsInRange(fs)
    ensures 0 <= BookedSeats(fs) <= TotalSeats(fs)
    ensures (forall i :: 0 <= i < |fs| ==> fs[i].price > 0) ==> Revenue(fs) >= 0
  {
    if fs != [] {
      var front := fs[..|fs| - 1];
      var last := fs[|fs| - 1];
      assert forall i :: 0 <= i < |front| ==> front[i] == fs[i];
      StatsBounds(front);
      if forall i :: 0 <= i < |fs| ==> fs[i].price > 0 {
        assert last.price > 0 && last.Booked() >= 0;
        assert last.price * last.Booked() >= 0;
      }
    }
  }

  /** Each statistic of a concatenated list is the sum of the statistics of its parts. */
  lemma {:induction false} StatsOfConcat(a: seq<Flight>, b: seq<Flight>)
    ensures var s, sa, sb := CalculateStats(a + b), CalculateStats(a), CalculateStats(b);
      && s.totalFlights == sa.totalFlights + sb.totalFlights
      && s.totalSeats == sa.totalSeats + sb.totalSeats
      && s.bookedSeats == sa.bookedSeats + sb.bookedSeats
      && s.revenue == sa.revenue + sb.revenue
    decreases |b|
  {
    if b != [] {
      var front := b[..|b| - 1];
      assert (a + b)[..|a + b| - 1] == a + front;
      assert (a + b)[|a + b| - 1] == b[|b| - 1];
      StatsOfConcat(a, front);
    } else {
      assert a + b == a;
    }
  }
}
