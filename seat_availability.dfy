/** The availability and fare engine of `SeatAvailabilityService`: stops are
    resolved to segment indices, per-segment fares and tax are summed over the
    requested span, and every seat of the bus is marked available or not by a
    half-open interval-overlap test against the confirmed bookings. */
module SeatAvailability {
  import opened Wrappers
  import opened Text
  import opened Entities

  datatype Seat = Seat(seatNumber: string)
  datatype BookingSeat = BookingSeat(seatNumber: string, fromStop: string, toStop: string)
  datatype FareResult = FareResult(baseFare: real, gstAmount: real, totalFare: real)
  datatype SeatAvailability = SeatAvailability(seatNumber: string, available: bool)
  datatype SearchResult = SearchResult(fareResult: FareResult, seatAvailability: seq<SeatAvailability>)

  const InvalidStops := "Invalid stop selection"
  const FareMissing := "Fare not defined"
  /** What an `Optional` finder of Spring Data throws when its query matches several rows. */
  const FareNotUnique := "org.springframework.dao.IncorrectResultSizeDataAccessException"

  // ---------------------------------------------------------------------------
  // Stop resolution

  /** Index of the first segment whose `fromStop` equals `stop` ignoring case, else -1.
      Only `fromStop` is consulted. */
  function StopIndex(segs: seq<Segment>, stop: string): (r: int)
    ensures -1 <= r < |segs|
    ensures r == -1 <==> forall i :: 0 <= i < |segs| ==> !EqualsIgnoreCase(segs[i].fromStop, stop)
    ensures r >= 0 ==> EqualsIgnoreCase(segs[r].fromStop, stop)
    ensures r >= 0 ==> forall i :: 0 <= i < r ==> !EqualsIgnoreCase(segs[i].fromStop, stop)
  {
    if segs == [] then -1
    else if EqualsIgnoreCase(segs[0].fromStop, stop) then 0
    else
      var k := StopIndex(segs[1..], stop);
      if k == -1 then -1 else k + 1
  }

  /** The service's `indexOf`: a scan with an early return. */
  method IndexOf(segs: seq<Segment>, stop: string) returns (idx: int)
    ensures idx == StopIndex(segs, stop)
  {
    for i := 0 to |segs|
      invariant forall j :: 0 <= j < i ==> !EqualsIgnoreCase(segs[j].fromStop, stop)
    {
      if EqualsIgnoreCase(segs[i].fromStop, stop) {
        return i;
      }
    }
    return -1;
  }

  /** The guard of the search: both stops resolved and the destination strictly after the origin. */
  predicate ValidSpan(startIdx: int, endIdx: int)
  {
    startIdx != -1 && endIdx != -1 && startIdx < endIdx
  }

  // ---------------------------------------------------------------------------
  // Fares

  predicate Matches(f: Fare, segmentId: Uuid, seatType: string)
  {
    f.segmentId == segmentId && f.seatType == seatType
  }

  /** The rows of the fare table that `findByRouteSegmentIdAndSeatType` matches, in table order.
      Nothing keeps the table from holding several of them. */
  function Matching(fares: seq<Fare>, segmentId: Uuid, seatType: string): (r: seq<Fare>)
    ensures |r| <= |fares|
    ensures forall k :: 0 <= k < |r| ==> Matches(r[k], segmentId, seatType)
  {
    if fares == [] then []
    else (if Matches(fares[0], segmentId, seatType) then [fares[0]] else []) + Matching(fares[1..], segmentId, seatType)
  }

  /** `findByRouteSegmentIdAndSeatType(...).orElseThrow(...)`: the one matching row; "Fare not
      defined" when there is none; the finder's own exception when there are several. */
  function FareLookup(fares: seq<Fare>, segmentId: Uuid, seatType: string): (r: Result<Fare>)
    ensures r.Ok? ==> Matches(r.value, segmentId, seatType)
    ensures r.Err? ==> r.msg == FareMissing || r.msg == FareNotUnique
  {
    var found := Matching(fares, segmentId, seatType);
    if |found| == 0 then Err(FareMissing)
    else if |found| == 1 then Ok(found[0])
    else Err(FareNotUnique)
  }

  /** Every matched row is a row of the table, and every matching row of the table is matched. */
  lemma {:induction false} MatchingIsTheMatchingRows(fares: seq<Fare>, segmentId: Uuid, seatType: string)
    ensures forall k :: 0 <= k < |Matching(fares, segmentId, seatType)| ==> Matching(fares, segmentId, seatType)[k] in fares
    ensures forall j :: 0 <= j < |fares| && Matches(fares[j], segmentId, seatType) ==> fares[j] in Matching(fares, segmentId, seatType)
  {
    if fares != [] {
      var tail := fares[1..];
      MatchingIsTheMatchingRows(tail, segmentId, seatType);
      forall j | 0 <= j < |fares| && Matches(fares[j], segmentId, seatType)
        ensures fares[j] in Matching(fares, segmentId, seatType)
      {
        if j > 0 {
          assert tail[j - 1] == fares[j];
        }
      }
      forall k | 0 <= k < |Matching(fares, segmentId, seatType)|
        ensures Matching(fares, segmentId, seatType)[k] in fares
      {
        var f := Matching(fares, segmentId, seatType)[k];
        assert f == fares[0] || f in Matching(tail, segmentId, seatType);
      }
    }
  }

  /** A fare found is a row of the table for that segment and seat type. */
  lemma FoundFareIsARow(fares: seq<Fare>, segmentId: Uuid, seatType: string)
    ensures FareLookup(fares, segmentId, seatType).Ok? ==>
      FareLookup(fares, segmentId, seatType).value in fares
  {
    MatchingIsTheMatchingRows(fares, segmentId, seatType);
  }

  /** The lookup answers "Fare not defined" exactly when no row has that segment and seat type. */
  lemma FareMissingIffNoRow(fares: seq<Fare>, segmentId: Uuid, seatType: string)
    ensures FareLookup(fares, segmentId, seatType) == Err(FareMissing)
        <==> forall j :: 0 <= j < |fares| ==> !Matches(fares[j], segmentId, seatType)
  {
    MatchingIsTheMatchingRows(fares, segmentId, seatType);
    if forall j :: 0 <= j < |fares| ==> !Matches(fares[j], segmentId, seatType) {
      NoMatchIsEmpty(fares, segmentId, seatType);
    }
  }

  /** Two rows for the same segment and seat type make the lookup throw, whatever they hold. */
  lemma {:induction false} DuplicateFareIsNotUnique(fares: seq<Fare>, segmentId: Uuid, seatType: string, j: int, k: int)
    requires 0 <= j < k < |fares|
    requires Matches(fares[j], segmentId, seatType) && Matches(fares[k], segmentId, seatType)
    ensures FareLookup(fares, segmentId, seatType) == Err(FareNotUnique)
  {
    DuplicateMatchesTwice(fares, segmentId, seatType, j, k);
  }

  lemma {:induction false} DuplicateMatchesTwice(fares: seq<Fare>, segmentId: Uuid, seatType: string, j: int, k: int)
    requires 0 <= j < k < |fares|
    requires Matches(fares[j], segmentId, seatType) && Matches(fares[k], segmentId, seatType)
    ensures |Matching(fares, segmentId, seatType)| >= 2
  {
    if j == 0 {
      assert fares[1..][k - 1] == fares[k];
      MatchingIsTheMatchingRows(fares[1..], segmentId, seatType);
      assert fares[k] in Matching(fares[1..], segmentId, seatType);
    } else {
      assert fares[1..][j - 1] == fares[j] && fares[1..][k - 1] == fares[k];
      DuplicateMatchesTwice(fares[1..], segmentId, seatType, j - 1, k - 1);
    }
  }

  /** A row that is the only match for its segment and seat type is the fare found. */
  lemma {:induction false} UniqueFareIsFound(fares: seq<Fare>, segmentId: Uuid, seatType: string, j: int)
    requires 0 <= j < |fares| && Matches(fares[j], segmentId, seatType)
    requires forall i :: 0 <= i < |fares| && i != j ==> !Matches(fares[i], segmentId, seatType)
    ensures FareLookup(fares, segmentId, seatType) == Ok(fares[j])
  {
    UniqueMatchIsAlone(fares, segmentId, seatType, j);
  }

  lemma {:induction false} UniqueMatchIsAlone(fares: seq<Fare>, segmentId: Uuid, seatType: string, j: int)
    requires 0 <= j < |fares| && Matches(fares[j], segmentId, seatType)
    requires forall i :: 0 <= i < |fares| && i != j ==> !Matches(fares[i], segmentId, seatType)
    ensures Matching(fares, segmentId, seatType) == [fares[j]]
  {
    var tail := fares[1..];
    if j == 0 {
      NoMatchIsEmpty(tail, segmentId, seatType);
    } else {
      assert tail[j - 1] == fares[j];
      forall i | 0 <= i < |tail| && i != j - 1 ensures !Matches(tail[i], segmentId, seatType) {
        assert tail[i] == fares[i + 1];
      }
      UniqueMatchIsAlone(tail, segmentId, seatType, j - 1);
    }
  }

  lemma {:induction false} NoMatchIsEmpty(fares: seq<Fare>, segmentId: Uuid, seatType: string)
    requires forall i :: 0 <= i < |fares| ==> !Matches(fares[i], segmentId, seatType)
    ensures Matching(fares, segmentId, seatType) == []
  {
    if fares != [] {
      NoMatchIsEmpty(fares[1..], segmentId, seatType);
    }
  }

  predicate Priced(segs: seq<Segment>, fares: seq<Fare>, seatType: string, i: int)
    requires 0 <= i < |segs|
  {
    FareLookup(fares, segs[i].id, seatType).Ok?
  }

  predicate FaresDefined(segs: seq<Segment>, fares: seq<Fare>, seatType: string, lo: int, hi: int)
    requires 0 <= lo <= hi <= |segs|
  {
    forall i :: lo <= i < hi ==> Priced(segs, fares, seatType, i)
  }

  function FareAt(segs: seq<Segment>, fares: seq<Fare>, seatType: string, i: int): Fare
    requires 0 <= i < |segs| && Priced(segs, fares, seatType, i)
  {
    FareLookup(fares, segs[i].id, seatType).value
  }

  /** The first segment of `lo .. hi-1` whose fare lookup fails, or `hi` when every one succeeds. */
  function FirstUnpriced(segs: seq<Segment>, fares: seq<Fare>, seatType: string, lo: int, hi: int): (k: int)
    requires 0 <= lo <= hi <= |segs|
    ensures lo <= k <= hi && FaresDefined(segs, fares, seatType, lo, k)
    ensures k < hi ==> !Priced(segs, fares, seatType, k)
    ensures k == hi <==> FaresDefined(segs, fares, seatType, lo, hi)
    decreases hi - lo
  {
    if lo == hi then hi
    else if !Priced(segs, fares, seatType, lo) then lo
    else FirstUnpriced(segs, fares, seatType, lo + 1, hi)
  }

  /** Sum of `baseFare` over the segments `lo .. hi-1`, added left to right. */
  function BaseSum(segs: seq<Segment>, fares: seq<Fare>, seatType: string, lo: int, hi: int): real
    requires 0 <= lo <= hi <= |segs| && FaresDefined(segs, fares, seatType, lo, hi)
    decreases hi - lo
  {
    if lo == hi then 0.0
    else BaseSum(segs, fares, seatType, lo, hi - 1) + FareAt(segs, fares, seatType, hi - 1).baseFare
  }

  /** Sum of the per-segment tax `baseFare * gstPercent / 100` over the same segments. */
  function GstSum(segs: seq<Segment>, fares: seq<Fare>, seatType: string, lo: int, hi: int): real
    requires 0 <= lo <= hi <= |segs| && FaresDefined(segs, fares, seatType, lo, hi)
    decreases hi - lo
  {
    if lo == hi then 0.0
    else
      var f := FareAt(segs, fares, seatType, hi - 1);
      GstSum(segs, fares, seatType, lo, hi - 1) + GstAmount(f.baseFare, f.gstPercent)
  }

  /** The independent reference: the sum of each leg's own total `base + tax`. */
  function LegTotalSum(segs: seq<Segment>, fares: seq<Fare>, seatType: string, lo: int, hi: int): real
    requires 0 <= lo <= hi <= |segs| && FaresDefined(segs, fares, seatType, lo, hi)
    decreases hi - lo
  {
    if lo == hi then 0.0
    else
      var f := FareAt(segs, fares, seatType, lo);
      f.baseFare + GstAmount(f.baseFare, f.gstPercent) + LegTotalSum(segs, fares, seatType, lo + 1, hi)
  }

  /** Summing base and tax separately and adding them gives the same total as summing the
      per-leg totals: the fare of a span is exactly the sum of the fares of its legs. */
  lemma {:induction false} TotalIsSumOfLegTotals(segs: seq<Segment>, fares: seq<Fare>, seatType: string, lo: int, hi: int)
    requires 0 <= lo <= hi <= |segs| && FaresDefined(segs, fares, seatType, lo, hi)
    ensures BaseSum(segs, fares, seatType, lo, hi) + GstSum(segs, fares, seatType, lo, hi)
         == LegTotalSum(segs, fares, seatType, lo, hi)
    decreases hi - lo
  {
    if lo < hi {
      TotalIsSumOfLegTotals(segs, fares, seatType, lo, hi - 1);
      LegTotalSplitLast(segs, fares, seatType, lo, hi);
    }
  }

  lemma {:induction false} LegTotalSplitLast(segs: seq<Segment>, fares: seq<Fare>, seatType: string, lo: int, hi: int)
    requires 0 <= lo < hi <= |segs| && FaresDefined(segs, fares, seatType, lo, hi)
    ensures var f := FareAt(segs, fares, seatType, hi - 1);
      LegTotalSum(segs, fares, seatType, lo, hi)
      == LegTotalSum(segs, fares, seatType, lo, hi - 1) + f.baseFare + GstAmount(f.baseFare, f.gstPercent)
    decreases hi - lo
  {
    if lo < hi - 1 {
      LegTotalSplitLast(segs, fares, seatType, lo + 1, hi);
    }
  }

  /** The base fare of a span splits at any intermediate stop. */
  lemma {:induction false} BaseSumSplit(segs: seq<Segment>, fares: seq<Fare>, seatType: string, lo: int, mid: int, hi: int)
    requires 0 <= lo <= mid <= hi <= |segs| && FaresDefined(segs, fares, seatType, lo, hi)
    ensures BaseSum(segs, fares, seatType, lo, hi)
         == BaseSum(segs, fares, seatType, lo, mid) + BaseSum(segs, fares, seatType, mid, hi)
    decreases hi - mid
  {
    if mid < hi {
      BaseSumSplit(segs, fares, seatType, lo, mid, hi - 1);
    }
  }

  /** The search stops at the first unpriced segment: every one before it is priced. */
  lemma {:induction false} FirstUnpricedIs(segs: seq<Segment>, fares: seq<Fare>, seatType: string, lo: int, hi: int, i: int)
    requires 0 <= lo <= i < hi <= |segs|
    requires FaresDefined(segs, fares, seatType, lo, i) && !Priced(segs, fares, seatType, i)
    ensures FirstUnpriced(segs, fares, seatType, lo, hi) == i
    decreases i - lo
  {
    if lo < i {
      FirstUnpricedIs(segs, fares, seatType, lo + 1, hi, i);
    }
  }

  // ---------------------------------------------------------------------------
  // Availability

  /** A booking blocks the requested span `[startIdx, endIdx)` when its own span, resolved with
      the same stop lookup, overlaps it. The booking's seat number plays no part. */
  predicate Blocks(segs: seq<Segment>, b: BookingSeat, startIdx: int, endIdx: int)
  {
    startIdx < StopIndex(segs, b.toStop) && StopIndex(segs, b.fromStop) < endIdx
  }

  predicate NoneBlocks(segs: seq<Segment>, booked: seq<BookingSeat>, startIdx: int, endIdx: int)
  {
    forall k :: 0 <= k < |booked| ==> !Blocks(segs, booked[k], startIdx, endIdx)
  }

  /** One entry per bus seat, in seat-list order, each flagged by the overlap test. */
  function Availability(segs: seq<Segment>, seats: seq<Seat>, booked: seq<BookingSeat>, startIdx: int, endIdx: int)
    : seq<SeatAvailability>
  {
    seq(|seats|, i requires 0 <= i < |seats| =>
      SeatAvailability(seats[i].seatNumber, NoneBlocks(segs, booked, startIdx, endIdx)))
  }

  /** The list mirrors the seat list, and an entry is available exactly when no booking on
      the schedule overlaps the requested span, whatever seat that booking is for. */
  lemma AvailabilityEntries(segs: seq<Segment>, seats: seq<Seat>, booked: seq<BookingSeat>, startIdx: int, endIdx: int, i: int)
    requires 0 <= i < |seats|
    ensures var r := Availability(segs, seats, booked, startIdx, endIdx);
      && |r| == |seats|
      && r[i].seatNumber == seats[i].seatNumber
      && (r[i].available <==> !exists k :: 0 <= k < |booked| && Blocks(segs, booked[k], startIdx, endIdx))
  {
  }

  /** Because seat numbers are never compared, every entry carries the same flag. */
  lemma AllSeatsShareOneFlag(segs: seq<Segment>, seats: seq<Seat>, booked: seq<BookingSeat>, startIdx: int, endIdx: int, i: int, j: int)
    requires 0 <= i < |seats| && 0 <= j < |seats|
    ensures var r := Availability(segs, seats, booked, startIdx, endIdx);
      r[i].available == r[j].available
  {
  }

  /** Spans that only touch do not overlap. */
  lemma {:induction false} TouchingSpansDoNotBlock(segs: seq<Segment>, b: BookingSeat, startIdx: int, endIdx: int)
    requires StopIndex(segs, b.toStop) == startIdx || StopIndex(segs, b.fromStop) == endIdx
    requires startIdx < endIdx && StopIndex(segs, b.fromStop) < StopIndex(segs, b.toStop)
    ensures !Blocks(segs, b, startIdx, endIdx)
  {
  }

  /** A booking whose destination does not resolve (for instance one ending at the terminus)
      never blocks a valid span. */
  lemma UnresolvedEndNeverBlocks(segs: seq<Segment>, b: BookingSeat, startIdx: int, endIdx: int)
    requires ValidSpan(startIdx, endIdx) && 0 <= startIdx
    requires forall i :: 0 <= i < |segs| ==> !EqualsIgnoreCase(segs[i].fromStop, b.toStop)
    ensures !Blocks(segs, b, startIdx, endIdx)
  {
  }

  // ---------------------------------------------------------------------------
  // The search

  /** `searchAvailability`: validates the stops, sums the fares of the covered segments (failing
      as a whole, with the lookup's exception, at the first segment without exactly one fare) and
      marks the seats. */
  method SearchAvailability(
    segments: seq<Segment>, fares: seq<Fare>, seats: seq<Seat>, booked: seq<BookingSeat>,
    from: string, to: string, seatType: string)
    returns (r: Result<SearchResult>)
    ensures var s, e := StopIndex(segments, from), StopIndex(segments, to);
      !ValidSpan(s, e) ==> r == Err(InvalidStops)
    ensures var s, e := StopIndex(segments, from), StopIndex(segments, to);
      ValidSpan(s, e) && !FaresDefined(segments, fares, seatType, s, e) ==>
        var k := FirstUnpriced(segments, fares, seatType, s, e);
        r == Err(FareLookup(fares, segments[k].id, seatType).msg)
    ensures var s, e := StopIndex(segments, from), StopIndex(segments, to);
      ValidSpan(s, e) && FaresDefined(segments, fares, seatType, s, e) ==>
        var base := BaseSum(segments, fares, seatType, s, e);
        var gst := GstSum(segments, fares, seatType, s, e);
        r == Ok(SearchResult(FareResult(base, gst, base + gst), Availability(segments, seats, booked, s, e)))
  {
    var startIdx := IndexOf(segments, from);
    var endIdx := IndexOf(segments, to);
    if startIdx == -1 || endIdx == -1 || endIdx <= startIdx {
      return Err(InvalidStops);
    }

    var base, gst := 0.0, 0.0;
    for i := startIdx to endIdx
      invariant FaresDefined(segments, fares, seatType, startIdx, i)
      invariant base == BaseSum(segments, fares, seatType, startIdx, i)
      invariant gst == GstSum(segments, fares, seatType, startIdx, i)
    {
      var found := FareLookup(fares, segments[i].id, seatType);
      if found.Err? {
        FirstUnpricedIs(segments, fares, seatType, startIdx, endIdx, i);
        return Err(found.msg);
      }
      var fare := found.value;
      base := base + fare.baseFare;
      gst := gst + GstAmount(fare.baseFare, fare.gstPercent);
    }
    var total := base + gst;

    var availability := Availability(segments, seats, booked, startIdx, endIdx);
    return Ok(SearchResult(FareResult(base, gst, total), availability));
  }

  // ---------------------------------------------------------------------------
  // Worked route A -> B -> C -> D

  function SampleRoute(): seq<Segment>
  {
    [ Segment(1, 0, 1, "A", "B", 10.0, 30),
      Segment(2, 0, 2, "B", "C", 10.0, 30),
      Segment(3, 0, 3, "C", "D", 10.0, 30) ]
  }

  /** The terminus D is the `toStop` of the last segment and the `fromStop` of none, so it
      never resolves: a search ending there is rejected as an invalid stop selection. */
  lemma TerminusCannotBeResolved()
    ensures StopIndex(SampleRoute(), "D") == -1
    ensures StopIndex(SampleRoute(), "d") == -1
    ensures !ValidSpan(StopIndex(SampleRoute(), "B"), StopIndex(SampleRoute(), "D"))
  {
    var segs := SampleRoute();
    assert !EqualsIgnoreCase(segs[0].fromStop, "D") by { assert AsciiUpper(segs[0].fromStop[0]) != AsciiUpper('D'); }
    assert !EqualsIgnoreCase(segs[1].fromStop, "D") by { assert AsciiUpper(segs[1].fromStop[0]) != AsciiUpper('D'); }
    assert !EqualsIgnoreCase(segs[2].fromStop, "D") by { assert AsciiUpper(segs[2].fromStop[0]) != AsciiUpper('D'); }
    assert !EqualsIgnoreCase(segs[0].fromStop, "d") by { assert AsciiUpper(segs[0].fromStop[0]) != AsciiUpper('d'); }
    assert !EqualsIgnoreCase(segs[1].fromStop, "d") by { assert AsciiUpper(segs[1].fromStop[0]) != AsciiUpper('d'); }
    assert !EqualsIgnoreCase(segs[2].fromStop, "d") by { assert AsciiUpper(segs[2].fromStop[0]) != AsciiUpper('d'); }
  }

  /** A seat booked A -> C blocks a search A -> C and a search B -> C (case ignored). */
  lemma OverlappingBookingBlocks()
    ensures Blocks(SampleRoute(), BookingSeat("U1", "A", "C"), 0, 2)
    ensures Blocks(SampleRoute(), BookingSeat("U1", "a", "c"), 1, 2)
  {
    var segs := SampleRoute();
    assert EqualsIgnoreCase(segs[0].fromStop, "A");
    assert !EqualsIgnoreCase(segs[0].fromStop, "C") by { assert AsciiUpper(segs[0].fromStop[0]) != AsciiUpper('C'); }
    assert !EqualsIgnoreCase(segs[1].fromStop, "C") by { assert AsciiUpper(segs[1].fromStop[0]) != AsciiUpper('C'); }
    assert EqualsIgnoreCase(segs[2].fromStop, "C");
    assert EqualsIgnoreCase(segs[0].fromStop, "a");
    assert !EqualsIgnoreCase(segs[0].fromStop, "c") by { assert AsciiUpper(segs[0].fromStop[0]) != AsciiUpper('c'); }
    assert !EqualsIgnoreCase(segs[1].fromStop, "c") by { assert AsciiUpper(segs[1].fromStop[0]) != AsciiUpper('c'); }
    assert EqualsIgnoreCase(segs[2].fromStop, "c");
  }

  /** Two legs at base fare 100 and 5% tax cost (100 + 5) + (100 + 5) = 210. */
  lemma TwoLegFareExample()
    ensures var segs := SampleRoute();
      var fares := [Fare(7, 0, 2, "SLEEPER", 100.0, 5.0), Fare(8, 0, 3, "SLEEPER", 100.0, 5.0)];
      && FaresDefined(segs, fares, "SLEEPER", 1, 3)
      && BaseSum(segs, fares, "SLEEPER", 1, 3) == 200.0
      && GstSum(segs, fares, "SLEEPER", 1, 3) == 10.0
  {
  }
}
