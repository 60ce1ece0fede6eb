/** The public trip search of `SearchController`: stop names are normalised
    ("  bENGALURU " becomes "Bengaluru"), every matching schedule is moved onto
    the searched date keeping its UTC time of day, and each one is priced for
    the seat type "SLEEPER". */
module TripSearch {
  import opened Wrappers
  import opened Text
  import opened RouteAdmin

  /** What `substring(0, 1)` throws on the empty string. */
  const EmptySubstring := "java.lang.StringIndexOutOfBoundsException: begin 0, end 1, length 0"
  const SearchSeatType := "SLEEPER"
  const MsPerDay := 86_400_000

  /** First char upper-cased, the rest lower-cased. */
  function Capitalize(t: string): (r: string)
    requires t != []
    ensures |r| == |t| && r[0] == AsciiUpper(t[0])
    ensures forall i :: 1 <= i < |r| ==> r[i] == AsciiLower(t[i])
  {
    [AsciiUpper(t[0])] + LowerAll(t[1..])
  }

  /** `normalizeStopName`: `null` and "" come back as they are; anything else is trimmed and becomes
      its first char upper-cased followed by the rest lower-cased. A blank name trims to "" and fails. */
  function NormalizeStopName(stop: Option<string>): (r: Result<Option<string>>)
    ensures (stop.None? || stop.value == []) ==> r == Ok(stop)
    ensures r.Err? <==> stop.Some? && stop.value != [] && forall i :: 0 <= i < |stop.value| ==> IsJavaSpace(stop.value[i])
    ensures r.Err? ==> r.msg == EmptySubstring
    ensures r.Ok? && stop.Some? && stop.value != [] ==>
      && r.value.Some?
      && |r.value.value| == |Trim(stop.value, IsJavaSpace)| > 0
      && r.value.value[0] == AsciiUpper(Trim(stop.value, IsJavaSpace)[0])
      && forall i :: 1 <= i < |r.value.value| ==> r.value.value[i] == AsciiLower(Trim(stop.value, IsJavaSpace)[i])
  {
    if stop.None? || stop.value == [] then Ok(stop)
    else
      var t := Trim(stop.value, IsJavaSpace);
      if t == [] then Err(EmptySubstring)
      else Ok(Some(Capitalize(t)))
  }

  /** A capitalised name neither starts nor ends with a blank, and capitalising it again changes nothing. */
  lemma CapitalizeStable(t: string)
    requires t != [] && !IsJavaSpace(t[0]) && !IsJavaSpace(t[|t| - 1])
    ensures var n := Capitalize(t); !IsJavaSpace(n[0]) && !IsJavaSpace(n[|n| - 1])
    ensures Capitalize(Capitalize(t)) == Capitalize(t)
  {
    var n := Capitalize(t);
    var n2 := Capitalize(n);
    assert |n2| == |n|;
    forall i | 0 <= i < |n| ensures n2[i] == n[i] {
    }
  }

  /** On a non-empty name, normalising is trimming and then capitalising, failing when nothing is left. */
  lemma NormalizeSome(s: string)
    requires s != []
    ensures Trim(s, IsJavaSpace) == [] ==> NormalizeStopName(Some(s)) == Err(EmptySubstring)
    ensures Trim(s, IsJavaSpace) != [] ==> NormalizeStopName(Some(s)) == Ok(Some(Capitalize(Trim(s, IsJavaSpace))))
  {
  }

  /** Normalising a name twice gives the name normalised once. */
  lemma NormalizeIdempotent(stop: Option<string>)
    requires NormalizeStopName(stop).Ok?
    ensures NormalizeStopName(NormalizeStopName(stop).value) == NormalizeStopName(stop)
  {
    if stop.Some? && stop.value != [] {
      var t := Trim(stop.value, IsJavaSpace);
      NormalizeSome(stop.value);
      var n := Capitalize(t);
      CapitalizeStable(t);
      TrimOfTrimmed(n, IsJavaSpace);
      NormalizeSome(n);
    }
  }

  lemma TrimStartExample()
    ensures TrimStart("  bENGALURU ", IsJavaSpace) == "bENGALURU "
  {
    var s := "  bENGALURU ";
    var r := TrimStart(s, IsJavaSpace);
    assert !IsJavaSpace(s[2]);
    assert |s| - |r| == 2;
  }

  lemma TrimEndExample()
    ensures TrimEnd("bENGALURU ", IsJavaSpace) == "bENGALURU"
  {
    var u := "bENGALURU ";
    assert TrimEnd(u[..|u| - 1], IsJavaSpace) == u[..|u| - 1];
  }

  lemma TrimExample()
    ensures Trim("  bENGALURU ", IsJavaSpace) == "bENGALURU"
  {
    TrimStartExample();
    TrimEndExample();
  }

  lemma CapitalizeExample()
    ensures Capitalize("bENGALURU") == "Bengaluru"
  {
    var r := Capitalize("bENGALURU");
    forall i | 0 <= i < 9 ensures r[i] == "Bengaluru"[i] {
    }
  }

  /** The documented example: surrounding blanks go, the first letter is capitalised, the rest lowered. */
  lemma NormalizeExample()
    ensures NormalizeStopName(Some("  bENGALURU ")) == Ok(Some("Bengaluru"))
  {
    TrimExample();
    CapitalizeExample();
  }

  /** `adjustToDate`: the instant on day `targetDay` (days since the epoch) at the UTC time of day of
      `originalTime`; both are milliseconds since the epoch. */
  function AdjustToDate(originalTime: int, targetDay: int): (r: int)
    ensures r / MsPerDay == targetDay
    ensures r % MsPerDay == originalTime % MsPerDay
  {
    targetDay * MsPerDay + originalTime % MsPerDay
  }

  /** An instant already on the target day is left as it is, and re-basing twice is re-basing once
      onto the last day. */
  lemma {:induction false} AdjustToDateProperties(t: int, d1: int, d2: int)
    ensures t / MsPerDay == d1 ==> AdjustToDate(t, d1) == t
    ensures AdjustToDate(AdjustToDate(t, d1), d2) == AdjustToDate(t, d2)
  {
    var a := AdjustToDate(t, d1);
    assert a % MsPerDay == t % MsPerDay;
    if t / MsPerDay == d1 {
      assert t == (t / MsPerDay) * MsPerDay + t % MsPerDay;
    }
  }

  /** The copy of a schedule that `search` prices: same row, both times moved onto the searched day. */
  function OnDate(schedule: Schedule, day: int): (r: Schedule)
    ensures r.id == schedule.id && r.routeId == schedule.routeId && r.busId == schedule.busId
    ensures r.frequency == schedule.frequency && r.active == schedule.active
    ensures r.departureTime / MsPerDay == day && r.departureTime % MsPerDay == schedule.departureTime % MsPerDay
    ensures r.arrivalTime / MsPerDay == day && r.arrivalTime % MsPerDay == schedule.arrivalTime % MsPerDay
  {
    schedule.(departureTime := AdjustToDate(schedule.departureTime, day),
              arrivalTime := AdjustToDate(schedule.arrivalTime, day))
  }

  /** The per-schedule call of `search`: the availability of the schedule's copy on the searched day,
      between the normalised stops, for the seat type "SLEEPER". */
  function Priced<R>(schedule: Schedule, day: int, nf: string, nt: string,
                     availability: (Schedule, string, string, string) -> Result<R>): Result<R>
  {
    availability(OnDate(schedule, day), nf, nt, SearchSeatType)
  }

  /** The `k`-th schedule is the first whose pricing throws, and it throws `msg`. */
  predicate FirstFailureAt<R>(found: seq<Schedule>, day: int, nf: string, nt: string,
                              availability: (Schedule, string, string, string) -> Result<R>, k: int, msg: string)
  {
    && 0 <= k < |found|
    && Priced(found[k], day, nf, nt, availability) == Err(msg)
    && forall j :: 0 <= j < k ==> Priced(found[j], day, nf, nt, availability).Ok?
  }

  /** The stream of `search` collected by `toList`: every schedule is priced in order, and the first
      call that throws aborts the whole list with its exception. */
  function PriceAll<R>(found: seq<Schedule>, day: int, nf: string, nt: string,
                       availability: (Schedule, string, string, string) -> Result<R>): (r: Result<seq<R>>)
    ensures r.Ok? <==> forall k :: 0 <= k < |found| ==> Priced(found[k], day, nf, nt, availability).Ok?
    ensures r.Ok? ==> |r.value| == |found|
    ensures r.Ok? ==> forall k :: 0 <= k < |found| ==> r.value[k] == Priced(found[k], day, nf, nt, availability).value
    ensures r.Err? ==> exists k :: FirstFailureAt(found, day, nf, nt, availability, k, r.msg)
  {
    if found == [] then Ok([])
    else
      var first := Priced(found[0], day, nf, nt, availability);
      if first.Err? then
        assert FirstFailureAt(found, day, nf, nt, availability, 0, first.msg);
        Err(first.msg)
      else
        var rest := PriceAll(found[1..], day, nf, nt, availability);
        assert forall k :: 1 <= k < |found| ==> found[k] == found[1..][k - 1];
        if rest.Err? then
          var k :| FirstFailureAt(found[1..], day, nf, nt, availability, k, rest.msg);
          assert FirstFailureAt(found, day, nf, nt, availability, k + 1, rest.msg);
          Err(rest.msg)
        else Ok([first.value] + rest.value)
  }

  /** `search`: both stop names are normalised first, then the schedules found for the normalised names
      and the day are priced one by one, in order; the first pricing that throws fails the whole search.
      The schedule query and the per-schedule availability are given as functions. */
  function Search<R>(from: string, to: string, day: int,
                     findSchedules: (string, string, int) -> seq<Schedule>,
                     availability: (Schedule, string, string, string) -> Result<R>): (r: Result<seq<R>>)
    ensures NormalizeStopName(Some(from)).Err? || NormalizeStopName(Some(to)).Err? ==> r == Err(EmptySubstring)
    ensures NormalizeStopName(Some(from)).Ok? && NormalizeStopName(Some(to)).Ok? ==>
      var nf := NormalizeStopName(Some(from)).value.value;
      var nt := NormalizeStopName(Some(to)).value.value;
      var found := findSchedules(nf, nt, day);
      && (r.Ok? <==> forall k :: 0 <= k < |found| ==> Priced(found[k], day, nf, nt, availability).Ok?)
      && (r.Ok? ==> |r.value| == |found|)
      && (r.Ok? ==> forall k :: 0 <= k < |found| ==> r.value[k] == Priced(found[k], day, nf, nt, availability).value)
      && (r.Err? ==> exists k :: FirstFailureAt(found, day, nf, nt, availability, k, r.msg))
  {
    var nf :- NormalizeStopName(Some(from));
    var nt :- NormalizeStopName(Some(to));
    PriceAll(findSchedules(nf.value, nt.value, day), day, nf.value, nt.value, availability)
  }
}
