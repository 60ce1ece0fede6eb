/** Route administration in `RouteService`: segments are numbered as they are
    added, the route's distance is the sum of its legs, a fare's total adds its
    tax, only the owning operator may read or delete a route's data, deleting a
    schedule only deactivates it, and deleting a route removes its schedules,
    fares and segments first. The repositories are the fields of one class. */
module RouteAdmin {
  import opened Wrappers
  import opened Entities

  datatype Route = Route(id: Uuid, operatorId: Option<Uuid>, name: string, origin: string, destination: string,
                         distanceKm: Option<real>)

  datatype Schedule = Schedule(id: Uuid, routeId: Uuid, busId: Uuid, departureTime: int, arrivalTime: int,
                               frequency: string, active: bool)

  datatype SegmentRequest = SegmentRequest(fromStop: string, toStop: string, distanceKm: real, durationMinutes: int)
  datatype FareRequest = FareRequest(segmentId: Uuid, seatType: string, baseFare: real, gstPercent: real)
  datatype ScheduleRequest = ScheduleRequest(busId: Uuid, departureTime: int, arrivalTime: int, frequency: string)
  datatype FareResponse = FareResponse(id: Uuid, routeId: Uuid, segmentId: Uuid, seatType: string,
                                       baseFare: real, gstPercent: real, totalFare: real)

  const RouteNotFound := "Route not found"
  const SegmentNotFound := "Segment not found"
  const ScheduleNotFound := "Schedule not found"
  const BusNotFound := "Bus not found"
  const NotAnOperator := "User not an operator"
  const NotYourRoute := "Not your route"
  const YouAreNotAnOperator := "You are not an operator"
  const AccessDenied := "Access denied"
  /** What the store reports when deleting a segment that a remaining fare still references. */
  const SegmentStillReferenced := "update or delete on table \"route_segments\" violates foreign key constraint on table \"fares\""

  // ---------------------------------------------------------------------------
  // Ownership

  /** The caller belongs to the operator that owns the route. */
  predicate Owns(user: User, route: Route)
  {
    user.operatorId.Some? && route.operatorId == user.operatorId
  }

  /** The check in `recomputeDistance`, which also tests the route's operator for null. */
  function RecomputeCheck(user: User, route: Route): Result<()>
  {
    if user.operatorId.None? || route.operatorId.None? || route.operatorId.value != user.operatorId.value
    then Err(NotYourRoute) else Ok(())
  }

  /** The check in `listSegments`: two separate tests, the second dereferencing the route's operator. */
  function ListSegmentsCheck(user: User, route: Route): Result<()>
  {
    if user.operatorId.None? then Err(YouAreNotAnOperator)
    else if route.operatorId.None? then Err(NullPointer)
    else if route.operatorId.value != user.operatorId.value then Err(NotYourRoute)
    else Ok(())
  }

  /** The check in `getSchedule`, `deleteSchedule` and `deleteRoute`: `||` short-circuits on a caller
      without an operator; otherwise the route's operator is dereferenced. */
  function AccessCheck(user: User, route: Route): Result<()>
  {
    if user.operatorId.None? then Err(AccessDenied)
    else if route.operatorId.None? then Err(NullPointer)
    else if route.operatorId.value != user.operatorId.value then Err(AccessDenied)
    else Ok(())
  }

  /** Each of the three checks lets exactly the owner through; a caller without an operator gets the
      check's own refusal, and only a route without an operator can raise a null dereference. */
  lemma OwnershipChecksAdmitExactlyTheOwner(user: User, route: Route)
    ensures RecomputeCheck(user, route).Ok? <==> Owns(user, route)
    ensures ListSegmentsCheck(user, route).Ok? <==> Owns(user, route)
    ensures AccessCheck(user, route).Ok? <==> Owns(user, route)
    ensures !Owns(user, route) ==> RecomputeCheck(user, route) == Err(NotYourRoute)
    ensures user.operatorId.None? ==> ListSegmentsCheck(user, route) == Err(YouAreNotAnOperator)
    ensures user.operatorId.None? ==> AccessCheck(user, route) == Err(AccessDenied)
    ensures user.operatorId.Some? && route.operatorId.Some? && !Owns(user, route) ==>
      ListSegmentsCheck(user, route) == Err(NotYourRoute) && AccessCheck(user, route) == Err(AccessDenied)
  {
  }

  // ---------------------------------------------------------------------------
  // Segments of one route

  /** `findByRouteOrderBySeq` before ordering: the route's segments in table order. */
  function RouteSegments(segs: seq<Segment>, routeId: Uuid): (r: seq<Segment>)
    ensures |r| <= |segs|
    ensures forall k :: 0 <= k < |r| ==> r[k].routeId == routeId && r[k] in segs
  {
    if segs == [] then []
    else
      var last := segs[|segs| - 1];
      RouteSegments(segs[..|segs| - 1], routeId) + (if last.routeId == routeId then [last] else [])
  }

  lemma RouteSegmentsAppend(segs: seq<Segment>, s: Segment, routeId: Uuid)
    ensures RouteSegments(segs + [s], routeId)
         == RouteSegments(segs, routeId) + (if s.routeId == routeId then [s] else [])
  {
    assert (segs + [s])[..|segs|] == segs;
  }

  /** A route's segments carry seq 1, 2, ..., n in table order: distinct, increasing and contiguous,
      so table order is `seq` order. */
  predicate Numbered(segs: seq<Segment>, routeId: Uuid)
  {
    forall k :: 0 <= k < |RouteSegments(segs, routeId)| ==> RouteSegments(segs, routeId)[k].seqNo == k + 1
  }

  /** `max(seq).orElse(0)`. */
  function MaxSeq(segs: seq<Segment>): (m: int)
    ensures segs == [] ==> m == 0
    ensures forall k :: 0 <= k < |segs| ==> segs[k].seqNo <= m
    ensures segs != [] ==> exists k :: 0 <= k < |segs| && segs[k].seqNo == m
  {
    if segs == [] then 0
    else if |segs| == 1 then segs[0].seqNo
    else
      var m := MaxSeq(segs[1..]);
      if segs[0].seqNo >= m then segs[0].seqNo else m
  }

  /** Under the numbering, the largest seq is the number of segments. */
  lemma MaxSeqOfNumbered(segs: seq<Segment>, routeId: Uuid)
    requires Numbered(segs, routeId)
    ensures MaxSeq(RouteSegments(segs, routeId)) == |RouteSegments(segs, routeId)|
  {
    var rs := RouteSegments(segs, routeId);
    if rs != [] {
      assert rs[|rs| - 1].seqNo == |rs|;
    }
  }

  /** Sum of the legs' `distanceKm`, starting from zero. */
  function DistanceSum(segs: seq<Segment>): real
  {
    if segs == [] then 0.0 else DistanceSum(segs[..|segs| - 1]) + segs[|segs| - 1].distanceKm
  }

  /** First segment with the id, as `findById`. */
  function FindSegment(segs: seq<Segment>, id: Uuid): (r: Option<Segment>)
    ensures r.Some? <==> exists k :: 0 <= k < |segs| && segs[k].id == id
    ensures r.Some? ==> r.value in segs && r.value.id == id
  {
    if segs == [] then None
    else if segs[0].id == id then Some(segs[0])
    else FindSegment(segs[1..], id)
  }

  predicate SegmentExists(segs: seq<Segment>, id: Uuid)
  {
    exists k :: 0 <= k < |segs| && segs[k].id == id
  }

  function SegmentIds(segs: seq<Segment>): set<Uuid>
  {
    set k | 0 <= k < |segs| :: segs[k].id
  }

  /** Foreign keys hold and every route's segments are numbered 1..n. */
  ghost predicate Consistent(routes: map<Uuid, Route>, segments: seq<Segment>, fares: seq<Fare>, schedules: map<Uuid, Schedule>)
  {
    && (forall k :: 0 <= k < |segments| ==> segments[k].routeId in routes)
    && (forall k :: 0 <= k < |fares| ==> fares[k].routeId in routes && fares[k].segmentId in SegmentIds(segments))
    && (forall id :: id in schedules ==> schedules[id].id == id && schedules[id].routeId in routes)
    && (forall routeId :: Numbered(segments, routeId))
  }

  /** The schedules that do not run on `routeId`. */
  function SchedulesNotOf(schedules: map<Uuid, Schedule>, routeId: Uuid): (r: map<Uuid, Schedule>)
    ensures forall id :: id in r <==> id in schedules && schedules[id].routeId != routeId
    ensures forall id :: id in r ==> r[id] == schedules[id]
  {
    map id | id in schedules && schedules[id].routeId != routeId :: schedules[id]
  }

  /** Deleting a route's schedules and fares, and then its segments and the route itself when no fare
      still names one of them, keeps the tables consistent. */
  lemma DeleteRouteKeepsConsistent(routes: map<Uuid, Route>, segments: seq<Segment>, fares: seq<Fare>,
                                   schedules: map<Uuid, Schedule>, routeId: Uuid)
    requires Consistent(routes, segments, fares, schedules)
    ensures Consistent(routes, segments, FaresNotOf(fares, routeId), SchedulesNotOf(schedules, routeId))
    ensures !StillReferenced(segments, FaresNotOf(fares, routeId), routeId) ==>
      Consistent(routes - {routeId}, SegmentsNotOf(segments, routeId), FaresNotOf(fares, routeId),
                 SchedulesNotOf(schedules, routeId))
  {
    var fs := FaresNotOf(fares, routeId);
    forall k | 0 <= k < |fs| ensures fs[k].routeId in routes && fs[k].segmentId in SegmentIds(segments) {
      assert fs[k] in fares;
    }
    if !StillReferenced(segments, fs, routeId) {
      var ss := SegmentsNotOf(segments, routeId);
      forall k | 0 <= k < |ss| ensures ss[k].routeId in routes - {routeId} {
        assert ss[k] in segments;
      }
      forall k | 0 <= k < |fs| ensures fs[k].routeId in routes - {routeId} && fs[k].segmentId in SegmentIds(ss) {
        assert fs[k] in fares;
        SegmentsNotOfKeepsIds(segments, routeId, fs[k].segmentId);
      }
      forall routeId' ensures Numbered(ss, routeId') {
        assert Numbered(segments, routeId');
        RouteSegmentsAfterDelete(segments, routeId, routeId');
      }
    }
  }

  /** Appending the next segment of a route keeps the tables consistent. */
  lemma AddSegmentKeepsConsistent(routes: map<Uuid, Route>, segments: seq<Segment>, fares: seq<Fare>,
                                  schedules: map<Uuid, Schedule>, seg: Segment)
    requires Consistent(routes, segments, fares, schedules)
    requires seg.routeId in routes && seg.seqNo == |RouteSegments(segments, seg.routeId)| + 1
    ensures Consistent(routes, segments + [seg], fares, schedules)
  {
    var after := segments + [seg];
    forall routeId ensures Numbered(after, routeId) {
      assert Numbered(segments, routeId);
      RouteSegmentsAppend(segments, seg, routeId);
    }
    forall k | 0 <= k < |fares| ensures fares[k].segmentId in SegmentIds(after) {
      assert fares[k].segmentId in SegmentIds(segments);
      var j :| 0 <= j < |segments| && segments[j].id == fares[k].segmentId;
      assert after[j] == segments[j];
    }
  }

  class RouteService {
    var routes: map<Uuid, Route>
    var segments: seq<Segment>
    var fares: seq<Fare>
    var schedules: map<Uuid, Schedule>
    var buses: set<Uuid>

    /** Foreign keys hold and every route's segments are numbered 1..n. */
    ghost predicate Valid()
      reads this
    {
      Consistent(routes, segments, fares, schedules)
    }

    constructor (buses: set<Uuid>)
      ensures Valid()
      ensures this.routes == map[] && segments == [] && fares == [] && schedules == map[] && this.buses == buses
    {
      this.routes := map[];
      segments := [];
      fares := [];
      schedules := map[];
      this.buses := buses;
    }

    /** `createRoute`: only an operator may create a route, which it then owns. */
    method CreateRoute(user: User, name: string, origin: string, destination: string, newId: Uuid)
      returns (r: Result<Route>)
      requires Valid() && newId !in routes
      modifies this
      ensures Valid()
      ensures user.operatorId.None? ==> r == Err(NotAnOperator) && unchanged(this)
      ensures user.operatorId.Some? ==>
        && r == Ok(Route(newId, user.operatorId, name, origin, destination, None))
        && routes == old(routes)[newId := r.value] && Owns(user, r.value)
        && segments == old(segments) && fares == old(fares) && schedules == old(schedules) && buses == old(buses)
    {
      if user.operatorId.None? {
        return Err(NotAnOperator);
      }
      var route := Route(newId, user.operatorId, name, origin, destination, None);
      routes := routes[newId := route];
      r := Ok(route);
      forall routeId ensures Numbered(segments, routeId) {
        assert old(Numbered(segments, routeId));
      }
    }

    /** `recomputeDistance`: stores and returns the sum of the route's segment distances. */
    method RecomputeDistance(routeId: Uuid, user: User) returns (r: Result<real>)
      requires Valid()
      modifies this
      ensures Valid()
      ensures routeId !in old(routes) ==> r == Err(RouteNotFound) && unchanged(this)
      ensures routeId in old(routes) && !Owns(user, old(routes)[routeId]) ==> r == Err(NotYourRoute) && unchanged(this)
      ensures routeId in old(routes) && Owns(user, old(routes)[routeId]) ==>
        && r == Ok(DistanceSum(RouteSegments(segments, routeId)))
        && routes == old(routes)[routeId := old(routes)[routeId].(distanceKm := Some(r.value))]
        && segments == old(segments) && fares == old(fares) && schedules == old(schedules) && buses == old(buses)
    {
      if routeId !in routes {
        return Err(RouteNotFound);
      }
      var route := routes[routeId];
      var check := RecomputeCheck(user, route);
      if check.Err? {
        return Err(check.msg);
      }
      var total := DistanceSum(RouteSegments(segments, routeId));
      routes := routes[routeId := route.(distanceKm := Some(total))];
      r := Ok(total);
      forall id | id in schedules ensures schedules[id].routeId in routes { }
      forall routeId' ensures Numbered(segments, routeId') {
        assert old(Numbered(segments, routeId'));
      }
    }

    /** `addSegment`: appends a segment numbered one past the route's largest seq (1 on an empty
        route). No ownership check is made. */
    method AddSegment(routeId: Uuid, req: SegmentRequest, newId: Uuid) returns (r: Result<Segment>)
      requires Valid()
      modifies this
      ensures Valid()
      ensures routeId !in old(routes) ==> r == Err(RouteNotFound) && unchanged(this)
      ensures routeId in old(routes) ==>
        && r.Ok?
        && r.value == Segment(newId, routeId, |RouteSegments(old(segments), routeId)| + 1,
                              req.fromStop, req.toStop, req.distanceKm, req.durationMinutes)
        && segments == old(segments) + [r.value]
        && routes == old(routes) && fares == old(fares) && schedules == old(schedules) && buses == old(buses)
    {
      if routeId !in routes {
        return Err(RouteNotFound);
      }
      var maxSeq := MaxSeq(RouteSegments(segments, routeId));
      MaxSeqOfNumbered(segments, routeId);
      var seg := Segment(newId, routeId, maxSeq + 1, req.fromStop, req.toStop, req.distanceKm, req.durationMinutes);
      AddSegmentKeepsConsistent(routes, segments, fares, schedules, seg);
      segments := segments + [seg];
      r := Ok(seg);
    }

    /** `addFare`: checks the route and the segment, stores the fare, and answers with the request's
        values and the total `baseFare + baseFare * gstPercent / 100`. The segment need not belong to
        the route. */
    method AddFare(routeId: Uuid, req: FareRequest, newId: Uuid) returns (r: Result<FareResponse>)
      requires Valid()
      modifies this
      ensures Valid()
      ensures routeId !in old(routes) ==> r == Err(RouteNotFound) && unchanged(this)
      ensures routeId in old(routes) && !SegmentExists(old(segments), req.segmentId) ==>
        r == Err(SegmentNotFound) && unchanged(this)
      ensures routeId in old(routes) && SegmentExists(old(segments), req.segmentId) ==>
        && r == Ok(FareResponse(newId, routeId, req.segmentId, req.seatType, req.baseFare, req.gstPercent,
                                req.baseFare + GstAmount(req.baseFare, req.gstPercent)))
        && fares == old(fares) + [Fare(newId, routeId, req.segmentId, req.seatType, req.baseFare, req.gstPercent)]
        && routes == old(routes) && segments == old(segments) && schedules == old(schedules) && buses == old(buses)
    {
      if routeId !in routes {
        return Err(RouteNotFound);
      }
      var segment := FindSegment(segments, req.segmentId);
      if segment.None? {
        return Err(SegmentNotFound);
      }
      var fare := Fare(newId, routeId, req.segmentId, req.seatType, req.baseFare, req.gstPercent);
      fares := fares + [fare];
      var gstAmount := GstAmount(req.baseFare, req.gstPercent);
      var totalFare := req.baseFare + gstAmount;
      r := Ok(FareResponse(newId, routeId, req.segmentId, req.seatType, req.baseFare, req.gstPercent, totalFare));
      assert segments[..] == segments;
      var j :| 0 <= j < |segments| && segments[j].id == req.segmentId;
      assert req.segmentId in SegmentIds(segments);
    }

    /** `createSchedule`: the new schedule is always active. */
    method CreateSchedule(routeId: Uuid, req: ScheduleRequest, newId: Uuid) returns (r: Result<Schedule>)
      requires Valid() && newId !in schedules
      modifies this
      ensures Valid()
      ensures routeId !in old(routes) ==> r == Err(RouteNotFound) && unchanged(this)
      ensures routeId in old(routes) && req.busId !in buses ==> r == Err(BusNotFound) && unchanged(this)
      ensures routeId in old(routes) && req.busId in buses ==>
        && r == Ok(Schedule(newId, routeId, req.busId, req.departureTime, req.arrivalTime, req.frequency, true))
        && schedules == old(schedules)[newId := r.value]
        && routes == old(routes) && segments == old(segments) && fares == old(fares) && buses == old(buses)
    {
      if routeId !in routes {
        return Err(RouteNotFound);
      }
      if req.busId !in buses {
        return Err(BusNotFound);
      }
      var schedule := Schedule(newId, routeId, req.busId, req.departureTime, req.arrivalTime, req.frequency, true);
      schedules := schedules[newId := schedule];
      r := Ok(schedule);
    }

    /** `listSegments`: the owner sees the route's segments in seq order. */
    function ListSegments(routeId: Uuid, user: User): (r: Result<seq<Segment>>)
      reads this
      requires Valid()
      ensures routeId !in routes ==> r == Err(RouteNotFound)
      ensures routeId in routes ==> (r.Ok? <==> Owns(user, routes[routeId]))
      ensures routeId in routes && r.Err? ==> r == Err(ListSegmentsCheck(user, routes[routeId]).msg)
      ensures r.Ok? ==> r.value == RouteSegments(segments, routeId)
      ensures r.Ok? ==> forall k :: 0 <= k < |r.value| ==> r.value[k].routeId == routeId && r.value[k].seqNo == k + 1
    {
      if routeId !in routes then Err(RouteNotFound)
      else
        var check := ListSegmentsCheck(user, routes[routeId]);
        if check.Err? then Err(check.msg)
        else
          assert Numbered(segments, routeId);
          Ok(RouteSegments(segments, routeId))
    }

    /** `getSchedule`: only the owner of the schedule's route may read it. */
    function GetSchedule(scheduleId: Uuid, user: User): (r: Result<Schedule>)
      reads this
      requires Valid()
      ensures scheduleId !in schedules ==> r == Err(ScheduleNotFound)
      ensures scheduleId in schedules ==>
        (r.Ok? <==> Owns(user, routes[schedules[scheduleId].routeId]))
      ensures scheduleId in schedules && r.Err? ==>
        r == Err(AccessCheck(user, routes[schedules[scheduleId].routeId]).msg)
      ensures r.Ok? ==> r.value == schedules[scheduleId]
    {
      if scheduleId !in schedules then Err(ScheduleNotFound)
      else
        var schedule := schedules[scheduleId];
        var check := AccessCheck(user, routes[schedule.routeId]);
        if check.Err? then Err(check.msg) else Ok(schedule)
    }

    /** `listRoutes`: the routes the caller's operator owns. */
    function ListRoutes(user: User): (r: Result<set<Route>>)
      reads this
      ensures user.operatorId.None? <==> r == Err(NotAnOperator)
      ensures r.Ok? ==> forall route :: route in r.value <==> route in routes.Values && Owns(user, route)
    {
      if user.operatorId.None? then Err(NotAnOperator) else Ok(OwnedRoutes(routes, user))
    }

    /** `listSchedules`: every schedule, active or not, on a route the caller's operator owns. */
    function ListSchedules(user: User): (r: Result<set<Schedule>>)
      reads this
      requires Valid()
      ensures user.operatorId.None? <==> r == Err(NotAnOperator)
      ensures r.Ok? ==> forall s :: s in r.value <==> s in schedules.Values && Owns(user, routes[s.routeId])
    {
      if user.operatorId.None? then Err(NotAnOperator) else Ok(OwnedSchedules(routes, schedules, user))
    }

    /** `deleteSchedule`: a soft delete; the row stays with every other field as it was. */
    method DeleteSchedule(scheduleId: Uuid, user: User) returns (r: Result<()>)
      requires Valid()
      modifies this
      ensures Valid()
      ensures scheduleId !in old(schedules) ==> r == Err(ScheduleNotFound) && unchanged(this)
      ensures scheduleId in old(schedules) && !Owns(user, old(routes)[old(schedules)[scheduleId].routeId]) ==>
        r == Err(AccessCheck(user, old(routes)[old(schedules)[scheduleId].routeId]).msg) && unchanged(this)
      ensures scheduleId in old(schedules) && Owns(user, old(routes)[old(schedules)[scheduleId].routeId]) ==>
        && r.Ok?
        && schedules == old(schedules)[scheduleId := old(schedules)[scheduleId].(active := false)]
        && routes == old(routes) && segments == old(segments) && fares == old(fares) && buses == old(buses)
    {
      if scheduleId !in schedules {
        return Err(ScheduleNotFound);
      }
      var schedule := schedules[scheduleId];
      var check := AccessCheck(user, routes[schedule.routeId]);
      if check.Err? {
        return Err(check.msg);
      }
      schedules := schedules[scheduleId := schedule.(active := false)];
      r := Ok(());
    }

    /** `deleteRoute`: removes the route's schedules, then its fares, then its segments, then the
        route. The deletes are separate: when a fare of another route still references one of its
        segments, the segment delete fails and the schedules and fares are already gone. */
    method DeleteRoute(routeId: Uuid, user: User) returns (r: Result<()>)
      requires Valid()
      modifies this
      ensures Valid()
      ensures routeId !in old(routes) ==> r == Err(RouteNotFound) && unchanged(this)
      ensures routeId in old(routes) && !Owns(user, old(routes)[routeId]) ==>
        r == Err(AccessCheck(user, old(routes)[routeId]).msg) && unchanged(this)
      ensures routeId in old(routes) && Owns(user, old(routes)[routeId]) ==>
        && schedules == SchedulesNotOf(old(schedules), routeId)
        && fares == FaresNotOf(old(fares), routeId)
        && buses == old(buses)
        && (if StillReferenced(old(segments), FaresNotOf(old(fares), routeId), routeId)
            then r == Err(SegmentStillReferenced) && segments == old(segments) && routes == old(routes)
            else r.Ok? && segments == SegmentsNotOf(old(segments), routeId) && routes == old(routes) - {routeId})
    {
      if routeId !in routes {
        return Err(RouteNotFound);
      }
      var check := AccessCheck(user, routes[routeId]);
      if check.Err? {
        return Err(check.msg);
      }
      var keptSchedules := SchedulesNotOf(schedules, routeId);
      var keptFares := FaresNotOf(fares, routeId);
      DeleteRouteKeepsConsistent(routes, segments, fares, schedules, routeId);
      schedules, fares := keptSchedules, keptFares;
      if StillReferenced(segments, keptFares, routeId) {
        return Err(SegmentStillReferenced);
      }
      segments, routes := SegmentsNotOf(segments, routeId), routes - {routeId};
      r := Ok(());
    }
  }

  function OwnedRoutes(routes: map<Uuid, Route>, user: User): set<Route>
  {
    set route | route in routes.Values && Owns(user, route)
  }

  function OwnedSchedules(routes: map<Uuid, Route>, schedules: map<Uuid, Schedule>, user: User): set<Schedule>
  {
    set s | s in schedules.Values && s.routeId in routes && Owns(user, routes[s.routeId])
  }

  /** The fares left after deleting those of a route: exactly the other routes' fares. */
  function FaresNotOf(fares: seq<Fare>, routeId: Uuid): (r: seq<Fare>)
    ensures forall k :: 0 <= k < |r| ==> r[k].routeId != routeId && r[k] in fares
    ensures forall f :: f in fares && f.routeId != routeId ==> f in r
  {
    if fares == [] then []
    else (if fares[0].routeId != routeId then [fares[0]] else []) + FaresNotOf(fares[1..], routeId)
  }

  /** The segments left after deleting those of a route. */
  function SegmentsNotOf(segs: seq<Segment>, routeId: Uuid): (r: seq<Segment>)
    ensures forall k :: 0 <= k < |r| ==> r[k].routeId != routeId && r[k] in segs
  {
    if segs == [] then []
    else
      var last := segs[|segs| - 1];
      SegmentsNotOf(segs[..|segs| - 1], routeId) + (if last.routeId != routeId then [last] else [])
  }

  /** Some segment of the route is still referenced by one of the given fares. */
  predicate StillReferenced(segs: seq<Segment>, fares: seq<Fare>, routeId: Uuid)
  {
    exists k, j :: 0 <= k < |fares| && 0 <= j < |segs| && segs[j].routeId == routeId && segs[j].id == fares[k].segmentId
  }

  /** A segment id still referenced after the delete belongs to a segment of another route, which stays. */
  lemma {:induction false} SegmentsNotOfKeepsIds(segs: seq<Segment>, routeId: Uuid, id: Uuid)
    requires id in SegmentIds(segs)
    requires forall j :: 0 <= j < |segs| && segs[j].id == id ==> segs[j].routeId != routeId
    ensures id in SegmentIds(SegmentsNotOf(segs, routeId))
    decreases |segs|
  {
    var last := segs[|segs| - 1];
    var init := segs[..|segs| - 1];
    var rest := SegmentsNotOf(init, routeId);
    if last.id == id {
      var r := SegmentsNotOf(segs, routeId);
      assert r[|r| - 1] == last;
    } else {
      var j :| 0 <= j < |segs| && segs[j].id == id;
      assert init[j] == segs[j];
      SegmentsNotOfKeepsIds(init, routeId, id);
      var i :| 0 <= i < |rest| && rest[i].id == id;
      assert SegmentsNotOf(segs, routeId)[i] == rest[i];
    }
  }

  /** Deleting one route's segments empties its list and leaves every other route's list as it was. */
  lemma {:induction false} RouteSegmentsAfterDelete(segs: seq<Segment>, deleted: Uuid, routeId: Uuid)
    ensures RouteSegments(SegmentsNotOf(segs, deleted), routeId)
         == if routeId == deleted then [] else RouteSegments(segs, routeId)
    decreases |segs|
  {
    if segs != [] {
      var last := segs[|segs| - 1];
      var init := segs[..|segs| - 1];
      RouteSegmentsAfterDelete(init, deleted, routeId);
      RouteSegmentsAppend(SegmentsNotOf(init, deleted), last, routeId);
      if last.routeId == deleted {
        assert SegmentsNotOf(segs, deleted) == SegmentsNotOf(init, deleted);
      } else {
        assert SegmentsNotOf(segs, deleted) == SegmentsNotOf(init, deleted) + [last];
      }
    }
  }

  // ---------------------------------------------------------------------------
  // Properties across operations

  /** The first segment of a route gets seq 1, and a new segment's seq exceeds every seq already on
      its route. */
  lemma NewSeqExceedsExisting(segs: seq<Segment>, routeId: Uuid)
    requires Numbered(segs, routeId)
    ensures RouteSegments(segs, routeId) == [] ==> MaxSeq(RouteSegments(segs, routeId)) + 1 == 1
    ensures forall k :: 0 <= k < |RouteSegments(segs, routeId)| ==>
      RouteSegments(segs, routeId)[k].seqNo < MaxSeq(RouteSegments(segs, routeId)) + 1
  {
    MaxSeqOfNumbered(segs, routeId);
  }

  /** Adding a segment adds its distance to the route's recomputed total. */
  lemma {:induction false} DistanceAfterAdd(segs: seq<Segment>, s: Segment, routeId: Uuid)
    requires s.routeId == routeId
    ensures DistanceSum(RouteSegments(segs + [s], routeId)) == DistanceSum(RouteSegments(segs, routeId)) + s.distanceKm
  {
    RouteSegmentsAppend(segs, s, routeId);
    var rs := RouteSegments(segs, routeId) + [s];
    assert rs[..|rs| - 1] == RouteSegments(segs, routeId);
  }

  /** A route without segments has distance zero, and a segment of another route does not change it. */
  lemma {:induction false} DistanceIgnoresOtherRoutes(segs: seq<Segment>, s: Segment, routeId: Uuid)
    requires s.routeId != routeId
    ensures DistanceSum(RouteSegments([], routeId)) == 0.0
    ensures DistanceSum(RouteSegments(segs + [s], routeId)) == DistanceSum(RouteSegments(segs, routeId))
  {
    RouteSegmentsAppend(segs, s, routeId);
    assert RouteSegments(segs, routeId) + [] == RouteSegments(segs, routeId);
  }

  /** The fare total is the base scaled by (100 + tax rate) percent, so it never falls below a
      non-negative base at a non-negative rate, and grows with the rate; at 5% a base of 100 costs 105. */
  lemma FareTotalScalesBase(base: real, g: real, g2: real)
    ensures base + GstAmount(base, g) == base * (100.0 + g) / 100.0
    ensures base >= 0.0 && g >= 0.0 ==> base + GstAmount(base, g) >= base
    ensures base >= 0.0 && g <= g2 ==> base + GstAmount(base, g) <= base + GstAmount(base, g2)
    ensures 100.0 + GstAmount(100.0, 5.0) == 105.0
  {
    assert base * (100.0 + g) == base * 100.0 + base * g;
    if base >= 0.0 && g <= g2 {
      assert base * g <= base * g2 by {
        assert base * (g2 - g) >= 0.0;
      }
    }
  }

  /** A route just created by an operator is among the routes that operator lists. */
  lemma CreatedRouteIsListed(routes: map<Uuid, Route>, user: User, route: Route)
    requires Owns(user, route)
    ensures route in OwnedRoutes(routes[route.id := route], user)
  {
    assert routes[route.id := route][route.id] == route;
  }

  /** A soft-deleted schedule is still listed to its owner, now inactive and otherwise unchanged. */
  lemma SoftDeletedScheduleStaysListed(routes: map<Uuid, Route>, schedules: map<Uuid, Schedule>, id: Uuid, user: User)
    requires id in schedules && schedules[id].routeId in routes && Owns(user, routes[schedules[id].routeId])
    ensures schedules[id].(active := false) in OwnedSchedules(routes, schedules[id := schedules[id].(active := false)], user)
  {
    var after := schedules[id := schedules[id].(active := false)];
    assert after[id] in after.Values;
  }
}
