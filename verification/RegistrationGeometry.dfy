/** Two-sided registration pins on stock sheets (scripts/live_acceptance.py): the checks on stock
    zones and pin sheets, and the geometry an accepted plan is sure to have.  All lengths are
    micrometres. */
module RegistrationGeometry {

  import Ordering
  import PythonText

  /** The half-open rectangle from (x, y). */
  datatype Zone = Zone(x: int, y: int, width: int, height: int)

  datatype Point = Point(x: int, y: int)

  datatype Sheet = Sheet(index: int, authority: string, methodId: string, fixtureVersion: string,
                         pinDiameter: int, tolerance: int, points: seq<Point>)

  datatype Stock = Stock(id: string, materialId: string, materialVersion: string, authority: string,
                         grain: string, width: int, height: int, thickness: int, quantity: int, margin: int,
                         kerf: int, clampZones: seq<Zone>, defectZones: seq<Zone>)

  datatype Registration = Registration(stockId: string, sheets: seq<Sheet>)

  // ----- rectangles

  predicate Intersect(a: Zone, b: Zone) {
    !(a.x + a.width <= b.x || b.x + b.width <= a.x || a.y + a.height <= b.y || b.y + b.height <= a.y)
  }

  predicate Positive(z: Zone) {
    z.width > 0 && z.height > 0
  }

  /** The unit cell with corner (i, j) lies in the rectangle. */
  predicate Covers(z: Zone, i: int, j: int) {
    z.x <= i < z.x + z.width && z.y <= j < z.y + z.height
  }

  ghost predicate ShareCell(a: Zone, b: Zone) {
    exists i, j :: Covers(a, i, j) && Covers(b, i, j)
  }

  /** The test on the corners says whether two rectangles share a unit cell; on a rectangle with
      no cells it can say yes all the same, which is why zones must have positive sides. */
  lemma IntersectIffShareCell(a: Zone, b: Zone)
    ensures ShareCell(a, b) <==> Positive(a) && Positive(b) && Intersect(a, b)
  {
    if Positive(a) && Positive(b) && Intersect(a, b) {
      var i, j := if a.x > b.x then a.x else b.x, if a.y > b.y then a.y else b.y;
      assert Covers(a, i, j) && Covers(b, i, j);
    }
  }

  predicate Within(z: Zone, width: int, height: int) {
    z.x >= 0 && z.y >= 0 && z.x + z.width <= width && z.y + z.height <= height
  }

  predicate StockZone(z: Zone, width: int, height: int) {
    Positive(z) && Within(z, width, height)
  }

  // ----- stock declarations

  const MINIMUM_KERF := 6_000

  predicate DistinctZones(zones: seq<Zone>) {
    forall i, j :: 0 <= i < j < |zones| ==> zones[i] != zones[j]
  }

  predicate ZonesGood(zones: seq<Zone>, width: int, height: int) {
    (forall i :: 0 <= i < |zones| ==> StockZone(zones[i], width, height)) && DistinctZones(zones)
  }

  const UNVERIFIED_AUTHORITIES: set<string> := {
    "CLIENT_DECLARED", "LEGACY_UNSTRUCTURED_CLIENT_INPUT", "AUTOMATED_DESIGN_REVIEW_FIXTURE",
    "UNSPECIFIED_UNVERIFIED_INPUT" }

  const GRAIN_DIRECTIONS: set<string> := {"X", "Y", "UNBOUND", "NONE", "ANY", "UNSPECIFIED", "UNKNOWN"}

  /** Text that stripping leaves as it is, and some of it. */
  predicate Canonical(s: string) {
    s != "" && PythonText.Strip(s) == s
  }

  predicate StockGood(s: Stock) {
    && Canonical(s.id) && Canonical(s.materialId) && Canonical(s.materialVersion)
    && s.authority in UNVERIFIED_AUTHORITIES && s.grain in GRAIN_DIRECTIONS
    && s.width > 0 && s.height > 0 && s.thickness > 0 && s.quantity > 0
    && 0 <= s.margin && 2 * s.margin < s.width && 2 * s.margin < s.height
    && s.kerf >= MINIMUM_KERF
    && ZonesGood(s.defectZones, s.width, s.height) && ZonesGood(s.clampZones, s.width, s.height)
  }

  predicate Ascending(ids: seq<string>) {
    forall i, j :: 0 <= i < j < |ids| ==> Ordering.Leq(ids[i], ids[j]) && ids[i] != ids[j]
  }

  function Ids(stocks: seq<Stock>): seq<string> {
    seq(|stocks|, i requires 0 <= i < |stocks| => stocks[i].id)
  }

  method CheckZones(zones: seq<Zone>, width: int, height: int) returns (ok: bool)
    ensures ok <==> ZonesGood(zones, width, height)
  {
    var seen: set<Zone> := {};
    for i := 0 to |zones|
      invariant forall k :: 0 <= k < i ==> StockZone(zones[k], width, height)
      invariant seen == set k | 0 <= k < i :: zones[k]
      invariant forall k, l :: 0 <= k < l < i ==> zones[k] != zones[l]
    {
      if !StockZone(zones[i], width, height) || zones[i] in seen {
        return false;
      }
      seen := seen + {zones[i]};
    }
    return true;
  }

  method CheckStocks(stocks: seq<Stock>) returns (ok: bool)
    ensures ok <==> stocks != [] && (forall s :: s in stocks ==> StockGood(s)) && Ascending(Ids(stocks))
  {
    if stocks == [] {
      return false;
    }
    for i := 0 to |stocks|
      invariant forall k :: 0 <= k < i ==> StockGood(stocks[k])
    {
      var s := stocks[i];
      assert s in stocks;
      if !Canonical(s.id) || !Canonical(s.materialId) || !Canonical(s.materialVersion)
         || s.authority !in UNVERIFIED_AUTHORITIES {
        return false;
      }
      if s.width <= 0 || s.height <= 0 || s.thickness <= 0 || s.quantity <= 0 || s.margin < 0
         || s.margin * 2 >= s.width || s.margin * 2 >= s.height || s.kerf < MINIMUM_KERF
         || s.grain !in GRAIN_DIRECTIONS {
        return false;
      }
      var defectsOk := CheckZones(s.defectZones, s.width, s.height);
      var clampsOk := CheckZones(s.clampZones, s.width, s.height);
      if !defectsOk || !clampsOk {
        return false;
      }
    }
    return Ascending(Ids(stocks));
  }

  // ----- one pin sheet

  predicate IdentityChar(c: char) {
    'A' <= c <= 'Z' || 'a' <= c <= 'z' || '0' <= c <= '9' || c == '_' || c == '.' || c == ':' || c == '-'
  }

  predicate Identity(s: string) {
    1 <= |s| <= 64 && forall i :: 0 <= i < |s| ==> IdentityChar(s[i])
  }

  predicate Envelope(s: Sheet) {
    1_000 <= s.pinDiameter <= 50_000 && 1 <= s.tolerance <= 10_000 && s.tolerance * 2 < s.pinDiameter
  }

  /** Half the side of a pin's footprint: half the diameter, rounded up, and the tolerance. */
  function Radius(s: Sheet): int {
    (s.pinDiameter + 1) / 2 + s.tolerance
  }

  function MinimumCentre(s: Sheet): int {
    100_000 + 2 * Radius(s)
  }

  function Footprint(s: Sheet, p: Point): Zone {
    Zone(p.x - Radius(s), p.y - Radius(s), 2 * Radius(s), 2 * Radius(s))
  }

  function Footprints(s: Sheet): set<Zone> {
    set k | 0 <= k < |s.points| :: Footprint(s, s.points[k])
  }

  function SquaredDistance(p: Point, q: Point): int {
    (p.x - q.x) * (p.x - q.x) + (p.y - q.y) * (p.y - q.y)
  }

  predicate FarApart(s: Sheet, p: Point, q: Point) {
    SquaredDistance(p, q) >= MinimumCentre(s) * MinimumCentre(s)
  }

  predicate PointsDistinct(points: seq<Point>) {
    forall i, j :: 0 <= i < j < |points| ==> points[i] != points[j]
  }

  predicate Baseline(s: Sheet) {
    forall i, j :: 0 <= i < j < |s.points| ==> FarApart(s, s.points[i], s.points[j])
  }

  predicate FootprintsWithin(s: Sheet, stock: Stock) {
    forall i :: 0 <= i < |s.points| ==> Within(Footprint(s, s.points[i]), stock.width, stock.height)
  }

  predicate SheetGood(s: Sheet, stock: Stock) {
    && 0 <= s.index < stock.quantity && s.authority == "CLIENT_DECLARED"
    && Identity(s.methodId) && Identity(s.fixtureVersion)
    && Envelope(s) && 2 <= |s.points| <= 16
    && PointsDistinct(s.points) && Baseline(s) && FootprintsWithin(s, stock)
  }

  /** Every pair once, the earlier point first. */
  method CheckBaseline(s: Sheet) returns (ok: bool)
    ensures ok <==> Baseline(s)
  {
    for i := 0 to |s.points|
      invariant forall k, l :: 0 <= k < l < |s.points| && k < i ==> FarApart(s, s.points[k], s.points[l])
    {
      for j := i + 1 to |s.points|
        invariant forall l :: i < l < j ==> FarApart(s, s.points[i], s.points[l])
      {
        if !FarApart(s, s.points[i], s.points[j]) {
          return false;
        }
      }
    }
    return true;
  }

  method CheckSheet(s: Sheet, stock: Stock) returns (ok: bool, footprints: set<Zone>)
    ensures ok <==> SheetGood(s, stock)
    ensures ok ==> footprints == Footprints(s)
  {
    footprints := {};
    if !(0 <= s.index < stock.quantity) || s.authority != "CLIENT_DECLARED" {
      return false, {};
    }
    if !Identity(s.methodId) || !Identity(s.fixtureVersion) || !Envelope(s) || !(2 <= |s.points| <= 16) {
      return false, {};
    }
    if !PointsDistinct(s.points) {
      return false, {};
    }
    var farApart := CheckBaseline(s);
    if !farApart {
      return false, {};
    }
    for i := 0 to |s.points|
      invariant footprints == set k | 0 <= k < i :: Footprint(s, s.points[k])
      invariant forall k :: 0 <= k < i ==> Within(Footprint(s, s.points[k]), stock.width, stock.height)
    {
      var footprint := Footprint(s, s.points[i]);
      if !Within(footprint, stock.width, stock.height) {
        return false, {};
      }
      footprints := footprints + {footprint};
    }
    ok := true;
  }

  // ----- one stock's registration

  function StockFootprints(sheets: seq<Sheet>, n: nat): set<Zone>
    requires n <= |sheets|
  {
    if n == 0 then {} else StockFootprints(sheets, n - 1) + Footprints(sheets[n - 1])
  }

  predicate IndicesAscend(sheets: seq<Sheet>) {
    forall i, j :: 0 <= i < j < |sheets| ==> sheets[i].index < sheets[j].index
  }

  predicate RegistrationGood(r: Registration, stock: Stock) {
    var footprints := StockFootprints(r.sheets, |r.sheets|);
    && r.sheets != []
    && (forall i :: 0 <= i < |r.sheets| ==> SheetGood(r.sheets[i], stock))
    && IndicesAscend(r.sheets)
    && (forall i :: 0 <= i < |stock.clampZones| ==> StockZone(stock.clampZones[i], stock.width, stock.height))
    && (forall i :: 0 <= i < |stock.defectZones| ==> StockZone(stock.defectZones[i], stock.width, stock.height))
    && (forall f :: f in footprints ==> f in stock.clampZones)
    && (forall f, z :: f in footprints && z in stock.defectZones ==> !Intersect(f, z))
    && (forall f, z :: f in footprints && z in stock.clampZones && z !in footprints ==> !Intersect(f, z))
  }

  method ZoneSet(zones: seq<Zone>, width: int, height: int) returns (ok: bool, distinct: set<Zone>)
    ensures ok <==> forall i :: 0 <= i < |zones| ==> StockZone(zones[i], width, height)
    ensures ok ==> distinct == set z | z in zones
  {
    distinct := {};
    for i := 0 to |zones|
      invariant forall k :: 0 <= k < i ==> StockZone(zones[k], width, height)
      invariant forall z :: z in distinct <==> exists k :: 0 <= k < i && zones[k] == z
    {
      if !StockZone(zones[i], width, height) {
        return false, {};
      }
      distinct := distinct + {zones[i]};
    }
    ok := true;
  }

  method CheckRegistration(r: Registration, stock: Stock) returns (ok: bool)
    ensures ok <==> RegistrationGood(r, stock)
  {
    if r.sheets == [] {
      return false;
    }
    var footprints: set<Zone> := {};
    for i := 0 to |r.sheets|
      invariant forall k :: 0 <= k < i ==> SheetGood(r.sheets[k], stock)
      invariant footprints == StockFootprints(r.sheets, i)
    {
      var sheetOk, more := CheckSheet(r.sheets[i], stock);
      if !sheetOk {
        return false;
      }
      footprints := footprints + more;
    }
    if !IndicesAscend(r.sheets) {
      return false;
    }
    var clampsOk, clamps := ZoneSet(stock.clampZones, stock.width, stock.height);
    var defectsOk, defects := ZoneSet(stock.defectZones, stock.width, stock.height);
    return
      && clampsOk && defectsOk
      && footprints <= clamps
      && (forall f, z :: f in footprints && z in defects ==> !Intersect(f, z))
      && (forall f, z :: f in footprints && z in clamps && z !in footprints ==> !Intersect(f, z));
  }

  // ----- the whole plan

  predicate PlanGood(registrations: seq<Registration>, stocks: map<string, Stock>) {
    && (forall i :: 0 <= i < |registrations| ==>
          registrations[i].stockId in stocks && RegistrationGood(registrations[i], stocks[registrations[i].stockId]))
    && Ascending(StockIds(registrations))
  }

  function StockIds(registrations: seq<Registration>): seq<string> {
    seq(|registrations|, i requires 0 <= i < |registrations| => registrations[i].stockId)
  }

  method CheckPlan(registrations: seq<Registration>, stocks: map<string, Stock>) returns (ok: bool)
    ensures ok <==> PlanGood(registrations, stocks)
  {
    for i := 0 to |registrations|
      invariant forall k :: 0 <= k < i ==>
        && registrations[k].stockId in stocks
        && RegistrationGood(registrations[k], stocks[registrations[k].stockId])
    {
      if registrations[i].stockId !in stocks {
        return false;
      }
      var registrationOk := CheckRegistration(registrations[i], stocks[registrations[i].stockId]);
      if !registrationOk {
        return false;
      }
    }
    return Ascending(StockIds(registrations));
  }

  // ----- the geometry of an accepted plan

  const CLEARANCE := 50_000

  /** Between the two rectangles there is a strip at least this wide. */
  predicate ClearBy(a: Zone, b: Zone, gap: int) {
    || a.x + a.width + gap <= b.x || b.x + b.width + gap <= a.x
    || a.y + a.height + gap <= b.y || b.y + b.height + gap <= a.y
  }

  lemma SquareGrows(a: int, b: int)
    requires -b < a < b
    ensures a * a < b * b
  {
    assert (b - a) * (b + a) > 0;
  }

  lemma PinsClear(s: Sheet, p: Point, q: Point)
    requires Envelope(s) && FarApart(s, p, q)
    ensures ClearBy(Footprint(s, p), Footprint(s, q), CLEARANCE)
  {
    var r, dx, dy := Radius(s), p.x - q.x, p.y - q.y;
    var reach := 2 * r + CLEARANCE;
    assert 501 <= r <= 35_000;
    if -reach < dx < reach && -reach < dy < reach {
      SquareGrows(dx, reach);
      SquareGrows(dy, reach);
      BaselineExceedsReach(r);
      assert false;
    }
  }

  lemma SquareOfSum(a: int, b: int)
    ensures (a + b) * (a + b) == a * a + 2 * (a * b) + b * b
  {
  }

  lemma ProductGrows(a: int, b: int, c: nat)
    requires a <= b
    ensures a * c <= b * c
  {
  }

  /** Twice the square of the reach is below the square of the least centre distance. */
  lemma BaselineExceedsReach(r: int)
    requires 0 <= r <= 35_000
    ensures 2 * ((2 * r + CLEARANCE) * (2 * r + CLEARANCE)) <= (100_000 + 2 * r) * (100_000 + 2 * r)
  {
    SquareOfSum(2 * r, 50_000);
    SquareOfSum(100_000, 2 * r);
    ProductGrows(2 * r, 70_000, 2 * r);
    SquaresCompared(2 * r, (2 * r) * (2 * r));
  }

  lemma SquaresCompared(d: int, square: int)
    requires 0 <= d <= 70_000 && square <= 70_000 * d
    ensures 2 * (square + 2 * (d * 50_000) + 50_000 * 50_000) <= 100_000 * 100_000 + 2 * (100_000 * d) + square
  {
  }

  /** On an accepted sheet any two pin footprints are disjoint, with 50 mm or more between them. */
  lemma SheetFootprintsDisjoint(s: Sheet, stock: Stock, i: nat, j: nat)
    requires SheetGood(s, stock) && i < |s.points| && j < |s.points| && i != j
    ensures ClearBy(Footprint(s, s.points[i]), Footprint(s, s.points[j]), CLEARANCE)
    ensures !ShareCell(Footprint(s, s.points[i]), Footprint(s, s.points[j]))
  {
    if i < j {
      PinsClear(s, s.points[i], s.points[j]);
    } else {
      PinsClear(s, s.points[j], s.points[i]);
    }
    IntersectIffShareCell(Footprint(s, s.points[i]), Footprint(s, s.points[j]));
  }

  lemma {:induction false} FootprintOfStock(sheets: seq<Sheet>, n: nat, i: nat, k: nat)
    requires i < n <= |sheets| && k < |sheets[i].points|
    ensures Footprint(sheets[i], sheets[i].points[k]) in StockFootprints(sheets, n)
  {
    if i < n - 1 {
      FootprintOfStock(sheets, n - 1, i, k);
    }
  }

  lemma {:induction false} StockFootprintOrigin(sheets: seq<Sheet>, n: nat, f: Zone)
    requires n <= |sheets| && f in StockFootprints(sheets, n)
    ensures exists i, k :: 0 <= i < n && 0 <= k < |sheets[i].points| && f == Footprint(sheets[i], sheets[i].points[k])
  {
    if f !in StockFootprints(sheets, n - 1) {
      var k :| 0 <= k < |sheets[n - 1].points| && f == Footprint(sheets[n - 1], sheets[n - 1].points[k]);
    } else {
      StockFootprintOrigin(sheets, n - 1, f);
    }
  }

  /** The zone is the footprint of one of the stock's pins. */
  ghost predicate IsFootprint(r: Registration, z: Zone) {
    exists i, k :: 0 <= i < |r.sheets| && 0 <= k < |r.sheets[i].points|
                   && z == Footprint(r.sheets[i], r.sheets[i].points[k])
  }

  /** In an accepted plan every pin footprint lies inside its stock, is one of the clamp zones, and
      shares no cell with a defect zone. */
  lemma FootprintsArePlaced(registrations: seq<Registration>, stocks: map<string, Stock>, n: nat, i: nat, k: nat)
    requires PlanGood(registrations, stocks) && n < |registrations|
    requires i < |registrations[n].sheets| && k < |registrations[n].sheets[i].points|
    ensures var stock, sheet := stocks[registrations[n].stockId], registrations[n].sheets[i];
            var f := Footprint(sheet, sheet.points[k]);
            && StockZone(f, stock.width, stock.height)
            && f in stock.clampZones
            && forall z :: z in stock.defectZones ==> !ShareCell(f, z)
  {
    var stock, sheets := stocks[registrations[n].stockId], registrations[n].sheets;
    var f := Footprint(sheets[i], sheets[i].points[k]);
    assert RegistrationGood(registrations[n], stock) && SheetGood(sheets[i], stock);
    FootprintOfStock(sheets, |sheets|, i, k);
    forall z | z in stock.defectZones
      ensures !ShareCell(f, z)
    {
      IntersectIffShareCell(f, z);
    }
  }

  /** Each clamp zone of a registered stock is a pin footprint or shares no cell with any. */
  lemma ClampZonesAreFootprintsOrClear(registrations: seq<Registration>, stocks: map<string, Stock>, n: nat, z: Zone)
    requires PlanGood(registrations, stocks) && n < |registrations|
    requires z in stocks[registrations[n].stockId].clampZones
    ensures IsFootprint(registrations[n], z) || forall f :: IsFootprint(registrations[n], f) ==> !ShareCell(f, z)
  {
    var r := registrations[n];
    var footprints := StockFootprints(r.sheets, |r.sheets|);
    if z in footprints {
      StockFootprintOrigin(r.sheets, |r.sheets|, z);
    } else {
      forall f | IsFootprint(r, f)
        ensures !ShareCell(f, z)
      {
        var i, k :| 0 <= i < |r.sheets| && 0 <= k < |r.sheets[i].points|
                    && f == Footprint(r.sheets[i], r.sheets[i].points[k]);
        FootprintOfStock(r.sheets, |r.sheets|, i, k);
        IntersectIffShareCell(f, z);
      }
    }
  }

  // ----- what is accepted, in numbers and cells

  /** Half the side of the square kept out around a pin. */
  predicate HalfSide(s: Sheet, half: int) {
    2 * (half - s.tolerance) == s.pinDiameter || 2 * (half - s.tolerance) == s.pinDiameter + 1
  }

  function Around(p: Point, half: int): Zone {
    Zone(p.x - half, p.y - half, 2 * half, 2 * half)
  }

  predicate IsIdentity(s: string) {
    && 1 <= |s| <= 64
    && forall c :: c in s ==>
         'A' <= c <= 'Z' || 'a' <= c <= 'z' || '0' <= c <= '9' || c in {'_', '.', ':', '-'}
  }

  /** One sheet, its pins `half` around their centres: any two centres are 100 mm and two half sides
      apart, and every square lies on the stock. */
  predicate SheetSays(s: Sheet, stock: Stock, half: int) {
    && 0 <= s.index < stock.quantity && s.authority == "CLIENT_DECLARED"
    && IsIdentity(s.methodId) && IsIdentity(s.fixtureVersion)
    && 1_000 <= s.pinDiameter <= 50_000 && 1 <= s.tolerance <= 10_000 && s.tolerance + s.tolerance < s.pinDiameter
    && 2 <= |s.points| <= 16
    && (forall i, j :: 0 <= i < j < |s.points| ==>
          var p, q := s.points[i], s.points[j];
          (p.x - q.x) * (p.x - q.x) + (p.y - q.y) * (p.y - q.y) >= (100_000 + 2 * half) * (100_000 + 2 * half))
    && (forall p :: p in s.points ==>
          half <= p.x && p.x + half <= stock.width && half <= p.y && p.y + half <= stock.height)
  }

  lemma CharsIff(s: string)
    ensures Identity(s) <==> IsIdentity(s)
  {
    if IsIdentity(s) {
      forall i | 0 <= i < |s| ensures IdentityChar(s[i]) { assert s[i] in s; }
    }
  }

  lemma BaselineSeparates(s: Sheet)
    requires Envelope(s) && Baseline(s)
    ensures PointsDistinct(s.points)
  {
    forall i, j | 0 <= i < j < |s.points|
      ensures s.points[i] != s.points[j]
    {
      assert FarApart(s, s.points[i], s.points[j]);
      assert SquaredDistance(s.points[i], s.points[i]) == 0;
      MinimumPositive(s);
    }
  }

  lemma MinimumPositive(s: Sheet)
    requires Envelope(s)
    ensures MinimumCentre(s) * MinimumCentre(s) > 0
  {
    SquareGrows(0, MinimumCentre(s));
  }

  /** The check that the points are distinct adds nothing to the distance between them. */
  lemma SheetGoodIff(s: Sheet, stock: Stock, half: int)
    requires HalfSide(s, half)
    ensures SheetGood(s, stock) <==> SheetSays(s, stock, half)
    ensures forall p :: Footprint(s, p) == Around(p, half)
  {
    CharsIff(s.methodId);
    CharsIff(s.fixtureVersion);
    assert Radius(s) == half;
    SquaresWithin(s, stock, half);
    DistancesIff(s, half);
    if Envelope(s) && Baseline(s) {
      BaselineSeparates(s);
    }
  }

  lemma SquaresWithin(s: Sheet, stock: Stock, half: int)
    requires Radius(s) == half
    ensures FootprintsWithin(s, stock) <==>
              forall p :: p in s.points ==>
                half <= p.x && p.x + half <= stock.width && half <= p.y && p.y + half <= stock.height
  {
    if FootprintsWithin(s, stock) {
      forall p | p in s.points
        ensures half <= p.x && p.x + half <= stock.width && half <= p.y && p.y + half <= stock.height
      {
        var i :| 0 <= i < |s.points| && s.points[i] == p;
        assert Within(Footprint(s, s.points[i]), stock.width, stock.height);
      }
    }
  }

  /** Whose side of the pins each zone is on: the square of every pin is a clamp zone that shares no
      cell with a defect zone, and no cell with a clamp zone that is no pin's square. */
  ghost predicate ZonesRespected(r: Registration, stock: Stock, half: Sheet -> int) {
    && (forall z :: z in stock.clampZones + stock.defectZones ==>
          z.x >= 0 && z.y >= 0 && 0 < z.width <= stock.width - z.x && 0 < z.height <= stock.height - z.y)
    && forall s, p :: s in r.sheets && p in s.points ==>
         var square := Around(p, half(s));
         && square in stock.clampZones
         && (forall z :: z in stock.defectZones ==> !ShareCell(square, z))
         && (forall z :: z in stock.clampZones ==> IsSquare(r, half, z) || !ShareCell(square, z))
  }

  ghost predicate IsSquare(r: Registration, half: Sheet -> int, z: Zone) {
    exists s, p :: s in r.sheets && p in s.points && z == Around(p, half(s))
  }

  /** One stock's registration, in numbers and cells. */
  ghost predicate RegistrationSays(r: Registration, stock: Stock, half: Sheet -> int) {
    && r.sheets != []
    && (forall s :: s in r.sheets ==> SheetSays(s, stock, half(s)))
    && (forall i, j :: 0 <= i < j < |r.sheets| ==> r.sheets[i].index < r.sheets[j].index)
    && ZonesRespected(r, stock, half)
  }

  lemma FootprintsAreSquares(r: Registration, half: Sheet -> int, z: Zone)
    requires forall s :: HalfSide(s, half(s))
    ensures z in StockFootprints(r.sheets, |r.sheets|) <==> IsSquare(r, half, z)
  {
    if z in StockFootprints(r.sheets, |r.sheets|) {
      StockFootprintOrigin(r.sheets, |r.sheets|, z);
      var i, k :| 0 <= i < |r.sheets| && 0 <= k < |r.sheets[i].points|
                  && z == Footprint(r.sheets[i], r.sheets[i].points[k]);
      assert r.sheets[i] in r.sheets && r.sheets[i].points[k] in r.sheets[i].points;
      assert Radius(r.sheets[i]) == half(r.sheets[i]);
    }
    if IsSquare(r, half, z) {
      var s, p :| s in r.sheets && p in s.points && z == Around(p, half(s));
      var i :| 0 <= i < |r.sheets| && r.sheets[i] == s;
      var k :| 0 <= k < |s.points| && s.points[k] == p;
      assert Radius(s) == half(s);
      FootprintOfStock(r.sheets, |r.sheets|, i, k);
    }
  }

  ghost predicate FootprintsRespected(stock: Stock, footprints: set<Zone>) {
    && (forall i :: 0 <= i < |stock.clampZones| ==> StockZone(stock.clampZones[i], stock.width, stock.height))
    && (forall i :: 0 <= i < |stock.defectZones| ==> StockZone(stock.defectZones[i], stock.width, stock.height))
    && (forall f :: f in footprints ==> f in stock.clampZones)
    && (forall f, z :: f in footprints && z in stock.defectZones ==> !Intersect(f, z))
    && (forall f, z :: f in footprints && z in stock.clampZones && z !in footprints ==> !Intersect(f, z))
  }

  lemma ZonesIff(zones: seq<Zone>, width: int, height: int)
    ensures (forall i :: 0 <= i < |zones| ==> StockZone(zones[i], width, height)) <==>
            (forall z :: z in zones ==> z.x >= 0 && z.y >= 0 && 0 < z.width <= width - z.x && 0 < z.height <= height - z.y)
  {
  }

  lemma SquaresIff(r: Registration, stock: Stock, half: Sheet -> int, footprints: set<Zone>)
    requires forall z :: z in footprints <==> IsSquare(r, half, z)
    requires forall s :: s in r.sheets ==> half(s) > 0
    ensures ZonesRespected(r, stock, half) <==> FootprintsRespected(stock, footprints)
  {
    ZonesIff(stock.clampZones, stock.width, stock.height);
    ZonesIff(stock.defectZones, stock.width, stock.height);
    forall a, b
      ensures ShareCell(a, b) <==> Positive(a) && Positive(b) && Intersect(a, b)
    {
      IntersectIffShareCell(a, b);
    }
    forall s, p | s in r.sheets && p in s.points
      ensures Around(p, half(s)) in footprints && Positive(Around(p, half(s)))
    {
      assert IsSquare(r, half, Around(p, half(s)));
    }
    if ZonesRespected(r, stock, half) {
      SquaresRespected(r, stock, half, footprints);
    }
  }

  lemma SquaresRespected(r: Registration, stock: Stock, half: Sheet -> int, footprints: set<Zone>)
    requires forall z :: z in footprints <==> IsSquare(r, half, z)
    requires forall s :: s in r.sheets ==> half(s) > 0
    requires ZonesRespected(r, stock, half)
    ensures FootprintsRespected(stock, footprints)
  {
    ZonesIff(stock.clampZones, stock.width, stock.height);
    ZonesIff(stock.defectZones, stock.width, stock.height);
    forall f | f in footprints
      ensures f in stock.clampZones
      ensures forall z :: z in stock.defectZones ==> !Intersect(f, z)
      ensures forall z :: z in stock.clampZones && z !in footprints ==> !Intersect(f, z)
    {
      var s, p :| s in r.sheets && p in s.points && f == Around(p, half(s));
      forall z | z in stock.clampZones + stock.defectZones
        ensures ShareCell(f, z) <==> Intersect(f, z)
      {
        IntersectIffShareCell(f, z);
      }
    }
  }

  /** The registration of one stock is accepted exactly when it says this. */
  lemma RegistrationGoodIff(r: Registration, stock: Stock, half: Sheet -> int)
    requires forall s :: HalfSide(s, half(s))
    ensures RegistrationGood(r, stock) <==> RegistrationSays(r, stock, half)
  {
    var footprints := StockFootprints(r.sheets, |r.sheets|);
    forall s
      ensures SheetGood(s, stock) <==> SheetSays(s, stock, half(s))
    {
      SheetGoodIff(s, stock, half(s));
    }
    forall z
      ensures z in footprints <==> IsSquare(r, half, z)
    {
      FootprintsAreSquares(r, half, z);
    }
    if forall s :: s in r.sheets ==> SheetSays(s, stock, half(s)) {
      SquaresIff(r, stock, half, footprints);
    }
    assert (forall s :: s in r.sheets ==> SheetSays(s, stock, half(s))) <==>
           (forall i :: 0 <= i < |r.sheets| ==> SheetGood(r.sheets[i], stock));
  }

  /** A plan is accepted exactly when each registration says this of a known stock, and the stock ids
      ascend. */
  lemma PlanGoodIff(registrations: seq<Registration>, stocks: map<string, Stock>, half: Sheet -> int)
    requires forall s :: HalfSide(s, half(s))
    ensures PlanGood(registrations, stocks) <==>
              && (forall r :: r in registrations ==>
                    r.stockId in stocks && RegistrationSays(r, stocks[r.stockId], half))
              && (forall i, j :: 0 <= i < j < |registrations| ==>
                    && registrations[i].stockId != registrations[j].stockId
                    && Ordering.Leq(registrations[i].stockId, registrations[j].stockId))
  {
    forall r: Registration | r.stockId in stocks
      ensures RegistrationGood(r, stocks[r.stockId]) <==> RegistrationSays(r, stocks[r.stockId], half)
    {
      RegistrationGoodIff(r, stocks[r.stockId], half);
    }
    assert forall i :: 0 <= i < |registrations| ==> registrations[i] in registrations;
    var ids := StockIds(registrations);
    assert forall i :: 0 <= i < |registrations| ==> ids[i] == registrations[i].stockId;
  }

  /** Non-empty text without space at either end. */
  predicate IsName(s: string) {
    s != "" && PythonText.Trimmed(s)
  }

  predicate ZonesSay(zones: seq<Zone>, width: int, height: int) {
    && (forall z :: z in zones ==> z.x >= 0 && z.y >= 0 && 0 < z.width <= width - z.x && 0 < z.height <= height - z.y)
    && |zones| == |set z | z in zones|
  }

  lemma NameIff(s: string)
    ensures Canonical(s) <==> IsName(s)
  {
    var left, right := PythonText.StripSplits(s);
    if PythonText.Trimmed(s) {
      assert s == "" + s + "";
      PythonText.StripIff("", s, "");
    }
  }

  lemma {:induction false} DistinctIffCounted(zones: seq<Zone>)
    ensures DistinctZones(zones) <==> |zones| == |set z | z in zones|
    ensures |zones| >= |set z | z in zones|
  {
    if zones != [] {
      var rest, last := zones[..|zones| - 1], zones[|zones| - 1];
      DistinctIffCounted(rest);
      assert (set z | z in zones) == (set z | z in rest) + {last};
      assert DistinctZones(zones) <==> DistinctZones(rest) && last !in rest by {
        assert forall i :: 0 <= i < |rest| ==> rest[i] == zones[i];
      }
    } else {
      assert (set z | z in zones) == {};
    }
  }

  /** A stock row is good exactly when it says this. */
  lemma StockGoodIff(s: Stock)
    ensures StockGood(s) <==>
              && IsName(s.id) && IsName(s.materialId) && IsName(s.materialVersion)
              && s.authority in {"CLIENT_DECLARED", "LEGACY_UNSTRUCTURED_CLIENT_INPUT",
                                 "AUTOMATED_DESIGN_REVIEW_FIXTURE", "UNSPECIFIED_UNVERIFIED_INPUT"}
              && s.grain in {"X", "Y", "UNBOUND", "NONE", "ANY", "UNSPECIFIED", "UNKNOWN"}
              && s.thickness >= 1 && s.quantity >= 1 && s.kerf >= 6_000
              && s.margin >= 0 && s.margin + s.margin < s.width && s.margin + s.margin < s.height
              && ZonesSay(s.defectZones, s.width, s.height) && ZonesSay(s.clampZones, s.width, s.height)
  {
    NameIff(s.id);
    NameIff(s.materialId);
    NameIff(s.materialVersion);
    ZonesIff(s.defectZones, s.width, s.height);
    ZonesIff(s.clampZones, s.width, s.height);
    DistinctIffCounted(s.defectZones);
    DistinctIffCounted(s.clampZones);
  }

  lemma DistancesIff(s: Sheet, half: int)
    requires Radius(s) == half
    ensures Baseline(s) <==>
              forall i, j :: 0 <= i < j < |s.points| ==>
                var p, q := s.points[i], s.points[j];
                (p.x - q.x) * (p.x - q.x) + (p.y - q.y) * (p.y - q.y) >= (100_000 + 2 * half) * (100_000 + 2 * half)
  {
    forall i, j | 0 <= i < j < |s.points|
      ensures var p, q := s.points[i], s.points[j];
              FarApart(s, p, q) <==>
              (p.x - q.x) * (p.x - q.x) + (p.y - q.y) * (p.y - q.y) >= (100_000 + 2 * half) * (100_000 + 2 * half)
    {
    }
  }

  // ----- the pins themselves

  function Square(a: real): real { a * a }

  /** The point (x, y) lies on a round pin of this sheet whose centre is off its nominal place by
      no more than the tolerance. */
  predicate OnPin(s: Sheet, p: Point, offX: real, offY: real, x: real, y: real) {
    && Square(offX) + Square(offY) <= Square(s.tolerance as real)
    && 4.0 * (Square(x - p.x as real - offX) + Square(y - p.y as real - offY)) <= Square(s.pinDiameter as real)
  }

  predicate InFootprint(s: Sheet, p: Point, x: real, y: real) {
    var f := Footprint(s, p);
    f.x as real <= x <= (f.x + f.width) as real && f.y as real <= y <= (f.y + f.height) as real
  }

  lemma ProductPositive(u: real, v: real)
    requires u > 0.0 && v > 0.0
    ensures u * v > 0.0
  {
  }

  lemma DifferenceOfSquares(a: real, b: real)
    ensures (a - b) * (a + b) == a * a - b * b
  {
  }

  lemma SquareOrder(a: real, b: real)
    requires 0.0 <= b < a
    ensures Square(b) < Square(a)
  {
    ProductPositive(a - b, a + b);
    DifferenceOfSquares(a, b);
  }

  lemma Bounded(a: real, b: real, limit: real)
    requires Square(a) + Square(b) <= Square(limit) && limit >= 0.0
    ensures -limit <= a <= limit
  {
    assert Square(b) >= 0.0;
    assert Square(-a) == Square(a);
    if a > limit {
      SquareOrder(a, limit);
    } else if a < -limit {
      SquareOrder(-a, limit);
    }
  }

  /** However a pin is off within its tolerance, it stays inside its footprint. */
  lemma PinStaysInFootprint(s: Sheet, p: Point, offX: real, offY: real, x: real, y: real)
    requires Envelope(s) && OnPin(s, p, offX, offY, x, y)
    ensures InFootprint(s, p, x, y)
  {
    var t, d := s.tolerance as real, s.pinDiameter as real;
    var dx, dy := x - p.x as real - offX, y - p.y as real - offY;
    Bounded(offX, offY, t);
    Bounded(offY, offX, t);
    assert Square(2.0 * dx) + Square(2.0 * dy) == 4.0 * (Square(dx) + Square(dy));
    Bounded(2.0 * dx, 2.0 * dy, d);
    Bounded(2.0 * dy, 2.0 * dx, d);
    var half := (s.pinDiameter + 1) / 2;
    assert 2 * half >= s.pinDiameter;
    assert d <= 2.0 * half as real;
    assert Radius(s) as real == half as real + t;
  }
}
