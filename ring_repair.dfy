/**
 * The repair pass over the raw result of the clipping kernel: rings of fewer
 * than three positions are dropped, unclosed rings are closed by repeating their
 * first position, and polygons left without rings are dropped.
 */
module RingRepair {
  import opened Options
  import opened Sequences
  import opened GeoJson

  /** Fewest positions a ring must have to be kept. */
  const MIN_RING_POSITIONS: nat := 3

  /** First and last positions are equal. */
  predicate IsClosed(ring: Ring) {
    |ring| > 0 && ring[0] == ring[|ring| - 1]
  }

  /** What the repair pass guarantees of every ring it keeps. */
  predicate IsRepaired(ring: Ring) {
    |ring| >= MIN_RING_POSITIONS && IsClosed(ring)
  }

  /** At least one ring, and every ring repaired. */
  predicate IsRepairedPolygon(rings: PolygonRings) {
    rings != [] && forall r :: 0 <= r < |rings| ==> IsRepaired(rings[r])
  }

  /** Every polygon is repaired. */
  predicate IsRepairedMulti(m: MultiPolygonRings) {
    forall p :: 0 <= p < |m| ==> IsRepairedPolygon(m[p])
  }

  /**
   * One ring: dropped (`None`) when it has fewer than three positions; otherwise
   * kept as a prefix of the result, which is closed and is one position longer
   * exactly when the ring was not closed.
   */
  function RepairRing(ring: Ring): (o: Option<Ring>)
    ensures o.None? <==> |ring| < MIN_RING_POSITIONS
    ensures o.Some? ==> |o.value| == if IsClosed(ring) then |ring| else |ring| + 1
    ensures o.Some? ==> IsRepaired(o.value) && o.value[..|ring|] == ring
  {
    if |ring| < MIN_RING_POSITIONS then None
    else if ring[0] != ring[|ring| - 1] then Some(ring + [ring[0]])
    else Some(ring)
  }

  /**
   * One polygon: its rings repaired and filtered, in order. The polygon is dropped
   * (`None`) exactly when every one of its rings is dropped; the exterior ring alone
   * being dropped does not drop the polygon.
   */
  function RepairPolygon(rings: PolygonRings): (o: Option<PolygonRings>)
    ensures o.None? <==> forall r :: 0 <= r < |rings| ==> |rings[r]| < MIN_RING_POSITIONS
    ensures o.Some? ==> IsRepairedPolygon(o.value)
    ensures o.Some? ==> |o.value| == CountSome(RepairRing, rings)
  {
    FilterMapEmpty(RepairRing, rings);
    FilterMapKeeps(RepairRing, rings, IsRepaired);
    var closedRings := FilterMap(RepairRing, rings);
    if |closedRings| > 0 then Some(closedRings) else None
  }

  /**
   * The whole pass. A missing or empty kernel result gives no polygons; otherwise the
   * surviving polygons, in order. Every ring of the result is repaired.
   */
  function RepairClipped(clipped: Option<MultiPolygonRings>): (m: MultiPolygonRings)
    ensures (clipped.None? || clipped.value == []) ==> m == []
    ensures clipped.Some? ==> |m| <= |clipped.value|
    ensures clipped.Some? ==> |m| == CountSome(RepairPolygon, clipped.value)
    ensures IsRepairedMulti(m)
  {
    if clipped.None? || |clipped.value| == 0 then []
    else
      FilterMapKeeps(RepairPolygon, clipped.value, IsRepairedPolygon);
      FilterMap(RepairPolygon, clipped.value)
  }

  /**
   * Order is kept at both levels: ring `r` of polygon `p` of the raw result, when it has
   * at least three positions, is found (closed) at the position given by the number of
   * polygons kept before `p` and the number of rings of `p` kept before `r`.
   */
  lemma RepairKeepsOrder(raw: MultiPolygonRings, p: nat, r: nat)
    requires p < |raw| && r < |raw[p]| && |raw[p][r]| >= MIN_RING_POSITIONS
    ensures var m := RepairClipped(Some(raw));
            var pi := CountSome(RepairPolygon, raw[..p]);
            var ri := CountSome(RepairRing, raw[p][..r]);
            && pi < |m| && ri < |m[pi]|
            && m[pi][ri] == RepairRing(raw[p][r]).value
  {
    assert RepairPolygon(raw[p]).Some?;
    FilterMapAt(RepairPolygon, raw, p);
    FilterMapAt(RepairRing, raw[p], r);
  }

  /** A polygon whose exterior ring is dropped keeps its first surviving hole as its first ring. */
  lemma HoleBecomesFirstRing(rings: PolygonRings)
    requires |rings| >= 2 && |rings[0]| < MIN_RING_POSITIONS && |rings[1]| >= MIN_RING_POSITIONS
    ensures RepairPolygon(rings).Some?
    ensures RepairPolygon(rings).value[0] == RepairRing(rings[1]).value
  {
    FilterMapAt(RepairRing, rings, 1);
    assert rings[..1] == [rings[0]];
    assert CountSome(RepairRing, rings[..1]) == 0;
  }

  /**
   * Nothing is invented: ring `ri` of output polygon `pi` is the repair of some ring `r`
   * of some raw polygon `p`, and sits where `RepairKeepsOrder` puts that ring.
   */
  lemma RepairOutputFromInput(raw: MultiPolygonRings, pi: nat, ri: nat)
    requires pi < |RepairClipped(Some(raw))| && ri < |RepairClipped(Some(raw))[pi]|
    ensures exists p, r ::
              && 0 <= p < |raw| && 0 <= r < |raw[p]|
              && RepairRing(raw[p][r]).Some?
              && RepairClipped(Some(raw))[pi][ri] == RepairRing(raw[p][r]).value
              && CountSome(RepairPolygon, raw[..p]) == pi
              && CountSome(RepairRing, raw[p][..r]) == ri
  {
    var m := RepairClipped(Some(raw));
    FilterMapFrom(RepairPolygon, raw, pi);
    var p :| 0 <= p < |raw| && RepairPolygon(raw[p]) == Some(m[pi]) && CountSome(RepairPolygon, raw[..p]) == pi;
    FilterMapFrom(RepairRing, raw[p], ri);
    var r :| 0 <= r < |raw[p]| && RepairRing(raw[p][r]) == Some(m[pi][ri]) && CountSome(RepairRing, raw[p][..r]) == ri;
  }

  /**
   * The three-position bound lets through a closed ring with only two distinct positions,
   * such as `[a, b, a]`, which is fewer than the four positions of a GeoJSON linear ring.
   */
  lemma DegenerateRingKept(a: Point, b: Point)
    ensures RepairRing([a, b, a]) == Some([a, b, a])
  {
  }

  /** Running the pass on its own output changes nothing. */
  lemma RepairIdempotent(clipped: Option<MultiPolygonRings>)
    ensures RepairClipped(Some(RepairClipped(clipped))) == RepairClipped(clipped)
  {
    var m := RepairClipped(clipped);
    if m != [] {
      forall p | 0 <= p < |m|
        ensures RepairPolygon(m[p]) == Some(m[p])
      {
        FilterMapIdentity(RepairRing, m[p]);
      }
      FilterMapIdentity(RepairPolygon, m);
    }
  }
}
