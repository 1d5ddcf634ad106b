/** The cutting geometry ("blade") built from the cutting line. */
module Blade {
  import opened GeoJson
  import opened Sequences

  /** Half width of the thin blade, passed to the offset in `THIN_UNIT`. */
  const THIN_HALF_WIDTH: real := 0.0005
  const THIN_UNIT: string := "meters"

  /**
   * The ring `a`, then `b` backwards, then the first point again.
   * Both blades are built this way: the thin one from its two offset lines,
   * the kerf one from the cutting line and one offset line.
   */
  function BladeRing(a: Line, b: Line): (ring: Ring)
    ensures |ring| == |a| + |b| + 1
    ensures ring[..|a|] == a
    ensures ring[|a|..|ring| - 1] == Reverse(b)
    ensures ring[|ring| - 1] == ring[0] == a[0]
  {
    var coords := a + Reverse(b);
    coords + [coords[0]]
  }

  /**
   * The thin blade of `createThinLinePolygon(line, 0.0005)`: the offset at `-0.0005`
   * ("left") forwards, the offset at `+0.0005` ("right") backwards, closed.
   * It is closed and has at least five positions, so it is a valid linear ring.
   */
  function ThinBlade(k: Kernel, line: Line): (ring: Ring)
    ensures var left := k.lineOffset(line, -THIN_HALF_WIDTH, THIN_UNIT);
            var right := k.lineOffset(line, THIN_HALF_WIDTH, THIN_UNIT);
            && |ring| == |left| + |right| + 1
            && ring[..|left|] == left
            && ring[|left|..|ring| - 1] == Reverse(right)
            && ring[|ring| - 1] == ring[0] == left[0]
    ensures |ring| >= 5
  {
    var left := k.lineOffset(line, -THIN_HALF_WIDTH, THIN_UNIT);
    var right := k.lineOffset(line, THIN_HALF_WIDTH, THIN_UNIT);
    BladeRing(left, right)
  }
}
