/**
 * The navigation-mesh exporter (NavMeshExporter.cs, ExportNavMesh): writes a
 * triangulation as Wavefront OBJ text, one line per StringBuilder.AppendLine.
 * The header names the object; each vertex becomes a `v` line with x negated
 * (mirroring Unity's left-handed frame); each index triple (a, b, c) becomes
 * an `f` line with 1-based indices in the order a, c, b, reversing the winding.
 * Float formatting is the supplied `fmt`; indices are C# 32-bit ints, and
 * `index + 1` wraps around in C#'s default unchecked arithmetic.
 */
module NavMeshExport {
  import opened Common
  import opened ObjText

  newtype Int32 = x: int | -0x8000_0000 <= x < 0x8000_0000

  const Header := "o NavMesh"

  /** `index + 1` on a C# int: int.MaxValue wraps to int.MinValue. */
  function OneBased(index: Int32): Int32 {
    if index == 0x7fff_ffff then -0x8000_0000 else index + 1
  }

  function VertexText(fmt: real -> string, x: real, y: real, z: real): string {
    Fields4("v", fmt(x), fmt(y), fmt(z))
  }

  function FaceText(first: Int32, second: Int32, third: Int32): string {
    Fields4("f", IntText(first as int), IntText(second as int), IntText(third as int))
  }

  /** The `v` line of vertex `v`. */
  function VertexLine(fmt: real -> string, v: Vec3): string {
    VertexText(fmt, -v.x, v.y, v.z)
  }

  /** The `f` line of the triangle starting at `indices[i]`. */
  function FaceLine(indices: seq<Int32>, i: nat): string
    requires i + 2 < |indices|
  {
    FaceText(OneBased(indices[i]), OneBased(indices[i + 2]), OneBased(indices[i + 1]))
  }

  /**
   * The exported lines, or None when the index count is not a multiple of
   * three (the loop then reads past the end of the array and throws, so no
   * file is written).
   */
  function ObjLines(vertices: seq<Vec3>, indices: seq<Int32>, fmt: real -> string): Option<seq<string>> {
    if |indices| % 3 != 0 then None
    else Some([Header] + VertexLines(vertices, fmt) + FaceLines(indices))
  }

  function VertexLines(vertices: seq<Vec3>, fmt: real -> string): (lines: seq<string>)
    ensures |lines| == |vertices|
  {
    seq(|vertices|, k requires 0 <= k < |vertices| => VertexLine(fmt, vertices[k]))
  }

  /** One `f` line per index triple, in order. */
  function FaceLines(indices: seq<Int32>): (lines: seq<string>)
    ensures 3 * |lines| <= |indices| < 3 * |lines| + 3
    decreases |indices|
  {
    if |indices| < 3 then [] else [FaceLine(indices, 0)] + FaceLines(indices[3..])
  }

  /** Face line k is the line of the triple starting at 3 * k. */
  lemma {:induction false} FaceLinesAt(indices: seq<Int32>, k: nat)
    requires 3 * k + 2 < |indices|
    ensures k < |FaceLines(indices)| && FaceLines(indices)[k] == FaceLine(indices, 3 * k)
    decreases |indices|
  {
    if k > 0 {
      var rest := indices[3..];
      var j := 3 * (k - 1);
      FaceLinesAt(rest, k - 1);
      assert FaceLine(rest, j) == FaceLine(indices, j + 3) by {
        assert rest[j] == indices[j + 3] && rest[j + 1] == indices[j + 4] && rest[j + 2] == indices[j + 5];
      }
      assert FaceLines(indices) == [FaceLine(indices, 0)] + FaceLines(rest);
    }
  }

  /** A successful export has one line for the header, one per vertex and one per triangle. */
  lemma ObjLineCount(vertices: seq<Vec3>, indices: seq<Int32>, fmt: real -> string)
    requires |indices| % 3 == 0
    ensures |ObjLines(vertices, indices, fmt).value| == 1 + |vertices| + |indices| / 3
  {
    assert ObjLines(vertices, indices, fmt).value == [Header] + VertexLines(vertices, fmt) + FaceLines(indices);
  }

  /** The line of a successful export that holds vertex j. */
  lemma VertexLineAt(vertices: seq<Vec3>, indices: seq<Int32>, fmt: real -> string, j: nat)
    requires |indices| % 3 == 0 && j < |vertices|
    ensures ObjLines(vertices, indices, fmt).value[1 + j] == VertexLine(fmt, vertices[j])
  {
    var vl, fl := VertexLines(vertices, fmt), FaceLines(indices);
    assert ObjLines(vertices, indices, fmt).value == [Header] + vl + fl;
    assert ([Header] + vl + fl)[1 + j] == vl[j];
  }

  /** The line of a successful export that holds triangle k. */
  lemma FaceLineAt(vertices: seq<Vec3>, indices: seq<Int32>, fmt: real -> string, k: nat)
    requires |indices| % 3 == 0 && k < |indices| / 3
    ensures ObjLines(vertices, indices, fmt).value[1 + |vertices| + k] == FaceLine(indices, 3 * k)
  {
    var vl, fl := VertexLines(vertices, fmt), FaceLines(indices);
    FaceLinesAt(indices, k);
    assert ObjLines(vertices, indices, fmt).value == [Header] + vl + fl;
    assert ([Header] + vl + fl)[1 + |vertices| + k] == fl[k];
  }

  /** One more vertex line extends the lines written so far by the line of vertex k. */
  lemma VertexStep(vertices: seq<Vec3>, fmt: real -> string, k: nat, sb: seq<string>)
    requires k < |vertices| && sb == [Header] + VertexLines(vertices[..k], fmt)
    ensures sb + [VertexText(fmt, -vertices[k].x, vertices[k].y, vertices[k].z)] ==
            [Header] + VertexLines(vertices[..k + 1], fmt)
  {
    assert vertices[..k + 1][..k] == vertices[..k];
  }

  /** One more face line keeps `sb` followed by the remaining face lines equal to the whole export. */
  lemma FaceStep(indices: seq<Int32>, i: nat, sb: seq<string>, whole: seq<string>)
    requires i + 2 < |indices| && sb + FaceLines(indices[i..]) == whole
    ensures (sb + [FaceText(OneBased(indices[i]), OneBased(indices[i + 2]), OneBased(indices[i + 1]))])
            + FaceLines(indices[i + 3..]) == whole
  {
    assert indices[i..][3..] == indices[i + 3..];
    assert FaceLines(indices[i..]) == [FaceLine(indices, i)] + FaceLines(indices[i + 3..]);
  }

  /** Between 3t and 3t + 2 indices, the count is a multiple of three exactly when it is 3t. */
  lemma WholeTriangles(n: nat, t: nat)
    requires 3 * t <= n <= 3 * t + 2
    ensures n % 3 == 0 <==> n == 3 * t
  {
  }

  /** ExportNavMesh's StringBuilder work: the header, then the vertex loop, then the face loop stepping by three. */
  method ExportNavMesh(vertices: seq<Vec3>, indices: seq<Int32>, fmt: real -> string)
    returns (text: Option<seq<string>>)
    ensures text == ObjLines(vertices, indices, fmt)
  {
    var sb: seq<string> := [Header];
    for k := 0 to |vertices|
      invariant sb == [Header] + VertexLines(vertices[..k], fmt)
    {
      VertexStep(vertices, fmt, k, sb);
      sb := sb + [VertexText(fmt, -vertices[k].x, vertices[k].y, vertices[k].z)];
    }
    assert vertices[..|vertices|] == vertices;
    ghost var whole := [Header] + VertexLines(vertices, fmt) + FaceLines(indices);
    var n := |indices|;
    var i := 0;
    ghost var t: nat := 0;
    while i < n
      invariant 0 <= i <= n && i == 3 * t
      invariant sb + FaceLines(indices[i..]) == whole
      decreases n - i
    {
      var a := OneBased(indices[i]);
      if i + 1 >= n {
        WholeTriangles(n, t);
        return None;
      }
      var b := OneBased(indices[i + 1]);
      if i + 2 >= n {
        WholeTriangles(n, t);
        return None;
      }
      var c := OneBased(indices[i + 2]);
      FaceStep(indices, i, sb, whole);
      // the last two are swapped to reverse the winding order
      sb := sb + [FaceText(a, c, b)];
      i, t := i + 3, t + 1;
    }
    assert indices[i..] == [];
    assert sb == whole;
    WholeTriangles(n, t);
    text := Some(sb);
  }

  // ---------------------------------------------------------------------------
  // Reading the lines back

  datatype Face = Face(first: int, second: int, third: int)

  /** An `f` line with three integer fields. */
  function ParseFace(line: string): Option<Face> {
    var ws := Words(line);
    if |ws| == 4 && ws[0] == "f" && ParseInt(ws[1]).Some? && ParseInt(ws[2]).Some? && ParseInt(ws[3]).Some?
    then Some(Face(ParseInt(ws[1]).value, ParseInt(ws[2]).value, ParseInt(ws[3]).value))
    else None
  }

  /** A `v` line with three coordinates, read with `parse`. */
  function ParseVertex(line: string, parse: string -> Option<real>): Option<Vec3> {
    var ws := Words(line);
    if |ws| == 4 && ws[0] == "v" && parse(ws[1]).Some? && parse(ws[2]).Some? && parse(ws[3]).Some?
    then Some(Vec3(parse(ws[1]).value, parse(ws[2]).value, parse(ws[3]).value))
    else None
  }

  /**
   * The export succeeds exactly when the index count is a multiple of three;
   * then the first line is the header, there is one line per vertex and one
   * per index triple, and every `v` line comes before every `f` line.
   */
  lemma ObjLayout(vertices: seq<Vec3>, indices: seq<Int32>, fmt: real -> string)
    ensures ObjLines(vertices, indices, fmt).Some? <==> |indices| % 3 == 0
    ensures |indices| % 3 == 0 ==>
      var lines := ObjLines(vertices, indices, fmt).value;
      |lines| == 1 + |vertices| + |indices| / 3 && lines[0] == "o NavMesh" &&
      (forall j | 1 <= j <= |vertices| :: |lines[j]| >= 2 && lines[j][..2] == "v ") &&
      (forall j | 1 + |vertices| <= j < |lines| :: |lines[j]| >= 2 && lines[j][..2] == "f ")
  {
    if |indices| % 3 == 0 {
      ObjLineCount(vertices, indices, fmt);
      VertexLinesStartWithV(vertices, indices, fmt);
      FaceLinesStartWithF(vertices, indices, fmt);
    }
  }

  lemma VertexLinesStartWithV(vertices: seq<Vec3>, indices: seq<Int32>, fmt: real -> string)
    requires |indices| % 3 == 0
    ensures var lines := ObjLines(vertices, indices, fmt).value;
      forall j | 1 <= j <= |vertices| :: |lines[j]| >= 2 && lines[j][..2] == "v "
  {
    ObjLineCount(vertices, indices, fmt);
    forall j | 1 <= j <= |vertices|
      ensures |ObjLines(vertices, indices, fmt).value[j]| >= 2 && ObjLines(vertices, indices, fmt).value[j][..2] == "v "
    {
      var v := vertices[j - 1];
      VertexLineAt(vertices, indices, fmt, j - 1);
      Fields4Prefix("v", fmt(-v.x), fmt(v.y), fmt(v.z));
    }
  }

  lemma FaceLinesStartWithF(vertices: seq<Vec3>, indices: seq<Int32>, fmt: real -> string)
    requires |indices| % 3 == 0
    ensures var lines := ObjLines(vertices, indices, fmt).value;
      forall j | 1 + |vertices| <= j < |lines| :: |lines[j]| >= 2 && lines[j][..2] == "f "
  {
    ObjLineCount(vertices, indices, fmt);
    forall j | 1 + |vertices| <= j < 1 + |vertices| + |indices| / 3
      ensures |ObjLines(vertices, indices, fmt).value[j]| >= 2 && ObjLines(vertices, indices, fmt).value[j][..2] == "f "
    {
      var k := j - 1 - |vertices|;
      FaceLineAt(vertices, indices, fmt, k);
      FaceLinePrefix(indices, 3 * k);
    }
  }

  lemma FaceLinePrefix(indices: seq<Int32>, i: nat)
    requires i + 2 < |indices|
    ensures |FaceLine(indices, i)| >= 2 && FaceLine(indices, i)[..2] == "f "
  {
    var a, c, b := OneBased(indices[i]), OneBased(indices[i + 2]), OneBased(indices[i + 1]);
    Fields4Prefix("f", IntText(a as int), IntText(c as int), IntText(b as int));
  }

  /** `fmt` writes `r` without spaces and `parse` reads it back. */
  predicate ReadsBack(fmt: real -> string, parse: string -> Option<real>, r: real) {
    ' ' !in fmt(r) && parse(fmt(r)) == Some(r)
  }

  /**
   * The `v` line of vertex k reads back as that vertex with x negated and y, z
   * unchanged, given that `fmt` writes these three coordinates without spaces
   * and `parse` reads them back.
   */
  lemma VertexLineReadsBack(vertices: seq<Vec3>, indices: seq<Int32>, fmt: real -> string,
                            parse: string -> Option<real>, k: nat)
    requires |indices| % 3 == 0 && k < |vertices|
    requires ReadsBack(fmt, parse, -vertices[k].x) && ReadsBack(fmt, parse, vertices[k].y) && ReadsBack(fmt, parse, vertices[k].z)
    ensures var lines := ObjLines(vertices, indices, fmt).value;
      ParseVertex(lines[1 + k], parse) == Some(Vec3(-vertices[k].x, vertices[k].y, vertices[k].z))
  {
    var v := vertices[k];
    VertexLineAt(vertices, indices, fmt, k);
    WordsOfFour("v", fmt(-v.x), fmt(v.y), fmt(v.z));
  }

  /**
   * The `f` line of triangle k reads back as its three indices plus one, in the
   * order first, third, second.
   */
  lemma FaceLineReadsBack(vertices: seq<Vec3>, indices: seq<Int32>, fmt: real -> string, k: nat)
    requires |indices| % 3 == 0 && k < |indices| / 3
    ensures var lines := ObjLines(vertices, indices, fmt).value;
      ParseFace(lines[1 + |vertices| + k]) ==
        Some(Face(OneBased(indices[3 * k]) as int, OneBased(indices[3 * k + 2]) as int, OneBased(indices[3 * k + 1]) as int))
  {
    var a, c, b := OneBased(indices[3 * k]), OneBased(indices[3 * k + 2]), OneBased(indices[3 * k + 1]);
    FaceLineAt(vertices, indices, fmt, k);
    IntTextRoundTrip(a as int);
    IntTextRoundTrip(b as int);
    IntTextRoundTrip(c as int);
    WordsOfFour("f", IntText(a as int), IntText(c as int), IntText(b as int));
  }

  /** A written index is the source index plus one, so at least 1, unless the source index is int.MaxValue. */
  lemma OneBasedShift(index: Int32)
    ensures index < 0x7fff_ffff ==> OneBased(index) as int == index as int + 1
    ensures 0 <= index < 0x7fff_ffff ==> OneBased(index) >= 1
    ensures index == 0x7fff_ffff ==> OneBased(index) < 0
  {
  }
}
