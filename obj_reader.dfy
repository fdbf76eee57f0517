/** The line loop of MeshFactory::loadObj: it reads a Wavefront OBJ subset
    line by line and builds a vertex list and a triangle index list under one
    of two shading policies.

    - flat: each `v` line adds a tinted entry to a temporary position list;
      each face copies the positions it references into the vertex list and
      appends fresh sequential indices, so no vertex is shared;
    - smooth: each `v` line adds a vertex directly; each face appends its
      1-based indices minus one.

    A quad `f a b c d` becomes the triangles (a, b, c) and (c, d, a).

    `Step` and `Parse` state what the loop computes, one line at a time;
    `ReadLines` is the loop itself and is proved to agree with them. */
module ObjReader {
  import opened ObjScan

  /** An RGBA colour. */
  datatype Color = Color(r: real, g: real, b: real, a: real)

  /** The placeholder tint that flat mode gives every position. */
  const Tint: Color := Color(0.6, 0.9, 0.2, 1.0)

  /** A vertex: a position, kept opaque, and an optional colour. */
  datatype Vertex<P> = Vertex(position: P, color: Option<Color>)

  /** What `sscanf(line, "v %f %f %f", ...)` yields: the number of
      coordinates it matched and the position it left behind. */
  datatype PositionScan<P> = PositionScan(matched: int, position: P)

  /** A diagnostic for one line, with that line's 1-based number and text. */
  datatype Warning =
    | MissingValue(lineNb: nat, text: string)
    | DanglingIndex(lineNb: nat, text: string)

  /** The state of the line loop: lines read so far, the temporary position
      list (flat mode only), the output vertices and indices, and the
      warnings issued. */
  datatype Reader<P> = Reader(
    lineNb: nat,
    positions: seq<Vertex<P>>,
    vertices: seq<Vertex<P>>,
    indices: seq<nat>,
    warnings: seq<Warning>)

  /** Lines of length at most one and comment lines are skipped. */
  predicate IsBlankOrComment(line: string) {
    |line| <= 1 || line[0] == '#'
  }

  /** Only lines that begin with `v` and a space add a position. */
  predicate IsPositionLine(line: string) {
    !IsBlankOrComment(line) && line[0] == 'v' && line[1] == ' '
  }

  /** Every other line that begins with `f` is read as a face. */
  predicate IsFaceLine(line: string) {
    !IsBlankOrComment(line) && line[0] == 'f'
  }

  /** Every 1-based index in `idx` names one of the first `n` positions. */
  predicate InRange(idx: seq<int>, n: nat) {
    forall x :: x in idx ==> 1 <= x <= n
  }

  /** The corners of a face in triangle order: (a, b, c), then (c, d, a)
      when a fourth index is present. */
  function Corners(idx: seq<int>): (c: seq<int>)
    requires 3 <= |idx| <= 4
    ensures forall x :: x in c ==> x in idx
  {
    if |idx| == 4 then [idx[0], idx[1], idx[2], idx[2], idx[3], idx[0]]
    else [idx[0], idx[1], idx[2]]
  }

  /** The positions that the 1-based indices `c` name, in order. */
  function Copies<P>(positions: seq<Vertex<P>>, c: seq<int>): (vs: seq<Vertex<P>>)
    requires InRange(c, |positions|)
    ensures |vs| == |c|
    ensures forall v :: v in vs ==> v in positions
  {
    assert forall j :: 0 <= j < |c| ==> c[j] in c;
    var vs := seq(|c|, j requires 0 <= j < |c| => positions[c[j] - 1]);
    assert forall j :: 0 <= j < |vs| ==> vs[j] in positions;
    vs
  }

  /** The 0-based form of the 1-based indices `c`. */
  function Lowered(c: seq<int>): (ix: seq<nat>)
    requires forall x :: x in c ==> x >= 1
  {
    assert forall j :: 0 <= j < |c| ==> c[j] in c;
    seq(|c|, j requires 0 <= j < |c| => c[j] - 1)
  }

  /** `n` fresh indices, counting up from `start`. */
  function Sequential(start: nat, n: nat): (ix: seq<nat>) {
    seq(n, j requires 0 <= j < n => (start + j) as nat)
  }

  function Start<P>(): Reader<P> {
    Reader(0, [], [], [], [])
  }

  /** A position line, numbered `n`, that scanned as `s`. */
  function AddPosition<P>(r: Reader<P>, n: nat, line: string, s: PositionScan<P>, flat: bool): (r': Reader<P>)
    ensures r'.lineNb == n && r'.indices == r.indices
    ensures |r'.positions| + |r'.vertices| == |r.positions| + |r.vertices| + 1
    ensures flat ==>
      && r'.vertices == r.vertices && |r'.positions| == |r.positions| + 1
      && r'.positions[|r.positions|] == Vertex(s.position, Some(Tint))
    ensures !flat ==>
      && r'.positions == r.positions && |r'.vertices| == |r.vertices| + 1
      && r'.vertices[|r.vertices|] == Vertex(s.position, None)
    ensures s.matched == 3 <==> r'.warnings == r.warnings
    ensures s.matched != 3 ==> r'.warnings == r.warnings + [MissingValue(n, line)]
  {
    var warned := if s.matched != 3 then r.warnings + [MissingValue(n, line)] else r.warnings;
    if flat then
      r.(lineNb := n, positions := r.positions + [Vertex(s.position, Some(Tint))], warnings := warned)
    else
      r.(lineNb := n, vertices := r.vertices + [Vertex(s.position, None)], warnings := warned)
  }

  /** How many vertices a face may refer to: the positions read so far in
      flat mode, the vertices read so far in smooth mode. */
  function Known<P>(r: Reader<P>, flat: bool): nat {
    if flat then |r.positions| else |r.vertices|
  }

  /** A face line, numbered `n`, that scanned as the indices `idx`. In flat
      mode the indices refer to the position list, in smooth mode to the
      vertex list. */
  function AddFace<P>(r: Reader<P>, n: nat, line: string, idx: seq<int>, flat: bool): (r': Reader<P>)
    requires |idx| <= 4
    ensures r'.lineNb == n && r'.positions == r.positions
    ensures 3 <= |idx| && InRange(idx, Known(r, flat)) <==> r'.warnings == r.warnings
    ensures r'.warnings != r.warnings ==>
      && r'.vertices == r.vertices && r'.indices == r.indices
      && |r'.warnings| == |r.warnings| + 1 && r'.warnings[..|r.warnings|] == r.warnings
    ensures r'.warnings == r.warnings ==> |r'.indices| == |r.indices| + 3 * (|idx| - 2)
  {
    var known := Known(r, flat);
    if |idx| < 3 then r.(lineNb := n, warnings := r.warnings + [MissingValue(n, line)])
    else if !InRange(idx, known) then r.(lineNb := n, warnings := r.warnings + [DanglingIndex(n, line)])
    else
      var c := Corners(idx);
      if flat then
        r.(lineNb := n, vertices := r.vertices + Copies(r.positions, c),
           indices := r.indices + Sequential(|r.indices|, |c|))
      else
        r.(lineNb := n, indices := r.indices + Lowered(c))
  }

  /** The effect of reading one more line. */
  function Step<P>(r: Reader<P>, line: string, flat: bool, scan: string -> PositionScan<P>): (r': Reader<P>)
    ensures r'.lineNb == r.lineNb + 1
    ensures |r.positions| <= |r'.positions| && |r.vertices| <= |r'.vertices| && |r.indices| <= |r'.indices|
    ensures |r.warnings| <= |r'.warnings| <= |r.warnings| + 1
  {
    var n := r.lineNb + 1;
    if IsBlankOrComment(line) then r.(lineNb := n)
    else if IsPositionLine(line) then AddPosition(r, n, line, scan(line), flat)
    else if line[0] == 'f' then AddFace(r, n, line, ScanFace(line), flat)
    else r.(lineNb := n)
  }

  /** The state after reading all of `lines`, in order. */
  function Parse<P>(lines: seq<string>, flat: bool, scan: string -> PositionScan<P>): (r: Reader<P>)
    ensures r.lineNb == |lines| && |r.warnings| <= |lines|
    decreases |lines|
  {
    if lines == [] then Start()
    else Step(Parse(lines[..|lines| - 1], flat, scan), lines[|lines| - 1], flat, scan)
  }

  /** What the loop guarantees about its output: whole triangles, every
      index naming a vertex, and per shading mode the shape of the lists. */
  ghost predicate WellFormed<P>(r: Reader<P>, flat: bool) {
    && |r.indices| % 3 == 0
    && (forall k :: 0 <= k < |r.indices| ==> r.indices[k] < |r.vertices|)
    && (flat ==> |r.indices| == |r.vertices|)
    && (flat ==> forall k :: 0 <= k < |r.indices| ==> r.indices[k] == k)
    && (flat ==> forall v :: v in r.vertices ==> v in r.positions)
    && (flat ==> forall v :: v in r.positions ==> v.color == Some(Tint))
    && (!flat ==> r.positions == [])
    && (!flat ==> forall v :: v in r.vertices ==> v.color == None)
  }

  /** The line loop. `vertexTmp` and `i` are the flat-mode position list and
      next fresh index; `lineNb` numbers the lines for the warnings. */
  method ReadLines<P>(lines: seq<string>, flat: bool, scan: string -> PositionScan<P>)
    returns (vertex: seq<Vertex<P>>, indices: seq<nat>, warnings: seq<Warning>)
    ensures vertex == Parse(lines, flat, scan).vertices
    ensures indices == Parse(lines, flat, scan).indices
    ensures warnings == Parse(lines, flat, scan).warnings
    ensures |indices| % 3 == 0
    ensures forall k :: 0 <= k < |indices| ==> indices[k] < |vertex|
    ensures flat ==> |indices| == |vertex| && forall k :: 0 <= k < |indices| ==> indices[k] == k
  {
    var i: nat := 0;
    var lineNb: nat := 0;
    var vertexTmp: seq<Vertex<P>> := [];
    vertex, indices, warnings := [], [], [];
    var next := 0;
    while next < |lines|
      invariant next <= |lines|
      invariant Parse(lines[..next], flat, scan) == Reader(lineNb, vertexTmp, vertex, indices, warnings)
      invariant flat ==> i == |indices|
    {
      var line := lines[next];
      ghost var before := Reader(lineNb, vertexTmp, vertex, indices, warnings);
      assert lines[..next + 1][..next] == lines[..next];
      assert Parse(lines[..next + 1], flat, scan) == Step(before, line, flat, scan);
      next := next + 1;
      lineNb := lineNb + 1;
      if |line| <= 1 || line[0] == '#' {
        continue;
      }
      if line[0] == 'v' && line[1] == ' ' {
        var v := scan(line);
        if v.matched != 3 {
          warnings := warnings + [MissingValue(lineNb, line)];
        }
        if flat {
          vertexTmp := vertexTmp + [Vertex(v.position, Some(Tint))];
        } else {
          vertex := vertex + [Vertex(v.position, None)];
        }
        assert Reader(lineNb, vertexTmp, vertex, indices, warnings) == AddPosition(before, lineNb, line, v, flat);
      } else if line[0] == 'f' {
        i, vertex, indices, warnings := ReadFace(before, lineNb, line, flat, i, vertexTmp, vertex, indices, warnings);
      }
    }
    assert lines[..next] == lines;
    ParseWellFormed(lines, flat, scan);
  }

  /** The face branch of the line loop: scans the indices of the face line
      numbered `lineNb` and appends its triangles, or a warning when the face
      is short or refers to a vertex not read yet. */
  method ReadFace<P>(ghost before: Reader<P>, lineNb: nat, line: string, flat: bool, i: nat,
                     vertexTmp: seq<Vertex<P>>, vertex: seq<Vertex<P>>, indices: seq<nat>, warnings: seq<Warning>)
    returns (i': nat, vertex': seq<Vertex<P>>, indices': seq<nat>, warnings': seq<Warning>)
    requires before == Reader(before.lineNb, vertexTmp, vertex, indices, warnings)
    requires flat ==> i == |indices|
    ensures Reader(lineNb, vertexTmp, vertex', indices', warnings') == AddFace(before, lineNb, line, ScanFace(line), flat)
    ensures flat ==> i' == |indices'|
  {
    i', vertex', indices', warnings' := i, vertex, indices, warnings;
    var index := ScanFace(line);
    var nbIndex := |index|;
    if nbIndex < 3 {
      warnings' := warnings + [MissingValue(lineNb, line)];
    } else if !InRange(index, if flat then |vertexTmp| else |vertex|) {
      warnings' := warnings + [DanglingIndex(lineNb, line)];
    } else if flat {
      CornerCopies(vertexTmp, index);
      CornerIndices(i, index);
      var face := [vertexTmp[index[0] - 1], vertexTmp[index[1] - 1], vertexTmp[index[2] - 1]];
      var faceIndices := [i', i' + 1, i' + 2];
      i' := i' + 3;
      if nbIndex > 3 {
        face := face + [vertexTmp[index[2] - 1], vertexTmp[index[3] - 1], vertexTmp[index[0] - 1]];
        faceIndices := faceIndices + [i', i' + 1, i' + 2];
        i' := i' + 3;
      }
      vertex' := vertex + face;
      indices' := indices + faceIndices;
    } else {
      CornerLowered(index);
      var faceIndices := [index[0] - 1, index[1] - 1, index[2] - 1];
      if nbIndex > 3 {
        faceIndices := faceIndices + [index[2] - 1, index[3] - 1, index[0] - 1];
      }
      indices' := indices + faceIndices;
    }
  }

  lemma CornerCopies<P>(positions: seq<Vertex<P>>, idx: seq<int>)
    requires 3 <= |idx| <= 4 && InRange(idx, |positions|)
    ensures idx[0] in idx && idx[1] in idx && idx[2] in idx
    ensures |idx| == 4 ==> idx[3] in idx
    ensures var tri := [positions[idx[0] - 1], positions[idx[1] - 1], positions[idx[2] - 1]];
      && (|idx| == 3 ==> Copies(positions, Corners(idx)) == tri)
      && (|idx| == 4 ==> Copies(positions, Corners(idx)) ==
                          tri + [positions[idx[2] - 1], positions[idx[3] - 1], positions[idx[0] - 1]])
  {
    assert idx[0] in idx && idx[1] in idx && idx[2] in idx;
    var c := Corners(idx);
    if |idx| == 4 {
      assert idx[3] in idx;
      assert c == [idx[0], idx[1], idx[2], idx[2], idx[3], idx[0]];
    }
  }

  lemma CornerIndices(start: nat, idx: seq<int>)
    requires 3 <= |idx| <= 4
    ensures |idx| == 3 ==> Sequential(start, |Corners(idx)|) == [start, start + 1, start + 2]
    ensures |idx| == 4 ==> Sequential(start, |Corners(idx)|) ==
                           [start, start + 1, start + 2] + [start + 3, start + 4, start + 5]
  {
  }

  lemma CornerLowered(idx: seq<int>)
    requires 3 <= |idx| <= 4 && forall x :: x in idx ==> x >= 1
    ensures idx[0] in idx && idx[1] in idx && idx[2] in idx
    ensures |idx| == 4 ==> idx[3] in idx
    ensures |idx| == 3 ==> Lowered(Corners(idx)) == [idx[0] - 1, idx[1] - 1, idx[2] - 1]
    ensures |idx| == 4 ==> Lowered(Corners(idx)) ==
                           [idx[0] - 1, idx[1] - 1, idx[2] - 1] + [idx[2] - 1, idx[3] - 1, idx[0] - 1]
  {
  }

  lemma AddPositionWellFormed<P>(r: Reader<P>, n: nat, line: string, s: PositionScan<P>, flat: bool)
    requires WellFormed(r, flat)
    ensures WellFormed(AddPosition(r, n, line, s, flat), flat)
  {
  }

  lemma AddFaceWellFormed<P>(r: Reader<P>, n: nat, line: string, idx: seq<int>, flat: bool)
    requires |idx| <= 4 && WellFormed(r, flat)
    ensures WellFormed(AddFace(r, n, line, idx, flat), flat)
  {
    if 3 <= |idx| && InRange(idx, Known(r, flat)) {
      var c := Corners(idx);
      var r' := AddFace(r, n, line, idx, flat);
      if flat {
        assert forall v :: v in r'.vertices ==> v in r.vertices || v in Copies(r.positions, c);
      } else {
        assert forall j :: 0 <= j < |c| ==> c[j] in c;
        assert forall k :: |r.indices| <= k < |r'.indices| ==> r'.indices[k] == c[k - |r.indices|] - 1;
      }
    }
  }

  lemma StepWellFormed<P>(r: Reader<P>, line: string, flat: bool, scan: string -> PositionScan<P>)
    requires WellFormed(r, flat)
    ensures WellFormed(Step(r, line, flat, scan), flat)
  {
    var n := r.lineNb + 1;
    if IsPositionLine(line) {
      AddPositionWellFormed(r, n, line, scan(line), flat);
    } else if IsFaceLine(line) {
      AddFaceWellFormed(r, n, line, ScanFace(line), flat);
    }
  }

  /** Whatever the input, the loop's output is well formed. */
  lemma {:induction false} ParseWellFormed<P>(lines: seq<string>, flat: bool, scan: string -> PositionScan<P>)
    ensures WellFormed(Parse(lines, flat, scan), flat)
    ensures Parse(lines, flat, scan).lineNb == |lines|
    decreases |lines|
  {
    if lines != [] {
      ParseWellFormed(lines[..|lines| - 1], flat, scan);
      StepWellFormed(Parse(lines[..|lines| - 1], flat, scan), lines[|lines| - 1], flat, scan);
    }
  }

  lemma ParseSnoc<P>(lines: seq<string>, line: string, flat: bool, scan: string -> PositionScan<P>)
    ensures Parse(lines + [line], flat, scan) == Step(Parse(lines, flat, scan), line, flat, scan)
  {
    assert (lines + [line])[..|lines|] == lines;
  }

  /** The vertices that the position lines among `lines` denote, in order,
      each given the colour `color`. */
  function PositionVertices<P>(lines: seq<string>, scan: string -> PositionScan<P>, color: Option<Color>): seq<Vertex<P>>
    decreases |lines|
  {
    if lines == [] then []
    else
      var last := lines[|lines| - 1];
      PositionVertices(lines[..|lines| - 1], scan, color)
        + (if IsPositionLine(last) then [Vertex(scan(last).position, color)] else [])
  }

  /** Only `v ` lines add positions, one each, in file order: tinted into the
      temporary list in flat mode, uncoloured into the output in smooth mode. */
  lemma {:induction false} ParsePositions<P>(lines: seq<string>, flat: bool, scan: string -> PositionScan<P>)
    ensures flat ==> Parse(lines, flat, scan).positions == PositionVertices(lines, scan, Some(Tint))
    ensures !flat ==> Parse(lines, flat, scan).vertices == PositionVertices(lines, scan, None)
    decreases |lines|
  {
    if lines != [] {
      var init, last := lines[..|lines| - 1], lines[|lines| - 1];
      ParsePositions(init, flat, scan);
      var r := Parse(init, flat, scan);
      if IsFaceLine(last) {
        var idx := ScanFace(last);
        assert AddFace(r, r.lineNb + 1, last, idx, flat).positions == r.positions;
        assert !flat ==> AddFace(r, r.lineNb + 1, last, idx, flat).vertices == r.vertices;
      }
    }
  }

  /** The mesh-building part of the state: positions, vertices and indices. */
  function Geometry<P>(r: Reader<P>): (seq<Vertex<P>>, seq<Vertex<P>>, seq<nat>) {
    (r.positions, r.vertices, r.indices)
  }

  lemma StepGeometry<P>(r1: Reader<P>, r2: Reader<P>, line: string, flat: bool, scan: string -> PositionScan<P>)
    requires Geometry(r1) == Geometry(r2)
    ensures Geometry(Step(r1, line, flat, scan)) == Geometry(Step(r2, line, flat, scan))
    ensures |Step(r1, line, flat, scan).warnings| - |r1.warnings| == |Step(r2, line, flat, scan).warnings| - |r2.warnings|
  {
  }

  /** Two files that give the same geometry and as many warnings still do
      after the same line is appended to both. */
  lemma SnocGeometry<P>(a: seq<string>, b: seq<string>, line: string, flat: bool, scan: string -> PositionScan<P>)
    requires Geometry(Parse(a, flat, scan)) == Geometry(Parse(b, flat, scan))
    requires |Parse(a, flat, scan).warnings| == |Parse(b, flat, scan).warnings|
    ensures Geometry(Parse(a + [line], flat, scan)) == Geometry(Parse(b + [line], flat, scan))
    ensures |Parse(a + [line], flat, scan).warnings| == |Parse(b + [line], flat, scan).warnings|
  {
    ParseSnoc(a, line, flat, scan);
    ParseSnoc(b, line, flat, scan);
    StepGeometry(Parse(a, flat, scan), Parse(b, flat, scan), line, flat, scan);
  }

  lemma SplitLast<T>(pre: seq<T>, x: T, post: seq<T>)
    ensures post == [] ==> pre + [x] + post == pre + [x] && pre + post == pre
    ensures post != [] ==>
      && pre + [x] + post == (pre + [x] + post[..|post| - 1]) + [post[|post| - 1]]
      && pre + post == (pre + post[..|post| - 1]) + [post[|post| - 1]]
  {
    if post != [] {
      assert post == post[..|post| - 1] + [post[|post| - 1]];
    }
  }

  /** A last line that is neither a position nor a face only moves the line
      counter: no geometry and no warning. */
  lemma IgnoredStep<P>(lines: seq<string>, line: string, flat: bool, scan: string -> PositionScan<P>)
    requires !IsPositionLine(line) && !IsFaceLine(line)
    ensures Geometry(Parse(lines + [line], flat, scan)) == Geometry(Parse(lines, flat, scan))
    ensures Parse(lines + [line], flat, scan).warnings == Parse(lines, flat, scan).warnings
  {
    ParseSnoc(lines, line, flat, scan);
  }

  /** A line that is neither a position nor a face (blank, a comment, `vn`,
      `vt`, `o`, `s`, ...) can be removed from anywhere in the file without
      changing the mesh or the number of warnings. */
  lemma {:induction false} IgnoredLineInert<P>(pre: seq<string>, line: string, post: seq<string>, flat: bool, scan: string -> PositionScan<P>)
    requires !IsPositionLine(line) && !IsFaceLine(line)
    ensures Geometry(Parse(pre + [line] + post, flat, scan)) == Geometry(Parse(pre + post, flat, scan))
    ensures |Parse(pre + [line] + post, flat, scan).warnings| == |Parse(pre + post, flat, scan).warnings|
    decreases |post|
  {
    SplitLast(pre, line, post);
    if post == [] {
      IgnoredStep(pre, line, flat, scan);
    } else {
      var init, last := post[..|post| - 1], post[|post| - 1];
      IgnoredLineInert(pre, line, init, flat, scan);
      SnocGeometry(pre + [line] + init, pre + init, last, flat, scan);
    }
  }

  /** Every warning names a line of the input by its 1-based number, counting
      skipped lines too, carries that line's text, and warnings come in line order. */
  ghost predicate Cited(lines: seq<string>, ws: seq<Warning>) {
    && (forall k :: 0 <= k < |ws| ==> 1 <= ws[k].lineNb <= |lines| && lines[ws[k].lineNb - 1] == ws[k].text)
    && (forall k, l :: 0 <= k < l < |ws| ==> ws[k].lineNb < ws[l].lineNb)
  }

  /** A step issues at most one warning, and that warning cites the line read. */
  lemma StepWarnings<P>(r: Reader<P>, line: string, flat: bool, scan: string -> PositionScan<P>)
    ensures var ws := Step(r, line, flat, scan).warnings;
      ws == r.warnings || (|ws| == |r.warnings| + 1 && ws[..|r.warnings|] == r.warnings
                           && ws[|r.warnings|].lineNb == r.lineNb + 1 && ws[|r.warnings|].text == line)
  {
  }

  lemma CitedSnoc(lines: seq<string>, line: string, ws: seq<Warning>, ws': seq<Warning>)
    requires Cited(lines, ws)
    requires ws' == ws || (|ws'| == |ws| + 1 && ws'[..|ws|] == ws
                           && ws'[|ws|].lineNb == |lines| + 1 && ws'[|ws|].text == line)
    ensures Cited(lines + [line], ws')
  {
    var all := lines + [line];
    assert forall k :: 0 <= k < |ws| ==> ws'[k] == ws[k] && all[ws[k].lineNb - 1] == lines[ws[k].lineNb - 1];
  }

  lemma {:induction false} WarningsCiteLines<P>(lines: seq<string>, flat: bool, scan: string -> PositionScan<P>)
    ensures Cited(lines, Parse(lines, flat, scan).warnings)
    decreases |lines|
  {
    if lines != [] {
      var init, last := lines[..|lines| - 1], lines[|lines| - 1];
      WarningsCiteLines(init, flat, scan);
      ParseWellFormed(init, flat, scan);
      StepWarnings(Parse(init, flat, scan), last, flat, scan);
      assert lines == init + [last];
      CitedSnoc(init, last, Parse(init, flat, scan).warnings, Parse(lines, flat, scan).warnings);
    }
  }

  /** A `v ` line adds exactly one vertex, even when fewer than three
      coordinates scan; only then is it reported, under its own line number. */
  lemma PositionLine<P>(lines: seq<string>, line: string, flat: bool, scan: string -> PositionScan<P>)
    requires IsPositionLine(line)
    ensures var r, r' := Parse(lines, flat, scan), Parse(lines + [line], flat, scan);
      var p := scan(line).position;
      && (flat ==> r'.positions == r.positions + [Vertex(p, Some(Tint))] && r'.vertices == r.vertices)
      && (!flat ==> r'.positions == r.positions && r'.vertices == r.vertices + [Vertex(p, None)])
      && r'.indices == r.indices
      && (scan(line).matched == 3 <==> r'.warnings == r.warnings)
      && (scan(line).matched != 3 ==> r'.warnings == r.warnings + [MissingValue(|lines| + 1, line)])
  {
    ParseSnoc(lines, line, flat, scan);
    ParseWellFormed(lines, flat, scan);
  }

  /** A face line with fewer than three indices is reported and adds nothing. */
  lemma ShortFace<P>(lines: seq<string>, line: string, flat: bool, scan: string -> PositionScan<P>)
    requires IsFaceLine(line) && |ScanFace(line)| < 3
    ensures var r, r' := Parse(lines, flat, scan), Parse(lines + [line], flat, scan);
      Geometry(r') == Geometry(r) && r'.warnings == r.warnings + [MissingValue(|lines| + 1, line)]
  {
    ParseSnoc(lines, line, flat, scan);
    ParseWellFormed(lines, flat, scan);
  }

  /** A face that refers to a vertex not yet read is reported and adds nothing. */
  lemma DanglingFace<P>(lines: seq<string>, line: string, flat: bool, scan: string -> PositionScan<P>)
    requires IsFaceLine(line) && |ScanFace(line)| >= 3
    requires !InRange(ScanFace(line), Known(Parse(lines, flat, scan), flat))
    ensures var r, r' := Parse(lines, flat, scan), Parse(lines + [line], flat, scan);
      Geometry(r') == Geometry(r) && r'.warnings == r.warnings + [DanglingIndex(|lines| + 1, line)]
  {
    ParseSnoc(lines, line, flat, scan);
    ParseWellFormed(lines, flat, scan);
  }

  /** A face line is read as the indices `ScanFace` finds in it. */
  lemma FaceStep<P>(lines: seq<string>, line: string, flat: bool, scan: string -> PositionScan<P>)
    requires IsFaceLine(line)
    ensures Parse(lines + [line], flat, scan) ==
            AddFace(Parse(lines, flat, scan), |lines| + 1, line, ScanFace(line), flat)
  {
    ParseSnoc(lines, line, flat, scan);
    ParseWellFormed(lines, flat, scan);
  }

  /** Flat mode: a face whose indices all name positions read so far appends
      copies of those positions, tinted, and as many fresh sequential
      indices. A triangle `a b c` gives three; a quad `a b c d` gives six,
      for the triangles (a, b, c) and (c, d, a). */
  lemma FlatFace<P>(r: Reader<P>, n: nat, line: string, idx: seq<int>)
    requires 3 <= |idx| <= 4 && InRange(idx, |r.positions|)
    ensures idx[0] in idx && idx[1] in idx && idx[2] in idx && (|idx| == 4 ==> idx[3] in idx)
    ensures var r', p, m := AddFace(r, n, line, idx, true), r.positions, |r.indices|;
      var tri := [p[idx[0] - 1], p[idx[1] - 1], p[idx[2] - 1]];
      && r'.positions == r.positions && r'.warnings == r.warnings
      && (|idx| == 3 ==> r'.vertices == r.vertices + tri && r'.indices == r.indices + [m, m + 1, m + 2])
      && (|idx| == 4 ==>
            && r'.vertices == r.vertices + tri + [p[idx[2] - 1], p[idx[3] - 1], p[idx[0] - 1]]
            && r'.indices == r.indices + [m, m + 1, m + 2] + [m + 3, m + 4, m + 5])
  {
    CornerCopies(r.positions, idx);
    CornerIndices(|r.indices|, idx);
  }

  /** Smooth mode: a face whose indices all name vertices read so far adds
      no vertex and appends its indices minus one, the quad `a b c d` as the
      triangles (a, b, c) and (c, d, a). */
  lemma SmoothFace<P>(r: Reader<P>, n: nat, line: string, idx: seq<int>)
    requires 3 <= |idx| <= 4 && InRange(idx, |r.vertices|)
    ensures idx[0] in idx && idx[1] in idx && idx[2] in idx && (|idx| == 4 ==> idx[3] in idx)
    ensures var r' := AddFace(r, n, line, idx, false);
      var tri := [idx[0] - 1, idx[1] - 1, idx[2] - 1];
      && r'.positions == r.positions && r'.vertices == r.vertices && r'.warnings == r.warnings
      && (|idx| == 3 ==> r'.indices == r.indices + tri)
      && (|idx| == 4 ==> r'.indices == r.indices + tri + [idx[2] - 1, idx[3] - 1, idx[0] - 1])
  {
    CornerLowered(idx);
  }

  lemma ThreePositions<P>(p1: string, p2: string, p3: string, scan: string -> PositionScan<P>)
    requires IsPositionLine(p1) && IsPositionLine(p2) && IsPositionLine(p3)
    ensures var r := Parse([p1, p2, p3], true, scan);
      && r.positions == [Vertex(scan(p1).position, Some(Tint)), Vertex(scan(p2).position, Some(Tint)),
                         Vertex(scan(p3).position, Some(Tint))]
      && r.indices == [] && r.vertices == []
  {
    PositionLine([], p1, true, scan);
    assert [] + [p1] == [p1];
    PositionLine([p1], p2, true, scan);
    assert [p1] + [p2] == [p1, p2];
    PositionLine([p1, p2], p3, true, scan);
    assert [p1, p2] + [p3] == [p1, p2, p3];
  }

  lemma FirstTriangle<P>(r: Reader<P>, n: nat, f: string, idx: seq<int>)
    requires |r.positions| == 3 && r.vertices == [] && r.indices == [] && idx == [1, 2, 3]
    ensures AddFace(r, n, f, idx, true).vertices == r.positions
    ensures AddFace(r, n, f, idx, true).indices == [0, 1, 2]
  {
    FlatFace(r, n, f, idx);
    assert [r.positions[0], r.positions[1], r.positions[2]] == r.positions;
  }

  /** A complete file in flat mode: three `v` lines and a face line that
      scans as 1 2 3 (such as `FaceLine([1, 2, 3])`, "f 1 2 3") give three
      tinted vertices and the indices 0, 1, 2. */
  lemma OneTriangle<P>(p1: string, p2: string, p3: string, f: string, scan: string -> PositionScan<P>)
    requires IsPositionLine(p1) && IsPositionLine(p2) && IsPositionLine(p3)
    requires IsFaceLine(f) && ScanFace(f) == [1, 2, 3]
    ensures var r := Parse([p1, p2, p3, f], true, scan);
      && r.vertices == [Vertex(scan(p1).position, Some(Tint)), Vertex(scan(p2).position, Some(Tint)),
                        Vertex(scan(p3).position, Some(Tint))]
      && r.indices == [0, 1, 2]
  {
    ThreePositions(p1, p2, p3, scan);
    FaceStep([p1, p2, p3], f, true, scan);
    assert [p1, p2, p3] + [f] == [p1, p2, p3, f];
    FirstTriangle(Parse([p1, p2, p3], true, scan), 4, f, ScanFace(f));
  }

  /** The flat-mode face code as written: it copies `positions[idx[k] - 1]`
      for every corner without looking at the indices, so it is defined only
      when at least three indices were scanned and all of them are in range. */
  function UncheckedFlatFace<P>(positions: seq<Vertex<P>>, idx: seq<int>): (vs: seq<Vertex<P>>)
    requires 3 <= |idx| <= 4 && InRange(idx, |positions|)
    ensures |vs| == 3 * (|idx| - 2)
    ensures forall v :: v in vs ==> v in positions
  {
    Copies(positions, Corners(idx))
  }

  /** A file whose first line is a face, such as `f 1 2 3`, reaches the face
      code with no position read: the unchecked copy would read outside the
      position list, while the reader drops the face and reports it. */
  lemma FaceBeforeAnyVertex<P>(f: string, scan: string -> PositionScan<P>)
    requires IsFaceLine(f) && 3 <= |ScanFace(f)|
    ensures !InRange(ScanFace(f), |Parse([], true, scan).positions|)
    ensures Parse([f], true, scan) == Reader(1, [], [], [], [DanglingIndex(1, f)])
  {
    FaceStep([], f, true, scan);
    assert [] + [f] == [f];
    NoPositionsYet(Parse([], true, scan), 1, f, ScanFace(f));
  }

  lemma NoPositionsYet<P>(r: Reader<P>, n: nat, f: string, idx: seq<int>)
    requires r == Start() && 3 <= |idx| <= 4
    ensures !InRange(idx, |r.positions|)
    ensures AddFace(r, n, f, idx, true) == Reader(n, [], [], [], [DanglingIndex(n, f)])
  {
    assert r.positions == [];
    assert idx[0] in idx && !(1 <= idx[0] <= 0);
  }
}
