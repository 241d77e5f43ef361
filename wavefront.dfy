/** The Wavefront OBJ reader of IO/Wavefront/Obj.cs as values: the records,
    what one line does to the parser's state (processLine), what a sequence of
    lines does (LoadObj), the extent (updateSize) and the lines the writer
    emits (WriteObjFile). The class in obj.dfy is proved against these. */
module Wavefront {
  import opened Wrappers
  import opened Text

  datatype Vec3 = Vec3(x: real, y: real, z: real)
  datatype Vec2 = Vec2(u: real, v: real)

  /** The index lists Face.LoadFromStringArray reads from an `f` line:
      one entry per polygon corner. */
  datatype FaceData = FaceData(vertexIndices: seq<int>, normalIndices: seq<int>, uvIndices: seq<int>)

  /** The records, each with the 1-based index processLine gives it. */
  datatype Vertex = Vertex(pos: Vec3, index: nat)
  datatype Normal = Normal(dir: Vec3, index: nat)
  datatype TextureVertex = TextureVertex(uv: Vec2, index: nat)
  datatype Face = Face(data: FaceData, useMtl: Option<string>)

  /** What the record types' LoadFromStringArray make of a line's tokens. */
  datatype Reader = Reader(
    vertex: seq<string> -> Vec3,
    normal: seq<string> -> Vec3,
    texture: seq<string> -> Vec2,
    face: seq<string> -> FaceData)

  /** What the record types' ToString write for a record. */
  datatype Printer = Printer(
    vertex: Vertex -> string,
    texture: TextureVertex -> string,
    face: Face -> string)

  datatype Extent = Extent(xMin: real, xMax: real, yMin: real, yMax: real, zMin: real, zMax: real)

  /** The parser's lists and its two string fields (null is None). */
  datatype ObjState = ObjState(
    vertices: seq<Vertex>,
    normals: seq<Normal>,
    textures: seq<TextureVertex>,
    faces: seq<Face>,
    useMtl: Option<string>,
    mtl: Option<string>)

  const Initial: ObjState := ObjState([], [], [], [], None, None)

  /** The first token of a line, or "" for a line without tokens. */
  function Keyword(line: string): string {
    var parts := Tokens(line);
    if parts == [] then "" else parts[0]
  }

  predicate Known(keyword: string) {
    keyword in {"usemtl", "mtllib", "v", "vn", "f", "vt"}
  }

  /** `usemtl` or `mtllib` without an argument: processLine reads parts[1] and throws. */
  predicate Bare(line: string) {
    Tokens(line) == ["usemtl"] || Tokens(line) == ["mtllib"]
  }

  /** Every list of `st` is a prefix of the same list of `st'`. */
  predicate Extends(st: ObjState, st': ObjState) {
    && st.vertices <= st'.vertices
    && st.normals <= st'.normals
    && st.textures <= st'.textures
    && st.faces <= st'.faces
  }

  /** processLine: None when it throws (the state is then untouched). */
  function Step(rd: Reader, st: ObjState, line: string): (r: Option<ObjState>)
    ensures r.None? <==> Bare(line)
    ensures r.Some? ==> Extends(st, r.value)
    ensures r.Some? ==> |r.value.vertices| + |r.value.normals| + |r.value.textures| + |r.value.faces|
                        <= |st.vertices| + |st.normals| + |st.textures| + |st.faces| + 1
  {
    var parts := Tokens(line);
    if parts == [] then Some(st)
    else if parts[0] == "usemtl" then
      if |parts| < 2 then None else Some(st.(useMtl := Some(parts[1])))
    else if parts[0] == "mtllib" then
      if |parts| < 2 then None else Some(st.(mtl := Some(parts[1])))
    else if parts[0] == "v" then
      Some(st.(vertices := st.vertices + [Vertex(rd.vertex(parts), |st.vertices| + 1)]))
    else if parts[0] == "vn" then
      Some(st.(normals := st.normals + [Normal(rd.normal(parts), |st.normals| + 1)]))
    else if parts[0] == "f" then
      Some(st.(faces := st.faces + [Face(rd.face(parts), st.useMtl)]))
    else if parts[0] == "vt" then
      Some(st.(textures := st.textures + [TextureVertex(rd.texture(parts), |st.textures| + 1)]))
    else Some(st)
  }

  /** Blank lines, all-space lines and lines with an unknown directive change nothing. */
  lemma IgnoredLine(rd: Reader, st: ObjState, line: string)
    requires (forall k :: 0 <= k < |line| ==> line[k] == ' ') || !Known(Keyword(line))
    ensures Step(rd, st, line) == Some(st)
  {
    NoTokensIffBlank(line);
  }

  /** The outcome of a load: the state reached and whether every line was taken. */
  datatype Loaded = Loaded(state: ObjState, ok: bool)

  /** The loop of LoadObj: processLine on each line in order; a line that
      throws ends the load, leaving the state of the lines before it. */
  function Run(rd: Reader, st: ObjState, lines: seq<string>): (r: Loaded)
    ensures Extends(st, r.state)
    decreases |lines|
  {
    if lines == [] then Loaded(st, true)
    else match Step(rd, st, lines[0])
      case None => Loaded(st, false)
      case Some(next) => Run(rd, next, lines[1..])
  }

  /** A load takes every line exactly when no line is a bare `usemtl` or `mtllib`. */
  lemma {:induction false} RunOkIff(rd: Reader, st: ObjState, lines: seq<string>)
    ensures Run(rd, st, lines).ok <==> forall i :: 0 <= i < |lines| ==> !Bare(lines[i])
    decreases |lines|
  {
    if lines != [] {
      if !Bare(lines[0]) {
        RunOkIff(rd, Step(rd, st, lines[0]).value, lines[1..]);
        assert forall i :: 1 <= i < |lines| ==> lines[i] == lines[1..][i - 1];
      }
    }
  }

  /** LoadObj never clears anything: loading `a` and then `b` is loading `a + b`. */
  lemma {:induction false} RunConcat(rd: Reader, st: ObjState, a: seq<string>, b: seq<string>)
    ensures Run(rd, st, a + b) == (var ra := Run(rd, st, a); if ra.ok then Run(rd, ra.state, b) else ra)
    decreases |a|
  {
    if a == [] {
      assert a + b == b;
    } else {
      assert (a + b)[0] == a[0];
      assert (a + b)[1..] == a[1..] + b;
      match Step(rd, st, a[0])
      case None =>
      case Some(next) => RunConcat(rd, next, a[1..], b);
    }
  }

  /** The tokens of the lines that start with `keyword`, in file order. */
  function Select(lines: seq<string>, keyword: string): seq<seq<string>> {
    if lines == [] then []
    else (if Keyword(lines[0]) == keyword then [Tokens(lines[0])] else []) + Select(lines[1..], keyword)
  }

  /** The N-th `v` line read yields the vertex with index N (counting on from
      the vertices already held). */
  lemma {:induction false} VerticesInOrder(rd: Reader, st: ObjState, lines: seq<string>)
    requires Run(rd, st, lines).ok
    ensures var vs, sel, n := Run(rd, st, lines).state.vertices, Select(lines, "v"), |st.vertices|;
      && |vs| == n + |sel|
      && (forall k :: 0 <= k < |sel| ==> vs[n + k] == Vertex(rd.vertex(sel[k]), n + k + 1))
    decreases |lines|
  {
    if lines != [] {
      var next := Step(rd, st, lines[0]).value;
      VerticesInOrder(rd, next, lines[1..]);
      var vs := Run(rd, st, lines).state.vertices;
      assert vs == Run(rd, next, lines[1..]).state.vertices;
      assert next.vertices <= vs;
    }
  }

  /** The N-th `vn` line read yields the normal with index N. */
  lemma {:induction false} NormalsInOrder(rd: Reader, st: ObjState, lines: seq<string>)
    requires Run(rd, st, lines).ok
    ensures var ns, sel, n := Run(rd, st, lines).state.normals, Select(lines, "vn"), |st.normals|;
      && |ns| == n + |sel|
      && (forall k :: 0 <= k < |sel| ==> ns[n + k] == Normal(rd.normal(sel[k]), n + k + 1))
    decreases |lines|
  {
    if lines != [] {
      var next := Step(rd, st, lines[0]).value;
      NormalsInOrder(rd, next, lines[1..]);
      var ns := Run(rd, st, lines).state.normals;
      assert ns == Run(rd, next, lines[1..]).state.normals;
      assert next.normals <= ns;
    }
  }

  /** The N-th `vt` line read yields the texture vertex with index N. */
  lemma {:induction false} TexturesInOrder(rd: Reader, st: ObjState, lines: seq<string>)
    requires Run(rd, st, lines).ok
    ensures var ts, sel, n := Run(rd, st, lines).state.textures, Select(lines, "vt"), |st.textures|;
      && |ts| == n + |sel|
      && (forall k :: 0 <= k < |sel| ==> ts[n + k] == TextureVertex(rd.texture(sel[k]), n + k + 1))
    decreases |lines|
  {
    if lines != [] {
      var next := Step(rd, st, lines[0]).value;
      TexturesInOrder(rd, next, lines[1..]);
      var ts := Run(rd, st, lines).state.textures;
      assert ts == Run(rd, next, lines[1..]).state.textures;
      assert next.textures <= ts;
    }
  }

  /** The N-th `f` line read yields the N-th face. */
  lemma {:induction false} FacesInOrder(rd: Reader, st: ObjState, lines: seq<string>)
    requires Run(rd, st, lines).ok
    ensures var fs, sel, n := Run(rd, st, lines).state.faces, Select(lines, "f"), |st.faces|;
      && |fs| == n + |sel|
      && (forall k :: 0 <= k < |sel| ==> fs[n + k].data == rd.face(sel[k]))
    decreases |lines|
  {
    if lines != [] {
      var next := Step(rd, st, lines[0]).value;
      FacesInOrder(rd, next, lines[1..]);
      var fs := Run(rd, st, lines).state.faces;
      assert fs == Run(rd, next, lines[1..]).state.faces;
      assert next.faces <= fs;
    }
  }

  /** The argument of the last `keyword` directive among `lines`, or `init` if there is none. */
  function LastArgument(lines: seq<string>, keyword: string, init: Option<string>): Option<string> {
    if lines == [] then init
    else
      var parts := Tokens(lines[|lines| - 1]);
      if |parts| >= 2 && parts[0] == keyword then Some(parts[1])
      else LastArgument(lines[..|lines| - 1], keyword, init)
  }

  /** After a load the current material is the last `usemtl` and the library
      the last `mtllib`: the last one wins. */
  lemma {:induction false} LastDirectiveWins(rd: Reader, st: ObjState, lines: seq<string>)
    requires Run(rd, st, lines).ok
    ensures Run(rd, st, lines).state.useMtl == LastArgument(lines, "usemtl", st.useMtl)
    ensures Run(rd, st, lines).state.mtl == LastArgument(lines, "mtllib", st.mtl)
    decreases |lines|
  {
    if lines != [] {
      var init, last := lines[..|lines| - 1], lines[|lines| - 1];
      assert lines == init + [last];
      RunConcat(rd, st, init, [last]);
      LastDirectiveWins(rd, st, init);
    }
  }

  /** The face read from line i is tagged with the material of the last
      `usemtl` before line i, and no later line changes it. */
  lemma FaceKeepsMaterial(rd: Reader, lines: seq<string>, i: nat)
    requires i < |lines| && Keyword(lines[i]) == "f"
    requires Run(rd, Initial, lines).ok
    ensures var fs, m := Run(rd, Initial, lines).state.faces, |Select(lines[..i], "f")|;
      m < |fs| && fs[m] == Face(rd.face(Tokens(lines[i])), LastArgument(lines[..i], "usemtl", None))
  {
    var pre, post := lines[..i], lines[i + 1..];
    assert lines == pre + ([lines[i]] + post);
    RunConcat(rd, Initial, pre, [lines[i]] + post);
    var st1 := Run(rd, Initial, pre).state;
    LastDirectiveWins(rd, Initial, pre);
    FacesInOrder(rd, Initial, pre);
    var st2 := Step(rd, st1, lines[i]).value;
    assert Run(rd, Initial, lines) == Run(rd, st2, post);
  }

  /** Least element of a non-empty sequence (Enumerable.Min). */
  function MinOf(xs: seq<real>): (m: real)
    requires xs != []
    ensures m in xs && forall k :: 0 <= k < |xs| ==> m <= xs[k]
  {
    if |xs| == 1 then xs[0]
    else var rest := MinOf(xs[1..]); if xs[0] <= rest then xs[0] else rest
  }

  /** Greatest element of a non-empty sequence (Enumerable.Max). */
  function MaxOf(xs: seq<real>): (m: real)
    requires xs != []
    ensures m in xs && forall k :: 0 <= k < |xs| ==> xs[k] <= m
  {
    if |xs| == 1 then xs[0]
    else var rest := MaxOf(xs[1..]); if xs[0] >= rest then xs[0] else rest
  }

  function Xs(vs: seq<Vertex>): seq<real> { seq(|vs|, k requires 0 <= k < |vs| => vs[k].pos.x) }
  function Ys(vs: seq<Vertex>): seq<real> { seq(|vs|, k requires 0 <= k < |vs| => vs[k].pos.y) }
  function Zs(vs: seq<Vertex>): seq<real> { seq(|vs|, k requires 0 <= k < |vs| => vs[k].pos.z) }

  /** updateSize: all zeros without vertices, otherwise the tightest box around them. */
  function SizeOf(vs: seq<Vertex>): (e: Extent)
    ensures vs == [] ==> e == Extent(0.0, 0.0, 0.0, 0.0, 0.0, 0.0)
    ensures forall k :: 0 <= k < |vs| ==>
      && e.xMin <= vs[k].pos.x <= e.xMax
      && e.yMin <= vs[k].pos.y <= e.yMax
      && e.zMin <= vs[k].pos.z <= e.zMax
    ensures vs != [] ==>
      && (exists k :: 0 <= k < |vs| && vs[k].pos.x == e.xMin)
      && (exists k :: 0 <= k < |vs| && vs[k].pos.x == e.xMax)
      && (exists k :: 0 <= k < |vs| && vs[k].pos.y == e.yMin)
      && (exists k :: 0 <= k < |vs| && vs[k].pos.y == e.yMax)
      && (exists k :: 0 <= k < |vs| && vs[k].pos.z == e.zMin)
      && (exists k :: 0 <= k < |vs| && vs[k].pos.z == e.zMax)
  {
    if vs == [] then Extent(0.0, 0.0, 0.0, 0.0, 0.0, 0.0)
    else
      var xs, ys, zs := Xs(vs), Ys(vs), Zs(vs);
      assert forall k :: 0 <= k < |vs| ==> xs[k] == vs[k].pos.x && ys[k] == vs[k].pos.y && zs[k] == vs[k].pos.z;
      Extent(MinOf(xs), MaxOf(xs), MinOf(ys), MaxOf(ys), MinOf(zs), MaxOf(zs))
  }

  /** WriteHeader: a default comment, or one comment per header string. */
  function HeaderLines(header: Option<seq<string>>): seq<string> {
    if header.None? || header.value == [] then ["# Generated by ObjParser"]
    else seq(|header.value|, k requires 0 <= k < |header.value| => "# " + header.value[k])
  }

  /** The `mtllib` line, written only for a non-null, non-empty library name. */
  function LibraryLines(mtl: Option<string>): seq<string> {
    if mtl.Some? && mtl.value != "" then ["mtllib " + mtl.value] else []
  }

  function VertexLines(pr: Printer, vs: seq<Vertex>): seq<string> {
    seq(|vs|, k requires 0 <= k < |vs| => pr.vertex(vs[k]))
  }

  function TextureLines(pr: Printer, ts: seq<TextureVertex>): seq<string> {
    seq(|ts|, k requires 0 <= k < |ts| => pr.texture(ts[k]))
  }

  /** The face loop of WriteObjFile, `last` being lastUseMtl. */
  function FaceLines(pr: Printer, faces: seq<Face>, last: string): seq<string>
    decreases |faces|
  {
    if faces == [] then []
    else
      var f := faces[0];
      if f.useMtl.Some? && f.useMtl.value != last then
        ["usemtl " + f.useMtl.value, pr.face(f)] + FaceLines(pr, faces[1..], f.useMtl.value)
      else [pr.face(f)] + FaceLines(pr, faces[1..], last)
  }

  /** Everything WriteObjFile writes. Normals are not written. */
  function ObjLines(pr: Printer, st: ObjState, header: Option<seq<string>>): seq<string> {
    HeaderLines(header) + LibraryLines(st.mtl) + VertexLines(pr, st.vertices)
      + TextureLines(pr, st.textures) + FaceLines(pr, st.faces, "")
  }

  /** The material tag of the last tagged face, or `last` if no face is tagged. */
  function LastTag(faces: seq<Face>, last: string): string {
    if faces == [] then last
    else if faces[|faces| - 1].useMtl.Some? then faces[|faces| - 1].useMtl.value
    else LastTag(faces[..|faces| - 1], last)
  }

  /** What the writer emits for one face given the last material it emitted. */
  function FaceBlock(pr: Printer, f: Face, last: string): seq<string> {
    (if f.useMtl.Some? && f.useMtl.value != last then ["usemtl " + f.useMtl.value] else []) + [pr.face(f)]
  }

  lemma {:induction false} LastTagCons(g: Face, faces: seq<Face>, last: string)
    ensures LastTag([g] + faces, last) == LastTag(faces, if g.useMtl.Some? then g.useMtl.value else last)
    decreases |faces|
  {
    if faces != [] {
      var init := faces[..|faces| - 1];
      assert ([g] + faces)[..|faces|] == [g] + init;
      LastTagCons(g, init, last);
    }
  }

  /** A face gets a `usemtl` line before it exactly when it has a material and
      that material differs from the tag of the last tagged face before it. */
  lemma {:induction false} FaceLinesAppend(pr: Printer, faces: seq<Face>, f: Face, last: string)
    ensures FaceLines(pr, faces + [f], last) == FaceLines(pr, faces, last) + FaceBlock(pr, f, LastTag(faces, last))
    decreases |faces|
  {
    if faces == [] {
      assert [f][1..] == [];
    } else {
      var g := faces[0];
      var last' := if g.useMtl.Some? && g.useMtl.value != last then g.useMtl.value else last;
      assert (faces + [f])[1..] == faces[1..] + [f];
      FaceLinesAppend(pr, faces[1..], f, last');
      assert faces == [g] + faces[1..];
      LastTagCons(g, faces[1..], last);
    }
  }

  /** The material the writer holds after writing `f`. */
  function NextLast(f: Face, last: string): string {
    if f.useMtl.Some? && f.useMtl.value != last then f.useMtl.value else last
  }

  /** The face loop from face j on: that face's block, then the rest with the updated material. */
  lemma FaceLinesFrom(pr: Printer, faces: seq<Face>, j: nat, last: string)
    requires j < |faces|
    ensures FaceLines(pr, faces[j..], last) == FaceBlock(pr, faces[j], last) + FaceLines(pr, faces[j + 1..], NextLast(faces[j], last))
  {
    assert faces[j..][0] == faces[j] && faces[j..][1..] == faces[j + 1..];
  }

  /** One iteration of the face loop keeps "lines written + lines still to write" fixed. */
  lemma FaceLoopStep(pr: Printer, faces: seq<Face>, j: nat, last: string, written: seq<string>)
    requires j < |faces|
    ensures var f := faces[j];
      var written' := if f.useMtl.Some? && f.useMtl.value != last then written + ["usemtl " + f.useMtl.value] else written;
      written + FaceLines(pr, faces[j..], last) == written' + [pr.face(f)] + FaceLines(pr, faces[j + 1..], NextLast(f, last))
  {
    FaceLinesFrom(pr, faces, j, last);
    var f := faces[j];
    var rest := FaceLines(pr, faces[j + 1..], NextLast(f, last));
    if f.useMtl.Some? && f.useMtl.value != last {
      assert written + (["usemtl " + f.useMtl.value] + [pr.face(f)] + rest) == written + ["usemtl " + f.useMtl.value] + [pr.face(f)] + rest;
    } else {
      assert written + ([pr.face(f)] + rest) == written + [pr.face(f)] + rest;
    }
  }

  /** Reading back the lines written for one face appends that face with its material. */
  lemma ReadBackOneFace(rd: Reader, pr: Printer, st: ObjState, f: Face, last: string)
    requires Keyword(pr.face(f)) == "f"
    requires f.useMtl.Some? ==> IsWord(f.useMtl.value)
    requires last != "" ==> st.useMtl == Some(last)
    ensures var r := Run(rd, st, FaceBlock(pr, f, last));
      && r.ok
      && r.state.faces == st.faces + [Face(rd.face(Tokens(pr.face(f))), r.state.useMtl)]
      && (f.useMtl.Some? ==> r.state.useMtl == f.useMtl)
      && (f.useMtl.None? ==> r.state.useMtl == st.useMtl)
  {
    var faceLine := pr.face(f);
    assert [faceLine][1..] == [];
    if f.useMtl.Some? && f.useMtl.value != last {
      var useLine := "usemtl " + f.useMtl.value;
      assert useLine == "usemtl" + " " + f.useMtl.value;
      TokensOfDirective("usemtl", f.useMtl.value);
      var st1 := st.(useMtl := f.useMtl);
      var st2 := st1.(faces := st1.faces + [Face(rd.face(Tokens(faceLine)), st1.useMtl)]);
      assert Step(rd, st, useLine) == Some(st1);
      assert Step(rd, st1, faceLine) == Some(st2);
      assert FaceBlock(pr, f, last) == [useLine, faceLine];
      assert [useLine, faceLine][1..] == [faceLine];
      assert Run(rd, st1, [faceLine]) == Run(rd, st2, []);
      assert Run(rd, st, [useLine, faceLine]) == Run(rd, st1, [faceLine]);
    } else {
      assert FaceBlock(pr, f, last) == [faceLine];
    }
  }

  /** The index lists read back from the line written for `f`. */
  function Reread(rd: Reader, pr: Printer, f: Face): FaceData {
    rd.face(Tokens(pr.face(f)))
  }

  /** `read[n..]` are the faces read back from the lines written for `faces`:
      same index lists, and the same material wherever the face had one. */
  predicate ReadBack(rd: Reader, pr: Printer, faces: seq<Face>, n: nat, read: seq<Face>) {
    && |read| == n + |faces|
    && forall k :: 0 <= k < |faces| ==>
         && read[n + k].data == Reread(rd, pr, faces[k])
         && (faces[k].useMtl.Some? ==> read[n + k].useMtl == faces[k].useMtl)
  }

  /** Reading back the face loop's lines is reading back the first face's
      block and then the rest. */
  lemma ReadBackFirst(rd: Reader, pr: Printer, st: ObjState, faces: seq<Face>, last: string)
    requires faces != []
    requires Keyword(pr.face(faces[0])) == "f"
    requires faces[0].useMtl.Some? ==> IsWord(faces[0].useMtl.value)
    requires last != "" ==> st.useMtl == Some(last)
    ensures var f := faces[0];
      var st2 := Run(rd, st, FaceBlock(pr, f, last)).state;
      && Run(rd, st, FaceBlock(pr, f, last)).ok
      && Run(rd, st, FaceLines(pr, faces, last)) == Run(rd, st2, FaceLines(pr, faces[1..], NextLast(f, last)))
      && st2.faces == st.faces + [Face(rd.face(Tokens(pr.face(f))), st2.useMtl)]
      && (f.useMtl.Some? ==> st2.useMtl == f.useMtl)
      && (NextLast(f, last) != "" ==> st2.useMtl == Some(NextLast(f, last)))
  {
    var f := faces[0];
    var tail := FaceLines(pr, faces[1..], NextLast(f, last));
    assert FaceLines(pr, faces, last) == FaceBlock(pr, f, last) + tail;
    ReadBackOneFace(rd, pr, st, f, last);
    RunConcat(rd, st, FaceBlock(pr, f, last), tail);
  }

  lemma ReadBackCons(rd: Reader, pr: Printer, f: Face, rest: seq<Face>, n: nat, read: seq<Face>)
    requires n < |read| && read[n].data == Reread(rd, pr, f)
    requires f.useMtl.Some? ==> read[n].useMtl == f.useMtl
    requires ReadBack(rd, pr, rest, n + 1, read)
    ensures ReadBack(rd, pr, [f] + rest, n, read)
  {
    var faces := [f] + rest;
    forall k | 0 <= k < |faces|
      ensures read[n + k].data == Reread(rd, pr, faces[k])
      ensures faces[k].useMtl.Some? ==> read[n + k].useMtl == faces[k].useMtl
    {
      if k > 0 {
        assert faces[k] == rest[k - 1];
        assert n + k == n + 1 + (k - 1);
      }
    }
  }

  /** Reading back what the face loop writes tags every face that had a
      material with that material again, provided every face line starts with
      `f` and every material is a single word. */
  lemma {:induction false} WrittenMaterialsReadBack(rd: Reader, pr: Printer, st: ObjState, faces: seq<Face>, last: string)
    requires forall k :: 0 <= k < |faces| ==> Keyword(pr.face(faces[k])) == "f"
    requires forall k :: 0 <= k < |faces| && faces[k].useMtl.Some? ==> IsWord(faces[k].useMtl.value)
    requires last != "" ==> st.useMtl == Some(last)
    ensures var r := Run(rd, st, FaceLines(pr, faces, last));
      && r.ok
      && r.state.faces[..|st.faces|] == st.faces
      && ReadBack(rd, pr, faces, |st.faces|, r.state.faces)
    decreases |faces|
  {
    if faces != [] {
      var f, rest := faces[0], faces[1..];
      assert forall k :: 0 <= k < |rest| ==> rest[k] == faces[k + 1];
      var tail := FaceLines(pr, rest, NextLast(f, last));
      var st2 := Run(rd, st, FaceBlock(pr, f, last)).state;
      ReadBackFirst(rd, pr, st, faces, last);
      WrittenMaterialsReadBack(rd, pr, st2, rest, NextLast(f, last));
      var r := Run(rd, st2, tail);
      var n := |st.faces|;
      assert Run(rd, st, FaceLines(pr, faces, last)) == r;
      assert r.state.faces[..n + 1] == st2.faces;
      assert r.state.faces[..n] == st2.faces[..n] == st.faces;
      assert r.state.faces[n] == st2.faces[n];
      assert faces == [f] + rest;
      ReadBackCons(rd, pr, f, rest, n, r.state.faces);
      assert ReadBack(rd, pr, faces, n, r.state.faces);
    }
  }
}
