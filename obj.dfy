/** The Obj class of IO/Wavefront/Obj.cs: four lists that processLine appends
    to, the current material and library fields, and the extent that
    updateSize sets. Every method is proved against the functions of Wavefront. */
module ObjParser {
  import opened Wrappers
  import opened Text
  import opened Wavefront

  class Obj {
    /** LoadFromStringArray of the record types. */
    const read: Reader

    var vertexList: seq<Vertex>
    var normalList: seq<Normal>
    var faceList: seq<Face>
    var textureList: seq<TextureVertex>
    /** Size: null until updateSize runs. */
    var size: Option<Extent>
    var useMtl: Option<string>
    var mtl: Option<string>

    /** The parser's state as a value. */
    function State(): ObjState
      reads this
    {
      ObjState(vertexList, normalList, textureList, faceList, useMtl, mtl)
    }

    constructor (read: Reader)
      ensures this.read == read && State() == Initial && size == None
    {
      this.read := read;
      vertexList, normalList, faceList, textureList := [], [], [], [];
      size, useMtl, mtl := None, None, None;
    }

    /** processLine. Returns false where the C# code throws on parts[1]; the
        state is then unchanged. */
    method ProcessLine(line: string) returns (ok: bool)
      modifies this
      ensures ok == Step(read, old(State()), line).Some?
      ensures State() == if ok then Step(read, old(State()), line).value else old(State())
      ensures size == old(size)
    {
      var parts := Tokens(line);
      ok := true;
      if |parts| > 0 {
        if parts[0] == "usemtl" {
          if |parts| < 2 {
            ok := false;
            return;
          }
          useMtl := Some(parts[1]);
        } else if parts[0] == "mtllib" {
          if |parts| < 2 {
            ok := false;
            return;
          }
          mtl := Some(parts[1]);
        } else if parts[0] == "v" {
          vertexList := vertexList + [Vertex(read.vertex(parts), |vertexList| + 1)];
        } else if parts[0] == "vn" {
          normalList := normalList + [Normal(read.normal(parts), |normalList| + 1)];
        } else if parts[0] == "f" {
          faceList := faceList + [Face(read.face(parts), useMtl)];
        } else if parts[0] == "vt" {
          textureList := textureList + [TextureVertex(read.texture(parts), |textureList| + 1)];
        }
      }
    }

    /** LoadObj over lines: processLine on each, then updateSize. A line that
        throws ends the load before updateSize. */
    method LoadObj(data: seq<string>) returns (ok: bool)
      modifies this
      ensures Loaded(State(), ok) == Run(read, old(State()), data)
      ensures size == if ok then Some(SizeOf(vertexList)) else old(size)
    {
      var i := 0;
      while i < |data|
        invariant 0 <= i <= |data|
        invariant Run(read, old(State()), data) == Run(read, State(), data[i..])
        invariant size == old(size)
      {
        assert data[i..][0] == data[i] && data[i..][1..] == data[i + 1..];
        var lineOk := ProcessLine(data[i]);
        if !lineOk {
          ok := false;
          return;
        }
        i := i + 1;
      }
      UpdateSize();
      ok := true;
    }

    /** updateSize. */
    method UpdateSize()
      modifies this`size
      ensures size == Some(SizeOf(vertexList))
    {
      size := Some(SizeOf(vertexList));
    }

    /** WriteHeader: the lines it writes. */
    static method WriteHeader(header: Option<seq<string>>) returns (lines: seq<string>)
      ensures lines == HeaderLines(header)
    {
      if header.None? || header.value == [] {
        return ["# Generated by ObjParser"];
      }
      lines := [];
      var hs := header.value;
      for i := 0 to |hs|
        invariant lines == seq(i, k requires 0 <= k < i => "# " + hs[k])
      {
        lines := lines + ["# " + hs[i]];
      }
    }

    /** WriteObjFile: the lines it writes, with `pr` standing for the records' ToString. */
    method WriteObjFile(header: Option<seq<string>>, pr: Printer) returns (lines: seq<string>)
      ensures lines == ObjLines(pr, State(), header)
    {
      lines := WriteHeader(header);
      if mtl.Some? && mtl.value != "" {
        lines := lines + ["mtllib " + mtl.value];
      }
      var start := lines;
      for i := 0 to |vertexList|
        invariant lines == start + VertexLines(pr, vertexList[..i])
      {
        assert VertexLines(pr, vertexList[..i + 1]) == VertexLines(pr, vertexList[..i]) + [pr.vertex(vertexList[i])];
        lines := lines + [pr.vertex(vertexList[i])];
      }
      assert vertexList[..|vertexList|] == vertexList;
      start := lines;
      for i := 0 to |textureList|
        invariant lines == start + TextureLines(pr, textureList[..i])
      {
        assert TextureLines(pr, textureList[..i + 1]) == TextureLines(pr, textureList[..i]) + [pr.texture(textureList[i])];
        lines := lines + [pr.texture(textureList[i])];
      }
      assert textureList[..|textureList|] == textureList;
      ghost var target := lines + FaceLines(pr, faceList, "");
      var lastUseMtl := "";
      var j := 0;
      while j < |faceList|
        invariant 0 <= j <= |faceList|
        invariant lines + FaceLines(pr, faceList[j..], lastUseMtl) == target
      {
        var face := faceList[j];
        FaceLoopStep(pr, faceList, j, lastUseMtl, lines);
        if face.useMtl.Some? && face.useMtl.value != lastUseMtl {
          lines := lines + ["usemtl " + face.useMtl.value];
          lastUseMtl := face.useMtl.value;
        }
        lines := lines + [pr.face(face)];
        j := j + 1;
      }
      assert faceList[j..] == [];
    }
  }
}
