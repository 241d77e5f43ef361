/** The value side of ViewerResources/Model.cs: the collision-name table, how
    faces are split into one mesh per material and collision faces into one
    mesh per named group, the bounds fold of CalculateBounds and the paths the
    constructor builds. The classes in model.dfy are proved against these. */
module Models {
  import opened Wrappers
  import opened Text
  import opened Wavefront

  /** Collision_Mesh.CollisionType. */
  datatype CollisionKind =
    | Road | Wall | OffRoad | WayOffRoad | OutOfBounds | Boost | Ramp
    | EngageGlider | SideRamp | Cannon | Water | Lava | SpinOut | KnockOut

  /** The group name each kind is read from. */
  function NameOf(kind: CollisionKind): string {
    match kind
    case Road => "ROAD"
    case Wall => "WALL"
    case OffRoad => "OFFROAD"
    case WayOffRoad => "WAYOFFROAD"
    case OutOfBounds => "OUTOFBOUNDS"
    case Boost => "BOOST"
    case Ramp => "RAMP"
    case EngageGlider => "ENGAGEGLIDER"
    case SideRamp => "SIDERAMP"
    case Cannon => "CANNON"
    case Water => "WATER"
    case Lava => "LAVA"
    case SpinOut => "SPINOUT"
    case KnockOut => "KNOCKOUT"
  }

  /** The if-chain of the constructor: a group name's kind, or None where it `continue`s.
      Names are compared exactly, so only the upper-case spellings match. */
  function KindOf(name: string): (kind: Option<CollisionKind>)
    ensures kind.Some? ==> NameOf(kind.value) == name
  {
    if name == "ROAD" then Some(Road)
    else if name == "WALL" then Some(Wall)
    else if name == "OFFROAD" then Some(OffRoad)
    else if name == "WAYOFFROAD" then Some(WayOffRoad)
    else if name == "OUTOFBOUNDS" then Some(OutOfBounds)
    else if name == "BOOST" then Some(Boost)
    else if name == "RAMP" then Some(Ramp)
    else if name == "ENGAGEGLIDER" then Some(EngageGlider)
    else if name == "SIDERAMP" then Some(SideRamp)
    else if name == "CANNON" then Some(Cannon)
    else if name == "WATER" then Some(Water)
    else if name == "LAVA" then Some(Lava)
    else if name == "SPINOUT" then Some(SpinOut)
    else if name == "KNOCKOUT" then Some(KnockOut)
    else None
  }

  /** Every kind is reached from its own name, so the table maps exactly the
      fourteen names and no two of them to the same kind. */
  lemma KindOfNameOf(kind: CollisionKind)
    ensures KindOf(NameOf(kind)) == Some(kind)
  {
  }

  /** A name outside the table, such as a lower-case spelling, yields no collision mesh. */
  lemma UnknownGroupIgnored(name: string)
    requires forall kind: CollisionKind :: NameOf(kind) != name
    ensures KindOf(name) == None
  {
  }

  /** ObjParser.Types.Material, as far as the model reads it. */
  datatype Material = Material(name: string, diffuseTexture: string)

  /** Mesh: the model's vertex data copied, the index lists of its faces and
      its texture name (-1 for none). Its size comes from the Mesh class. */
  datatype Mesh = Mesh(
    vertices: seq<Vec3>, normals: seq<Vec3>, uvs: seq<Vec2>,
    faces: seq<seq<int>>, faceNormals: seq<seq<int>>, faceUvs: seq<seq<int>>,
    texture: int, size: Extent)

  /** A face of the collision file with the group it was declared in. */
  datatype KclFace = KclFace(vertexIndices: seq<int>, objectName: Option<string>)

  /** What the collision file yields: its vertices, faces and group names in order. */
  datatype KclDocument = KclDocument(vertices: seq<Vec3>, faces: seq<KclFace>, objects: seq<string>)

  /** Collision_Mesh. */
  datatype CollisionMesh = CollisionMesh(vertices: seq<Vec3>, faces: seq<seq<int>>, kind: CollisionKind)

  /** The faces tagged with material `name`, in file order (`f.UseMtl == mat.Name`). */
  function FacesFor(faces: seq<Face>, name: string): (r: seq<Face>)
    ensures |r| <= |faces|
  {
    if faces == [] then []
    else
      var last := faces[|faces| - 1];
      FacesFor(faces[..|faces| - 1], name) + (if last.useMtl == Some(name) then [last] else [])
  }

  /** A face belongs to a material's mesh exactly when it is tagged with that
      material; an untagged face belongs to none. */
  lemma {:induction false} FacesForMembership(faces: seq<Face>, name: string, f: Face)
    ensures f in FacesFor(faces, name) <==> f in faces && f.useMtl == Some(name)
    decreases |faces|
  {
    if faces != [] {
      var init := faces[..|faces| - 1];
      FacesForMembership(init, name, f);
      assert faces == init + [faces[|faces| - 1]];
    }
  }

  /** The split keeps file order: it distributes over concatenation. */
  lemma {:induction false} FacesForConcat(a: seq<Face>, b: seq<Face>, name: string)
    ensures FacesFor(a + b, name) == FacesFor(a, name) + FacesFor(b, name)
    decreases |b|
  {
    if b == [] {
      assert a + b == a;
    } else {
      var init, last := b[..|b| - 1], b[|b| - 1];
      var tail: seq<Face> := if last.useMtl == Some(name) then [last] else [];
      assert (a + b)[..|a + b| - 1] == a + init && (a + b)[|a + b| - 1] == last;
      assert FacesFor(a + b, name) == FacesFor(a + init, name) + tail;
      FacesForConcat(a, init, name);
      assert FacesFor(b, name) == FacesFor(init, name) + tail;
    }
  }

  /** The three parallel index lists of a mesh's faces. */
  function VertexIndexLists(faces: seq<Face>): seq<seq<int>> {
    seq(|faces|, k requires 0 <= k < |faces| => faces[k].data.vertexIndices)
  }

  function NormalIndexLists(faces: seq<Face>): seq<seq<int>> {
    seq(|faces|, k requires 0 <= k < |faces| => faces[k].data.normalIndices)
  }

  function UvIndexLists(faces: seq<Face>): seq<seq<int>> {
    seq(|faces|, k requires 0 <= k < |faces| => faces[k].data.uvIndices)
  }

  /** The collision faces of group `name`, in file order (`f.objectName == name`). */
  function GroupFaces(faces: seq<KclFace>, name: string): (r: seq<seq<int>>)
    ensures |r| <= |faces|
    ensures forall k :: 0 <= k < |faces| && faces[k].objectName == Some(name) ==> faces[k].vertexIndices in r
  {
    if faces == [] then []
    else
      var init, last := faces[..|faces| - 1], faces[|faces| - 1];
      assert forall k :: 0 <= k < |init| ==> init[k] == faces[k];
      GroupFaces(init, name) + (if last.objectName == Some(name) then [last.vertexIndices] else [])
  }

  /** A vertex list is in a group's faces exactly when some face of that
      group has it; faces of other groups and ungrouped faces are left out. */
  lemma {:induction false} GroupFacesMembership(faces: seq<KclFace>, name: string, v: seq<int>)
    ensures v in GroupFaces(faces, name) <==>
      exists k :: 0 <= k < |faces| && faces[k].objectName == Some(name) && faces[k].vertexIndices == v
    decreases |faces|
  {
    if faces != [] {
      var init, last := faces[..|faces| - 1], faces[|faces| - 1];
      GroupFacesMembership(init, name, v);
      assert forall k :: 0 <= k < |init| ==> init[k] == faces[k];
      if v in GroupFaces(faces, name) && v !in GroupFaces(init, name) {
        assert faces[|faces| - 1].objectName == Some(name) && faces[|faces| - 1].vertexIndices == v;
      }
    }
  }

  /** A group's faces keep file order: the filter distributes over concatenation. */
  lemma {:induction false} GroupFacesConcat(a: seq<KclFace>, b: seq<KclFace>, name: string)
    ensures GroupFaces(a + b, name) == GroupFaces(a, name) + GroupFaces(b, name)
    decreases |b|
  {
    if b == [] {
      assert a + b == a;
    } else {
      var init, last := b[..|b| - 1], b[|b| - 1];
      var tail: seq<seq<int>> := if last.objectName == Some(name) then [last.vertexIndices] else [];
      assert (a + b)[..|a + b| - 1] == a + init && (a + b)[|a + b| - 1] == last;
      assert GroupFaces(a + b, name) == GroupFaces(a + init, name) + tail;
      GroupFacesConcat(a, init, name);
      assert GroupFaces(b, name) == GroupFaces(init, name) + tail;
    }
  }

  /** The collision meshes of the groups `objects`: one per group whose name is in the table. */
  function Classify(doc: KclDocument, objects: seq<string>): seq<CollisionMesh> {
    if objects == [] then []
    else
      var init := Classify(doc, objects[..|objects| - 1]);
      var name := objects[|objects| - 1];
      match KindOf(name)
      case None => init
      case Some(kind) => init + [CollisionMesh(doc.vertices, GroupFaces(doc.faces, name), kind)]
  }

  /** How many of `objects` are in the table. */
  function CountKnown(objects: seq<string>): nat {
    if objects == [] then 0
    else CountKnown(objects[..|objects| - 1]) + (if KindOf(objects[|objects| - 1]).Some? then 1 else 0)
  }

  /** One collision mesh per known group, in group order, each holding
      exactly that group's faces and the shared vertex list. */
  lemma {:induction false} ClassifyPerGroup(doc: KclDocument, objects: seq<string>)
    ensures |Classify(doc, objects)| == CountKnown(objects)
    ensures forall c :: c in Classify(doc, objects) ==>
      && NameOf(c.kind) in objects
      && c.faces == GroupFaces(doc.faces, NameOf(c.kind))
      && c.vertices == doc.vertices
    decreases |objects|
  {
    if objects != [] {
      var init := objects[..|objects| - 1];
      ClassifyPerGroup(doc, init);
      assert forall n :: n in init ==> n in objects;
    }
  }

  /** Classifying a concatenation of group lists is classifying each in turn. */
  lemma {:induction false} ClassifyConcat(doc: KclDocument, a: seq<string>, b: seq<string>)
    ensures Classify(doc, a + b) == Classify(doc, a) + Classify(doc, b)
    decreases |b|
  {
    if b == [] {
      assert a + b == a;
    } else {
      var b' := b[..|b| - 1];
      assert (a + b)[..|a + b| - 1] == a + b';
      assert (a + b)[|a + b| - 1] == b[|b| - 1];
      ClassifyConcat(doc, a, b');
    }
  }

  /** A float of the model's bounds: finite, or one of the infinities it starts from. */
  datatype Ext = NegInf | Fin(r: real) | PosInf

  /** Math.Min and Math.Max against a finite value. */
  function MinExt(a: Ext, x: real): Ext {
    if a.NegInf? || (a.Fin? && a.r <= x) then a else Fin(x)
  }

  function MaxExt(a: Ext, x: real): Ext {
    if a.PosInf? || (a.Fin? && a.r >= x) then a else Fin(x)
  }

  /** The fold of Math.Min from +∞ over `xs`. */
  function Lowest(xs: seq<real>): Ext
    decreases |xs|
  {
    if xs == [] then PosInf else MinExt(Lowest(xs[..|xs| - 1]), xs[|xs| - 1])
  }

  /** The fold of Math.Max from -∞ over `xs`. */
  function Highest(xs: seq<real>): Ext
    decreases |xs|
  {
    if xs == [] then NegInf else MaxExt(Highest(xs[..|xs| - 1]), xs[|xs| - 1])
  }

  /** The Math.Min fold is +∞ on nothing, and otherwise the least element. */
  lemma {:induction false} LowestIsLeast(xs: seq<real>)
    ensures xs == [] ==> Lowest(xs) == PosInf
    ensures xs != [] ==> Lowest(xs).Fin? && (forall k :: 0 <= k < |xs| ==> Lowest(xs).r <= xs[k]) && Lowest(xs).r in xs
    decreases |xs|
  {
    if xs != [] {
      var init := xs[..|xs| - 1];
      LowestIsLeast(init);
      assert forall k :: 0 <= k < |init| ==> init[k] == xs[k];
      assert Lowest(init).Fin? ==> Lowest(init).r in xs;
    }
  }

  /** The Math.Max fold is -∞ on nothing, and otherwise the greatest element. */
  lemma {:induction false} HighestIsGreatest(xs: seq<real>)
    ensures xs == [] ==> Highest(xs) == NegInf
    ensures xs != [] ==> Highest(xs).Fin? && (forall k :: 0 <= k < |xs| ==> xs[k] <= Highest(xs).r) && Highest(xs).r in xs
    decreases |xs|
  {
    if xs != [] {
      var init := xs[..|xs| - 1];
      HighestIsGreatest(init);
      assert forall k :: 0 <= k < |init| ==> init[k] == xs[k];
      assert Highest(init).Fin? ==> Highest(init).r in xs;
    }
  }

  /** The model's Bounds. */
  datatype Box = Box(minX: Ext, maxX: Ext, minY: Ext, maxY: Ext, minZ: Ext, maxZ: Ext)

  /** The bounds fields of CalculateBounds before the loop. */
  const Unbounded: Box := Box(PosInf, NegInf, PosInf, NegInf, PosInf, NegInf)

  /** One iteration of CalculateBounds' loop. */
  function Include(b: Box, e: Extent): Box {
    Box(MinExt(b.minX, e.xMin), MaxExt(b.maxX, e.xMax),
        MinExt(b.minY, e.yMin), MaxExt(b.maxY, e.yMax),
        MinExt(b.minZ, e.zMin), MaxExt(b.maxZ, e.zMax))
  }

  function XMin(e: Extent): real { e.xMin }
  function XMax(e: Extent): real { e.xMax }
  function YMin(e: Extent): real { e.yMin }
  function YMax(e: Extent): real { e.yMax }
  function ZMin(e: Extent): real { e.zMin }
  function ZMax(e: Extent): real { e.zMax }

  /** One field of every mesh's size. */
  function Column(ms: seq<Mesh>, field: Extent -> real): seq<real> {
    seq(|ms|, k requires 0 <= k < |ms| => field(ms[k].size))
  }

  /** The bounds of a list of meshes, axis by axis. */
  function BoundsOf(ms: seq<Mesh>): Box {
    Box(Lowest(Column(ms, XMin)), Highest(Column(ms, XMax)),
        Lowest(Column(ms, YMin)), Highest(Column(ms, YMax)),
        Lowest(Column(ms, ZMin)), Highest(Column(ms, ZMax)))
  }

  lemma ColumnSnoc(ms: seq<Mesh>, m: Mesh, field: Extent -> real)
    ensures Column(ms + [m], field) == Column(ms, field) + [field(m.size)]
  {
  }

  lemma LowestSnoc(xs: seq<real>, x: real)
    ensures Lowest(xs + [x]) == MinExt(Lowest(xs), x)
  {
    assert (xs + [x])[..|xs|] == xs;
  }

  lemma HighestSnoc(xs: seq<real>, x: real)
    ensures Highest(xs + [x]) == MaxExt(Highest(xs), x)
  {
    assert (xs + [x])[..|xs|] == xs;
  }

  /** Taking one more mesh into the bounds is one iteration of the loop. */
  lemma BoundsOfSnoc(ms: seq<Mesh>, m: Mesh)
    ensures BoundsOf(ms + [m]) == Include(BoundsOf(ms), m.size)
  {
    ColumnSnoc(ms, m, XMin);
    LowestSnoc(Column(ms, XMin), m.size.xMin);
    ColumnSnoc(ms, m, XMax);
    HighestSnoc(Column(ms, XMax), m.size.xMax);
    ColumnSnoc(ms, m, YMin);
    LowestSnoc(Column(ms, YMin), m.size.yMin);
    ColumnSnoc(ms, m, YMax);
    HighestSnoc(Column(ms, YMax), m.size.yMax);
    ColumnSnoc(ms, m, ZMin);
    LowestSnoc(Column(ms, ZMin), m.size.zMin);
    ColumnSnoc(ms, m, ZMax);
    HighestSnoc(Column(ms, ZMax), m.size.zMax);
  }

  /** The bounds of a list's first i + 1 meshes widen those of its first i by mesh i. */
  lemma BoundsOfPrefix(ms: seq<Mesh>, i: nat)
    requires i < |ms|
    ensures BoundsOf(ms[..i + 1]) == Include(BoundsOf(ms[..i]), ms[i].size)
  {
    assert ms[..i + 1] == ms[..i] + [ms[i]];
    BoundsOfSnoc(ms[..i], ms[i]);
  }

  /** On one axis: the lower bound is finite, below every mesh and attained. */
  lemma LowestOfColumn(ms: seq<Mesh>, field: Extent -> real)
    requires ms != []
    ensures var lo := Lowest(Column(ms, field));
      && lo.Fin?
      && (forall k :: 0 <= k < |ms| ==> lo.r <= field(ms[k].size))
      && exists k :: 0 <= k < |ms| && field(ms[k].size) == lo.r
  {
    var c := Column(ms, field);
    LowestIsLeast(c);
    assert forall k :: 0 <= k < |ms| ==> c[k] == field(ms[k].size);
    var i :| 0 <= i < |c| && c[i] == Lowest(c).r;
  }

  lemma HighestOfColumn(ms: seq<Mesh>, field: Extent -> real)
    requires ms != []
    ensures var hi := Highest(Column(ms, field));
      && hi.Fin?
      && (forall k :: 0 <= k < |ms| ==> field(ms[k].size) <= hi.r)
      && exists k :: 0 <= k < |ms| && field(ms[k].size) == hi.r
  {
    var c := Column(ms, field);
    HighestIsGreatest(c);
    assert forall k :: 0 <= k < |ms| ==> c[k] == field(ms[k].size);
    var i :| 0 <= i < |c| && c[i] == Highest(c).r;
  }

  /** Without meshes the bounds stay at ±∞; otherwise each bound is finite, holds
      for every mesh and is attained by one. */
  lemma BoundsOfMeshes(ms: seq<Mesh>)
    ensures ms == [] ==> BoundsOf(ms) == Unbounded
    ensures ms != [] ==> var b := BoundsOf(ms);
      && b.minX.Fin? && b.maxX.Fin? && b.minY.Fin? && b.maxY.Fin? && b.minZ.Fin? && b.maxZ.Fin?
      && (forall k :: 0 <= k < |ms| ==>
            && b.minX.r <= ms[k].size.xMin && ms[k].size.xMax <= b.maxX.r
            && b.minY.r <= ms[k].size.yMin && ms[k].size.yMax <= b.maxY.r
            && b.minZ.r <= ms[k].size.zMin && ms[k].size.zMax <= b.maxZ.r)
      && (exists k :: 0 <= k < |ms| && ms[k].size.xMin == b.minX.r)
      && (exists k :: 0 <= k < |ms| && ms[k].size.xMax == b.maxX.r)
      && (exists k :: 0 <= k < |ms| && ms[k].size.yMin == b.minY.r)
      && (exists k :: 0 <= k < |ms| && ms[k].size.yMax == b.maxY.r)
      && (exists k :: 0 <= k < |ms| && ms[k].size.zMin == b.minZ.r)
      && (exists k :: 0 <= k < |ms| && ms[k].size.zMax == b.maxZ.r)
  {
    if ms == [] {
      LowestIsLeast([]);
      HighestIsGreatest([]);
    } else {
      LowestOfColumn(ms, XMin);
      HighestOfColumn(ms, XMax);
      LowestOfColumn(ms, YMin);
      HighestOfColumn(ms, YMax);
      LowestOfColumn(ms, ZMin);
      HighestOfColumn(ms, ZMax);
    }
  }

  /** filepathSlash: "//" on a Macintosh, "\\" elsewhere. */
  function Slash(mac: bool): string {
    if mac then "//" else "\\"
  }

  /** The System.IO.Path helpers the constructor calls. */
  datatype PathApi = PathApi(
    directoryName: string -> string,
    stem: string -> string,
    isRooted: string -> bool)

  /** The file next to the model: its directory, the slash, its name without
      extension and a suffix ("_KCL.obj", "_Atch.txt"). */
  function CompanionPath(api: PathApi, mac: bool, filepath: string, suffix: string): string {
    api.directoryName(filepath) + Slash(mac) + api.stem(filepath) + suffix
  }

  function CollisionPath(api: PathApi, mac: bool, filepath: string): string {
    CompanionPath(api, mac, filepath, "_KCL.obj")
  }

  function AttachmentPath(api: PathApi, mac: bool, filepath: string): string {
    CompanionPath(api, mac, filepath, "_Atch.txt")
  }

  /** The collision and attachment files of a model are different files,
      both in the model's directory and named after it. */
  lemma CompanionPathsDiffer(api: PathApi, mac: bool, filepath: string)
    ensures var base := api.directoryName(filepath) + Slash(mac) + api.stem(filepath);
      && CollisionPath(api, mac, filepath) == base + "_KCL.obj"
      && AttachmentPath(api, mac, filepath) == base + "_Atch.txt"
      && CollisionPath(api, mac, filepath) != AttachmentPath(api, mac, filepath)
  {
    var base := api.directoryName(filepath) + Slash(mac) + api.stem(filepath);
    assert CollisionPath(api, mac, filepath)[|base| + 1] == 'K';
    assert AttachmentPath(api, mac, filepath)[|base| + 1] == 'A';
  }

  /** Where a material's texture is read from: a rooted path as written,
      any other path relative to the model's directory. */
  function TexturePath(api: PathApi, mac: bool, filepath: string, texture: string): string {
    if api.isRooted(texture) then texture else api.directoryName(filepath) + Slash(mac) + texture
  }

  /** The material library's path; a null Mtl concatenates as "". */
  function LibraryPath(api: PathApi, mac: bool, filepath: string, mtl: Option<string>): string {
    api.directoryName(filepath) + Slash(mac) + (if mtl.Some? then mtl.value else "")
  }

  /** The model's name: its file name without extension, underscores shown as spaces. */
  function DisplayName(api: PathApi, filepath: string): (name: string)
    ensures |name| == |api.stem(filepath)| && '_' !in name
    ensures forall k :: 0 <= k < |name| && api.stem(filepath)[k] != '_' ==> name[k] == api.stem(filepath)[k]
    ensures forall k :: 0 <= k < |name| && api.stem(filepath)[k] == '_' ==> name[k] == ' '
  {
    var name := ReplaceChar(api.stem(filepath), '_', ' ');
    assert forall k :: 0 <= k < |name| ==> name[k] != '_';
    name
  }
}
