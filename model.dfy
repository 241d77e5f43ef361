/** The Model class of ViewerResources/Model.cs and its process-wide
    database of loaded models, here the ModelDatabase object. The file system,
    the material library reader and the Mesh class's size are given by an Env. */
module ViewerResources {
  import opened Wrappers
  import opened Wavefront
  import opened ObjParser
  import opened ContentPipe
  import opened Attachments
  import opened Models

  /** What the constructor reads from outside the model. */
  datatype Env = Env(
    /** runningOnMac. */
    mac: bool,
    paths: PathApi,
    /** File.ReadAllLines of every file that exists. */
    files: map<string, seq<string>>,
    /** LoadFromStringArray of the OBJ record types. */
    reader: Reader,
    /** Mtl.LoadMtl(path).MaterialList. */
    materials: string -> seq<Material>,
    /** The parsed collision file at each path where one exists. */
    collision: map<string, KclDocument>,
    /** Mesh.size of a mesh with these vertices and faces. */
    meshSize: (seq<Vec3>, seq<seq<int>>) -> Extent,
    nums: Numbers)

  /** The exception that ends a load: no model file, an OBJ line that throws,
      or an attachment line that throws. */
  datatype LoadError = MissingFile(path: string) | MalformedObj(path: string) | BadAttachment(error: AttachmentError)

  function Positions(vs: seq<Vertex>): seq<Vec3> { seq(|vs|, k requires 0 <= k < |vs| => vs[k].pos) }
  function Directions(ns: seq<Normal>): seq<Vec3> { seq(|ns|, k requires 0 <= k < |ns| => ns[k].dir) }
  function Uvs(ts: seq<TextureVertex>): seq<Vec2> { seq(|ts|, k requires 0 <= k < |ts| => ts[k].uv) }

  /** The materials the model's library declares. */
  function MaterialsOf(env: Env, filepath: string, st: ObjState): seq<Material> {
    env.materials(LibraryPath(env.paths, env.mac, filepath, st.mtl))
  }

  /** The mesh of one material: all vertex data, the faces tagged with it, and `texture`. */
  function MeshOf(env: Env, st: ObjState, mat: Material, texture: int): Mesh {
    var fs := FacesFor(st.faces, mat.name);
    var vertices := Positions(st.vertices);
    Mesh(vertices, Directions(st.normals), Uvs(st.textures),
         VertexIndexLists(fs), NormalIndexLists(fs), UvIndexLists(fs),
         texture, env.meshSize(vertices, VertexIndexLists(fs)))
  }

  /** The texture path of the k-th material. */
  function TextureOf(env: Env, filepath: string, mats: seq<Material>, k: nat): string
    requires k < |mats|
  {
    TexturePath(env.paths, env.mac, filepath, mats[k].diffuseTexture)
  }

  /** The meshes of a model: one per declared material, in declaration order,
      each with the name its texture has in the texture cache `database`. */
  function MeshesOf(env: Env, filepath: string, st: ObjState, database: seq<TextureInfo>): seq<Mesh> {
    var mats := MaterialsOf(env, filepath, st);
    seq(|mats|, k requires 0 <= k < |mats| => MeshOf(env, st, mats[k], Find(database, TextureOf(env, filepath, mats, k))))
  }

  /** The collision meshes of a model: none without a collision file. */
  function CollisionsOf(env: Env, filepath: string): seq<CollisionMesh> {
    var kclPath := CollisionPath(env.paths, env.mac, filepath);
    if kclPath in env.collision then Classify(env.collision[kclPath], env.collision[kclPath].objects) else []
  }

  /** The attachment file's lines, if the file exists. */
  function AttachmentLines(env: Env, filepath: string): Option<seq<string>> {
    var atchPath := AttachmentPath(env.paths, env.mac, filepath);
    if atchPath in env.files then Some(env.files[atchPath]) else None
  }

  /** The first meshes of a model, for the texture cache `database` whose
      loaded paths are `paths`: every texture is loaded and named in it. */
  ghost predicate Built(env: Env, filepath: string, st: ObjState, mats: seq<Material>,
                        meshes: seq<Mesh>, database: seq<TextureInfo>, paths: set<string>)
  {
    && |meshes| <= |mats|
    && forall k :: 0 <= k < |meshes| ==>
         && TextureOf(env, filepath, mats, k) in paths
         && meshes[k] == MeshOf(env, st, mats[k], Find(database, TextureOf(env, filepath, mats, k)))
         && meshes[k].texture > 0
  }

  /** Loading one more texture keeps the meshes built so far: their paths stay
      loaded under the same names. */
  lemma BuiltAfterLoad(env: Env, filepath: string, st: ObjState, mats: seq<Material>, meshes: seq<Mesh>,
                       before: seq<TextureInfo>, known: set<string>, after: seq<TextureInfo>, paths: set<string>, path: string)
    requires Built(env, filepath, st, mats, meshes, before, known)
    requires forall p :: p != path ==> Find(after, p) == Find(before, p)
    requires path in known ==> after == before
    requires paths == known + {path}
    ensures Built(env, filepath, st, mats, meshes, after, paths)
  {
    forall k | 0 <= k < |meshes|
      ensures Find(after, TextureOf(env, filepath, mats, k)) == Find(before, TextureOf(env, filepath, mats, k))
    {
    }
  }

  /** The next mesh, with its texture loaded, extends the built meshes. */
  lemma BuiltSnoc(env: Env, filepath: string, st: ObjState, mats: seq<Material>, meshes: seq<Mesh>,
                  database: seq<TextureInfo>, paths: set<string>, mesh: Mesh)
    requires Built(env, filepath, st, mats, meshes, database, paths) && |meshes| < |mats|
    requires TextureOf(env, filepath, mats, |meshes|) in paths
    requires mesh == MeshOf(env, st, mats[|meshes|], Find(database, TextureOf(env, filepath, mats, |meshes|)))
    requires mesh.texture > 0
    ensures Built(env, filepath, st, mats, meshes + [mesh], database, paths)
  {
  }

  /** The texture cache's paths are those of `before` and the textures of the first `n` materials. */
  ghost predicate LoadedOnly(env: Env, filepath: string, mats: seq<Material>, n: nat, before: set<string>, paths: set<string>)
  {
    forall p :: p in paths ==> p in before || exists k :: 0 <= k < n && k < |mats| && TextureOf(env, filepath, mats, k) == p
  }

  /** After building the meshes: every material's texture path is in the
      cache, and the cache gained no other path. */
  ghost predicate TexturesCached(env: Env, filepath: string, st: ObjState, before: set<string>, paths: set<string>)
  {
    var mats := MaterialsOf(env, filepath, st);
    && (forall k :: 0 <= k < |mats| ==> TextureOf(env, filepath, mats, k) in paths)
    && LoadedOnly(env, filepath, mats, |mats|, before, paths)
  }

  /** Loading the next material's texture keeps the cache to the materials' textures. */
  lemma LoadedOnlySnoc(env: Env, filepath: string, mats: seq<Material>, n: nat, before: set<string>,
                       known: set<string>, paths: set<string>)
    requires LoadedOnly(env, filepath, mats, n, before, known) && n < |mats|
    requires paths == known + {TextureOf(env, filepath, mats, n)}
    ensures LoadedOnly(env, filepath, mats, n + 1, before, paths)
  {
  }

  /** A complete list of built meshes is the model's meshes. */
  lemma BuiltMeshes(env: Env, filepath: string, st: ObjState, meshes: seq<Mesh>, database: seq<TextureInfo>, paths: set<string>)
    requires Built(env, filepath, st, MaterialsOf(env, filepath, st), meshes, database, paths)
    requires |meshes| == |MaterialsOf(env, filepath, st)|
    ensures meshes == MeshesOf(env, filepath, st, database)
    ensures forall k :: 0 <= k < |meshes| ==> meshes[k].texture > 0
  {
  }

  class Model {
    const path: string
    const name: string
    var size: Box
    var meshes: seq<Mesh>
    var kcls: seq<CollisionMesh>
    var attachments: seq<Attachment>

    /** The constructor up to CalculateBounds, for the OBJ state `st` its
        LoadObj produced; textures are loaded into `pipe`. */
    constructor (filepath: string, env: Env, st: ObjState, pipe: TextureCache)
      requires pipe.Valid()
      modifies pipe
      ensures path == filepath && name == DisplayName(env.paths, filepath)
      ensures pipe.Valid() && old(pipe.database) <= pipe.database
      ensures meshes == MeshesOf(env, filepath, st, pipe.database)
      ensures forall k :: 0 <= k < |meshes| ==> meshes[k].texture > 0
      ensures TexturesCached(env, filepath, st, old(pipe.Paths()), pipe.Paths())
      ensures kcls == CollisionsOf(env, filepath)
      ensures size == BoundsOf(meshes)
      ensures attachments == []
    {
      path := filepath;
      name := DisplayName(env.paths, filepath);
      var vertices := Model.CollectPositions(st.vertices);
      var normals := Model.CollectDirections(st.normals);
      var uvs := Model.CollectUvs(st.textures);
      var built := Model.BuildMeshes(env, filepath, st, vertices, normals, uvs, pipe);
      var collisions := Model.LoadCollisions(env, filepath);
      meshes, kcls := built, collisions;
      new;
      CalculateBounds();
      attachments := [];
    }

    /** The collision part of the constructor: the `_KCL.obj` file's groups, if it exists. */
    static method LoadCollisions(env: Env, filepath: string) returns (kcls: seq<CollisionMesh>)
      ensures kcls == CollisionsOf(env, filepath)
    {
      kcls := [];
      var kclPath := CompanionPath(env.paths, env.mac, filepath, "_KCL.obj");
      if kclPath in env.collision {
        kcls := Collisions(env.collision[kclPath]);
      }
    }

    static method CollectPositions(vs: seq<Vertex>) returns (ps: seq<Vec3>)
      ensures ps == Positions(vs)
    {
      ps := [];
      for i := 0 to |vs|
        invariant ps == Positions(vs[..i])
      {
        ps := ps + [vs[i].pos];
      }
      assert vs[..|vs|] == vs;
    }

    static method CollectDirections(ns: seq<Normal>) returns (ds: seq<Vec3>)
      ensures ds == Directions(ns)
    {
      ds := [];
      for i := 0 to |ns|
        invariant ds == Directions(ns[..i])
      {
        ds := ds + [ns[i].dir];
      }
      assert ns[..|ns|] == ns;
    }

    static method CollectUvs(ts: seq<TextureVertex>) returns (uvs: seq<Vec2>)
      ensures uvs == Uvs(ts)
    {
      uvs := [];
      for i := 0 to |ts|
        invariant uvs == Uvs(ts[..i])
      {
        uvs := uvs + [ts[i].uv];
      }
      assert ts[..|ts|] == ts;
    }

    /** The inner loop over FaceList: the three index lists of the faces tagged `material`. */
    static method SplitFaces(faces: seq<Face>, material: string) returns (fs: seq<seq<int>>, fnmls: seq<seq<int>>, fuvs: seq<seq<int>>)
      ensures fs == VertexIndexLists(FacesFor(faces, material))
      ensures fnmls == NormalIndexLists(FacesFor(faces, material))
      ensures fuvs == UvIndexLists(FacesFor(faces, material))
    {
      fs, fnmls, fuvs := [], [], [];
      for i := 0 to |faces|
        invariant fs == VertexIndexLists(FacesFor(faces[..i], material))
        invariant fnmls == NormalIndexLists(FacesFor(faces[..i], material))
        invariant fuvs == UvIndexLists(FacesFor(faces[..i], material))
      {
        assert faces[..i + 1][..i] == faces[..i];
        var f := faces[i];
        if f.useMtl == Some(material) {
          fs := fs + [f.data.vertexIndices];
          fnmls := fnmls + [f.data.normalIndices];
          fuvs := fuvs + [f.data.uvIndices];
        }
      }
      assert faces[..|faces|] == faces;
    }

    /** The loop over MaterialList: one mesh per material, its texture loaded
        through the cache. */
    static method BuildMeshes(env: Env, filepath: string, st: ObjState,
                              vertices: seq<Vec3>, normals: seq<Vec3>, uvs: seq<Vec2>,
                              pipe: TextureCache) returns (meshes: seq<Mesh>)
      requires pipe.Valid()
      requires vertices == Positions(st.vertices) && normals == Directions(st.normals) && uvs == Uvs(st.textures)
      modifies pipe
      ensures pipe.Valid() && old(pipe.database) <= pipe.database
      ensures meshes == MeshesOf(env, filepath, st, pipe.database)
      ensures forall k :: 0 <= k < |meshes| ==> meshes[k].texture > 0
      ensures TexturesCached(env, filepath, st, old(pipe.Paths()), pipe.Paths())
    {
      var mats := env.materials(LibraryPath(env.paths, env.mac, filepath, st.mtl));
      meshes := [];
      for i := 0 to |mats|
        invariant pipe.Valid() && old(pipe.database) <= pipe.database
        invariant |meshes| == i
        invariant Built(env, filepath, st, mats, meshes, pipe.database, pipe.Paths())
        invariant LoadedOnly(env, filepath, mats, i, old(pipe.Paths()), pipe.Paths())
      {
        var mat := mats[i];
        var texturePath;
        if env.paths.isRooted(mat.diffuseTexture) {
          texturePath := mat.diffuseTexture;
        } else {
          texturePath := env.paths.directoryName(filepath) + Slash(env.mac) + mat.diffuseTexture;
        }
        assert texturePath == TextureOf(env, filepath, mats, i);
        ghost var before, known := pipe.database, pipe.Paths();
        var texture := pipe.LoadAndAddTexture(texturePath);
        BuiltAfterLoad(env, filepath, st, mats, meshes, before, known, pipe.database, pipe.Paths(), texturePath);
        LoadedOnlySnoc(env, filepath, mats, i, old(pipe.Paths()), known, pipe.Paths());
        var fs, fnmls, fuvs := SplitFaces(st.faces, mat.name);
        var mesh := Mesh(vertices, normals, uvs, fs, fnmls, fuvs, texture, env.meshSize(vertices, fs));
        BuiltSnoc(env, filepath, st, mats, meshes, pipe.database, pipe.Paths(), mesh);
        meshes := meshes + [mesh];
      }
      BuiltMeshes(env, filepath, st, meshes, pipe.database, pipe.Paths());
    }

    /** The loop over the collision file's group names. */
    static method Collisions(doc: KclDocument) returns (kcls: seq<CollisionMesh>)
      ensures kcls == Classify(doc, doc.objects)
    {
      kcls := [];
      for i := 0 to |doc.objects|
        invariant kcls == Classify(doc, doc.objects[..i])
      {
        assert doc.objects[..i + 1][..i] == doc.objects[..i];
        var name := doc.objects[i];
        var kind := KindOf(name);
        if kind.Some? {
          var faces := GroupFacesOf(doc.faces, name);
          kcls := kcls + [CollisionMesh(doc.vertices, faces, kind.value)];
        }
      }
      assert doc.objects[..|doc.objects|] == doc.objects;
    }

    /** The inner loop over the collision faces of group `name`. */
    static method GroupFacesOf(faces: seq<KclFace>, name: string) returns (fs: seq<seq<int>>)
      ensures fs == GroupFaces(faces, name)
    {
      fs := [];
      for i := 0 to |faces|
        invariant fs == GroupFaces(faces[..i], name)
      {
        assert faces[..i + 1][..i] == faces[..i];
        if faces[i].objectName == Some(name) {
          fs := fs + [faces[i].vertexIndices];
        }
      }
      assert faces[..|faces|] == faces;
    }

    /** CalculateBounds: start from +∞/-∞ and widen by every mesh's size. */
    method CalculateBounds()
      modifies this`size
      ensures size == BoundsOf(meshes)
      ensures meshes == old(meshes) && kcls == old(kcls) && attachments == old(attachments)
    {
      size := Unbounded;
      BoundsOfMeshes(meshes[..0]);
      for i := 0 to |meshes|
        invariant size == BoundsOf(meshes[..i])
      {
        BoundsOfPrefix(meshes, i);
        var m := meshes[i];
        size := size.(minX := MinExt(size.minX, m.size.xMin), maxX := MaxExt(size.maxX, m.size.xMax));
        size := size.(minY := MinExt(size.minY, m.size.yMin), maxY := MaxExt(size.maxY, m.size.yMax));
        size := size.(minZ := MinExt(size.minZ, m.size.zMin), maxZ := MaxExt(size.maxZ, m.size.zMax));
      }
      assert meshes[..|meshes|] == meshes;
    }

    /** useColor: true exactly when no mesh has a texture. */
    method UseColor() returns (b: bool)
      ensures b <==> forall k :: 0 <= k < |meshes| ==> meshes[k].texture == -1
    {
      for i := 0 to |meshes|
        invariant forall k :: 0 <= k < i ==> meshes[k].texture == -1
      {
        if meshes[i].texture != -1 {
          return false;
        }
      }
      return true;
    }

    /** ImportAttachments on the attachment file's lines (None: the file does
        not exist). Committed records are appended; an error is the line that throws. */
    method ImportAttachments(file: Option<seq<string>>, nums: Numbers) returns (err: Option<AttachmentError>)
      modifies this`attachments
      ensures file.None? ==> err == None && attachments == old(attachments)
      ensures file.Some? ==>
        match Import(nums, file.value)
        case Failure(e) => err == Some(e)
        case Success(atts) => err == None && attachments == old(attachments) + atts
    {
      if file.None? {
        return None;
      }
      var lines := file.value;
      var atch := NewAttachment();
      ghost var done: seq<Attachment> := [];
      var i := 0;
      while i < |lines|
        invariant 0 <= i <= |lines|
        invariant attachments == old(attachments) + done
        invariant Parse(nums, lines, 0, Progress(NewAttachment(), [])) == Parse(nums, lines[i..], i, Progress(atch, done))
      {
        assert lines[i..][0] == lines[i] && lines[i..][1..] == lines[i + 1..];
        var parts := Text.Fields(lines[i]);
        if |parts| == 0 {
          return Some(AttachmentError(MissingKey, i));
        }
        var key := Text.Upper(parts[0]);
        if key == "NAME" {
          if |parts| < 2 {
            return Some(AttachmentError(MissingValue, i));
          }
          atch := atch.(name := parts[1]);
        } else if key == "ISFIRST" {
          if |parts| < 2 {
            return Some(AttachmentError(MissingValue, i));
          }
          var n := nums.parseInt(parts[1]);
          if n.None? {
            return Some(AttachmentError(BadNumber, i));
          }
          atch := atch.(isFirst := n.value != 0);
        } else if key == "ISFEMALE" {
          if |parts| < 2 {
            return Some(AttachmentError(MissingValue, i));
          }
          atch := atch.(isFemale := parts[1] == "1");
        } else if MatrixSlot(key).Some? {
          if |parts| < 2 {
            return Some(AttachmentError(MissingValue, i));
          }
          var x := nums.parseFloat(parts[1]);
          if x.None? {
            return Some(AttachmentError(BadNumber, i));
          }
          var (row, col) := MatrixSlot(key).value;
          atch := atch.(transform := Set(atch.transform, row, col, x.value));
        } else if key == "END" {
          attachments := attachments + [atch];
          done := done + [atch];
          atch := NewAttachment();
        }
        i := i + 1;
      }
      return None;
    }

    /** `new Model(filepath)` including the loads that can throw: the model
        file, its OBJ lines and its attachment file. Textures loaded before an
        attachment error stay in the cache, as in the constructor. */
    static method Load(filepath: string, env: Env, pipe: TextureCache) returns (r: Result<Model, LoadError>)
      requires pipe.Valid()
      modifies pipe
      ensures pipe.Valid() && old(pipe.database) <= pipe.database
      ensures filepath !in env.files ==> r == Failure(MissingFile(filepath)) && pipe.database == old(pipe.database)
      ensures filepath in env.files && !Run(env.reader, Initial, env.files[filepath]).ok ==>
        r == Failure(MalformedObj(filepath)) && pipe.database == old(pipe.database)
      ensures filepath in env.files && Run(env.reader, Initial, env.files[filepath]).ok ==>
        var st := Run(env.reader, Initial, env.files[filepath]).state;
        var file := AttachmentLines(env, filepath);
        && pipe.database[..|old(pipe.database)|] == old(pipe.database)
        && (file.Some? && Import(env.nums, file.value).Failure? ==> r == Failure(BadAttachment(Import(env.nums, file.value).error)))
        && (file.None? || Import(env.nums, file.value).Success? ==>
              && r.Success? && fresh(r.value)
              && r.value.path == filepath && r.value.name == DisplayName(env.paths, filepath)
              && r.value.meshes == MeshesOf(env, filepath, st, pipe.database)
              && r.value.kcls == CollisionsOf(env, filepath)
              && r.value.size == BoundsOf(r.value.meshes)
              && r.value.attachments == (if file.None? then [] else Import(env.nums, file.value).value))
      ensures r.Success? ==> forall k :: 0 <= k < |r.value.meshes| ==> r.value.meshes[k].texture > 0
      ensures filepath in env.files && Run(env.reader, Initial, env.files[filepath]).ok ==>
        TexturesCached(env, filepath, Run(env.reader, Initial, env.files[filepath]).state, old(pipe.Paths()), pipe.Paths())
    {
      if filepath !in env.files {
        return Failure(MissingFile(filepath));
      }
      var obj := new Obj(env.reader);
      var ok := obj.LoadObj(env.files[filepath]);
      if !ok {
        return Failure(MalformedObj(filepath));
      }
      var m := new Model(filepath, env, obj.State(), pipe);
      var atchPath := CompanionPath(env.paths, env.mac, filepath, "_Atch.txt");
      var file := if atchPath in env.files then Some(env.files[atchPath]) else None;
      var err := m.ImportAttachments(file, env.nums);
      if err.Some? {
        return Failure(BadAttachment(err.value));
      }
      return Success(m);
    }
  }

  /** The first index of a model loaded from `path`, or -1. */
  function IndexOf(models: seq<Model>, path: string): (i: int)
    ensures -1 <= i < |models|
    ensures i == -1 <==> forall k :: 0 <= k < |models| ==> models[k].path != path
    ensures i >= 0 ==> models[i].path == path && forall k :: 0 <= k < i ==> models[k].path != path
  {
    if models == [] then -1
    else if models[0].path == path then 0
    else
      var i := IndexOf(models[1..], path);
      assert forall k :: 1 <= k < |models| ==> models[k] == models[1..][k - 1];
      if i == -1 then -1 else i + 1
  }

  /** Model.database. */
  class ModelDatabase {
    var database: seq<Model>

    /** No path is loaded twice. */
    ghost predicate Valid()
      reads this
    {
      forall i, j :: 0 <= i < j < |database| ==> database[i].path != database[j].path
    }

    constructor ()
      ensures Valid() && database == []
    {
      database := [];
    }

    /** IsLoaded: the index of the first model loaded from `path`, or -1. */
    method IsLoaded(path: string) returns (id: int)
      ensures id == IndexOf(database, path)
    {
      for i := 0 to |database|
        invariant forall k :: 0 <= k < i ==> database[k].path != path
      {
        if database[i].path == path {
          return i;
        }
      }
      return -1;
    }

    /** AddModel: a loaded path returns its index and changes nothing; a new
        path is loaded, appended and gets the previous count as its index. A
        load that throws leaves the model database as it was; textures it loaded
        before throwing stay in the cache. */
    method AddModel(path: string, env: Env, pipe: TextureCache) returns (r: Result<int, LoadError>)
      requires Valid() && pipe.Valid()
      modifies this, pipe
      ensures Valid() && pipe.Valid() && old(pipe.database) <= pipe.database
      ensures IndexOf(old(database), path) >= 0 ==>
        && r == Success(IndexOf(old(database), path))
        && database == old(database) && pipe.database == old(pipe.database)
      ensures IndexOf(old(database), path) == -1 && r.Success? ==>
        && r.value == |old(database)| && |database| == r.value + 1
        && database[..r.value] == old(database) && database[r.value].path == path
        && fresh(database[r.value])
      ensures r.Failure? ==> database == old(database)
      ensures r.Success? ==> IndexOf(database, path) == r.value
      ensures IndexOf(old(database), path) == -1 ==>
        (r.Success? <==> path in env.files && Run(env.reader, Initial, env.files[path]).ok
                         && (AttachmentLines(env, path).None? || Import(env.nums, AttachmentLines(env, path).value).Success?))
      ensures IndexOf(old(database), path) == -1 && r.Success? ==>
        && path in env.files && Run(env.reader, Initial, env.files[path]).ok
        && var m, file := database[r.value], AttachmentLines(env, path);
        && (file.Some? ==> Import(env.nums, file.value).Success?)
        && m.meshes == MeshesOf(env, path, Run(env.reader, Initial, env.files[path]).state, pipe.database)
        && m.kcls == CollisionsOf(env, path)
        && m.size == BoundsOf(m.meshes)
        && m.attachments == (if file.None? then [] else Import(env.nums, file.value).value)
    {
      var id := IsLoaded(path);
      if id == -1 {
        var loaded := Model.Load(path, env, pipe);
        if loaded.Failure? {
          return Failure(loaded.error);
        }
        var m := loaded.value;
        database := database + [m];
        // database.IndexOf(m): m is new, so it is the last entry.
        id := |database| - 1;
        assert database[..id] == old(database);
      }
      return Success(id);
    }

    /** Adding the same path twice gives the same index and adds at most one model. */
    method AddTwice(path: string, env: Env, pipe: TextureCache) returns (first: Result<int, LoadError>, second: Result<int, LoadError>)
      requires Valid() && pipe.Valid()
      modifies this, pipe
      ensures Valid()
      ensures first.Success? ==> second == first
      ensures old(database) <= database && |database| <= |old(database)| + 1
    {
      first := AddModel(path, env, pipe);
      ghost var models, textures := database, pipe.database;
      second := AddModel(path, env, pipe);
      assert first.Success? ==> database == models && pipe.database == textures;
    }
  }
}
