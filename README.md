# MKTrackMaker model loading in Dafny

This project models how the MarioKartTrackMaker track editor loads a track piece, and proves properties of that model. Loading has four parts:

1. **The Wavefront OBJ parser** (`ObjParser.Obj`). `processLine` splits a line on spaces and dispatches on the first token:
   - `v`, `vn` and `vt` append a vertex, a normal or a texture vertex, each with a 1-based index;
   - `f` appends a face tagged with the current `usemtl` material;
   - `mtllib` sets the material library.

   `LoadObj` runs `processLine` over every line and then `updateSize` computes the extent. `WriteObjFile` is the reverse direction: it writes the header, the `mtllib`, vertex, texture and face lines, and writes `usemtl` only where the material changes.
2. **Model assembly** (`ViewerResources.Model`). The constructor does the following:
   - it names the model after its file;
   - it loads the OBJ and its material library;
   - it builds one mesh per declared material, loading each texture through the texture cache;
   - it classifies the groups of the `_KCL.obj` collision file through a fixed table of fourteen names;
   - it computes the model's bounds.

   `ImportAttachments` then reads `KEY: VALUE` lines from the `_Atch.txt` file. The process-wide `Model.database` with `IsLoaded`/`AddModel` is a cache keyed by path.
3. **The texture cache** (`ContentPipe`). `TextureInfoDatabase` and the counter `txi` de-duplicate texture uploads by path.
4. **Attachment points** (`Attachment`). This is the record the attachment reader fills in and resets after every `END` line.

Files:
- `wrappers.dfy`: `Option` and `Result`.
- `text.dfy`: the string operations the code relies on:
  - `String.Split` with a space and `RemoveEmptyEntries` (`Tokens`);
  - `String.Split` with `": "`/`":"` (`Fields`);
  - `ToUpper` and `Replace`.
- `wavefront.dfy`: the OBJ parser's state as a value. It defines one line (`Step`), a whole load (`Run`), the extent (`SizeOf`) and the writer's output (`ObjLines`), with the lemmas about them.
- `obj.dfy`: the `Obj` class, whose methods are proved against `wavefront.dfy`.
- `content_pipe.dfy`: the texture cache as a class with its invariant.
- `attachments.dfy`: the attachment record, its matrix, and the attachment file format. This covers one line (`ApplyLine`) and a whole file (`Parse`/`Import`).
- `models.dfy`: the pure side of `Model.cs`: the collision table, the material split, the collision classification, the bounds fold and the path rules.
- `model.dfy`: the `Model` class and the model database.

Outside inputs are parameters:
- `Reader` stands for the record types' `LoadFromStringArray`, and `Printer` for their `ToString`.
- `TextureCache.names` is the sequence of names `GL.GenTexture` returns. It is assumed injective and positive.
- `Env` covers the rest: file contents, the material library reader, the parsed collision file, `Mesh.size`, the `System.IO.Path` helpers, the platform, and `float.Parse`/`int.Parse`.

Thrown exceptions become error results:
- `processLine` throws on a `usemtl` or `mtllib` line without an argument.
- `ImportAttachments` throws on an empty line, a missing value and a number that does not parse.
- `Model.Load` returns which of these ended the load.
- A texture image that cannot be opened also throws in the source. The model does not capture this; see "## Left out".

`Attachment.isFirst` is declared `bool`, but `ImportAttachments` assigns it the `int` that `int.Parse` returns (Attachment.cs:14, Model.cs:245), which does not type-check. The model assumes the evident intent: a nonzero value means true. This is an assumption, not behaviour of the code as written.

The `Obj` class shown never records object or group names, yet the constructor reads `tobjkcl.objects` and `f.objectName` from it. The collision file is therefore taken as an already parsed `KclDocument`: its vertices, its faces with their group names, and its group names in order.

## Model

| member | source | states |
|---|---|---|
| Text.Tokens | MarioKartTrackMaker/IO/Wavefront/Obj.cs:146 | Split on ' ' with RemoveEmptyEntries: every token is non-empty and holds no space |
| Text.NoTokensIffBlank | MarioKartTrackMaker/IO/Wavefront/Obj.cs:146-148 | a line has no tokens exactly when it is empty or all spaces |
| Text.TokensOfDirective | MarioKartTrackMaker/IO/Wavefront/Obj.cs:146-157 | `keyword + " " + arg` splits into exactly [keyword, arg] when both are words |
| Text.Fields | MarioKartTrackMaker/ViewerResources/Model.cs:238 | Split on ": "/":" with RemoveEmptyEntries: every field is non-empty and holds no ':' |
| Text.FieldsOfPair | MarioKartTrackMaker/ViewerResources/Model.cs:238 | `key + ": " + value` splits into exactly [key, value] |
| Text.FieldsOfKey | MarioKartTrackMaker/ViewerResources/Model.cs:238 | a key with no ':' splits into [key] alone |
| Wavefront.Step | MarioKartTrackMaker/IO/Wavefront/Obj.cs:144-185 | processLine fails exactly on a bare `usemtl`/`mtllib`; otherwise every list only grows, by at most one record |
| Wavefront.IgnoredLine | MarioKartTrackMaker/IO/Wavefront/Obj.cs:146-150 | blank, all-space and unknown-keyword lines leave the whole state unchanged |
| Wavefront.Run | MarioKartTrackMaker/IO/Wavefront/Obj.cs:57-65 | a load only extends the four lists of the state it starts from |
| Wavefront.RunOkIff | MarioKartTrackMaker/IO/Wavefront/Obj.cs:57-65 | a load takes every line exactly when no line is a bare `usemtl`/`mtllib` |
| Wavefront.RunConcat | MarioKartTrackMaker/IO/Wavefront/Obj.cs:57-65 | LoadObj never clears state: loading a then b equals loading a + b |
| Wavefront.VerticesInOrder | MarioKartTrackMaker/IO/Wavefront/Obj.cs:158-163 | the k-th `v` line yields the next vertex, read from its tokens, with index count + k + 1 |
| Wavefront.NormalsInOrder | MarioKartTrackMaker/IO/Wavefront/Obj.cs:164-169 | the k-th `vn` line yields the next normal, with its own counter |
| Wavefront.TexturesInOrder | MarioKartTrackMaker/IO/Wavefront/Obj.cs:176-181 | the k-th `vt` line yields the next texture vertex, with its own counter |
| Wavefront.FacesInOrder | MarioKartTrackMaker/IO/Wavefront/Obj.cs:170-175 | the k-th `f` line yields the next face, read from its tokens |
| Wavefront.LastDirectiveWins | MarioKartTrackMaker/IO/Wavefront/Obj.cs:152-157 | after a load UseMtl and Mtl are the arguments of the last `usemtl` and `mtllib` lines, or the values before |
| Wavefront.FaceKeepsMaterial | MarioKartTrackMaker/IO/Wavefront/Obj.cs:170-175 | each face keeps the material of the last `usemtl` before its `f` line; later `usemtl` lines do not change it |
| Wavefront.MinOf | MarioKartTrackMaker/IO/Wavefront/Obj.cs:132 | Min is an element and no greater than any element |
| Wavefront.MaxOf | MarioKartTrackMaker/IO/Wavefront/Obj.cs:131 | Max is an element and no less than any element |
| Wavefront.SizeOf | MarioKartTrackMaker/IO/Wavefront/Obj.cs:110-138 | all six bounds 0 without vertices; otherwise every vertex lies within the bounds and each bound is attained |
| Wavefront.LastTagCons | MarioKartTrackMaker/IO/Wavefront/Obj.cs:82-89 | the last material written after a face is its tag if it has one, else the previous one |
| Wavefront.FaceLinesAppend | MarioKartTrackMaker/IO/Wavefront/Obj.cs:83-89 | writing one more face appends its block, given the last material written before it |
| Wavefront.FaceLinesFrom | MarioKartTrackMaker/IO/Wavefront/Obj.cs:83-89 | the face loop from face j is that face's block followed by the rest |
| Wavefront.FaceLoopStep | MarioKartTrackMaker/IO/Wavefront/Obj.cs:83-89 | one iteration of the face loop keeps lines written plus lines still to write fixed |
| Wavefront.ReadBackOneFace | MarioKartTrackMaker/IO/Wavefront/Obj.cs:84-88 | reading back one face's block appends that face with its material restored |
| Wavefront.ReadBackFirst | MarioKartTrackMaker/IO/Wavefront/Obj.cs:84-88 | reading back the first block keeps the earlier faces and restores the first face |
| Wavefront.ReadBackCons | MarioKartTrackMaker/IO/Wavefront/Obj.cs:84-88 | restored faces for the rest shift by one to faces for the whole list |
| Wavefront.WrittenMaterialsReadBack | MarioKartTrackMaker/IO/Wavefront/Obj.cs:84-88 | feeding the written usemtl/face lines back through processLine succeeds, keeps the earlier faces and restores every face's non-null material |
| ObjParser.Obj.constructor | MarioKartTrackMaker/IO/Wavefront/Obj.cs:24-30 | all four lists empty, UseMtl, Mtl and Size null |
| ObjParser.Obj.ProcessLine | MarioKartTrackMaker/IO/Wavefront/Obj.cs:144-185 | the new state is Step of the old one; it fails exactly where the code throws, and then changes nothing |
| ObjParser.Obj.LoadObj | MarioKartTrackMaker/IO/Wavefront/Obj.cs:57-65 | the state and outcome are Run of the old state; Size is SizeOf the vertices when every line was taken |
| ObjParser.Obj.UpdateSize | MarioKartTrackMaker/IO/Wavefront/Obj.cs:110-138 | Size becomes SizeOf the vertex list |
| ObjParser.Obj.WriteHeader | MarioKartTrackMaker/IO/Wavefront/Obj.cs:93-105 | a null or empty header gives the single default comment, otherwise one `# ` line per string |
| ObjParser.Obj.WriteObjFile | MarioKartTrackMaker/IO/Wavefront/Obj.cs:67-91 | the lines written are header, `mtllib` iff Mtl is non-empty, vertices, texture vertices, then faces with `usemtl` only on a change of non-null material |
| ContentPipe.Find | MarioKartTrackMaker/IO/ContentPipe.cs:29-39 | the id of the first entry with that path, or -1 if there is none |
| ContentPipe.FindAfterAppend | MarioKartTrackMaker/IO/ContentPipe.cs:48 | after appending a new path it is found with its id and every other path's lookup is unchanged |
| ContentPipe.TextureCache.constructor | MarioKartTrackMaker/IO/ContentPipe.cs:16-28 | an empty database with txi 0 satisfies the cache invariant |
| ContentPipe.TextureCache.TextureAlreadyLoaded | MarioKartTrackMaker/IO/ContentPipe.cs:29-39 | the result is Find of the database |
| ContentPipe.TextureCache.FindIsMembership | MarioKartTrackMaker/IO/ContentPipe.cs:40-52 | in a valid cache the lookup misses exactly for paths never loaded, and a hit is a positive name |
| ContentPipe.TextureCache.LoadAndAddTexture | MarioKartTrackMaker/IO/ContentPipe.cs:40-52 | a known path returns its id and changes nothing; a new path gets the next GenTexture name, is uploaded to unit 0x84C0 + txi, appended, and txi grows with the database |
| ContentPipe.TextureCache.LoadTwice | MarioKartTrackMaker/IO/ContentPipe.cs:40-52 | two loads of one path return the same id and add at most one entry |
| Attachments.Set | MarioKartTrackMaker/ViewerResources/Model.cs:253 | writes one matrix entry and keeps the other fifteen |
| Attachments.NewAttachment | MarioKartTrackMaker/ViewerResources/Attachment.cs:13-16 | a fresh attachment shows as "<unknown>", is neither first nor female and has the zero matrix |
| Attachments.WorldTransformOfIdentity | MarioKartTrackMaker/ViewerResources/Attachment.cs:17-20 | with an identity parent the world transform is the attachment's own matrix |
| Attachments.WorldTransformOrder | MarioKartTrackMaker/ViewerResources/Attachment.cs:17-20 | the product order: a point (row vector) is moved by the attachment's own matrix first and by the parent's after it |
| Attachments.FreshWorldTransform | MarioKartTrackMaker/ViewerResources/Attachment.cs:16-20 | a fresh attachment's world transform is zero whatever the parent |
| Attachments.MatrixSlot | MarioKartTrackMaker/ViewerResources/Model.cs:251-314 | only keys of the form MAT<a><b> name a slot, and the slot of MAT<a><b> is row b, column a |
| Attachments.MatrixKeysTransposed | MarioKartTrackMaker/ViewerResources/Model.cs:251-314 | each of the sixteen keys MAT<a><b> writes transform[b, a] |
| Attachments.ParseConcat | MarioKartTrackMaker/ViewerResources/Model.cs:236-321 | reading a + b is reading a and then b from the record and list it left |
| Attachments.OneRecordPerEnd | MarioKartTrackMaker/ViewerResources/Model.cs:315-320 | records are only appended, one per END line |
| Attachments.AttachmentsCountEnds | MarioKartTrackMaker/ViewerResources/Model.cs:315-320 | a file yields exactly as many attachments as it has END lines |
| Attachments.OpenTailDropped | MarioKartTrackMaker/ViewerResources/Model.cs:233-322 | lines after the last END add nothing: a record without END is discarded |
| Attachments.NoEndsCounted | MarioKartTrackMaker/ViewerResources/Model.cs:315 | lines none of which is END count zero END lines |
| Attachments.EndIsCommit | MarioKartTrackMaker/ViewerResources/Model.cs:315-320 | an END line in any letter case, with or without a value, commits the record |
| Attachments.EndCommitsRecord | MarioKartTrackMaker/ViewerResources/Model.cs:315-320 | END appends exactly the record built by the lines since the previous END, and the next record starts from a fresh attachment |
| Attachments.OneRecord | MarioKartTrackMaker/ViewerResources/Model.cs:236-321 | a NAME, ISFEMALE, MAT<a><b>, END block is imported as one attachment holding exactly that name, flag and matrix entry, the rest as in a fresh attachment |
| Attachments.MatrixLineTransposed | MarioKartTrackMaker/ViewerResources/Model.cs:251-314 | a `MAT<a><b>: v` line in any letter case writes transform[b, a] and nothing else |
| Attachments.FemaleFlag | MarioKartTrackMaker/ViewerResources/Model.cs:247-250 | ISFEMALE in any letter case sets isFemale exactly when the value is "1"; the value is not upper-cased |
| Attachments.NameLine | MarioKartTrackMaker/ViewerResources/Model.cs:239-242 | NAME in any letter case sets the name to the value as written and changes nothing else |
| Attachments.UnknownKeyIgnored | MarioKartTrackMaker/ViewerResources/Model.cs:236-321 | a line whose key is none of NAME, ISFIRST, ISFEMALE, END or MAT<a><b> leaves the record unchanged, with or without a value |
| Attachments.MalformedLines | MarioKartTrackMaker/ViewerResources/Model.cs:238-249 | an empty line fails on parts[0]; NAME, ISFIRST, ISFEMALE or MAT keys without a value fail on parts[1] |
| Models.KindOf | MarioKartTrackMaker/ViewerResources/Model.cs:179-207 | a name that maps to a kind is exactly that kind's table name |
| Models.KindOfNameOf | MarioKartTrackMaker/ViewerResources/Model.cs:179-207 | each of the fourteen names maps to its own kind |
| Models.UnknownGroupIgnored | MarioKartTrackMaker/ViewerResources/Model.cs:207 | any other name, such as a lower-case spelling, maps to no kind |
| Models.FacesFor | MarioKartTrackMaker/ViewerResources/Model.cs:144-152 | a material's faces are at most all faces |
| Models.FacesForMembership | MarioKartTrackMaker/ViewerResources/Model.cs:144-152 | a face is in a material's mesh iff it is tagged with that material; a null or undeclared tag puts it in none |
| Models.FacesForConcat | MarioKartTrackMaker/ViewerResources/Model.cs:144-152 | the split keeps file order: it distributes over concatenation |
| Models.GroupFaces | MarioKartTrackMaker/ViewerResources/Model.cs:209-216 | every face whose object name is the group's name is in the group's face list |
| Models.GroupFacesMembership | MarioKartTrackMaker/ViewerResources/Model.cs:209-216 | a vertex list is in a group's faces iff some face of that group has it; other groups' and ungrouped faces are left out |
| Models.GroupFacesConcat | MarioKartTrackMaker/ViewerResources/Model.cs:209-216 | a group's faces keep file order: the filter distributes over concatenation |
| Models.ClassifyPerGroup | MarioKartTrackMaker/ViewerResources/Model.cs:176-221 | one collision mesh per group name in the table; each holds that group's faces and the shared vertices |
| Models.ClassifyConcat | MarioKartTrackMaker/ViewerResources/Model.cs:176-221 | collision meshes follow the order of the group names |
| Models.LowestIsLeast | MarioKartTrackMaker/ViewerResources/Model.cs:330-345 | the Math.Min fold from +∞ is +∞ on nothing, else the least element |
| Models.HighestIsGreatest | MarioKartTrackMaker/ViewerResources/Model.cs:333-345 | the Math.Max fold from -∞ is -∞ on nothing, else the greatest element |
| Models.LowestSnoc | MarioKartTrackMaker/ViewerResources/Model.cs:339 | one more value takes one more Math.Min |
| Models.HighestSnoc | MarioKartTrackMaker/ViewerResources/Model.cs:340 | one more value takes one more Math.Max |
| Models.ColumnSnoc | MarioKartTrackMaker/ViewerResources/Model.cs:337-345 | one more mesh adds its size field to the column |
| Models.BoundsOfSnoc | MarioKartTrackMaker/ViewerResources/Model.cs:337-345 | taking one more mesh into the bounds is one iteration of the loop |
| Models.BoundsOfPrefix | MarioKartTrackMaker/ViewerResources/Model.cs:337-345 | the bounds of the first i + 1 meshes widen those of the first i by mesh i |
| Models.LowestOfColumn | MarioKartTrackMaker/ViewerResources/Model.cs:339 | on one axis the lower bound is finite, below every mesh and attained |
| Models.HighestOfColumn | MarioKartTrackMaker/ViewerResources/Model.cs:340 | on one axis the upper bound is finite, above every mesh and attained |
| Models.BoundsOfMeshes | MarioKartTrackMaker/ViewerResources/Model.cs:328-346 | without meshes the bounds stay +∞/-∞; otherwise each is finite, bounds every mesh and is attained |
| Models.CompanionPathsDiffer | MarioKartTrackMaker/ViewerResources/Model.cs:165 | the `_KCL.obj` and `_Atch.txt` paths are directory + slash + stem + suffix, and differ |
| Models.DisplayName | MarioKartTrackMaker/ViewerResources/Model.cs:109 | the name is the file stem with every '_' replaced by a space and every other character kept |
| ViewerResources.BuiltAfterLoad | MarioKartTrackMaker/ViewerResources/Model.cs:136-142 | loading one more texture leaves the names of the textures of earlier meshes unchanged |
| ViewerResources.BuiltSnoc | MarioKartTrackMaker/ViewerResources/Model.cs:162 | the next material's mesh extends the meshes built so far |
| ViewerResources.BuiltMeshes | MarioKartTrackMaker/ViewerResources/Model.cs:130-164 | a mesh per material, each with its cached texture name, is the model's mesh list |
| ViewerResources.Model.constructor | MarioKartTrackMaker/ViewerResources/Model.cs:106-225 | name, one mesh per declared material with its texture's cache name, each material's texture path in the cache and no other path added, the classified collision meshes, and the bounds of the meshes |
| ViewerResources.Model.CollectPositions | MarioKartTrackMaker/ViewerResources/Model.cs:115-119 | the vertex positions in order |
| ViewerResources.Model.CollectDirections | MarioKartTrackMaker/ViewerResources/Model.cs:120-124 | the normal directions in order |
| ViewerResources.Model.CollectUvs | MarioKartTrackMaker/ViewerResources/Model.cs:125-129 | the texture coordinates in order |
| ViewerResources.Model.SplitFaces | MarioKartTrackMaker/ViewerResources/Model.cs:144-152 | the three parallel index lists of the faces tagged with the material |
| ViewerResources.Model.BuildMeshes | MarioKartTrackMaker/ViewerResources/Model.cs:130-164 | exactly one mesh per material, in order, with the texture name the cache holds for its path; each material's texture path (verbatim if rooted, else joined to the model's directory) is then in the cache, and the cache gains no other path |
| ViewerResources.Model.LoadCollisions | MarioKartTrackMaker/ViewerResources/Model.cs:165-222 | no collision meshes without a `_KCL.obj` file, otherwise the classified groups |
| ViewerResources.Model.Collisions | MarioKartTrackMaker/ViewerResources/Model.cs:176-221 | the collision meshes are Classify of the group names |
| ViewerResources.Model.GroupFacesOf | MarioKartTrackMaker/ViewerResources/Model.cs:209-216 | the faces whose object name is the group, in file order |
| ViewerResources.Model.CalculateBounds | MarioKartTrackMaker/ViewerResources/Model.cs:328-346 | size becomes the Math.Min/Math.Max fold over all meshes' sizes |
| ViewerResources.Model.UseColor | MarioKartTrackMaker/ViewerResources/Model.cs:92-101 | true exactly when every mesh's texture is -1 |
| ViewerResources.Model.ImportAttachments | MarioKartTrackMaker/ViewerResources/Model.cs:231-323 | no file adds nothing; otherwise the committed records of Import are appended, or the failing line is reported |
| ViewerResources.Model.Load | MarioKartTrackMaker/ViewerResources/Model.cs:106-225 | missing file and malformed OBJ fail without touching the cache; otherwise the cache has gained exactly the materials' texture paths, and the result is an attachment error or a model as the constructor builds it, whose meshes all have textures and whose attachments are those the file imports |
| ViewerResources.IndexOf | MarioKartTrackMaker/ViewerResources/Model.cs:42-48 | the smallest index with that path, or -1 if there is none |
| ViewerResources.ModelDatabase.constructor | MarioKartTrackMaker/ViewerResources/Model.cs:19 | the database starts empty |
| ViewerResources.ModelDatabase.IsLoaded | MarioKartTrackMaker/ViewerResources/Model.cs:42-48 | the result is IndexOf the database |
| ViewerResources.ModelDatabase.AddModel | MarioKartTrackMaker/ViewerResources/Model.cs:54-64 | a loaded path returns its index and changes nothing; a new path is appended with the previous count as its index; a failed load leaves the model database unchanged, while textures loaded before the failure stay cached; the texture cache only grows; no path is loaded twice; a new path succeeds exactly when its file exists, its OBJ lines parse and its attachment file (if any) imports, and the appended model holds the meshes, collision meshes, bounds and attachments that load builds |
| ViewerResources.ModelDatabase.AddTwice | MarioKartTrackMaker/ViewerResources/Model.cs:54-64 | adding one path twice gives the same index, and the database only grows, by at most one model |

## Left out

- Rendering: `Model.DrawModel`, `Attachment.draw` and `ContentPipe.LoadTexture` are OpenGL and bitmap calls. A texture upload is recorded as `(path, name, unit)` and nothing more.
- File I/O: `File.ReadAllLines`, `File.Exists`, the writer's stream, and the `LoadObj(string)` and `LoadObj(Stream)` overloads. File contents are a map from path to lines, and existence is membership in it. `WriteObjFile` returns its lines.
- Floating point: coordinates and matrix entries are reals. `float.Parse`/`int.Parse` are parameters that return `None` where they throw. NaN, infinities in the data and the double-to-float casts are not modelled.
- `Matrix4` multiplication is the exact real product. OpenTK's float rounding is not modelled.
- `ToUpper` uses the invariant ASCII rules. Culture-sensitive upper-casing is not modelled, including the Turkish dotted i: under tr-TR `isfemale` would not match `ISFEMALE`.
- The `System.IO.Path` helpers are uninterpreted functions. Their own behaviour is not modelled.
- `runningOnMac` becomes a flag. `filepathSlash` is modelled from its two constants.
- `LoadFromStringArray` and `ToString` of `Vertex`, `Normal`, `TextureVertex` and `Face` are not part of this model. They are parameters, and their own parse errors are not modelled.
- `Mtl.LoadMtl` is not part of this model. It is a function from library path to material list. A missing or malformed library is not modelled.
- The `Mesh` and `Collision_Mesh` constructors are not part of this model. A mesh's size is a parameter.
- The collision file is given already parsed (`KclDocument`), because the `Obj` class shown does not record object names. Parse failures of that file are not modelled.
- `ViewerResources.Model.ImportAttachments`: when a line fails, the contract does not state which records were already appended. The exception discards the model being built anyway.
- `ContentPipe.TextureCache.LoadAndAddTexture`: every texture load is assumed to succeed. In the source, `new Bitmap(path)` (ContentPipe.cs:58) throws on an image file that is missing or cannot be read. That happens after `GL.GenTexture` has used up a name and before the entry is appended. This failure is not modelled, because the image files and the bitmap decoder are outside the model.
- `ViewerResources.Model.Load`: a material whose texture image cannot be opened aborts the constructor in the source (Model.cs:136-142 through ContentPipe.cs:58). The model has no such outcome, so `Load`, `AddModel` and the constructor succeed where the source would throw on such an image.
- `ViewerResources.Model.Load`: `ImportAttachments` is called from `Load` right after the constructor rather than from inside it, so that its error can be returned.
- `ViewerResources.ModelDatabase.AddModel`: the index of the new model is taken as the last position rather than found by a reference search (`database.IndexOf(m)`). The model was just appended and is fresh, so the two agree.
- `Attachments.ApplyLine`: `ISFIRST` is taken as true for a nonzero value. The code assigns an `int` to a `bool`, which does not compile as written.
