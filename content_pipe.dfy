/** The texture cache of IO/ContentPipe.cs: the process-wide
    TextureInfoDatabase and txi become the fields of one TextureCache object.
    GL.GenTexture is an injective supply of positive names (`names(k)` is the
    name the k-th call returns), and the GL upload is recorded, not performed. */
module ContentPipe {

  datatype TextureInfo = TextureInfo(path: string, id: int)

  /** A LoadTexture call: the file, the texture name and the texture unit it is bound to. */
  datatype Upload = Upload(path: string, id: int, unit: int)

  /** TextureUnit.Texture0. */
  const Texture0: int := 0x84C0

  /** TextureAlreadyLoaded on a list of entries: the id of the first entry
      for `path`, or -1. */
  function Find(database: seq<TextureInfo>, path: string): (id: int)
    ensures (forall k :: 0 <= k < |database| ==> database[k].path != path) ==> id == -1
    ensures forall k :: (0 <= k < |database| && database[k].path == path
              && forall j :: 0 <= j < k ==> database[j].path != path) ==> id == database[k].id
  {
    if database == [] then -1
    else if database[0].path == path then database[0].id
    else
      var id := Find(database[1..], path);
      assert forall k :: 1 <= k < |database| ==> database[k] == database[1..][k - 1];
      id
  }

  /** Appending an entry for a path that is not found makes it found with that id,
      and leaves every other path's lookup as it was. */
  lemma {:induction false} FindAfterAppend(database: seq<TextureInfo>, path: string, id: int, other: string)
    requires forall k :: 0 <= k < |database| ==> database[k].path != path
    ensures Find(database + [TextureInfo(path, id)], path) == id
    ensures other != path ==> Find(database + [TextureInfo(path, id)], other) == Find(database, other)
    decreases |database|
  {
    if database != [] {
      assert (database + [TextureInfo(path, id)])[1..] == database[1..] + [TextureInfo(path, id)];
      FindAfterAppend(database[1..], path, id, other);
    }
  }

  class TextureCache {
    /** GL.GenTexture: the name returned by the k-th call. */
    const names: nat -> int
    /** TextureInfoDatabase. */
    var database: seq<TextureInfo>
    /** txi: the number of textures uploaded so far. */
    var txi: int
    /** The LoadTexture calls made, in order. */
    var uploads: seq<Upload>

    ghost predicate Valid()
      reads this
    {
      && (forall i, j :: 0 <= i < j ==> names(i) != names(j))
      && (forall i :: 0 <= i ==> names(i) > 0)
      && txi == |database| == |uploads|
      && (forall k :: 0 <= k < |database| ==> database[k].id == names(k))
      && (forall k :: 0 <= k < |database| ==> uploads[k] == Upload(database[k].path, database[k].id, Texture0 + k))
      && (forall i, j :: 0 <= i < j < |database| ==> database[i].path != database[j].path)
    }

    /** The paths loaded so far. */
    ghost function Paths(): set<string>
      reads this
    {
      set k | 0 <= k < |database| :: database[k].path
    }

    constructor (names: nat -> int)
      requires forall i, j :: 0 <= i < j ==> names(i) != names(j)
      requires forall i :: 0 <= i ==> names(i) > 0
      ensures Valid() && this.names == names
      ensures database == [] && uploads == [] && txi == 0
    {
      this.names := names;
      database, txi, uploads := [], 0, [];
    }

    /** TextureAlreadyLoaded: the id of the first entry for `path`, or -1. */
    method TextureAlreadyLoaded(path: string) returns (id: int)
      ensures id == Find(database, path)
    {
      for i := 0 to |database|
        invariant forall k :: 0 <= k < i ==> database[k].path != path
      {
        if database[i].path == path {
          return database[i].id;
        }
      }
      return -1;
    }

    /** In a valid cache the lookup misses exactly for paths never loaded,
        and a hit is the (positive) name the path was given. */
    lemma FindIsMembership(path: string)
      requires Valid()
      ensures Find(database, path) == -1 <==> path !in Paths()
      ensures path in Paths() ==> Find(database, path) > 0
    {
      if path in Paths() {
        var k :| 0 <= k < |database| && database[k].path == path;
        assert Find(database, path) == database[k].id;
      }
    }

    /** Load_and_AddTexture. A known path returns its id and changes nothing;
        a new path gets the next name, is uploaded to unit Texture0 + txi and
        appended. */
    method LoadAndAddTexture(path: string) returns (texture: int)
      requires Valid()
      modifies this
      ensures Valid()
      ensures texture > 0 && texture == Find(database, path)
      ensures path in old(Paths()) ==>
        && texture == Find(old(database), path)
        && database == old(database) && txi == old(txi) && uploads == old(uploads)
      ensures path !in old(Paths()) ==>
        && texture == names(old(txi))
        && database == old(database) + [TextureInfo(path, texture)]
        && uploads == old(uploads) + [Upload(path, texture, Texture0 + old(txi))]
        && txi == old(txi) + 1
      ensures forall p :: p != path ==> Find(database, p) == Find(old(database), p)
      ensures Paths() == old(Paths()) + {path} && old(database) <= database
    {
      FindIsMembership(path);
      texture := TextureAlreadyLoaded(path);
      if texture == -1 {
        texture := names(txi);
        uploads := uploads + [Upload(path, texture, Texture0 + txi)];
        forall p | p != path
          ensures Find(database + [TextureInfo(path, texture)], p) == Find(database, p)
        {
          FindAfterAppend(database, path, texture, p);
        }
        FindAfterAppend(database, path, texture, path);
        database := database + [TextureInfo(path, texture)];
        txi := txi + 1;
      }
    }

    /** Loading the same path twice gives the same name, and the second call
        changes neither the database nor txi. */
    method LoadTwice(path: string) returns (first: int, second: int)
      requires Valid()
      modifies this
      ensures Valid() && first == second
      ensures database == old(database) + (if path in old(Paths()) then [] else [TextureInfo(path, first)])
    {
      first := LoadAndAddTexture(path);
      ghost var between, count := database, txi;
      assert database[|database| - 1].path == path || path in old(Paths());
      assert path in Paths();
      second := LoadAndAddTexture(path);
      assert database == between && txi == count;
    }
  }
}
