/** The model loader with the importer's scene reduced to plain data: a
    node tree holding indices into a mesh table, meshes with optional
    normals and texture coordinates, and materials listing texture paths
    per texture type. Reading the file and decoding images stay outside:
    the importer's answer is a parameter, and TextureFromFile is a function
    from (path, directory) to a texture id. */
module ModelLoader {
  import opened Geometry
  import opened Sequences

  datatype Vec2 = Vec2(u: real, v: real)

  /** The first texture-coordinate channel with the tangent frame the
      importer computes alongside it. */
  datatype UvChannel = UvChannel(coords: seq<Vec2>, tangents: seq<Vec3>, bitangents: seq<Vec3>)

  datatype AiMesh = AiMesh(
    vertices: seq<Vec3>,
    normals: Option<seq<Vec3>>,
    uv: Option<UvChannel>,
    faces: seq<seq<nat>>,
    materialIndex: nat)

  /** Texture paths of a material, per texture type. */
  datatype AiMaterial = AiMaterial(diffuse: seq<string>, specular: seq<string>, height: seq<string>, ambient: seq<string>)

  datatype AiNode = AiNode(meshes: seq<nat>, children: seq<AiNode>)

  datatype AiScene = AiScene(incomplete: bool, root: Option<AiNode>, meshes: seq<AiMesh>, materials: seq<AiMaterial>)

  /** A vertex; normal, tangent and bitangent are None where the source
      leaves the field uninitialised. */
  datatype Vertex = Vertex(position: Vec3, normal: Option<Vec3>, texCoords: Vec2, tangent: Option<Vec3>, bitangent: Option<Vec3>)

  datatype Texture = Texture(id: nat, kind: string, path: string)

  datatype Mesh = Mesh(vertices: seq<Vertex>, indices: seq<nat>, textures: seq<Texture>)

  /** The per-vertex arrays of a mesh are as long as its vertex array. */
  predicate WellFormedMesh(m: AiMesh) {
    && (m.normals.Some? ==> |m.normals.value| == |m.vertices|)
    && (m.uv.Some? ==> && |m.uv.value.coords| == |m.vertices|
                       && |m.uv.value.tangents| == |m.vertices|
                       && |m.uv.value.bitangents| == |m.vertices|)
  }

  /** Every mesh index of the node and of its descendants is in range. */
  predicate ValidNode(node: AiNode, meshCount: nat)
    decreases node
  {
    && (forall i :: 0 <= i < |node.meshes| ==> node.meshes[i] < meshCount)
    && (forall i :: 0 <= i < |node.children| ==> ValidNode(node.children[i], meshCount))
  }

  /** What the importer guarantees of a scene it hands out. */
  predicate WellFormedScene(scene: AiScene) {
    && (forall i :: 0 <= i < |scene.meshes| ==>
          WellFormedMesh(scene.meshes[i]) && scene.meshes[i].materialIndex < |scene.materials|)
    && (scene.root.Some? ==> ValidNode(scene.root.value, |scene.meshes|))
  }

  // ---------------------------------------------------------------------
  // Directory of the model file

  /** Position of the last `c` in `s`, as std::string::find_last_of. */
  function LastIndexOf(s: string, c: char): (r: Option<nat>)
    ensures r.None? <==> c !in s
    ensures r.Some? ==> r.value < |s| && s[r.value] == c
                        && forall j :: r.value < j < |s| ==> s[j] != c
  {
    if |s| == 0 then None
    else if s[|s| - 1] == c then Some(|s| - 1)
    else
      var r := LastIndexOf(s[..|s| - 1], c);
      assert forall j :: 0 <= j < |s| - 1 ==> s[j] == s[..|s| - 1][j];
      assert c in s ==> c in s[..|s| - 1];
      r
  }

  /** `path.substr(0, path.find_last_of('/'))`: the part before the last
      '/', or the whole path when it has none (npos reads to the end). */
  function Directory(path: string): (dir: string)
    ensures |dir| <= |path| && dir == path[..|dir|]
    ensures '/' in path ==> |dir| < |path| && path[|dir|] == '/'
                            && forall j :: |dir| < j < |path| ==> path[j] != '/'
    ensures '/' !in path ==> dir == path
  {
    match LastIndexOf(path, '/')
    case None => path
    case Some(k) => path[..k]
  }

  /** The directory of a file named inside `dir` is `dir` again. */
  lemma DirectoryOfJoin(dir: string, name: string)
    requires '/' !in name
    ensures Directory(dir + "/" + name) == dir
  {
    var path := dir + "/" + name;
    assert path[|dir|] == '/';
    var d := Directory(path);
    assert d == path[..|dir|] == dir;
  }

  // ---------------------------------------------------------------------
  // Vertices and indices of one mesh

  function MakeVertex(m: AiMesh, i: nat): Vertex
    requires WellFormedMesh(m) && i < |m.vertices|
  {
    Vertex(
      m.vertices[i],
      if m.normals.Some? then Some(m.normals.value[i]) else None,
      if m.uv.Some? then m.uv.value.coords[i] else Vec2(0.0, 0.0),
      if m.uv.Some? then Some(m.uv.value.tangents[i]) else None,
      if m.uv.Some? then Some(m.uv.value.bitangents[i]) else None)
  }

  /** One vertex per entry of the vertex array, in order. */
  function Vertices(m: AiMesh): (vs: seq<Vertex>)
    requires WellFormedMesh(m)
    ensures |vs| == |m.vertices|
    ensures forall i :: 0 <= i < |vs| ==> vs[i].position == m.vertices[i]
    ensures forall i :: 0 <= i < |vs| ==> (m.normals.None? <==> vs[i].normal.None?)
    ensures forall i :: 0 <= i < |vs| && m.normals.Some? ==> vs[i].normal == Some(m.normals.value[i])
    ensures forall i :: 0 <= i < |vs| && m.uv.Some? ==>
      && vs[i].texCoords == m.uv.value.coords[i]
      && vs[i].tangent == Some(m.uv.value.tangents[i])
      && vs[i].bitangent == Some(m.uv.value.bitangents[i])
    ensures forall i :: 0 <= i < |vs| && m.uv.None? ==>
      vs[i].texCoords == Vec2(0.0, 0.0) && vs[i].tangent.None? && vs[i].bitangent.None?
  {
    seq(|m.vertices|, i requires 0 <= i < |m.vertices| => MakeVertex(m, i))
  }

  /** The faces' index lists one after another. */
  function Flatten(faces: seq<seq<nat>>): seq<nat> {
    if |faces| == 0 then [] else faces[0] + Flatten(faces[1..])
  }

  lemma {:induction false} FlattenAppend(a: seq<seq<nat>>, b: seq<seq<nat>>)
    ensures Flatten(a + b) == Flatten(a) + Flatten(b)
  {
    if |a| == 0 {
      assert a + b == b;
    } else {
      assert (a + b)[1..] == a[1..] + b;
      FlattenAppend(a[1..], b);
    }
  }

  /** Index j of face i lands right after all indices of the faces before
      it: nothing is dropped, reordered or merged. */
  lemma FlattenIndexing(faces: seq<seq<nat>>, i: nat, j: nat)
    requires i < |faces| && j < |faces[i]|
    ensures |Flatten(faces[..i])| + j < |Flatten(faces)|
    ensures Flatten(faces)[|Flatten(faces[..i])| + j] == faces[i][j]
  {
    assert faces == faces[..i] + ([faces[i]] + faces[i + 1..]);
    FlattenAppend(faces[..i], [faces[i]] + faces[i + 1..]);
    assert Flatten([faces[i]] + faces[i + 1..]) == faces[i] + Flatten(faces[i + 1..]) by {
      assert ([faces[i]] + faces[i + 1..])[1..] == faces[i + 1..];
    }
  }

  /** The index loop of processMesh: faces in order, each face's indices
      in order. */
  method FlattenFaceIndices(faces: seq<seq<nat>>) returns (indices: seq<nat>)
    ensures indices == Flatten(faces)
  {
    indices := [];
    var i := 0;
    while i < |faces|
      invariant 0 <= i <= |faces|
      invariant indices == Flatten(faces[..i])
    {
      var j := 0;
      while j < |faces[i]|
        invariant 0 <= j <= |faces[i]|
        invariant indices == Flatten(faces[..i]) + faces[i][..j]
      {
        indices := indices + [faces[i][j]];
        j := j + 1;
      }
      FlattenAppend(faces[..i], [faces[i]]);
      assert faces[..i + 1] == faces[..i] + [faces[i]];
      assert Flatten([faces[i]]) == faces[i] + Flatten([]) by {
        var one: seq<seq<nat>> := [faces[i]];
        assert one[1..] == [];
      }
      i := i + 1;
    }
    assert faces[..i] == faces;
  }

  // ---------------------------------------------------------------------
  // The path-keyed texture cache

  predicate NoDupPaths(cache: seq<Texture>) {
    forall i, j :: 0 <= i < j < |cache| ==> cache[i].path != cache[j].path
  }

  predicate Cached(cache: seq<Texture>, path: string) {
    exists j :: 0 <= j < |cache| && cache[j].path == path
  }

  /** The first cache entry whose path equals `path` (the strcmp loop). */
  function Lookup(cache: seq<Texture>, path: string): (r: Option<nat>)
    ensures r.Some? <==> Cached(cache, path)
    ensures r.Some? ==> r.value < |cache| && cache[r.value].path == path
  {
    if |cache| == 0 then None
    else if cache[0].path == path then Some(0)
    else match Lookup(cache[1..], path)
      case None =>
        assert forall j :: 1 <= j < |cache| ==> cache[j] == cache[1..][j - 1];
        None
      case Some(k) => Some(k + 1)
  }

  /** One requested path: a cache hit hands back the stored texture as it
      is; a miss loads the file, tags it with the requested type name and
      appends it to the cache. */
  function LoadOne(cache: seq<Texture>, directory: string, path: string, typeName: string,
                   textureFromFile: (string, string) -> nat): (r: (Texture, seq<Texture>))
    ensures r.0.path == path && r.0 in r.1
    ensures Cached(cache, path) ==> r.1 == cache
    ensures !Cached(cache, path) ==> r.0 == Texture(textureFromFile(path, directory), typeName, path)
                                     && r.1 == cache + [r.0]
    ensures NoDupPaths(cache) ==> NoDupPaths(r.1)
  {
    match Lookup(cache, path)
    case Some(j) => (cache[j], cache)
    case None =>
      var t := Texture(textureFromFile(path, directory), typeName, path);
      (t, cache + [t])
  }

  datatype TextureLoad = TextureLoad(textures: seq<Texture>, cache: seq<Texture>)

  /** loadMaterialTextures for the paths of one texture type: one texture
      per requested path, in order. Given a cache without duplicate paths
      (it starts empty), the cache stays without duplicates, a hit hands
      back the cached texture with its original type name, and only paths
      that were missing are loaded, each once, tagged with `typeName`. */
  function LoadMaterialTextures(cache: seq<Texture>, directory: string, paths: seq<string>, typeName: string,
                                textureFromFile: (string, string) -> nat): (r: TextureLoad)
    decreases |paths|
    ensures |r.textures| == |paths|
    ensures forall i :: 0 <= i < |paths| ==> r.textures[i].path == paths[i] && r.textures[i] in r.cache
    ensures |cache| <= |r.cache| && r.cache[..|cache|] == cache
    ensures NoDupPaths(cache) ==> CacheContract(cache, directory, paths, typeName, textureFromFile, r)
  {
    if |paths| == 0 then TextureLoad([], cache)
    else
      var first := LoadOne(cache, directory, paths[0], typeName, textureFromFile);
      var rest := LoadMaterialTextures(first.1, directory, paths[1..], typeName, textureFromFile);
      var r := TextureLoad([first.0] + rest.textures, rest.cache);
      LoadStepBasic(cache, paths, first, rest, r);
      if NoDupPaths(cache) then
        LoadStepCached(cache, directory, paths, typeName, textureFromFile, first, rest, r);
        r
      else
        r
  }

  /** What the cache promises when it held no duplicate path beforehand. */
  predicate CacheContract(cache: seq<Texture>, directory: string, paths: seq<string>, typeName: string,
                          textureFromFile: (string, string) -> nat, r: TextureLoad)
    requires |r.textures| == |paths| && |cache| <= |r.cache|
  {
    && NoDupPaths(r.cache)
    && (forall i, j :: 0 <= i < |paths| && 0 <= j < |cache| && cache[j].path == paths[i] ==> r.textures[i] == cache[j])
    && (forall i :: 0 <= i < |paths| && !Cached(cache, paths[i]) ==>
          r.textures[i] == Texture(textureFromFile(paths[i], directory), typeName, paths[i]))
    && (forall k :: |cache| <= k < |r.cache| ==>
          && r.cache[k] == Texture(textureFromFile(r.cache[k].path, directory), typeName, r.cache[k].path)
          && r.cache[k].path in paths && !Cached(cache, r.cache[k].path))
  }

  lemma LoadStepBasic(cache: seq<Texture>, paths: seq<string>, first: (Texture, seq<Texture>), rest: TextureLoad, r: TextureLoad)
    requires |paths| > 0
    requires first.0.path == paths[0] && first.0 in first.1
    requires |cache| <= |first.1| && first.1[..|cache|] == cache
    requires |rest.textures| == |paths| - 1
    requires forall i :: 0 <= i < |paths| - 1 ==> rest.textures[i].path == paths[1..][i] && rest.textures[i] in rest.cache
    requires |first.1| <= |rest.cache| && rest.cache[..|first.1|] == first.1
    requires r == TextureLoad([first.0] + rest.textures, rest.cache)
    ensures |r.textures| == |paths|
    ensures forall i :: 0 <= i < |paths| ==> r.textures[i].path == paths[i] && r.textures[i] in r.cache
    ensures |cache| <= |r.cache| && r.cache[..|cache|] == cache
  {
    var c1 := first.1;
    assert first.0 in rest.cache by {
      var k :| 0 <= k < |c1| && c1[k] == first.0;
      assert rest.cache[k] == c1[k];
    }
    forall i | 0 <= i < |paths|
      ensures r.textures[i].path == paths[i] && r.textures[i] in r.cache
    {
      if i > 0 {
        assert r.textures[i] == rest.textures[i - 1];
      }
    }
    assert rest.cache[..|cache|] == c1[..|cache|];
  }

  lemma LoadStepCached(cache: seq<Texture>, directory: string, paths: seq<string>, typeName: string,
                       textureFromFile: (string, string) -> nat,
                       first: (Texture, seq<Texture>), rest: TextureLoad, r: TextureLoad)
    requires NoDupPaths(cache) && |paths| > 0
    requires first == LoadOne(cache, directory, paths[0], typeName, textureFromFile)
    requires |rest.textures| == |paths| - 1 && |first.1| <= |rest.cache| && rest.cache[..|first.1|] == first.1
    requires NoDupPaths(first.1) ==> CacheContract(first.1, directory, paths[1..], typeName, textureFromFile, rest)
    requires r == TextureLoad([first.0] + rest.textures, rest.cache)
    ensures CacheContract(cache, directory, paths, typeName, textureFromFile, r)
  {
    var c1 := first.1;
    assert NoDupPaths(c1);
    assert |cache| <= |c1| && c1[..|cache|] == cache;
    forall j | 0 <= j < |cache|
      ensures c1[j] == cache[j] && rest.cache[j] == cache[j]
    {
      assert c1[..|cache|][j] == c1[j];
      assert rest.cache[..|c1|][j] == rest.cache[j];
    }
    forall i, j | 0 <= i < |paths| && 0 <= j < |cache| && cache[j].path == paths[i]
      ensures r.textures[i] == cache[j]
    {
      assert Cached(cache, paths[i]);
      if i > 0 {
        assert paths[1..][i - 1] == paths[i];
        assert r.textures[i] == rest.textures[i - 1];
      } else {
        var k := Lookup(cache, paths[0]).value;
        assert cache[k].path == cache[j].path;
      }
    }
    forall i | 0 <= i < |paths| && !Cached(cache, paths[i])
      ensures r.textures[i] == Texture(textureFromFile(paths[i], directory), typeName, paths[i])
    {
      if i > 0 {
        assert paths[1..][i - 1] == paths[i];
        assert r.textures[i] == rest.textures[i - 1];
        if Cached(c1, paths[i]) {
          assert !Cached(cache, paths[0]) && c1 == cache + [first.0];
          assert rest.textures[i - 1] == c1[|cache|];
        }
      }
    }
    forall k | |cache| <= k < |r.cache|
      ensures && r.cache[k] == Texture(textureFromFile(r.cache[k].path, directory), typeName, r.cache[k].path)
              && r.cache[k].path in paths && !Cached(cache, r.cache[k].path)
    {
      if k < |c1| {
        assert c1 == cache + [first.0] && k == |cache|;
        assert rest.cache[k] == c1[k];
      } else {
        assert !Cached(c1, rest.cache[k].path);
        assert rest.cache[k].path in paths[1..];
      }
    }
  }

  // ---------------------------------------------------------------------
  // Meshes, the node traversal and the whole load

  /** Every texture path of a material in the order processMesh requests
      them: diffuse, specular, height, ambient. */
  function MaterialPaths(mat: AiMaterial): seq<string> {
    mat.diffuse + mat.specular + mat.height + mat.ambient
  }

  /** `mesh` is what processMesh makes of the imported mesh `m`. */
  predicate MeshMatches(mesh: Mesh, m: AiMesh, scene: AiScene) {
    && WellFormedMesh(m) && m.materialIndex < |scene.materials|
    && mesh.vertices == Vertices(m)
    && mesh.indices == Flatten(m.faces)
    && |mesh.textures| == |MaterialPaths(scene.materials[m.materialIndex])|
    && forall i :: 0 <= i < |mesh.textures| ==> mesh.textures[i].path == MaterialPaths(scene.materials[m.materialIndex])[i]
  }

  /** Requesting the same paths again from the cache a load left behind
      loads nothing and hands back the very same textures, whatever type
      name, directory or loader the second request uses. */
  lemma SecondLoadHitsCache(cache: seq<Texture>, directory: string, paths: seq<string>, typeName: string,
                            textureFromFile: (string, string) -> nat,
                            directory2: string, typeName2: string, textureFromFile2: (string, string) -> nat)
    requires NoDupPaths(cache)
    ensures var r1 := LoadMaterialTextures(cache, directory, paths, typeName, textureFromFile);
            LoadMaterialTextures(r1.cache, directory2, paths, typeName2, textureFromFile2) == r1
  {
    var r1 := LoadMaterialTextures(cache, directory, paths, typeName, textureFromFile);
    assert CacheContract(cache, directory, paths, typeName, textureFromFile, r1);
    var r2 := LoadMaterialTextures(r1.cache, directory2, paths, typeName2, textureFromFile2);
    assert CacheContract(r1.cache, directory2, paths, typeName2, textureFromFile2, r2);
    forall i | 0 <= i < |paths| ensures r2.textures[i] == r1.textures[i] {
      var j :| 0 <= j < |r1.cache| && r1.cache[j] == r1.textures[i];
      assert r1.cache[j].path == paths[i];
    }
    if |r2.cache| > |r1.cache| {
      var p := r2.cache[|r1.cache|].path;
      assert false;
    }
    assert r2.cache == r2.cache[..|r1.cache|];
  }

  datatype MeshLoad = MeshLoad(mesh: Mesh, cache: seq<Texture>)

  /** The type name processMesh requests at each position of
      MaterialPaths: the importer's HEIGHT maps are loaded as
      "texture_normal" and its AMBIENT maps as "texture_height". */
  function MaterialTypes(mat: AiMaterial): (types: seq<string>)
    ensures |types| == |MaterialPaths(mat)|
  {
    seq(|mat.diffuse|, i => "texture_diffuse") + seq(|mat.specular|, i => "texture_specular")
    + seq(|mat.height|, i => "texture_normal") + seq(|mat.ambient|, i => "texture_height")
  }

  /** What a run of loadMaterialTextures calls did to the requested `paths`
      when position i was requested under type name `types[i]`: one texture
      per path in order, each held by the cache, the cache only grown. From
      a cache without duplicate paths: it stays so, a path already cached
      hands back the cached texture, the first request of a missing path
      loads it under its type name, and afterwards exactly the old paths and
      the requested ones are cached. */
  ghost predicate GroupLoaded(cache: seq<Texture>, directory: string, paths: seq<string>, types: seq<string>,
                        textureFromFile: (string, string) -> nat, r: TextureLoad) {
    && |types| == |paths|
    && |r.textures| == |paths|
    && (forall i :: 0 <= i < |paths| ==> r.textures[i].path == paths[i] && r.textures[i] in r.cache)
    && |cache| <= |r.cache| && r.cache[..|cache|] == cache
    && (NoDupPaths(cache) ==>
          && NoDupPaths(r.cache)
          && (forall i, j :: 0 <= i < |paths| && 0 <= j < |cache| && cache[j].path == paths[i] ==>
                r.textures[i] == cache[j])
          && (forall i :: 0 <= i < |paths| && !Cached(cache, paths[i]) && paths[i] !in paths[..i] ==>
                r.textures[i] == Texture(textureFromFile(paths[i], directory), types[i], paths[i]))
          && (forall p :: Cached(r.cache, p) <==> Cached(cache, p) || p in paths))
  }

  lemma LoadGroup(cache: seq<Texture>, directory: string, paths: seq<string>, typeName: string,
                  textureFromFile: (string, string) -> nat)
    ensures GroupLoaded(cache, directory, paths, seq(|paths|, i => typeName), textureFromFile,
                        LoadMaterialTextures(cache, directory, paths, typeName, textureFromFile))
  {
    var r := LoadMaterialTextures(cache, directory, paths, typeName, textureFromFile);
    if NoDupPaths(cache) {
      assert CacheContract(cache, directory, paths, typeName, textureFromFile, r);
      forall j | 0 <= j < |cache| ensures r.cache[j] == cache[j] {
        assert r.cache[..|cache|][j] == r.cache[j];
      }
      forall p ensures Cached(r.cache, p) <==> Cached(cache, p) || p in paths {
        if Cached(r.cache, p) {
          var k :| 0 <= k < |r.cache| && r.cache[k].path == p;
          if k < |cache| {
            assert cache[k].path == p;
          }
        }
        if Cached(cache, p) {
          var j :| 0 <= j < |cache| && cache[j].path == p;
          assert r.cache[j].path == p;
        }
        if p in paths {
          var i :| 0 <= i < |paths| && paths[i] == p;
          var k :| 0 <= k < |r.cache| && r.cache[k] == r.textures[i];
          assert r.cache[k].path == p;
        }
      }
    }
  }

  lemma GroupsChainCached(c0: seq<Texture>, dir: string, p1: seq<string>, t1: seq<string>, p2: seq<string>, t2: seq<string>,
                          load: (string, string) -> nat, r1: TextureLoad, r2: TextureLoad)
    requires GroupLoaded(c0, dir, p1, t1, load, r1) && GroupLoaded(r1.cache, dir, p2, t2, load, r2)
    requires NoDupPaths(c0)
    ensures forall i, j :: 0 <= i < |p1 + p2| && 0 <= j < |c0| && c0[j].path == (p1 + p2)[i] ==>
              (r1.textures + r2.textures)[i] == c0[j]
  {
    forall i, j | 0 <= i < |p1 + p2| && 0 <= j < |c0| && c0[j].path == (p1 + p2)[i]
      ensures (r1.textures + r2.textures)[i] == c0[j]
    {
      if i >= |p1| {
        assert r1.cache[..|c0|][j] == r1.cache[j];
        assert p2[i - |p1|] == (p1 + p2)[i];
      }
    }
  }

  lemma GroupsChainMissed(c0: seq<Texture>, dir: string, p1: seq<string>, t1: seq<string>, p2: seq<string>, t2: seq<string>,
                          load: (string, string) -> nat, r1: TextureLoad, r2: TextureLoad)
    requires GroupLoaded(c0, dir, p1, t1, load, r1) && GroupLoaded(r1.cache, dir, p2, t2, load, r2)
    requires NoDupPaths(c0)
    ensures var ps := p1 + p2;
      forall i :: 0 <= i < |ps| && !Cached(c0, ps[i]) && ps[i] !in ps[..i] ==>
        (r1.textures + r2.textures)[i] == Texture(load(ps[i], dir), (t1 + t2)[i], ps[i])
  {
    var ps := p1 + p2;
    forall i | 0 <= i < |ps| && !Cached(c0, ps[i]) && ps[i] !in ps[..i]
      ensures (r1.textures + r2.textures)[i] == Texture(load(ps[i], dir), (t1 + t2)[i], ps[i])
    {
      if i < |p1| {
        assert ps[..i] == p1[..i];
      } else {
        var k := i - |p1|;
        assert p2[k] == ps[i];
        assert ps[..i] == p1 + p2[..k];
        assert p2[k] !in p1;
        assert !Cached(r1.cache, p2[k]);
      }
    }
  }

  lemma GroupsChain(c0: seq<Texture>, dir: string, p1: seq<string>, t1: seq<string>, p2: seq<string>, t2: seq<string>,
                    load: (string, string) -> nat, r1: TextureLoad, r2: TextureLoad)
    requires GroupLoaded(c0, dir, p1, t1, load, r1) && GroupLoaded(r1.cache, dir, p2, t2, load, r2)
    ensures GroupLoaded(c0, dir, p1 + p2, t1 + t2, load, TextureLoad(r1.textures + r2.textures, r2.cache))
  {
    var t := r1.textures + r2.textures;
    forall i | 0 <= i < |p1 + p2| ensures t[i].path == (p1 + p2)[i] && t[i] in r2.cache {
      if i >= |p1| {
        assert t[i] == r2.textures[i - |p1|];
      } else {
        var k :| 0 <= k < |r1.cache| && r1.cache[k] == t[i];
        assert r2.cache[..|r1.cache|][k] == r2.cache[k];
      }
    }
    assert r2.cache[..|c0|] == r2.cache[..|r1.cache|][..|c0|];
    if NoDupPaths(c0) {
      GroupsChainCached(c0, dir, p1, t1, p2, t2, load, r1, r2);
      GroupsChainMissed(c0, dir, p1, t1, p2, t2, load, r1, r2);
    }
  }

  /** Two requests of the same path get the same texture: both are the one
      cache entry with that path. */
  lemma SamePathSameTexture(cache: seq<Texture>, dir: string, paths: seq<string>, types: seq<string>,
                            load: (string, string) -> nat, r: TextureLoad)
    requires GroupLoaded(cache, dir, paths, types, load, r) && NoDupPaths(cache)
    ensures forall i, k :: 0 <= k < i < |paths| && paths[k] == paths[i] ==> r.textures[i] == r.textures[k]
  {
    forall i, k | 0 <= k < i < |paths| && paths[k] == paths[i] ensures r.textures[i] == r.textures[k] {
      var a :| 0 <= a < |r.cache| && r.cache[a] == r.textures[i];
      var b :| 0 <= b < |r.cache| && r.cache[b] == r.textures[k];
      assert r.cache[a].path == r.cache[b].path;
    }
  }

  /** processMesh: the vertices, the flattened face indices, and the
      textures of the four types, requested in that order under the type
      names of MaterialTypes. */
  function ProcessMesh(m: AiMesh, scene: AiScene, directory: string, cache: seq<Texture>,
                       textureFromFile: (string, string) -> nat): (r: MeshLoad)
    requires WellFormedMesh(m) && m.materialIndex < |scene.materials|
    ensures MeshMatches(r.mesh, m, scene)
    ensures |cache| <= |r.cache| && r.cache[..|cache|] == cache
    ensures NoDupPaths(cache) ==> NoDupPaths(r.cache)
    ensures var mat := scene.materials[m.materialIndex];
      var paths := MaterialPaths(mat);
      NoDupPaths(cache) ==>
        && (forall i, j :: 0 <= i < |paths| && 0 <= j < |cache| && cache[j].path == paths[i] ==>
              r.mesh.textures[i] == cache[j])
        && (forall i :: 0 <= i < |paths| && !Cached(cache, paths[i]) && paths[i] !in paths[..i] ==>
              r.mesh.textures[i] == Texture(textureFromFile(paths[i], directory), MaterialTypes(mat)[i], paths[i]))
        && (forall i, k :: 0 <= k < i < |paths| && paths[k] == paths[i] ==> r.mesh.textures[i] == r.mesh.textures[k])
  {
    var mat := scene.materials[m.materialIndex];
    var all := LoadAllTextures(cache, directory, mat, textureFromFile);
    if NoDupPaths(cache) then
      SamePathSameTexture(cache, directory, MaterialPaths(mat), MaterialTypes(mat), textureFromFile, all);
      MeshLoad(Mesh(Vertices(m), Flatten(m.faces), all.textures), all.cache)
    else
      MeshLoad(Mesh(Vertices(m), Flatten(m.faces), all.textures), all.cache)
  }

  /** The four loadMaterialTextures calls of processMesh, in order, with
      their results joined. */
  function LoadAllTextures(cache: seq<Texture>, directory: string, mat: AiMaterial,
                           textureFromFile: (string, string) -> nat): (all: TextureLoad)
    ensures GroupLoaded(cache, directory, MaterialPaths(mat), MaterialTypes(mat), textureFromFile, all)
  {
    var d := LoadMaterialTextures(cache, directory, mat.diffuse, "texture_diffuse", textureFromFile);
    var sp := LoadMaterialTextures(d.cache, directory, mat.specular, "texture_specular", textureFromFile);
    var n := LoadMaterialTextures(sp.cache, directory, mat.height, "texture_normal", textureFromFile);
    var h := LoadMaterialTextures(n.cache, directory, mat.ambient, "texture_height", textureFromFile);
    LoadGroup(cache, directory, mat.diffuse, "texture_diffuse", textureFromFile);
    LoadGroup(d.cache, directory, mat.specular, "texture_specular", textureFromFile);
    LoadGroup(sp.cache, directory, mat.height, "texture_normal", textureFromFile);
    LoadGroup(n.cache, directory, mat.ambient, "texture_height", textureFromFile);
    var t1 := seq(|mat.diffuse|, i => "texture_diffuse");
    var t2 := seq(|mat.specular|, i => "texture_specular");
    var t3 := seq(|mat.height|, i => "texture_normal");
    var t4 := seq(|mat.ambient|, i => "texture_height");
    GroupsChain(cache, directory, mat.diffuse, t1, mat.specular, t2, textureFromFile, d, sp);
    var ds := TextureLoad(d.textures + sp.textures, sp.cache);
    GroupsChain(cache, directory, mat.diffuse + mat.specular, t1 + t2, mat.height, t3, textureFromFile, ds, n);
    var dsn := TextureLoad(ds.textures + n.textures, n.cache);
    GroupsChain(cache, directory, mat.diffuse + mat.specular + mat.height, t1 + t2 + t3, mat.ambient, t4,
                textureFromFile, dsn, h);
    assert MaterialTypes(mat) == t1 + t2 + t3 + t4;
    TextureLoad(dsn.textures + h.textures, h.cache)
  }

  /** The loader's fields while the tree is walked. */
  datatype Loader = Loader(directory: string, meshes: seq<Mesh>, cache: seq<Texture>)

  /** Going from `st` to `r` appended exactly the meshes `ids` of the scene,
      in that order, kept the directory, only extended the cache and kept
      it free of duplicate paths. */
  predicate Appended(st: Loader, r: Loader, ids: seq<nat>, scene: AiScene) {
    && |r.meshes| == |st.meshes| + |ids|
    && r.meshes[..|st.meshes|] == st.meshes
    && (forall k :: 0 <= k < |ids| ==>
          ids[k] < |scene.meshes| && MeshMatches(r.meshes[|st.meshes| + k], scene.meshes[ids[k]], scene))
    && r.directory == st.directory
    && |st.cache| <= |r.cache| && r.cache[..|st.cache|] == st.cache
    && (NoDupPaths(st.cache) ==> NoDupPaths(r.cache))
  }

  lemma AppendedChain(a: Loader, b: Loader, c: Loader, ids1: seq<nat>, ids2: seq<nat>, scene: AiScene)
    requires Appended(a, b, ids1, scene) && Appended(b, c, ids2, scene)
    ensures Appended(a, c, ids1 + ids2, scene)
  {
    var ids := ids1 + ids2;
    assert c.meshes[..|a.meshes|] == c.meshes[..|b.meshes|][..|a.meshes|];
    forall k | 0 <= k < |ids|
      ensures ids[k] < |scene.meshes| && MeshMatches(c.meshes[|a.meshes| + k], scene.meshes[ids[k]], scene)
    {
      if k < |ids1| {
        assert c.meshes[|a.meshes| + k] == c.meshes[..|b.meshes|][|a.meshes| + k];
      } else {
        assert ids[k] == ids2[k - |ids1|];
      }
    }
    assert c.cache[..|a.cache|] == c.cache[..|b.cache|][..|a.cache|];
  }

  /** The own meshes of a node, `for i in [0, mNumMeshes)`. */
  function ProcessMeshes(ids: seq<nat>, scene: AiScene, st: Loader,
                         textureFromFile: (string, string) -> nat): (r: Loader)
    requires WellFormedScene(scene)
    requires forall k :: 0 <= k < |ids| ==> ids[k] < |scene.meshes|
    decreases |ids|
    ensures Appended(st, r, ids, scene)
  {
    if |ids| == 0 then st
    else
      var ml := ProcessMesh(scene.meshes[ids[0]], scene, st.directory, st.cache, textureFromFile);
      var next := Loader(st.directory, st.meshes + [ml.mesh], ml.cache);
      assert Appended(st, next, [ids[0]], scene);
      var r := ProcessMeshes(ids[1..], scene, next, textureFromFile);
      AppendedChain(st, next, r, [ids[0]], ids[1..], scene);
      assert [ids[0]] + ids[1..] == ids;
      r
  }

  /** Pre-order list of the mesh indices below a node: its own meshes in
      order, then each child's list, children left to right. */
  function Preorder(node: AiNode): seq<nat>
    decreases node, 1
  {
    node.meshes + PreorderFrom(node, 0)
  }

  function PreorderFrom(node: AiNode, i: nat): seq<nat>
    requires i <= |node.children|
    decreases node, 0, |node.children| - i
  {
    if i == |node.children| then [] else Preorder(node.children[i]) + PreorderFrom(node, i + 1)
  }

  /** The sum of mNumMeshes over the node and all its descendants. */
  function MeshCount(node: AiNode): nat
    decreases node, 1
  {
    |node.meshes| + MeshCountFrom(node, 0)
  }

  function MeshCountFrom(node: AiNode, i: nat): nat
    requires i <= |node.children|
    decreases node, 0, |node.children| - i
  {
    if i == |node.children| then 0 else MeshCount(node.children[i]) + MeshCountFrom(node, i + 1)
  }

  lemma {:induction false} PreorderLength(node: AiNode)
    ensures |Preorder(node)| == MeshCount(node)
    decreases node, 1
  {
    PreorderFromLength(node, 0);
  }

  lemma {:induction false} PreorderFromLength(node: AiNode, i: nat)
    requires i <= |node.children|
    ensures |PreorderFrom(node, i)| == MeshCountFrom(node, i)
    decreases node, 0, |node.children| - i
  {
    if i < |node.children| {
      PreorderLength(node.children[i]);
      PreorderFromLength(node, i + 1);
    }
  }

  lemma {:induction false} PreorderInRange(node: AiNode, n: nat)
    requires ValidNode(node, n)
    ensures forall k :: 0 <= k < |Preorder(node)| ==> Preorder(node)[k] < n
    decreases node, 1
  {
    PreorderFromInRange(node, 0, n);
  }

  lemma {:induction false} PreorderFromInRange(node: AiNode, i: nat, n: nat)
    requires ValidNode(node, n) && i <= |node.children|
    ensures forall k :: 0 <= k < |PreorderFrom(node, i)| ==> PreorderFrom(node, i)[k] < n
    decreases node, 0, |node.children| - i
  {
    if i < |node.children| {
      PreorderInRange(node.children[i], n);
      PreorderFromInRange(node, i + 1, n);
    }
  }

  /** processNode: the node's own meshes, then each child recursively. */
  function ProcessNode(node: AiNode, scene: AiScene, st: Loader,
                       textureFromFile: (string, string) -> nat): (r: Loader)
    requires WellFormedScene(scene) && ValidNode(node, |scene.meshes|)
    decreases node, 1
    ensures Appended(st, r, Preorder(node), scene)
  {
    var own := ProcessMeshes(node.meshes, scene, st, textureFromFile);
    var r := ProcessChildren(node, 0, scene, own, textureFromFile);
    AppendedChain(st, own, r, node.meshes, PreorderFrom(node, 0), scene);
    r
  }

  function ProcessChildren(node: AiNode, i: nat, scene: AiScene, st: Loader,
                           textureFromFile: (string, string) -> nat): (r: Loader)
    requires WellFormedScene(scene) && ValidNode(node, |scene.meshes|) && i <= |node.children|
    decreases node, 0, |node.children| - i
    ensures Appended(st, r, PreorderFrom(node, i), scene)
  {
    if i == |node.children| then
      st
    else
      var mid := ProcessNode(node.children[i], scene, st, textureFromFile);
      var r := ProcessChildren(node, i + 1, scene, mid, textureFromFile);
      AppendedChain(st, mid, r, Preorder(node.children[i]), PreorderFrom(node, i + 1), scene);
      r
  }

  /** A loaded model: its directory (None while never assigned), its meshes
      and the textures loaded so far. */
  datatype Model = Model(directory: Option<string>, meshes: seq<Mesh>, texturesLoaded: seq<Texture>)

  /** The importer's answer failed: no scene, an incomplete one, or one
      without a root node. */
  predicate LoadFailed(scene: Option<AiScene>) {
    scene.None? || scene.value.incomplete || scene.value.root.None?
  }

  /** loadModel on a freshly constructed model. `scene` is the importer's
      answer for `path`. A failed import leaves the model empty; otherwise
      the directory is taken from the path and every mesh of the tree is
      processed once, in pre-order, through a cache that never holds a path
      twice. */
  function LoadModel(path: string, scene: Option<AiScene>, textureFromFile: (string, string) -> nat): (m: Model)
    requires !LoadFailed(scene) ==> WellFormedScene(scene.value)
    ensures LoadFailed(scene) ==> m == Model(None, [], [])
    ensures !LoadFailed(scene) ==>
      var root := scene.value.root.value;
      && m.directory == Some(Directory(path))
      && |m.meshes| == MeshCount(root)
      && |Preorder(root)| == |m.meshes|
      && (forall k :: 0 <= k < |m.meshes| ==>
            Preorder(root)[k] < |scene.value.meshes|
            && MeshMatches(m.meshes[k], scene.value.meshes[Preorder(root)[k]], scene.value))
      && NoDupPaths(m.texturesLoaded)
  {
    if LoadFailed(scene) then Model(None, [], [])
    else
      var root := scene.value.root.value;
      var dir := Directory(path);
      var r := ProcessNode(root, scene.value, Loader(dir, [], []), textureFromFile);
      PreorderLength(root);
      Model(Some(dir), r.meshes, r.cache)
  }
}
