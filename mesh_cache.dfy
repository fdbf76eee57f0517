/** The mesh cache of MeshFactory: `loadObj` remembers every mesh it has
    built under the exact file string it was asked for, hands the same mesh
    back on later requests for that string, and only parses a file the
    first time it is opened successfully. */
module MeshCache {
  import opened ObjScan
  import opened ObjReader

  /** A built mesh: the flat-shaded vertex list and its index list. An
      object of this class stands for the shared handle `loadObj` returns;
      handle identity is object identity. */
  class MeshComponent<P> {
    const vertices: seq<Vertex<P>>
    const indices: seq<nat>

    constructor (vertices: seq<Vertex<P>>, indices: seq<nat>)
      ensures this.vertices == vertices && this.indices == indices
    {
      this.vertices := vertices;
      this.indices := indices;
    }
  }

  /** Whole triangles over a vertex list of the same length, numbered
      0, 1, 2, ... in order: the shape of every flat-mode mesh. */
  predicate FlatMesh<P>(m: MeshComponent<P>) {
    && |m.indices| % 3 == 0
    && |m.indices| == |m.vertices|
    && forall k :: 0 <= k < |m.indices| ==> m.indices[k] == k
  }

  /** What `loadObj` reports while it works. */
  datatype LogEntry =
    | Reused(file: string)
    | CannotOpen(file: string)
    | Parsed(warning: Warning)

  function Logged(ws: seq<Warning>): (log: seq<LogEntry>)
    ensures |log| == |ws|
  {
    seq(|ws|, k requires 0 <= k < |ws| => Parsed(ws[k]))
  }

  /** The factory, holding the cache `loadedMesh` from file string to mesh. */
  class MeshFactory<P> {
    var loadedMesh: map<string, MeshComponent<P>>

    /** Every cached mesh has the flat-mode shape. */
    ghost predicate Valid()
      reads this
    {
      forall f :: f in loadedMesh ==> FlatMesh(loadedMesh[f])
    }

    constructor ()
      ensures loadedMesh == map[] && Valid()
    {
      loadedMesh := map[];
    }

    /** Loads the OBJ file `file`. `open` stands for the file system: it gives
        the file's lines, or None when the file cannot be opened. `scan` is
        the coordinate scanner for `v` lines. */
    method LoadObj(file: string, open: string -> Option<seq<string>>, scan: string -> PositionScan<P>)
      returns (res: Option<MeshComponent<P>>, log: seq<LogEntry>)
      requires Valid()
      modifies this
      ensures Valid()
      ensures res.Some? ==> FlatMesh(res.value)
      ensures file in old(loadedMesh) ==>
        && res == Some(old(loadedMesh)[file])
        && loadedMesh == old(loadedMesh)
        && log == [Reused(file)]
      ensures file !in old(loadedMesh) && open(file).None? ==>
        && res == None
        && loadedMesh == old(loadedMesh)
        && log == [CannotOpen(file)]
      ensures file !in old(loadedMesh) && open(file).Some? ==>
        var r := Parse(open(file).value, true, scan);
        && res.Some? && fresh(res.value)
        && res.value.vertices == r.vertices && res.value.indices == r.indices
        && loadedMesh == old(loadedMesh)[file := res.value]
        && log == Logged(r.warnings)
    {
      if file in loadedMesh {
        return Some(loadedMesh[file]), [Reused(file)];
      }
      var flat := true;
      var contents := open(file);
      if contents.None? {
        return None, [CannotOpen(file)];
      }
      var vertex, indices, warnings := ReadLines(contents.value, flat, scan);
      var mesh := new MeshComponent(vertex, indices);
      loadedMesh := loadedMesh[file := mesh];
      return Some(mesh), Logged(warnings);
    }
  }

  /** Asking twice for the same file yields the same handle, and the second
      request only reports the reuse. */
  method LoadTwice<P>(factory: MeshFactory<P>, file: string, open: string -> Option<seq<string>>, scan: string -> PositionScan<P>)
    returns (first: Option<MeshComponent<P>>, second: Option<MeshComponent<P>>, secondLog: seq<LogEntry>)
    requires factory.Valid()
    modifies factory
    ensures factory.Valid()
    ensures first.Some? ==> second == first && secondLog == [Reused(file)]
    ensures first.None? ==> second.None? && factory.loadedMesh == old(factory.loadedMesh)
  {
    var firstLog;
    first, firstLog := factory.LoadObj(file, open, scan);
    second, secondLog := factory.LoadObj(file, open, scan);
  }

  /** A file that could not be opened is not remembered: once it can be
      opened, the next request parses it. */
  method RetryAfterOpenFailure<P>(factory: MeshFactory<P>, file: string,
                                  unreadable: string -> Option<seq<string>>, readable: string -> Option<seq<string>>,
                                  scan: string -> PositionScan<P>)
    returns (first: Option<MeshComponent<P>>, second: Option<MeshComponent<P>>)
    requires factory.Valid() && file !in factory.loadedMesh
    requires unreadable(file).None? && readable(file).Some?
    modifies factory
    ensures factory.Valid()
    ensures first.None?
    ensures second.Some? && fresh(second.value)
    ensures second.value.vertices == Parse(readable(file).value, true, scan).vertices
    ensures second.value.indices == Parse(readable(file).value, true, scan).indices
    ensures factory.loadedMesh == old(factory.loadedMesh)[file := second.value]
  {
    var log;
    first, log := factory.LoadObj(file, unreadable, scan);
    second, log := factory.LoadObj(file, readable, scan);
  }
}
