# MeshFactory: the OBJ mesh loader and its cache

This project is a Dafny model of `MeshFactory::loadObj`, which turns a Wavefront OBJ file into a
mesh and caches the result.

The loader reads the file line by line and keeps a 1-based line counter that counts every line.
It handles each line as follows:

- It skips lines of at most one character and comment lines starting with `#`.
- A `v x y z` line adds a position.
- An `f a b c [d]` line adds a face that refers to positions by 1-based index. A quad
  `(a, b, c, d)` becomes the two triangles `(a, b, c)` and `(c, d, a)`.

A `flat` flag chooses how the output is built:

- **Flat mode**: every face corner is copied out of the position list into a fresh vertex list,
  tinted with the colour (0.6, 0.9, 0.2, 1). Indices run 0, 1, 2, … in order.
- **Smooth mode**: each position is itself a vertex, and the indices are the face indices minus one.

A `v` line or `f` line with too few values produces a warning, and reading continues.

The factory keeps a map from the file name, exactly as given, to the built mesh:

- A name already in the map returns its mesh and does no reading.
- A file that cannot be opened returns nothing and is not remembered.
- A successful read adds exactly one entry to the map.

The model has three modules:

- `ObjScan` (`obj_scan.dfy`) is the C scan `"f %d %d %d %d"` written out on characters: white space, an optional sign, a digit run. It also has a decimal renderer, so that round trips can be stated.
- `ObjReader` (`obj_reader.dfy`) has three parts:
  - the reader state `Reader` and the step `Step` that handles one line;
  - `Parse`, the fold of `Step` over a file's lines, which serves as the specification;
  - the imperative loop `ReadLines`, proved equal to `Parse` and correct against it.
- `MeshCache` (`mesh_cache.dfy`) has the class `MeshFactory`. Its `loadedMesh` map field is updated by the method `LoadObj`. A `MeshComponent` object stands for the shared mesh handle.

## Model

| member | source | states |
|---|---|---|
| ObjScan.SkipSpaceSpec | srcs/factories/MeshFactory.cpp:57 | the white space a `%d` conversion skips: what remains is a suffix of the input, and everything removed before it is white space |
| ObjScan.Decimal | srcs/factories/MeshFactory.cpp:57 | the decimal rendering of `n` is a non-empty digit string whose value is `n`, with no leading zero unless `n` is 0 |
| ObjScan.DigitRunSpec | srcs/factories/MeshFactory.cpp:57 | the digit run a `%d` consumes is all digits and is maximal: the next character, if any, is not a digit |
| ObjScan.ScanIntDecimal | srcs/factories/MeshFactory.cpp:57 | a space followed by the decimal rendering of `n` scans as `n`, and scanning stops at the first non-digit |
| ObjScan.ScanNegative | srcs/factories/MeshFactory.cpp:57 | a minus sign before the digits scans as the negated value |
| ObjScan.NoIntAt | srcs/factories/MeshFactory.cpp:57 | a conversion fails at any character that is neither space, sign nor digit |
| ObjScan.ScanInt | srcs/factories/MeshFactory.cpp:57 | one `%d` conversion: when it succeeds it consumes at least one character. `ScanField` gives its value on every well-formed field and `ScanIntSucceeds` says exactly when it fails |
| ObjScan.ScanField | srcs/factories/MeshFactory.cpp:57 | any white space, an optional `+` or `-`, and a non-empty digit run (leading zeros allowed), followed by anything that does not start with a digit, scans as the signed decimal value of the digits and leaves exactly what follows |
| ObjScan.ScanIntSucceeds | srcs/factories/MeshFactory.cpp:57 | a conversion succeeds if and only if, after the leading white space, the input starts with a digit or with a sign followed by a digit |
| ObjScan.ScanIntSpec | srcs/factories/MeshFactory.cpp:57 | what a successful conversion leaves is a suffix of its input that does not start with a digit: `%d` reads the whole digit run |
| ObjScan.ScanFields | srcs/factories/MeshFactory.cpp:57 | up to `max` fields, each after the first separated by white space or a sign, followed by a tail that does not continue the last digit run, scan back to exactly their values, in order. When fewer than `max` fields are given, the tail must hold no further number |
| ObjScan.ScanFaceFields | srcs/factories/MeshFactory.cpp:57 | `f` followed by up to four such fields (any white space, tabs, signs, negative indices, leading zeros) and a tail that holds no further number scans to exactly the fields' values |
| ObjScan.TrailingSpaceFace | srcs/factories/MeshFactory.cpp:57 | trailing white space after a face line, such as the carriage return of a CRLF file, leaves the scanned indices unchanged |
| ObjScan.FaceLineRoundTrip | srcs/factories/MeshFactory.cpp:57 | the face line written from at most four indices scans back to those indices |
| ObjScan.SlashedFaceYieldsOneIndex | srcs/factories/MeshFactory.cpp:57 | a face written `f n/...` (texture or normal references) yields the single index `n`, so it is a short face |
| ObjScan.ScanFace | srcs/factories/MeshFactory.cpp:57 | the indices `sscanf(line, "f %d %d %d %d", ...)` stores, at most four. Their number is the count the call returns. `ScanFaceFields`, `TrailingSpaceFace`, `FaceLineRoundTrip` and `SlashedFaceYieldsOneIndex` fix its result on general, CRLF, canonical and slashed face lines |
| ObjReader.AddPosition | srcs/factories/MeshFactory.cpp:43-52 | a `v ` line numbered `n` appends exactly one entry and no index: the position tinted to the positions in flat mode, leaving the vertices alone, or the untinted position to the vertices in smooth mode, leaving the positions alone. It adds a missing-value warning for line `n` exactly when fewer than three coordinates matched |
| ObjReader.AddFace | srcs/factories/MeshFactory.cpp:53-89 | a face is accepted exactly when it has at least three indices, all naming a known vertex. An accepted face adds no warning and 3 indices per triangle (3 or 6). A rejected face adds one warning and leaves vertices and indices as they were. Positions never change. The contents are stated by `FlatFace`, `SmoothFace`, `ShortFace`, `DanglingFace` and `AddFaceWellFormed` |
| ObjReader.Step | srcs/factories/MeshFactory.cpp:39-89 | one pass through the loop: the line counter goes up by one, no list shrinks, and at most one warning is added |
| ObjReader.Parse | srcs/factories/MeshFactory.cpp:34-90 | the state after reading all lines in order: its line counter is the number of lines, and there are no more warnings than lines. `ParseWellFormed`, `ParsePositions`, `WarningsCiteLines` and `IgnoredLineInert` hold for every file |
| ObjReader.ReadLines | srcs/factories/MeshFactory.cpp:18-90 | the line loop returns exactly the vertices, indices and warnings of `Parse`. The index count is a multiple of 3 and every index is below the vertex count. In flat mode there are as many indices as vertices and index `k` is `k` |
| ObjReader.ReadFace | srcs/factories/MeshFactory.cpp:53-89 | the face branch of the loop appends exactly what `AddFace` specifies for the scanned indices: a missing-value or dangling-index warning, or the face's triangles. In flat mode the counter `i` stays equal to the index count |
| ObjReader.StepWellFormed | srcs/factories/MeshFactory.cpp:39-89 | one line preserves the reader invariant: whole triangles, and every index names a vertex. In flat mode there are as many indices as vertices, index `k` is `k`, every vertex is a copy of a position and every position is tinted. In smooth mode there are no positions and the vertices are untinted |
| ObjReader.ParseWellFormed | srcs/factories/MeshFactory.cpp:73-87 | after any sequence of lines the reader invariant holds and the line counter equals the number of lines |
| ObjReader.ParseSnoc | srcs/factories/MeshFactory.cpp:34-39 | reading one more line is one more step on the state reached so far |
| ObjReader.ParsePositions | srcs/factories/MeshFactory.cpp:43-51 | in flat mode the positions are, and in smooth mode the vertices are, one entry per `v ` line in file order: tinted in flat mode, untinted in smooth mode |
| ObjReader.IgnoredStep | srcs/factories/MeshFactory.cpp:40-43 | a last line that is neither a `v ` line nor an `f` line (blank, a comment, `vn`, `vt`) adds no warning and leaves the positions, vertices and indices unchanged: only the line counter moves |
| ObjReader.IgnoredLineInert | srcs/factories/MeshFactory.cpp:40-43 | inserting a line that is neither a `v ` line nor an `f` line anywhere in a file leaves the positions, vertices, indices and the number of warnings unchanged (`vn`, `vt`, comments, blank lines) |
| ObjReader.WarningsCiteLines | srcs/factories/MeshFactory.cpp:39-58 | every warning carries the 1-based number of a line of the file, counting skipped lines, together with that line's text. Warnings come in strictly increasing line order |
| ObjReader.PositionLine | srcs/factories/MeshFactory.cpp:43-52 | a `v ` line adds exactly one vertex (tinted position in flat mode, untinted vertex in smooth mode) and no index. It adds a warning for its own line number if and only if fewer than three coordinates matched |
| ObjReader.ShortFace | srcs/factories/MeshFactory.cpp:57-58 | an `f` line with fewer than three indices adds a missing-value warning for its line and changes no geometry |
| ObjReader.DanglingFace | srcs/factories/MeshFactory.cpp:73-83 | an `f` line with an index outside the known vertices adds a dangling-index warning for its line and changes no geometry |
| ObjReader.FaceStep | srcs/factories/MeshFactory.cpp:53-57 | an `f` line is handled as a face with the indices scanned by `"f %d %d %d %d"`, numbered with its own line number |
| ObjReader.FlatFace | srcs/factories/MeshFactory.cpp:71-88 | in flat mode a triangle appends copies of positions `a-1, b-1, c-1` and the next three indices. A quad also appends `c-1, d-1, a-1` and three more indices. Positions and warnings are unchanged |
| ObjReader.SmoothFace | srcs/factories/MeshFactory.cpp:59-70 | in smooth mode a triangle appends the indices `a-1, b-1, c-1`, and a quad also appends `c-1, d-1, a-1`. Vertices are unchanged |
| ObjReader.OneTriangle | srcs/factories/MeshFactory.cpp:34-90 | in flat mode, three `v ` lines followed by `f 1 2 3` give the three tinted positions as vertices and the indices `[0, 1, 2]` |
| ObjReader.UncheckedFlatFace | srcs/factories/MeshFactory.cpp:73-83 | the flat-mode face copy as written is defined only for at least three in-range indices. It then yields 3 or 6 copies of positions |
| ObjReader.FaceBeforeAnyVertex | srcs/factories/MeshFactory.cpp:73-75 | a file whose first line is a face with at least three indices, such as `f 1 2 3`, breaks the bounds the unchecked copy needs. The reader drops that face and records a dangling-index warning for line 1 |
| MeshCache.MeshComponent.constructor | srcs/factories/MeshFactory.cpp:91 | the mesh holds exactly the vertex and index lists it was built from |
| MeshCache.MeshFactory.constructor | srcs/factories/MeshFactory.cpp:4 | the cache starts empty |
| MeshCache.MeshFactory.LoadObj | srcs/factories/MeshFactory.cpp:6-96 | **Cache hit:** returns the stored mesh, leaves the map unchanged and logs only the reuse. **Open failure:** returns none, leaves the map unchanged and logs the failure. **Otherwise:** returns a fresh mesh holding exactly the flat-mode `Parse` of the file's lines, adds exactly that one entry under the verbatim file name, and logs the reader's warnings in order. In every case a returned mesh has the flat-mode shape: whole triangles, one vertex per index, index `k` equal to `k` |
| MeshCache.LoadTwice | srcs/factories/MeshFactory.cpp:11-16 | a second request for a file that loaded returns the very same mesh and logs only the reuse. If the first request failed, the map is unchanged |
| MeshCache.RetryAfterOpenFailure | srcs/factories/MeshFactory.cpp:28-32 | a failed open is not remembered: once the file can be opened, the next request reads it and caches under its name a fresh mesh holding exactly the vertices and indices of the flat-mode `Parse` of the file |

## Left out

- The file I/O is not modelled: the `std::ifstream` opening and the `good()`/`getline` loop mechanics.
  - `LoadObj` takes `open`, a function from file name to the file's lines (or none when it cannot be opened). The lines are those successive `getline` calls return, including the empty last one after a final newline.
  - `ReadLines` takes the lines directly.
- `sscanf("v %f %f %f")` is not modelled. It is the parameter `scan`, which returns the match count and an opaque position of type `P`. Float values and their parsing are outside the model.
- `MeshComponent::calcNormal` and `bufferData` (GPU upload and normal computation) are not part of this model. The mesh keeps only its vertex and index lists.
- Logging: `Logger::w` and `Logger::e` are modelled as the returned log list, not as an output sink.
- `shared_ptr` reference counting is not modelled. Handle identity is object identity.
- srcs/modules/Module.hpp is not part of this model. It is a Lua scripting wrapper with no logic of its own.
- ObjReader.AddFace: a face with fewer than three scanned indices is dropped after its warning. The source goes on to read uninitialised index slots, which is undefined behaviour.
- ObjReader.AddFace: a face with an index outside the positions read so far (flat mode) is dropped and gets an added `DanglingIndex` warning. The source indexes `vertexTmp` without a bounds check.
  - Smooth mode gets the same check against the vertices read so far. The source appends `index - 1` unchecked there, wrapping to a huge unsigned value for index 0 or a negative index. The check also drops a face that refers forward to positions listed later in the file. For example, `f 1 2 3` followed by three `v ` lines gets the indices 0, 1, 2 from the source, and those are valid once the whole file is read.
- ObjReader.ReadLines: indices are unbounded naturals. The 32-bit wrap of the `GLuint` counter `i` and of `index - 1` is not modelled, and neither is `%d` overflow on numerals beyond the `int` range.
- ObjScan.ScanFace: `sscanf` returning `EOF` and returning 0 are both seen as "fewer than three". The model does not tell them apart, and neither does the check at line 57.
- The tint is exact reals (0.6, 0.9, 0.2, 1) rather than single-precision floats.
- `flat` is a parameter of `ReadLines`. `LoadObj` fixes it to true, as the source does at line 18, so smooth mode is reachable only through `ReadLines` and the lemmas.

## Findings

| source | as written | input that shows it | evidently intended | confidence | as-written member | corrected member |
|---|---|---|---|---|---|---|
| srcs/factories/MeshFactory.cpp:73-83 | flat mode copies `vertexTmp[index[k] - 1]` with no bounds check | a file whose first line is `f 1 2 3`: no position has been read, so `vertexTmp[0]` is read from an empty vector | skip a face that refers to an unknown position, and report it | high; not executed | ObjReader.UncheckedFlatFace, ObjReader.FaceBeforeAnyVertex | ObjReader.AddFace, with ObjReader.DanglingFace and ObjReader.ParseWellFormed |

