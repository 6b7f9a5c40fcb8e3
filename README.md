# Voxel island: a verified model of the sprite-to-mesh pipeline and its rule code

The game draws its world from voxel sprites. A sprite is a stack of `size`
RGBA images of `size × size` pixels. The loaders decode it into a volume of
`size³` cells, mark every side of a cell whose neighbour is missing, build for
each slice and direction a mask of the packed colours of the visible sides,
and merge each mask greedily into rectangles. They push those rectangles as
eight-byte face records onto six face lists. Around this pipeline sit:

- the terrain chunking that merges tile volumes into one model per chunk;
- two map generators, an island from a csv grid and a castle from a fixed script;
- the day/night clock that sends hourly-triggered entities to random places.

This project models that core in Dafny and proves properties of the model. It has one module per component:

| module | file | models |
|---|---|---|
| `ColorCodec` | color_codec.dfy | `toHexTriplet` / `fromHexTriplet` of src/utils.ts and src/color.ts, which are the same code and are defined once |
| `Utils` | utils.dfy | `distanceManhattan3`, `createMask2d`, `createMask3d`, `mask3dGet` of src/utils.ts |
| `JsNumbers` | js_numbers.dfy | the JavaScript number semantics the code relies on: 32-bit shifts, `Uint8Array` stores, `%` with the sign of the dividend, `Math.floor` of a quotient, integers in template literals |
| `VoxelVolume` | voxels.dfy | the `Voxels` class of src/voxels.ts, with its byte buffer and `populatedOffsets` list; the `./voxels` modules imported next to the loaders and grouping code are not part of this model, and this class stands in for them |
| `SpriteDecoder` | sprite_decoder.dfy | `spriteToVoxels` |
| `GreedyMesh` | greedy_mesh.dfy | the greedy `combineFaces` merge, once for all three copies and all six directions |
| `FaceMesh` | faces.dfy | `voxelsToFaces`: the visibility pass, the masks and the face records |
| `RenderModel` | render_model.dfy | `getVoxels` / `optimizeModel` / `loadModel` of src/system/render/model.ts |
| `ListModel` | list_model.dfy | the list-based loader of src/model.ts: `getVoxels`, `isVoxel`, `getVoxel`, the visible lists, its masks and merge |
| `Components` | components.dfy | entity records and the constants `GRID_SIZE = 16`, `CHUNK_SIZE = 10` and rotations 0 to 3 |
| `Randomness` | randomness.dfy | `Math.random()` as a stream of numbers in [0, 1) |
| `VoxelGroup` | group_voxels.dfy | `groupVoxels` and `invert` |
| `Terrain` | terrain.dfy | `groupTerrain` / `getGroupPosition` of src/load.ts and `groupTerrain` / `loadSprites` of models/index.ts, sharing one chunk bucketing |
| `World` | world.dfy | `setAtPosition`, `getSpriteName` and the `withIds` export; map/index.ts and gen_map.js share this code |
| `IslandMap` | island_map.dfy | the cell rules of map/index.ts |
| `CastleMap` | castle_map.dfy | the castle script of gen_map.js |
| `DayNight` | day_night.dfy | `msToHMS` and `dayNightSystem` |

Code that changes state in place stays imperative here:

- The `Voxels` volume, the loaded models, the world list, the random stream and the clock are classes whose methods modify their fields.
- The masks are `array2`s that `combineFaces` empties in place.
- The loops of the source are `while`/`for` loops with invariants.

Each method is proved against a specification function of its inputs: the
greedy merge, the decoded cell fields, the replayed list of writes, the run of
the cell rules over the grid. The lemmas state what the source promises about
those functions:

- A mask is consumed entirely, into disjoint, in-bounds, single-colour rectangles that cover exactly its set cells, and the merge is unique.
- Visibility flags are set exactly for missing neighbours.
- One voxel yields one 1×1 record per side.
- The buffer loader and the list loader produce the same masks and hence the same faces.
- Rotations are bijections on the tile, and the last copy into a group cell wins.
- Terrain is partitioned into chunks, one per distinct key.
- The world keeps one entry per position, and the tile rules throw or place exactly as stated.
- The clock reports "Bad Time!" exactly when the scaled time is negative and its floored hour count is not a multiple of 24. So a negative time within the first hour of a day, such as −86 399 999 ms, is not bad.

JavaScript numbers are modelled as unbounded integers. Where the code depends on
their width or on a JavaScript operator, the operator is written out:

- `ToInt32` for the shifts of the codec;
- `ToUint8` for every `Uint8Array` store;
- `JsRem` for `%`;
- `FloorDiv` for `Math.floor(a / n)`.

The unmasked red shift in `fromHexTriplet` makes red come back as `r + 256`.
The model keeps this, and `RoundTripThroughBytes` proves that the value is exact
once it is stored into the face record's `Uint8Array`.

For scaled times in [−24 h, −23 h), the hour count is −24 and `-24 % 24`
is −0 in JavaScript. −0 is not below zero and equals 0, so that time is not
"Bad Time!". The model uses 0, which behaves the same. A negative time therefore
gives a negative hour except when its floored hour count is a multiple of 24, which covers the whole hour [−24k h, −24k h + 1 h) (`NegativeTime`, `BadTimeIff`).

## Model

| member | source | states |
|---|---|---|
| ColorCodec.ToHexTripletValue | src/utils.ts:9-11 | for byte channels the packed number is exactly 2^24 + r·2^16 + g·2^8 + b |
| ColorCodec.ToHexTriplet | src/utils.ts:9-11 | a byte colour packs into [2^24, 2^25), so the packed number is never 0 |
| ColorCodec.ByteShifts | src/utils.ts:9-11 | on byte channels the 32-bit shifts do not wrap: 1 << 24 is 2^24, r << 16 is r·2^16 and g << 8 is g·2^8 |
| ColorCodec.FromHexTriplet | src/utils.ts:13-19 | green and blue come out as bytes; red, the unmasked top of the 32-bit value, lies in [−2^15, 2^15) |
| ColorCodec.FromToHexTriplet | src/utils.ts:13-19 | decoding a packed byte colour returns g and b exactly and r + 256, because the red shift is not masked |
| ColorCodec.RoundTripThroughBytes | src/color.ts:9-19 | once the decoded channels are stored into a Uint8Array the colour comes back exactly |
| ColorCodec.RedIsBiased | src/utils.ts:15 | decoding never returns the colour itself; its red channel equals r only modulo 256 |
| ColorCodec.ToHexTripletInjective | src/utils.ts:9-11 | two byte colours pack to the same number if and only if they are equal |
| Utils.Abs | src/utils.ts:31-33 | `Math.abs`: non-negative and equal to v or -v |
| Utils.DistanceManhattan3 | src/utils.ts:30-35 | the distance bounds each coordinate difference: no axis is further apart than the distance |
| Utils.DistanceManhattan3IsMetric | src/utils.ts:30-35 | the Manhattan distance is non-negative, symmetric, and 0 if and only if the points are equal |
| Utils.DistanceManhattan3Triangle | src/utils.ts:30-35 | the Manhattan distance satisfies the triangle inequality |
| Utils.CreateMask2d | src/utils.ts:49-59 | a fresh size × size mask (empty for a negative size) whose every cell is undefined |
| Utils.CreateMask3d | src/utils.ts:63-77 | a fresh xSize × ySize × zSize mask (negative sizes give 0) whose every cell is undefined |
| Utils.Mask3dGet | src/utils.ts:79-93 | undefined when the x or y index is outside the mask or z is out of range, otherwise the stored cell |
| JsNumbers.ToInt32 | src/utils.ts:10 | the 32-bit wrap of the shift operators: in [-2^31, 2^31), congruent to v mod 2^32, identity inside the range |
| JsNumbers.JsRem | src/system/dayNight.ts:21 | JavaScript `%`: the remainder of truncating division, with the sign of the dividend |
| JsNumbers.FloorDiv | src/system/dayNight.ts:15-19 | `Math.floor(a / n)`: the q with q·n ≤ a < q·n + n |
| JsNumbers.ToUint8 | src/voxel/voxelsToFaces.ts:130 | a `Uint8Array` keeps a stored value modulo 256, and byte values unchanged |
| JsNumbers.Uint8Array | src/voxel/voxelsToFaces.ts:130-139 | `new Uint8Array([...])` keeps every value reduced to a byte, one per value |
| JsNumbers.NaturalToString | src/load.ts:50 | the decimal form of a natural number is non-empty and all digits |
| JsNumbers.NumberToString | src/load.ts:50 | a number in a template literal is written with digits and a leading minus sign only |
| JsNumbers.MinusSignIffNegative | src/load.ts:50 | the decimal form starts with a minus sign exactly for negative numbers |
| JsNumbers.NumberToStringInjective | src/load.ts:50 | distinct integers are written differently |
| VoxelVolume.CellIndexBounds | src/voxels.ts:40-42 | the cell number x + size·y + size²·z of an in-cube position lies in [0, size³) |
| VoxelVolume.CellIndexRoundTrip | src/voxels.ts:40-52 | the cell number of an in-cube position decodes back to that position |
| VoxelVolume.CellPositionRoundTrip | src/voxels.ts:44-52 | every cell number in [0, size³) decodes to an in-cube position whose cell number it is |
| VoxelVolume.CellIndexInjective | src/voxels.ts:40-42 | distinct in-cube positions have distinct cell numbers |
| VoxelVolume.BadZLeavesBuffer | src/voxels.ts:59 | with x and y in range, a z outside [0, size) addresses a cell outside the buffer, so the `isValid(x, y, x)` slip never reaches another cell |
| VoxelVolume.StoreByte | src/voxels.ts:80-87 | a `Uint8Array` store: only index i changes, to the value reduced to a byte; a store outside the buffer changes nothing |
| VoxelVolume.CellColorFields | src/voxels.ts:81-83 | the colour of a cell is its r, g and b bytes |
| VoxelVolume.Voxels.constructor | src/voxels.ts:23-27 | size³ cells of ten zero bytes each, and no populated offsets |
| VoxelVolume.Voxels.IsValid | src/voxels.ts:29-38 | true if and only if all three coordinates lie in [0, size) |
| VoxelVolume.Voxels.Populate | src/voxels.ts:74-84 | fails with "Bad position" exactly when `isValid(x, y, x)` fails, changing nothing; otherwise appends the offset and stores exists = 1, r, g, b |
| VoxelVolume.Voxels.SetByOffset | src/voxels.ts:86-88 | one byte store at offset + lookup, nothing else changes |
| VoxelVolume.Voxels.SetByPos | src/voxels.ts:90-101 | fails with "Bad position" exactly when `isValid(x, y, x)` fails, changing nothing; otherwise one byte store |
| VoxelVolume.OffsetIsCellIndex | src/voxels.ts:40-42 | the offset of a position is ten times its cell number |
| VoxelVolume.Voxels.GetOffset | src/voxels.ts:40-42 | every offset is a multiple of ten, the first byte of a cell record |
| VoxelVolume.Voxels.GetPosition | src/voxels.ts:44-52 | a non-negative offset decodes to a position inside the cube |
| VoxelVolume.Voxels.GetByPos | src/voxels.ts:58-62 | a field is read only where `isValid(x, y, x)` accepts, that is for a position (x, y, x) inside the cube |
| VoxelVolume.Voxels.ExistsByPos | src/voxels.ts:68-72 | the answer is defined exactly when (x, y, x) lies inside the cube |
| VoxelVolume.GetPositionOfOffset | src/voxels.ts:40-52 | `getPosition(getOffset(x, y, z))` is (x, y, z) for every in-cube position |
| VoxelVolume.GetPositionInBuffer | src/voxels.ts:44-52 | an in-buffer offset that is a multiple of ten is the offset of the in-cube position `getPosition` returns |
| VoxelVolume.GetPositionIsCellPosition | src/voxels.ts:44-52 | on a non-negative multiple of ten the truncating divisions and remainders of `getPosition` give the base-size digits of the cell number |
| VoxelVolume.BufferOffsetRoundTrip | src/voxels.ts:40-52 | every multiple of ten below 10 · size³ is ten times the cell number of the in-cube position it decodes to |
| VoxelVolume.ExistsAtIff | src/voxels.ts:64-72 | `existsByPos` is truthy exactly for in-cube cells whose exists byte is set, for every z |
| VoxelVolume.GetByPosIff | src/voxels.ts:58-62 | `getByPos` is the stored field inside the cube and undefined outside it, for every z |
| VoxelVolume.FieldIndexDistinct | src/voxels.ts:41 | the bytes of two distinct cells never overlap |
| VoxelVolume.PopulateEffect | src/voxels.ts:74-84 | after `populate` the cell exists with the stored byte colour, its visibility flags are unchanged, and every other cell keeps every field |
| VoxelVolume.PopulateBadZIsNoOp | src/voxels.ts:75-83 | a `populate` whose z is out of range stores nothing in the buffer |
| SpriteDecoder.PixelStart | src/voxel/spriteToVoxels.ts:11-12 | the four bytes `data.slice(imageDataIndex, imageDataIndex + 4)` of an in-cube voxel lie inside a well-formed sprite |
| SpriteDecoder.PixelColor | src/voxel/spriteToVoxels.ts:13-16 | the colour read from the sprite has byte channels |
| SpriteDecoder.SourcePixelInjective | src/voxel/spriteToVoxels.ts:11-19 | the pixel x + z·size + y·size² a voxel (x, size - (y + 1), z) is read from is in the image, and distinct voxels read distinct pixels |
| SpriteDecoder.VisitNumberInjective | src/voxel/spriteToVoxels.ts:8-10 | the loops over x, z, then y visit each voxel at one step in [0, size³) |
| SpriteDecoder.VisitedAtInCube | src/voxel/spriteToVoxels.ts:8-10 | every step in [0, size³) visits an in-cube voxel, whose visit number is that step |
| SpriteDecoder.VisitedAtVisitNumber | src/voxel/spriteToVoxels.ts:8-10 | the voxel visited at a voxel's visit number is that voxel |
| SpriteDecoder.ListsVisitStep | src/voxel/spriteToVoxels.ts:18-20 | one more visit appends the voxel to the populated list exactly when its pixel is opaque |
| SpriteDecoder.ListsNoVisits | src/voxel/spriteToVoxels.ts:5 | a new volume has no populated voxel |
| SpriteDecoder.DecodedVoxelsInVisitOrder | src/voxel/spriteToVoxels.ts:8-23 | after k visits the populated voxels are exactly the opaque voxels visited so far, in strictly increasing visit order |
| SpriteDecoder.DecodedOffsetsExact | src/voxel/spriteToVoxels.ts:8-23 | after decoding, an in-cube voxel's offset is recorded if and only if its pixel is opaque, and no offset is recorded twice |
| SpriteDecoder.OffsetsOfCells | src/voxels.ts:78-79 | the offset of an in-cube cell is in the offset list exactly when the cell is in the cell list, and distinct cells give distinct offsets |
| SpriteDecoder.DecodeStep | src/voxel/spriteToVoxels.ts:18-20 | visiting a transparent voxel changes nothing; visiting an opaque one decodes exactly that voxel |
| SpriteDecoder.DecodedNothing | src/voxel/spriteToVoxels.ts:5 | the zeroed buffer of a new volume is the state before the first visit |
| SpriteDecoder.DecodedAll | src/voxel/spriteToVoxels.ts:8-23 | after the last visit every voxel holds its decoded fields |
| SpriteDecoder.SpriteToVoxels | src/voxel/spriteToVoxels.ts:4-26 | a fresh volume of the sprite's size in which every opaque pixel's voxel exists with the pixel's colour and no visibility flag, every other voxel is empty, and the populated offsets are the opaque voxels in visit order |
| SpriteDecoder.DecodeColumn | src/voxel/spriteToVoxels.ts:10-21 | the innermost loop decodes the size voxels of one column, in order |
| SpriteDecoder.DecodePixel | src/voxel/spriteToVoxels.ts:11-20 | one pixel: populates its voxel when the alpha byte is non-zero, and otherwise changes nothing |
| GreedyMesh.ContentsIs | src/voxel/voxelsToFaces.ts:45-46 | a square mask that equals a grid cell by cell has that grid as contents |
| GreedyMesh.CoveredByAppend | src/voxel/voxelsToFaces.ts:130 | pushing a face adds exactly its cells to the covered ones |
| GreedyMesh.MaskIsAppend | src/voxel/voxelsToFaces.ts:129-139 | once the face being grown is pushed, the mask shows the start contents with all pushed faces cleared |
| GreedyMesh.GreedyPrefixAppend | src/voxel/voxelsToFaces.ts:83-140 | a greedy step after a greedy prefix extends the prefix |
| GreedyMesh.GreedyPrefixExact | src/voxel/voxelsToFaces.ts:83-140 | the faces pushed so far cover only set cells, each in the face's colour, and no cell is covered twice |
| GreedyMesh.GreedyPrefixBounds | src/voxel/voxelsToFaces.ts:92-108 | every face lies inside the slice and has width and depth at least 1 |
| GreedyMesh.CoveredByMember | src/voxel/voxelsToFaces.ts:130 | a pushed face covers each of its cells |
| GreedyMesh.CoveredByWitness | src/voxel/voxelsToFaces.ts:130 | a covered cell is covered by one pushed face |
| GreedyMesh.GreedyCoverExact | src/voxel/voxelsToFaces.ts:79-143 | the finished merge covers a cell if and only if the cell was set |
| GreedyMesh.GreedyStepUnique | src/voxel/voxelsToFaces.ts:83-127 | after the same earlier faces there is exactly one next face: first pending cell in scan order, widest run, then deepest matching rows |
| GreedyMesh.GreedyPrefixUnique | src/voxel/voxelsToFaces.ts:79-143 | of two greedy prefixes, the shorter is a prefix of the longer |
| GreedyMesh.GreedyPrefixLastStep | src/voxel/voxelsToFaces.ts:83-140 | two greedy prefixes of equal length that agree up to their last face agree on it too |
| GreedyMesh.GreedyCoverUnique | src/voxel/voxelsToFaces.ts:79-143 | the merge of a mask is unique: the face list is a function of the mask's contents |
| GreedyMesh.GreedyCoverLongest | src/voxel/voxelsToFaces.ts:79-143 | no greedy prefix is longer than the finished merge |
| GreedyMesh.GreedyPrefixTake | src/voxel/voxelsToFaces.ts:79-143 | every prefix of a greedy prefix is one |
| GreedyMesh.EmptyMaskMerge | src/voxel/voxelsToFaces.ts:84 | an empty mask pushes no face |
| GreedyMesh.UniformMaskMerge | src/voxel/voxelsToFaces.ts:79-143 | a mask filled with one colour merges to one face over the whole slice |
| GreedyMesh.SingleCellMerge | src/voxel/voxelsToFaces.ts:79-143 | a mask with one set cell merges to one 1×1 face at that cell |
| GreedyMesh.SingleCellStep | src/voxel/voxelsToFaces.ts:83-127 | the 1×1 face is the first greedy step of a mask with one set cell |
| GreedyMesh.CombineFaces | src/voxel/voxelsToFaces.ts:79-143 | the faces pushed, in push order, are the greedy merge of the mask's initial contents, and the mask is left empty |
| GreedyMesh.GrowFace | src/voxel/voxelsToFaces.ts:83-139 | from a starting point, the face grown is the greedy step there, starts at (x, z) with its colour, and the mask is cleared over it and nowhere else |
| GreedyMesh.ExpandWidth | src/voxel/voxelsToFaces.ts:86-100 | the width grows while the next cell along the first index holds the same colour, stopping at the edge or the first other cell |
| GreedyMesh.ExpandDepth | src/voxel/voxelsToFaces.ts:102-127 | the depth grows while the whole next row of width cells holds the same colour, stopping at the edge or the first row that does not |
| GreedyMesh.RowMatches | src/voxel/voxelsToFaces.ts:111-116 | true exactly when all width cells of the row hold the colour |
| GreedyMesh.RowMatchesIsRowAvailable | src/voxel/voxelsToFaces.ts:111-118 | the row just past a face matches exactly when it is available in the start contents |
| GreedyMesh.ClearRow | src/voxel/voxelsToFaces.ts:120-122 | clears exactly the width cells of the row |
| FaceMesh.Flag | src/voxel/voxelsToFaces.ts:18-40 | each side checked maps to one of the six visibility fields |
| FaceMesh.FlagDirection | src/voxels.ts:8-13 | a field is a visibility flag exactly when its index is at least 4, and then it names exactly one side |
| FaceMesh.MarkSide | src/voxel/voxelsToFaces.ts:18-20 | one neighbour check keeps the buffer length |
| FaceMesh.MarkCell | src/voxel/voxelsToFaces.ts:16-40 | the six neighbour checks of one offset keep the buffer length |
| FaceMesh.MarkOffset | src/voxel/voxelsToFaces.ts:15-41 | one populated offset's checks keep the buffer length |
| FaceMesh.VisibilityPass | src/voxel/voxelsToFaces.ts:15-41 | the `forEach` over the populated offsets keeps the buffer length |
| FaceMesh.CellExistsField | src/voxels.ts:64-72 | a cell exists exactly when its exists byte is non-zero |
| FaceMesh.MarkSideEffect | src/voxel/voxelsToFaces.ts:18-20 | one side check sets that side's flag of that cell to 1 when the neighbour is missing, and changes no other field of any cell |
| FaceMesh.MarkCellEffect | src/voxel/voxelsToFaces.ts:16-40 | the six checks of a cell set exactly the flags of its sides whose neighbour is missing, and change nothing else |
| FaceMesh.OffsetCell | src/voxels.ts:44-52 | an in-buffer offset that is a multiple of ten is the offset of the cell it names |
| FaceMesh.CellOffset | src/voxels.ts:40-42 | the offset of an in-cube cell names that cell |
| FaceMesh.MarkOffsetEffect | src/voxel/voxelsToFaces.ts:15-41 | one populated offset marks the missing-neighbour sides of its own cell and nothing else |
| FaceMesh.SameExistence | src/voxels.ts:64-72 | buffers whose exists bytes agree agree on which cells exist |
| FaceMesh.VisibilityPassStep | src/voxel/voxelsToFaces.ts:15-41 | one more offset of the pass gives the fields described for the longer offset list |
| FaceMesh.VisibilityPassFields | src/voxel/voxelsToFaces.ts:15-41 | after the pass a side's flag of a cell is set exactly when it was set before, or the cell's offset is populated and its neighbour on that side does not exist; every other field is unchanged |
| FaceMesh.MarkCellOutside | src/voxels.ts:86-88 | the stores for an offset outside the buffer change nothing |
| FaceMesh.MarkCellIsMarkOffset | src/voxel/voxelsToFaces.ts:16 | reading the position with `getPosition` checks the same cell the offset names |
| FaceMesh.ComputeVisibility | src/voxel/voxelsToFaces.ts:15-41 | the buffer ends as the side checks of every populated offset, in order, leave it |
| FaceMesh.MarkVisibleSides | src/voxel/voxelsToFaces.ts:16-40 | the six checks and stores for one offset |
| FaceMesh.MarkTest | src/voxel/voxelsToFaces.ts:18-20 | one `existsByPos` check and its `setByOffset` store |
| FaceMesh.VisibilityPassRepeat | src/voxel/voxelsToFaces.ts:15-41 | the pass only sets flags, and an offset listed twice changes nothing the second time |
| FaceMesh.MaskGrid | src/voxel/voxelsToFaces.ts:44-77 | the slice's mask as an n × n grid, each cell the packed colour when the side is visible and undefined otherwise |
| FaceMesh.MaskCell | src/voxel/voxelsToFaces.ts:49-61 | a set mask cell holds a packed colour in [2^24, 2^25) |
| FaceMesh.FillMasks | src/voxel/voxelsToFaces.ts:45-77 | two fresh, distinct size × size masks holding the two sides' mask cells of the slice |
| FaceMesh.FillMaskRow | src/voxel/voxelsToFaces.ts:48-76 | the inner loop fills one row of a mask with its mask cells and leaves the other rows alone |
| FaceMesh.SetMaskCell | src/voxel/voxelsToFaces.ts:49-61 | one step of the inner loop sets exactly the mask cell `[a][b]` to its mask value and changes no other cell |
| FaceMesh.ReadSide | src/voxel/voxelsToFaces.ts:49-61 | the side is visible exactly when its flag byte is non-zero, and then the packed colour of the cell is returned |
| FaceMesh.MarkSideKeepsExistence | src/voxel/voxelsToFaces.ts:18-40 | no side check changes whether any cell exists |
| FaceMesh.SliceCoordinates | src/voxel/voxelsToFaces.ts:44-260 | each cell lies in exactly one slice and mask cell for a side |
| FaceMesh.FaceRecordExact | src/voxel/voxelsToFaces.ts:129-351 | for volumes of side at most 255 every byte of a record is exact: the first cell, the two extents in the layout of its side, and the colour that was packed |
| FaceMesh.MergedCellsVisible | src/voxel/voxelsToFaces.ts:44-147 | every cell of every merged face is a visible side whose packed colour is the face's colour |
| FaceMesh.MaskCellAfterPass | src/voxel/voxelsToFaces.ts:15-77 | after the pass a cell is in a slice's mask exactly when its offset is populated and its neighbour on that side is missing |
| FaceMesh.SingleVoxelMask | src/voxel/voxelsToFaces.ts:15-77 | in a volume with one voxel every mask holds exactly that voxel's side |
| FaceMesh.SingleVoxelMerges | src/voxel/voxelsToFaces.ts:44-147 | a volume with one voxel merges to one 1×1 face in the voxel's slice and none elsewhere |
| FaceMesh.EmitOne | src/voxel/voxelsToFaces.ts:44-147 | slices with no face add no record, and the one slice with a face adds its record |
| FaceMesh.SingleVoxelFaces | src/voxel/voxelsToFaces.ts:5-362 | one isolated voxel yields exactly one 1×1 record in each of the six face lists |
| FaceMesh.FaceRecord | src/voxel/voxelsToFaces.ts:130-139 | a face record has eight bytes |
| FaceMesh.Records | src/voxel/voxelsToFaces.ts:129-139 | one record per merged face, in push order |
| FaceMesh.Emit | src/voxel/voxelsToFaces.ts:129-139 | every record of the face list is 8 bytes long |
| FaceMesh.MergedUpToAppend | src/voxel/voxelsToFaces.ts:44 | merging the next slice extends the merged prefix |
| FaceMesh.EmitAppend | src/voxel/voxelsToFaces.ts:145-146 | the records of one more slice follow those of the slices before |
| FaceMesh.VoxelsToFaces | src/voxel/voxelsToFaces.ts:5-362 | the buffer ends as the visibility pass leaves it, and each of the six face lists holds, slice by slice, the records of the greedy merge of that slice's mask |
| FaceMesh.MeshAxis | src/voxel/voxelsToFaces.ts:44-147 | the slice loop of one axis: both face lists are the records of the merges of their masks |
| FaceMesh.MeshSlice | src/voxel/voxelsToFaces.ts:45-146 | one slice: the faces of both masks are their greedy merges |
| FaceMesh.MergeMask | src/voxel/voxelsToFaces.ts:145-146 | one `combineFaces` call on a filled mask: its faces are the greedy merge of the slice's mask |
| RenderModel.Model.constructor | src/system/render/model.ts:45-57 | the model literal: name, path, size and volume as given, every face list empty |
| RenderModel.ModelPath | src/system/render/model.ts:38 | the path is "./src/models/" + name + ".png" |
| RenderModel.OptimizeModel | src/system/render/model.ts:143-489 | the buffer ends as the visibility pass leaves it, and each face list gains, slice by slice, the records of the greedy merge of that slice's mask |
| RenderModel.SpriteMaskGrid | src/system/render/model.ts:173-205 | the mask of a slice as the sprite alone decides it: a side shows where the voxel is opaque and its neighbour is not |
| RenderModel.DecodedExists | src/system/render/model.ts:119-141 | in a decoded volume a cell exists exactly when its pixel is opaque |
| RenderModel.DecodedColor | src/system/render/model.ts:127-134 | a decoded opaque cell holds its pixel's colour |
| RenderModel.DecodedOffsetIn | src/system/render/model.ts:119-141 | a cell's offset is recorded exactly when its pixel is opaque, and every recorded offset starts a cell |
| RenderModel.DecodedMaskCell | src/system/render/model.ts:143-205 | after the visibility pass a mask cell holds the packed pixel colour exactly when the pixel is opaque and its neighbour on that side is transparent or outside the cube |
| RenderModel.DecodedMaskGrid | src/system/render/model.ts:143-205 | every slice mask of a decoded, marked volume is the mask the sprite alone decides |
| RenderModel.DecodedMerged | src/system/render/model.ts:173-277 | the merges of the marked volume are the merges of the sprite's own masks |
| RenderModel.SpriteFacesUnique | src/system/render/model.ts:143-489 | the faces are a function of the sprite alone: any two merges of its masks give the same face lists |
| RenderModel.LoadModel | src/system/render/model.ts:37-82 | a fresh model with the right name, path and size whose populated offsets are the opaque voxels and whose six face lists are the records of the greedy merges of the sprite's own masks |
| ListModel.ListVoxel | src/model.ts:151-161 | the record of an opaque voxel: its position, its pixel's colour, and six data bytes whose y is the image row, not the voxel's y |
| ListModel.DecodedListIs | src/model.ts:148-165 | after k visits the list holds one record per opaque voxel visited, in visit order |
| ListModel.DecodedListExact | src/model.ts:144-168 | every record is that of an opaque voxel, no two records share a position, and every opaque voxel has a record |
| ListModel.GetVoxels | src/model.ts:144-168 | the records pushed are exactly the decoded list, in the order of the x, z, image-y loops |
| ListModel.GetColumn | src/model.ts:150-163 | the innermost loop appends the records of one column |
| ListModel.ColumnVisit | src/model.ts:148-150 | the voxel at image row y of a column is visited y steps after the column starts |
| ListModel.GetPixel | src/model.ts:151-162 | one pixel pushes its record when its alpha byte is non-zero and changes nothing otherwise |
| ListModel.IsVoxelIff | src/model.ts:178-180 | `isVoxel` holds exactly when some record sits at the position |
| ListModel.GetVoxelFirst | src/model.ts:210-215 | `getVoxel` is undefined exactly when no record sits at the position, and otherwise the first record there |
| ListModel.GetVoxel | src/model.ts:210-215 | a record found is one of the list and sits at the position asked for |
| ListModel.VisibleListMembers | src/model.ts:182-208 | a record is in a side's visible list exactly when it is a voxel whose neighbour on that side is not |
| ListModel.VisibleList | src/model.ts:182-208 | a side's visible list is no longer than the voxels it is drawn from, and every record in it has no voxel of the model on that side |
| ListModel.VisibleListStep | src/model.ts:182-208 | one more voxel extends a side's visible list by that voxel exactly when its neighbour on that side is not a voxel, and otherwise leaves it unchanged |
| ListModel.VisibleLists | src/model.ts:171-208 | the six lists the `forEach` pushes are the visible lists of the six sides, in list order |
| ListModel.PushIfExposed | src/model.ts:182-208 | one side of the loop body turns the visible list of the first i voxels into that of the first i + 1 |
| ListModel.ListMaskGrid | src/model.ts:218-233 | the mask of a slice: each cell the packed colour of the first visible record there, undefined when there is none |
| ListModel.FillListMasks | src/model.ts:219-233 | two fresh, distinct size × size masks holding the two sides' list mask cells |
| ListModel.FillListMaskRow | src/model.ts:222-232 | the inner loop fills one row of a mask and leaves the other rows alone |
| ListModel.SetListMaskCell | src/model.ts:222-232 | one step of the inner loop sets exactly the mask cell `[a][b]` to the packed colour of the visible record there, if any, and changes no other cell |
| ListModel.Model.constructor | src/model.ts:56-68 | the model literal: name, path, size and voxel list as given, every face list empty |
| ListModel.OptimizeModel | src/model.ts:170-481 | builds the six visible lists, then each face list gains, slice by slice, the records of the greedy merge of that slice's list mask |
| ListModel.ListMeshAxis | src/model.ts:218-303 | the slice loop of one axis: both face lists are the records of the merges of their masks |
| ListModel.ListMeshSlice | src/model.ts:218-302 | one slice: the faces of both masks are their greedy merges |
| ListModel.ListMergedUpToAppend | src/model.ts:218 | merging the next slice extends the merged prefix |
| ListModel.DecodedIsVoxel | src/model.ts:160-180 | in the decoded list a position holds a record exactly when its voxel is solid |
| ListModel.DecodedVisible | src/model.ts:182-208 | the visible list of a side holds the decoded records whose neighbour on that side is not solid |
| ListModel.DecodedVisibleRecord | src/model.ts:182-208 | a record of a visible list is that of a solid voxel whose neighbour is not solid |
| ListModel.DecodedVisibleHas | src/model.ts:182-208 | a solid voxel whose neighbour is not solid has its record in that side's visible list |
| ListModel.ListMaskCellIsSpriteMask | src/model.ts:218-233 | a list mask cell holds the packed pixel colour exactly when the pixel is opaque and its neighbour is not solid: the same cell the buffer pipeline computes |
| ListModel.ListMaskIsSpriteMask | src/model.ts:218-233 | every list mask equals the sprite's mask |
| ListModel.ListMergedIsSpriteMerged | src/model.ts:218-478 | the list pipeline's merges are merges of the sprite's own masks |
| ListModel.LoadModel | src/model.ts:48-93 | a fresh model with the right name, path and size whose voxels are the decoded list and whose six face lists are the records of the greedy merges of the sprite's own masks, the same lists the buffer pipeline builds |
| VoxelGroup.InvertInvolution | models/voxel/groupVoxels.ts:75-77 | `invert` undoes itself and maps the tile range [0, 16) onto itself |
| VoxelGroup.Turn | models/voxel/groupVoxels.ts:44-57 | every rotation case maps a column of the 16 × 16 footprint to a column of the footprint |
| VoxelGroup.TurnsCompose | models/voxel/groupVoxels.ts:44-57 | the TURN_1 case applied twice is TURN_2, three times TURN_3, four times the identity |
| VoxelGroup.TurnIsBijection | models/voxel/groupVoxels.ts:44-57 | each rotation maps the tile's 16 × 16 footprint onto itself and has an inverse |
| VoxelGroup.LeastIsMinimum | models/voxel/groupVoxels.ts:13-27 | the `Math.min` fold from the first position is a coordinate of some position and at most every position's |
| VoxelGroup.GreatestIsMaximum | models/voxel/groupVoxels.ts:13-27 | the `Math.max` fold from the first position is a coordinate of some position and at least every position's |
| VoxelGroup.Bounds | models/voxel/groupVoxels.ts:13-27 | the `forEach` computes the six folds over the positions |
| VoxelGroup.GroupSpansPositions | models/voxel/groupVoxels.ts:29 | the group is at least one tile wide, every position lies within groupSize tiles of the corner, and the corner is attained on every axis |
| VoxelGroup.Snapshots | models/voxel/groupVoxels.ts:32 | the pieces' volumes as values, one per piece |
| VoxelGroup.SourceOf | models/voxel/groupVoxels.ts:44-57 | a group cell's source cell, when there is one, lies in the tile |
| VoxelGroup.SourceTargetInverse | models/voxel/groupVoxels.ts:41-57 | a group cell's source cell is s exactly when s is copied to that cell |
| VoxelGroup.TargetInGroup | models/voxel/groupVoxels.ts:30-57 | every copy lands inside the group volume, so `populate` never throws |
| VoxelGroup.BadRotationCopiesNothing | models/voxel/groupVoxels.ts:44-57 | a rotation outside 0..3 matches no case, so the piece copies nothing |
| VoxelGroup.CopiedColorIsSource | models/voxel/groupVoxels.ts:38-40 | the colour copied is the source cell's own r, g and b |
| VoxelGroup.VisitInjective | models/voxel/groupVoxels.ts:33-35 | the x, y, z loops visit each source cell at one step |
| VoxelGroup.VisitedAtVisit | models/voxel/groupVoxels.ts:33-35 | every step in [0, 4096) visits a tile cell whose visit number is that step |
| VoxelGroup.BadRotationAppendsNothing | models/voxel/groupVoxels.ts:44-57 | a piece with no valid rotation appends no offset |
| VoxelGroup.LastCover | models/voxel/groupVoxels.ts:32-62 | the index of the last piece so far that copies onto a group cell, or -1 |
| VoxelGroup.LastCoverIsLast | models/voxel/groupVoxels.ts:32-62 | no later piece copies onto the cell, so -1 means no piece does |
| VoxelGroup.LastCopyWins | models/voxel/groupVoxels.ts:32-62 | a group cell exists exactly when some piece copies onto it, its colour is the last such piece's copy, and its visibility flags stay 0 |
| VoxelGroup.CopyStep | models/voxel/groupVoxels.ts:36-57 | copying one existing source cell advances the copy loop's state by one step |
| VoxelGroup.CopyStepAtTarget | models/voxel/groupVoxels.ts:46-55 | the target cell of a copy holds the copied fields afterwards |
| VoxelGroup.CopyStepElsewhere | models/voxel/groupVoxels.ts:46-55 | a copy changes no other group cell |
| VoxelGroup.SkipStep | models/voxel/groupVoxels.ts:36 | a source cell that does not exist advances the loop without a write |
| VoxelGroup.GroupStep | models/voxel/groupVoxels.ts:32-62 | one finished piece turns the group of the first k pieces into that of the first k + 1 |
| VoxelGroup.ZeroGroup | models/voxel/groupVoxels.ts:30 | the zeroed new volume is the group of no pieces |
| VoxelGroup.Positions | models/voxel/groupVoxels.ts:20-27 | the pieces' positions, in order |
| VoxelGroup.GroupVoxels | models/voxel/groupVoxels.ts:10-73 | on a non-empty list of valid volumes: the result sits at the minimum corner with rotation 0, is groupSize · 16 wide, every cell field equals the fold of all pieces' copies over the zeroed volume (by LastCopyWins, the last covering piece's copy, zero when none covers it), and the offsets record every copy in order |
| VoxelGroup.CopyPieces | models/voxel/groupVoxels.ts:32-62 | copies every piece, in order, into the zeroed group |
| VoxelGroup.CopyPiece | models/voxel/groupVoxels.ts:33-61 | one piece's loops copy all its tile cells in visit order |
| VoxelGroup.CopyPlane | models/voxel/groupVoxels.ts:34-60 | the `for y` loop at one x |
| VoxelGroup.CopyRow | models/voxel/groupVoxels.ts:35-59 | the `for z` loop at one (x, y) |
| VoxelGroup.CopyCell | models/voxel/groupVoxels.ts:36-58 | one source cell: copied when it exists, turned by the rotation |
| VoxelGroup.CopyExisting | models/voxel/groupVoxels.ts:38-57 | the `switch` and `populate` of an existing cell: one offset appended, one step of the loop done |
| VoxelGroup.SourceCell | models/voxel/groupVoxels.ts:38-57 | the colour read from an existing source cell is its byte triple, and the `switch` sends it to the cell the rotation and the piece's offset in the group assign it |
| VoxelGroup.CopyEffect | models/voxel/groupVoxels.ts:46-55 | what the `populate` of one copy does to the group bytes |
| VoxelGroup.SourceBytes | models/voxel/groupVoxels.ts:38-40 | the colour bytes `getByPos` reads from an existing source cell |
| VoxelGroup.PieceOffsetsStep | models/voxel/groupVoxels.ts:46-55 | one more step appends the offset of the copied cell, if any |
| Terrain.TerrainOf | src/load.ts:39-41 | every entity kept is terrain (has a position, a sprite and a terrain component) |
| Terrain.NonTerrainOf | src/load.ts:42-44 | every entity kept is not terrain |
| Terrain.TerrainMembership | src/load.ts:39-41 | an entity is among the terrain entities exactly when it is in the list and is terrain |
| Terrain.OthersAreNonTerrain | src/load.ts:42-44 | the `indexOf(entity) === -1` filter keeps exactly the non-terrain entities, in order |
| Terrain.TerrainPartition | src/load.ts:39-44 | the terrain and non-terrain entities together are the input, as a multiset and by count |
| Terrain.ChunkOf | src/load.ts:48-49 | the chunk coordinates are the floor of x / 10 and z / 10: the position lies in that 10-wide chunk |
| Terrain.SeparatorAfter | src/load.ts:50 | in a key `a_b` with no `_` in a, the first `_` is right after a |
| Terrain.SplitAtSeparator | src/load.ts:50 | two keys `a_b` and `c_d` with no `_` in a or c are equal only when a == c and b == d |
| Terrain.NumberHasNoSeparator | src/load.ts:50 | the decimal form of a chunk coordinate has no `_` |
| Terrain.KeyOfInjective | src/load.ts:50 | different chunks have different `chunk_x_z` keys |
| Terrain.ChunkKeyIff | src/load.ts:48-50 | two positions share a key exactly when they lie in the same chunk |
| Terrain.FirstIndex | src/load.ts:46-52 | the first index at which a key occurs |
| Terrain.DedupIsFirstOccurrences | src/load.ts:46-52 | the Map's key order holds every key once, exactly the keys seen, ordered by first insertion |
| Terrain.DedupMembers | src/load.ts:46-52 | a key is in the Map's key order exactly when it was inserted |
| Terrain.DedupDistinct | src/load.ts:46-52 | the Map's key order holds no key twice |
| Terrain.DedupOrder | src/load.ts:46-52 | the Map's key order follows the order in which the keys were first inserted |
| Terrain.Dedup | src/load.ts:46-52 | the key order is no longer than the keys inserted and holds only keys that were inserted |
| Terrain.KeysOf | src/load.ts:47-50 | one chunk key per terrain entity: the i-th key is the chunk key of the i-th terrain entity |
| Terrain.KeysOfLast | src/load.ts:47-50 | the keys of a list are the keys of all but its last entity followed by the last one's key |
| Terrain.InChunkMembers | src/load.ts:51 | a chunk's list holds exactly the terrain entities whose key it is |
| Terrain.InChunkEmpty | src/load.ts:51 | a key no entity has collects nothing |
| Terrain.ChunkedShape | src/load.ts:46-52 | the Map's keys are the distinct chunk keys in first-insertion order, and each key maps to its members in input order |
| Terrain.Chunked | src/load.ts:46-52 | there are at most as many chunks as terrain entities, and no chunk is empty |
| Terrain.ChunkedWellFormed | src/load.ts:46-52 | every chunk lists its key once and holds at least one terrain entity |
| Terrain.InOwnChunk | src/load.ts:49-51 | every terrain entity is a member of the chunk named by its own key |
| Terrain.ExactlyOneChunk | src/load.ts:46-52 | each terrain entity is in the chunk of its own key and in no other |
| Terrain.BucketTerrain | src/load.ts:46-52 | the `forEach` with `chunks.set(key, (chunks.get(key) \|\| []).concat(entity))` builds the chunk map |
| Terrain.PositionsOf | src/load.ts:57 | the members' positions, in order |
| Terrain.GetGroupPosition | src/load.ts:75-98 | the minimum x, y and z over the positions, each attained by some position and at most all, with rotation 0 |
| Terrain.WithoutSprites | src/load.ts:71 | the terrain entities with their sprite cleared and nothing else changed |
| Terrain.ChunkEntities | src/load.ts:54-68 | one entity per chunk, in key order, the j-th being the chunk's entity with id 10000 + j |
| Terrain.GroupTerrain | src/load.ts:38-73 | the result is the non-terrain entities in order, then the chunk entities in key order, then the terrain entities without sprites; the list gains exactly one entity per chunk |
| Terrain.PushChunkEntities | src/load.ts:54-68 | the loop over `chunks` pushes exactly the chunk entities, with ids counting up from 10000 |
| Terrain.ChunkEntityCoversMembers | src/load.ts:56-68 | a chunk's entity is named by the key of each of its members and each member lies within the group from its corner |
| Terrain.LoadSprites | models/index.ts:17-24 | the models loaded are the sprite names in first-occurrence order, each once, and no others |
| Terrain.ChunkPieces | models/index.ts:40-43 | one positioned volume per member: its position and its sprite's model |
| Terrain.GroupTerrainModels | models/index.ts:26-48 | one `addModel` per distinct chunk key in key order, each a fresh valid volume sized to span its chunk whose cells and populated offsets are those `groupVoxels` builds from the chunk's tile models |
| Terrain.GroupChunks | models/index.ts:39-47 | one model per chunk in key order, each under its chunk's key, fresh, valid, sized to span the chunk, and with the cells and offsets `groupVoxels` builds from the chunk's tile models at the chunk's corner |
| Terrain.AddChunk | models/index.ts:40-46 | one turn of the `forEach`: the entry is the chunk's key with a fresh volume grouped from the chunk's tile models |
| Terrain.ChunkedLoaded | models/index.ts:40-43 | when `loadSprites` ran first, every chunk member's sprite model is in the registry |
| Terrain.GroupChunk | models/index.ts:40-46 | `groupVoxels` of the members' models: a fresh valid volume groupSize · 16 wide, each cell the last copy of a tile model that lands there and its offsets those the copies populate |
| Terrain.ModelsOfChunk | models/index.ts:40-43 | every member's sprite model is loaded when `loadSprites` has run first |
| World.WithoutMembers | map/index.ts:12-20 | the filter keeps exactly the entries not at the position |
| World.WithoutNothing | map/index.ts:12-20 | filtering a position nothing stands at changes nothing |
| World.WithoutRemovesOne | map/index.ts:12-20 | with one entry per position, the filter removes just the entry at that position |
| World.WithoutUnique | map/index.ts:12-20 | filtering keeps the world at one entry per position |
| World.PlacedUnique | map/index.ts:11-22 | `setAtPosition` keeps the world at one entry per position |
| World.PlacedOccupied | map/index.ts:11-22 | `setAtPosition` adds its position to the occupied positions and removes none |
| World.WithoutAt | map/index.ts:12-20 | filtering one position leaves what stands at every other position |
| World.Without | map/index.ts:12-20 | the filter keeps no more entries than the world has, and none of them stands at the position |
| World.Placed | map/index.ts:12-21 | `setAtPosition` leaves a non-empty world at most one entry longer than before |
| World.PlacedAt | map/index.ts:11-22 | after `setAtPosition` the new entry stands at its position and every other position is unchanged: the last write wins |
| World.ApplyWritesEffect | map/index.ts:11-22 | a series of writes keeps the world at one entry per position and occupies exactly the old positions plus the written ones |
| World.ApplyWritesConcat | map/index.ts:11-22 | applying two series of writes one after the other is applying their concatenation |
| World.ApplyWritesSnoc | map/index.ts:11-22 | one more write places one more entry |
| World.WorldBuilder.constructor | map/index.ts:9 | the world starts empty, with no writes |
| World.WorldBuilder.SetAtPosition | map/index.ts:11-22 | the world loses its entry at (x, y, z) and gains the new entry last; one entry per position is kept, occupied positions grow by (x, y, z), and the world stays the replay of all writes (the same code is at gen_map.js:11-22) |
| World.GetSpriteName | map/index.ts:24-30 | a failure carries the message "Could not find " + name (the same code is at gen_map.js:192-198) |
| World.NoMatch | map/index.ts:25 | the filter is empty exactly when no file name ends with the name |
| World.MatchingMembers | map/index.ts:25 | every file found is a file name ending with the name |
| World.OneMatchLastMatches | map/index.ts:25-26 | when the last file matches, one match means no earlier file matches |
| World.OneMatchLastMisses | map/index.ts:25-26 | when the last file does not match, one match is one match among the earlier files |
| World.OneMatchIff | map/index.ts:25-26 | exactly one file is found exactly when exactly one file name ends with the name |
| World.GetSpriteNameSucceedsIff | map/index.ts:24-30 | `getSpriteName` returns exactly when one file name ends with the name, and returns that file name; otherwise it throws |
| World.WalkSpeed | map/index.ts:399 | the walk speed is 1 exactly for walkable tile names, -1 otherwise (the same code is at gen_map.js:232) |
| World.Export | map/index.ts:389-417 | success exactly when every entry's name resolves; then the world entries in order with ids 0.. , positions shifted by -5 in x and z, the full sprite name and the walk speed, then the knight with the next id; otherwise the error of the first entry that does not resolve (the same code is at gen_map.js:222-250) |
| World.ExportedTerrain | map/index.ts:389-417 | every exported world entry is terrain for `groupTerrain`, the knight is not, and all ids differ |
| IslandMap.GetAtPosition | map/index.ts:94-108 | a cell's string exactly when row and column lie inside the grid, `undefined` otherwise |
| IslandMap.Is | map/index.ts:110-112 | 1 exactly when the cell is defined and one of the types, else 0 |
| IslandMap.Neighbours | map/index.ts:131-135 | the four orthogonal neighbour flags, each 0 or 1 |
| IslandMap.Diagonals | map/index.ts:321-334 | the four diagonal neighbour flags of a house, each 0 or 1 |
| IslandMap.StraightEdgeFacesWalkway | map/index.ts:144-156 | the straight walkway edge's rotation turns one quarter per side clockwise with the side its walkway is on |
| IslandMap.MissingSideFacesGap | map/index.ts:236-246 | a three-of-four grass or house tile's rotation turns one quarter per side clockwise with the missing side (the diagonal house rule at 341-351 is the same rule) |
| IslandMap.CornerFacesGap | map/index.ts:157-169 | for two adjacent missing sides, the inner walkway corner, the outer grass corner (215-223) and the outer wall corner (283-293) each turn one quarter per side clockwise |
| IslandMap.OppositeGapsKeepZero | map/index.ts:160-168 | two opposite missing sides match no rule, and every corner keeps rotation 0 |
| IslandMap.PathEdgeOnlyOnAir | map/index.ts:126-129 | `doPathEdge` writes nothing and does not throw unless its cell is air |
| IslandMap.PathEdgeOnAir | map/index.ts:131-177 | on air, `doPathEdge` throws "Unexpected surrounding blocks" exactly when 0, 3 or 4 neighbours are walkway; otherwise it writes a base at height 0 and a rope at height 1 over the cell with one rotation |
| IslandMap.PathEdgePlan | map/index.ts:125-178 | `doPathEdge` writes at most two tiles, none when it throws, all over its own cell |
| IslandMap.GrassNeedsTwoNeighbours | map/index.ts:208-212 | grass with fewer than two grass or house neighbours throws before writing |
| IslandMap.GrassDrawsPerVariant | map/index.ts:225-263 | grass draws two numbers for an isolated edge and fence, one for a plain edge, none for the full or failing case |
| IslandMap.GrassTilesOverCell | map/index.ts:213-264 | grass with two or more neighbours does not throw, writes its ground tile at height 0 over the cell, and a fence at height 1 with the same rotation exactly when isolated and not surrounded |
| IslandMap.HouseNeedsTwoNeighbours | map/index.ts:276-280 | a house with fewer than two house neighbours throws before writing |
| IslandMap.HouseInteriorIsCarpet | map/index.ts:336-339 | a house surrounded on all eight sides writes only `carpet_1` at height 0 |
| IslandMap.HouseStacksWalls | map/index.ts:281-356 | every other house with two or more neighbours writes grass at height 0 and the same wall tile, same rotation, at heights 1 and 2 |
| IslandMap.HousePlan | map/index.ts:268-360 | the house case writes at most three tiles, none when it throws, all over its own cell |
| IslandMap.IsIsolated | map/index.ts:195-202 | the nested loops find a house or walkway in the 5 × 5 square around the cell exactly when the cell is not isolated |
| IslandMap.DoPathEdge | map/index.ts:125-178 | the builder's world becomes the world with the edge's writes applied, and the error is the one the edge throws |
| IslandMap.WalkwayCell | map/index.ts:119-185 | two numbers are drawn, and the walkway tile and the four path edges are performed in order, stopping at the first that throws |
| IslandMap.GrassEdge | map/index.ts:225-233 | one draw for a plain edge and two for an isolated edge with its fence; the world gains those tiles |
| IslandMap.GrassCell | map/index.ts:186-267 | the grass case performs its plan and draws as many numbers as the plan uses |
| IslandMap.GrassTiles | map/index.ts:204-265 | once `isIsolated` is known, the switch on the count of solid neighbours performs the grass plan for that flag and draws as many numbers as it uses |
| IslandMap.GrassEdgeCase | map/index.ts:213-257 | with two or three solid neighbours, the corner or straight edge tiles of the plan are placed and one or two numbers drawn |
| IslandMap.HouseCell | map/index.ts:268-360 | the house case performs its plan |
| IslandMap.ProcessCell | map/index.ts:116-361 | the `switch (cell)` performs the cell's plan with the next two random numbers; air and unknown cells write nothing |
| IslandMap.RowRunStops | map/index.ts:114-362 | once a cell throws, the rest of the row changes nothing |
| IslandMap.GridRunStops | map/index.ts:114-363 | once a cell throws, the remaining rows change nothing |
| IslandMap.CellStepPerformed | map/index.ts:115-362 | a cell performed as planned is one step of the run |
| IslandMap.ProcessCellOfRow | map/index.ts:115-362 | one cell advances the row's run by one step |
| IslandMap.ProcessRow | map/index.ts:115-362 | one row's cells in column order, stopping at the first that throws |
| IslandMap.ProcessCells | map/index.ts:114-363 | every cell in row-major order: the builder's world, the numbers drawn and the error are those of the grid's run |
| IslandMap.StepKeeps | map/index.ts:11-22 | a step keeps the world at one entry per position and loses no occupied position |
| IslandMap.CellStepKeeps | map/index.ts:115-362 | so does every cell |
| IslandMap.RowRunKeeps | map/index.ts:115-362 | so does every row |
| IslandMap.GridRunKeeps | map/index.ts:114-363 | the generated world has at most one entry per position and no position loses its entry |
| IslandMap.GenerateIsland | map/index.ts:114-417 | a failure carries the error of the first cell that throws; otherwise the world has one entry per position and the output is its `withIds` export with the knight at (6, 1, 26) |
| CastleMap.ConcatMembers | gen_map.js:25-29 | an entry is in the writes of nested loops exactly when it is in the writes of one iteration |
| CastleMap.ColumnStep | gen_map.js:26-28 | one more pass of the inner `for z` loop appends one write at (x, y, z) |
| CastleMap.RectStep | gen_map.js:25-29 | one more pass of the outer `for x` loop appends one column of writes |
| CastleMap.ColumnTargets | gen_map.js:26-28 | the inner loop writes exactly the positions (x, y, z) with z0 <= z < z1 |
| CastleMap.RectTargets | gen_map.js:25-29 | the two loops write exactly the positions with x0 <= x < x1 and z0 <= z < z1 at height y |
| CastleMap.TargetsConcat | gen_map.js:11-22 | the positions written by two series of writes are the union of each's |
| CastleMap.FillRect | gen_map.js:25-29 | the builder records the rectangle's writes in loop order and every position of the rectangle is occupied |
| CastleMap.FillColumn | gen_map.js:26-28 | the builder records one column's writes in order |
| CastleMap.RectCovered | gen_map.js:25-29 | after any earlier writes, the rectangle's writes occupy every position of the rectangle |
| CastleMap.Section | gen_map.js:89-104 | a section is one write per name, stacked at heights 0, 1, 2, … over (x, z) with one rotation |
| CastleMap.SectionPlaces | gen_map.js:89-104 | after a section, heights 0 to 4 at (x, z) hold its tiles and every other position holds what it held before |
| CastleMap.CreateCastleSection | gen_map.js:89-104 | `createCastleSection` records its five writes, bottom to top |
| CastleMap.SectionOfFive | gen_map.js:99-103 | a five-name section is the five writes at heights 0 to 4 |
| CastleMap.CreateCastleCorner | gen_map.js:106-117 | a section of the corner tiles |
| CastleMap.CreateCastleWall | gen_map.js:124-135 | a section of the straight wall tiles |
| CastleMap.CreateCastleWindow | gen_map.js:137-148 | a section of the window tiles |
| CastleMap.CreateCastleDoor | gen_map.js:150-161 | a section of the arch tiles |
| CastleMap.CliffEdges | gen_map.js:55-62 | records the seven cliff writes |
| CastleMap.Stream | gen_map.js:64-73 | records the eight stream and waterfall writes |
| CastleMap.LakeEdge | gen_map.js:75-86 | records the ten lake edge, boat and lily writes |
| CastleMap.Path | gen_map.js:186-190 | records the four path writes |
| CastleMap.CastleCorners | gen_map.js:119-122 | the four corners at (0, 2), (4, 2), (4, 6), (0, 6) with rotations 1, 0, 3, 2 |
| CastleMap.NorthWall | gen_map.js:163-165 | wall, window, wall along z = 2 with rotation 1 |
| CastleMap.EastWall | gen_map.js:167-169 | wall, door, wall along x = 4 with rotation 0 |
| CastleMap.SouthWall | gen_map.js:171-173 | wall, window, wall along z = 6 with rotation 3 |
| CastleMap.WestWall | gen_map.js:175-177 | wall, window, wall along x = 0 with rotation 2 |
| CastleMap.CastleInterior | gen_map.js:179-184 | the interior loops record `castle_base` on the ground and `castle_roof` at height 3 for each x in [1, 4), z in [3, 6) |
| CastleMap.InteriorRow | gen_map.js:180-183 | the inner loop of the interior at one x |
| CastleMap.RaisedFloor | gen_map.js:31-41 | records the two raised-floor rectangles at height 1 |
| CastleMap.LakeFloor | gen_map.js:43-53 | records the two lake rectangles at height 0 |
| CastleMap.CastleBuilding | gen_map.js:119-184 | records the corners, the four walls and the interior, in script order |
| CastleMap.BuildCastle | gen_map.js:9-190 | the world is the replay of every `setAtPosition` of the script, in order |
| CastleMap.GenerateCastle | gen_map.js:222-250 | the output is the `withIds` export of that world with the castle's walkable tiles and the knight at (3, 1, 0), or the error of the first name that does not resolve |
| CastleMap.CastleWorld | gen_map.js:9-190 | the castle world has at most one entry per position and covers the whole 10 × 10 floor at height 0 |
| CastleMap.FloorStaysCovered | gen_map.js:11-29 | writes that begin by covering the 10 × 10 floor keep one entry per position and leave the floor covered, whatever follows |
| Randomness.Scaled | src/system/dayNight.ts:43 | `Math.floor(Math.random() * n)` is one of 0 … n − 1 |
| Randomness.ScaledBelow | src/system/dayNight.ts:43 | a draw times n lies in [0, n) |
| Randomness.RandomSource.constructor | src/system/dayNight.ts:43 | the stream starts with no number drawn |
| Randomness.RandomSource.Random | src/system/dayNight.ts:43 | `Math.random()` returns the next number of the stream and counts one draw |
| DayNight.MsToHMS | src/system/dayNight.ts:14-24 | minutes and seconds lie in [0, 60), hours in (−24, 24), and hours is the floored hour count with JavaScript's `%` by 24, whose sign follows the dividend |
| DayNight.HourCount | src/system/dayNight.ts:14-15 | the hour count is the floored quotient: the time lies in the hour that starts at count · one hour |
| DayNight.Decomposition | src/system/dayNight.ts:14-19 | hour count, minutes and seconds add up to the time, less the milliseconds below a second |
| DayNight.ClockDigits | src/system/dayNight.ts:16-19 | minutes and seconds are the clock digits of the time, for negative times too |
| DayNight.NonNegativeTime | src/system/dayNight.ts:15-21 | for a time of at least zero, hours is the whole hours modulo 24, in [0, 24) |
| DayNight.NegativeTime | src/system/dayNight.ts:15-21 | for a negative time, hours is at most 0, and is 0 exactly when the floored hour count is a multiple of 24 |
| DayNight.InitialTime | src/system/dayNight.ts:5-7 | the clock starts at −1 ms, which reads as −1 h 59 min 59 s |
| DayNight.BadTimeIff | src/system/dayNight.ts:30-34 | "Bad Time!" is thrown exactly when the scaled time is negative and its floored hour count is not a multiple of 24 |
| DayNight.FirstHourOfDayNotBad | src/system/dayNight.ts:15-21 | the negative time −86 399 999 ms has hour count −24, so its hours are 0 and it is not "Bad Time!" |
| DayNight.Offset | src/system/dayNight.ts:43-45 | an offset `Math.floor(Math.random() * 10) - 5` lies in [−5, 5) |
| DayNight.MoveTargetsEffect | src/system/dayNight.ts:39-47 | one path per acting trigger, each with x and z in [−5, 5), y = 1, and set on an entity whose trigger is hourly and moves to a random location |
| DayNight.MoveTargets | src/system/dayNight.ts:39-47 | at most one path per trigger, each with x and z in [−5, 5) and y = 1 |
| DayNight.NoActingTrigger | src/system/dayNight.ts:41 | when no trigger acts, no path is set |
| DayNight.Clock.constructor | src/system/dayNight.ts:5-7 | time is −1 and hms is the clock reading of −1 |
| DayNight.Clock.Tick | src/system/dayNight.ts:28-53 | time grows by deltaTime; a bad reading of time · 250 throws "Bad Time!" and changes neither hms nor the random stream; otherwise hms becomes the reading, and when its hour differs from the previous one every acting trigger gets a path with two draws each, else nothing is drawn or set |
| DayNight.MoveAll | src/system/dayNight.ts:39-47 | the paths of the acting triggers in search order, two draws each |
| DayNight.MoveOne | src/system/dayNight.ts:40-46 | one turn of the `forEach`: an acting trigger draws twice and yields the next path of the search, every other trigger draws nothing and yields none |
| DayNight.MoveStep | src/system/dayNight.ts:39-47 | the paths of a suffix of the search are the path of its first trigger, if it acts, followed by the paths of the rest |

## Left out

- Image loading (`loadImageData` in src/model.ts and src/system/render/model.ts, the `loadSprite` modules): a sprite is given as its RGBA bytes and its size. The image shape "height is size²" becomes the requirement that the data holds 4 · size³ bytes.
- three.js and the DOM: the scene, renderer, camera, face-to-mesh code, src/scene.js, src/ui/render.ts and `createScreen`/`destroyScreen` in src/load.ts. These are graphics and page calls with floating-point placement.
- File and JSON I/O: `fs.readdirSync` gives the sprite file names, which are an input sequence `files`. The `writeFileSync` of `world.json` and `saveModels` are left out; the generators return the entity list instead. `clean` is left out, and so is `require` of `world.json`.
- The csv text of map/index.ts and its parsing: the generator takes the parsed grid of cell strings.
- `Math.random()`: the numbers it returns are the parameter `RandomSource.values`. The model states how many are drawn and which draw decides which choice.
- The entity-component-system library: the `triggerable` search is a parameter, the entity ids and time triggers in search order. The `path` components `addComponent` would add are the returned targets.
- src/system/pathFind.ts and `distanceEuclidean3`: floating-point movement.
- Time: `time` and `deltaTime` are integer milliseconds. Fractional frame times are not modelled.
- Exceptions are `Result`/`Option` values carrying the thrown message. A `Failure` means the whole remaining script stops, as the uncaught `throw` does.
- The model registry of models/voxel/model.ts is modelled only through its effect: `addModel` becomes the list of (key, volume) pairs `GroupTerrainModels` returns, and `getModel` a map from sprite names to loaded volumes. `voxelsToFaces` inside `addModel` is the `FaceMesh` model.
- `loadSprites` yields the names it would load. The loads run in order; the `Promise.all` concurrency is not modelled.
- Terrain.GroupTerrainModels: `getModel` of a name that was never loaded makes the source crash on `undefined.voxels`. That case is excluded by the requirement that every terrain sprite was loaded, so the crash is not modelled.
- Terrain.GroupChunk: requires every member's sprite model to be loaded, for the reason given for `GroupTerrainModels`.
- FaceMesh.FaceRecordExact: states exact record bytes only for volumes of side at most 255. Beyond that the `Uint8Array` wraps coordinates and extents modulo 256. The model computes those wrapped bytes, and the lemma does not state them.
- Randomness.Scaled: real arithmetic stands in for the double product `Math.random() * n`, whose rounding is not modelled.
- Numbers are unbounded integers: the model leaves out doubles beyond 2^53 and non-integer positions in entities.
