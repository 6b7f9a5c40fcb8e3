/**
 * The entity components shared by the world generators, the terrain grouping
 * and the clock: the grid constants of src/constants.ts, the `Position`
 * component of src/component/position.ts and the entity records that
 * src/world.json holds.
 */
module Components {
  import opened Wrappers

  /** `GRID_SIZE`: the side of one terrain tile's voxel volume. */
  const GRID_SIZE: int := 16

  /** `CHUNK_SIZE`: the side, in tiles, of one terrain chunk. */
  const CHUNK_SIZE: int := 10

  /**
   * A `position` component. `rotation` is a `Rotation` (0..3) on every entity
   * the generators write except the knight, whose position has none.
   */
  datatype Placement = Placement(x: int, y: int, z: int, rotation: Option<int>)

  /** The rotation is one of `TURN_0` .. `TURN_3`. */
  predicate IsRotation(r: Option<int>)
  {
    r.Some? && 0 <= r.value <= 3
  }

  /** A `terrain` component. */
  datatype TerrainInfo = TerrainInfo(walkSpeed: int)

  /** A `time_trigger` component. */
  datatype TimeTrigger = TimeTrigger(frequency: string, action: string)

  /** One entity record of the world file: every component is optional. */
  datatype Entity = Entity(
    id: Option<int>,
    position: Option<Placement>,
    sprite: Option<string>,
    terrain: Option<TerrainInfo>,
    timeTrigger: Option<TimeTrigger>)
}
