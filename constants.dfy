/** The game's tuning constants. Their values live in a constants module that
    is not part of this model, so every operation takes them as a `Config`
    and relies only on the signs `Valid` states. */
module Constants {

  datatype Config = Config(
    personRadius: real,            // PERSON_RADIUS
    personNumber: nat,             // PERSON_NUMBER, the initial crowd size
    orderTime: real,               // ORDER_TIME, milliseconds
    holeRevisitCooldown: real,     // HOLE_REVISIT_COOLDOWN, milliseconds
    holeWidth: real,               // HOLE_WIDTH
    holeHeight: real,              // HOLE_HEIGHT
    roadHeight: real,              // ROAD_HEIGHT
    wallY: real,                   // WALL_Y
    wallHeight: real,              // WALL_HEIGHT
    personalSpace: real,           // PERSONAL_SPACE
    orderingPersonalSpace: real,   // ORDERING_PERSONAL_SPACE
    avoidanceForce: real,          // AVOIDANCE_FORCE
    orderingRepulsionForce: real,  // ORDERING_REPULSION_FORCE
    verticalMovementFactor: real)  // VERTICAL_MOVEMENT_FACTOR
  {
    predicate Valid() {
      && personRadius > 0.0
      && orderTime > 0.0
      && holeRevisitCooldown > 0.0
      && holeWidth > 0.0
      && holeHeight > 0.0
      && roadHeight > 0.0
      && wallHeight > 0.0
      && personalSpace > 0.0
      && orderingPersonalSpace > 0.0
      && avoidanceForce > 0.0
      && orderingRepulsionForce > 0.0
    }
  }
}
