/**
 * The constant tables that drive Squaresyphus's progression: boulder radii,
 * unlock costs, per-pass rewards, per-level experience thresholds, the
 * physics collision tags and the player's base strength, jump force and
 * jump cooldown.  Python dictionaries become Dafny maps; the string keys of
 * BOULDER_SIZES and COLLISION_TYPES become the constructors of small
 * datatypes.
 */
module Constants {

  datatype Option<T> = None | Some(value: T)

  // Window settings
  const WindowHeight: int := 600

  // Player settings
  const BaseJumpForce: int := 3000
  const BaseMoveForce: int := 100
  const BaseStrength: int := 36
  const JumpCooldown: int := 50

  /** The keys of BOULDER_SIZES. */
  datatype SizeName = Small | Medium | Large | Huge

  const BoulderSizes: map<SizeName, int> :=
    map[Small := 40, Medium := 50, Large := 80, Huge := 120]

  /** Unlock price per radius; the small radius is free and has no entry. */
  const BoulderCosts: map<int, int> :=
    map[50 := 10, 80 := 100, 120 := 500]

  /** Money per pass, per radius (defined, but nothing in the game reads it). */
  const BoulderRewards: map<int, int> :=
    map[40 := 1, 50 := 5, 80 := 20, 120 := 100]

  /** Experience per pass, per radius (defined, but nothing in the game reads it). */
  const XpRewards: map<int, int> :=
    map[40 := 1, 50 := 5, 80 := 10, 120 := 20]

  /** Total experience needed to leave each level; levels 9 and up have no entry. */
  const XpRequirements: map<int, int> :=
    map[1 := 10, 2 := 20, 3 := 50, 4 := 100, 5 := 200, 6 := 500, 7 := 1000, 8 := 2000]

  /** The keys of COLLISION_TYPES. */
  datatype CollisionKind = PlayerKind | TerrainKind | BoulderKind | CrushingBoulderKind

  const CollisionTypes: map<CollisionKind, int> :=
    map[PlayerKind := 1, TerrainKind := 2, BoulderKind := 3, CrushingBoulderKind := 4]

  // The literal tags the entity constructors and the terrain builders write on
  // their shapes.  The shapes themselves are not modelled, so comparing these
  // with the table only checks the table's values.
  const SisyphusShapeTag: int := 1
  const TerrainShapeTag: int := 2
  const BoulderShapeTag: int := 3

  /** The radius of the smallest boulder, the one the game always spawns. */
  function SmallRadius(): (r: int)
    ensures r !in BoulderCosts
    ensures forall n :: n in BoulderSizes ==> r <= BoulderSizes[n]
  {
    BoulderSizes[Small]
  }

  /** `BOULDER_COSTS.get(size, 0)`: the price of a radius, free when it has no entry. */
  function CostOf(size: int): (cost: int)
    ensures cost >= 0
    ensures cost == 0 <==> size !in BoulderCosts
    ensures size in BoulderCosts ==> cost == BoulderCosts[size]
  {
    if size in BoulderCosts then BoulderCosts[size] else 0
  }

  /**
   * `XP_REQUIREMENTS.get(level, float('inf'))`: the experience threshold for
   * leaving `level`, or None where the source substitutes infinity.
   */
  function NextLevelRequirement(level: int): (req: Option<int>)
    ensures req.Some? <==> 1 <= level <= 8
    ensures req.Some? ==> req.value == XpRequirements[level] && req.value > 0
  {
    if level in XpRequirements then Some(XpRequirements[level]) else None
  }

  /** Small 40 < medium 50 < large 80 < huge 120. */
  lemma BoulderSizesIncrease()
    ensures BoulderSizes[Small] < BoulderSizes[Medium] < BoulderSizes[Large] < BoulderSizes[Huge]
    ensures BoulderSizes[Small] == 40 && BoulderSizes[Huge] == 120
  {
  }

  /** Costs exist exactly for medium, large and huge, and grow with the radius. */
  lemma CostsIncreaseWithRadius()
    ensures BoulderCosts.Keys == {BoulderSizes[Medium], BoulderSizes[Large], BoulderSizes[Huge]}
    ensures BoulderSizes[Small] !in BoulderCosts
    ensures forall r1, r2 :: r1 in BoulderCosts && r2 in BoulderCosts && r1 < r2 ==>
              BoulderCosts[r1] < BoulderCosts[r2]
  {
  }

  /** Money rewards exist for every radius and grow with it. */
  lemma RewardsIncreaseWithRadius()
    ensures BoulderRewards.Keys == BoulderSizes.Values
    ensures forall r1, r2 :: r1 in BoulderRewards && r2 in BoulderRewards && r1 < r2 ==>
              BoulderRewards[r1] < BoulderRewards[r2]
  {
    assert BoulderSizes.Values == {40, 50, 80, 120} by {
      assert BoulderSizes[Small] == 40 && BoulderSizes[Medium] == 50;
      assert BoulderSizes[Large] == 80 && BoulderSizes[Huge] == 120;
    }
  }

  /** Experience rewards exist for every radius and grow with it. */
  lemma XpRewardsIncreaseWithRadius()
    ensures XpRewards.Keys == BoulderSizes.Values
    ensures forall r1, r2 :: r1 in XpRewards && r2 in XpRewards && r1 < r2 ==>
              XpRewards[r1] < XpRewards[r2]
  {
    assert BoulderSizes.Values == {40, 50, 80, 120} by {
      assert BoulderSizes[Small] == 40 && BoulderSizes[Medium] == 50;
      assert BoulderSizes[Large] == 80 && BoulderSizes[Huge] == 120;
    }
  }

  /** Thresholds are given for levels 1 to 8 only, and rise strictly with the level. */
  lemma XpRequirementsIncrease()
    ensures forall l :: l in XpRequirements <==> 1 <= l <= 8
    ensures 9 !in XpRequirements
    ensures forall l1, l2 :: l1 in XpRequirements && l2 in XpRequirements && l1 < l2 ==>
              XpRequirements[l1] < XpRequirements[l2]
  {
  }

  /** The four tags differ, and three of them are the ones the shapes carry. */
  lemma CollisionTypesDistinct()
    ensures forall k1, k2 :: k1 in CollisionTypes && k2 in CollisionTypes && k1 != k2 ==>
              CollisionTypes[k1] != CollisionTypes[k2]
    ensures CollisionTypes[PlayerKind] == SisyphusShapeTag
    ensures CollisionTypes[TerrainKind] == TerrainShapeTag
    ensures CollisionTypes[BoulderKind] == BoulderShapeTag
  {
  }

  /** The strength base and the jump cooldown are positive. */
  lemma PlayerConstantsPositive()
    ensures BaseStrength > 0 && JumpCooldown > 0 && BaseJumpForce > 0
  {
  }
}
