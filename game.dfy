/**
 * The `Game` object of Squaresyphus with pymunk and pygame taken away: the
 * progression fields it updates in place, the purchase, jump and ground-contact
 * handlers, the per-frame `update` and the boulder respawn.  The physics engine
 * is outside the model: it is represented by the set of boulder bodies in its
 * space and a counter that hands out fresh body handles, and what it reports
 * (contact callbacks, the boulder's height) arrives as method calls and
 * parameters.
 */
module GameModel {
  import opened Constants
  import opened Progression

  /** A handle on a body in the physics space. */
  type BodyId = nat

  /** The boulder the game tracks: its physics body and its radius. */
  datatype CurrentBoulder = CurrentBoulder(body: BodyId, radius: int)

  /** An impulse handed to the player's body, in pixels and physics units. */
  datatype Impulse = Impulse(dx: int, dy: int)

  class Game {
    var money: int
    var unlockedSizes: map<int, bool>
    var strengthXp: int
    var strengthLevel: int
    var strength: int
    var jumpForce: int
    var isGrounded: bool
    var jumpCooldown: int
    var spawnCooldown: int
    var boulder: CurrentBoulder
    /** The boulder bodies currently added to the physics space. */
    var boulderBodies: set<BodyId>
    /** The next body handle the physics space gives out; all earlier ones are used. */
    var nextBody: BodyId

    /** Money and unlocked sizes, the state a purchase works on. */
    function Purse(): Wallet
      reads this
    {
      Wallet(money, unlockedSizes)
    }

    /**
     * The invariant every handler keeps: money is never negative and small is
     * unlocked; the level lies between 1 and the level the experience earns
     * (hence at most 9) and strength matches it; the cooldowns lie within
     * their reset values; exactly one boulder, of the small radius, is in the
     * physics space.
     */
    ghost predicate Valid()
      reads this
    {
      && WalletValid(Purse())
      && strengthXp >= 0
      && 1 <= strengthLevel <= LevelFor(strengthXp)
      && strength == StrengthFor(strengthLevel)
      && jumpForce == BaseJumpForce
      && 0 <= jumpCooldown <= JumpCooldown
      && 0 <= spawnCooldown <= FallRespawnCooldown
      && boulder.radius == SmallRadius()
      && boulderBodies == {boulder.body}
      && boulder.body < nextBody
    }

    /**
     * `__init__`: `create_game_objects` spawns the first boulder (there is no
     * earlier one to remove), then `initialize_game_state` sets the fields.
     */
    constructor ()
      ensures Valid()
      ensures Purse() == InitialWallet()
      ensures strengthXp == 0 && strengthLevel == 1
      ensures strength == BaseStrength && jumpForce == BaseJumpForce
      ensures !isGrounded && jumpCooldown == 0 && spawnCooldown == 0
      ensures boulder.radius == SmallRadius() && boulderBodies == {boulder.body}
    {
      boulder := CurrentBoulder(0, BoulderSizes[Small]);
      boulderBodies := {0};
      nextBody := 1;
      var w := InitialWallet();
      money := w.money;
      unlockedSizes := w.unlocked;
      strengthXp := 0;
      strengthLevel := 1;
      strength := BaseStrength;
      jumpForce := BaseJumpForce;
      isGrounded := false;
      jumpCooldown := 0;
      spawnCooldown := 0;
    }

    /** `try_unlock_size`: buy `size` if it is affordable and still locked. */
    method TryUnlockSize(size: int)
      requires Valid()
      modifies this`money, this`unlockedSizes
      ensures Valid()
      ensures Purse() == TryUnlock(old(Purse()), size)
      ensures CanUnlock(old(Purse()), size) ==>
                money == old(money) - CostOf(size) && unlockedSizes == old(unlockedSizes)[size := true]
      ensures !CanUnlock(old(Purse()), size) ==>
                money == old(money) && unlockedSizes == old(unlockedSizes)
    {
      var cost := CostOf(size);
      if money >= cost && !IsUnlocked(unlockedSizes, size) {
        money := money - cost;
        unlockedSizes := unlockedSizes[size := true];
      }
    }

    /**
     * `handle_input`: a move impulse per pressed direction, then the jump
     * impulse if jump is pressed, the player is grounded and the jump cooldown
     * has run out, which restarts the cooldown.  Returns the impulses given to
     * the player's body, in order.
     */
    method HandleInput(left: bool, right: bool, jump: bool) returns (impulses: seq<Impulse>)
      requires Valid()
      modifies this`jumpCooldown
      ensures Valid()
      ensures Impulse(0, -jumpForce) in impulses <==> jump && isGrounded && old(jumpCooldown) <= 0
      ensures jumpCooldown == if jump && CanJump(isGrounded, old(jumpCooldown)) then JumpCooldown
                              else old(jumpCooldown)
      ensures impulses == (if left then [Impulse(-BaseMoveForce, 0)] else [])
                        + (if right then [Impulse(BaseMoveForce, 0)] else [])
                        + (if jump && CanJump(isGrounded, old(jumpCooldown)) then [Impulse(0, -jumpForce)] else [])
    {
      impulses := [];
      if left {
        impulses := impulses + [Impulse(-BaseMoveForce, 0)];
      }
      if right {
        impulses := impulses + [Impulse(BaseMoveForce, 0)];
      }
      if jump && CanJump(isGrounded, jumpCooldown) {
        impulses := impulses + [Impulse(0, -jumpForce)];
        jumpCooldown := JumpCooldown;
      }
    }

    /** `handle_ground_collision`: the player started touching terrain. */
    method OnGroundBegin() returns (process: bool)
      requires Valid()
      modifies this`isGrounded
      ensures Valid()
      ensures isGrounded && process
    {
      isGrounded := true;
      process := true;
    }

    /** `handle_ground_separation`: the player stopped touching terrain. */
    method OnGroundSeparate() returns (process: bool)
      requires Valid()
      modifies this`isGrounded
      ensures Valid()
      ensures !isGrounded && process
    {
      isGrounded := false;
      process := true;
    }

    /**
     * `spawn_boulder`: take the tracked boulder's body out of the physics
     * space, then add a new small boulder, which becomes the tracked one.
     */
    method SpawnBoulder()
      requires Valid()
      modifies this`boulder, this`boulderBodies, this`nextBody
      ensures Valid()
      ensures boulder.radius == SmallRadius()
      ensures boulderBodies == {boulder.body}
      ensures old(boulder.body) !in boulderBodies
      ensures boulder.body !in old(boulderBodies) && boulder.body >= old(nextBody)
    {
      assert boulder.body in boulderBodies;
      boulderBodies := boulderBodies - {boulder.body};
      var body := nextBody;
      nextBody := nextBody + 1;
      boulderBodies := boulderBodies + {body};
      boulder := CurrentBoulder(body, BoulderSizes[Small]);
    }

    /**
     * `check_level_up`: one step up when the experience meets the current
     * level's threshold, recomputing strength; jump force is left alone.
     */
    method CheckLevelUp()
      requires Valid()
      modifies this`strengthLevel, this`strength
      ensures Valid()
      ensures strengthLevel == LevelStep(old(strengthLevel), strengthXp)
      ensures strengthLevel == old(strengthLevel) ==> strength == old(strength)
      ensures strength == StrengthFor(strengthLevel)
    {
      LevelStepTowardsEarned(strengthLevel, strengthXp);
      var next := LevelStep(strengthLevel, strengthXp);
      if next != strengthLevel {
        strengthLevel := next;
        strength := StrengthFor(strengthLevel);
      }
    }

    /**
     * `check_boulder_state`: a boulder whose height `y` is past the bottom
     * margin is replaced and the spawn cooldown restarted.
     */
    method CheckBoulderState(y: real)
      requires Valid()
      modifies this`boulder, this`boulderBodies, this`nextBody, this`spawnCooldown
      ensures Valid()
      ensures BoulderFell(y) ==>
                && boulderBodies == {boulder.body}
                && boulder.body !in old(boulderBodies)
                && boulder.radius == SmallRadius()
                && spawnCooldown == FallRespawnCooldown
      ensures !BoulderFell(y) ==>
                && boulder == old(boulder)
                && boulderBodies == old(boulderBodies)
                && nextBody == old(nextBody)
                && spawnCooldown == old(spawnCooldown)
    {
      if BoulderFell(y) {
        SpawnBoulder();
        spawnCooldown := FallRespawnCooldown;
      }
    }

    /**
     * `update`, after the physics step: tick both cooldowns, check for a level
     * up, then check the boulder, whose height after the step is `boulderY`.
     */
    method Update(boulderY: real)
      requires Valid()
      modifies this`jumpCooldown, this`spawnCooldown, this`strengthLevel, this`strength
      modifies this`boulder, this`boulderBodies, this`nextBody
      ensures Valid()
      ensures jumpCooldown == CooldownStep(old(jumpCooldown))
      ensures spawnCooldown == if BoulderFell(boulderY) then FallRespawnCooldown
                               else CooldownStep(old(spawnCooldown))
      ensures strengthLevel == LevelStep(old(strengthLevel), strengthXp)
      ensures strength == StrengthFor(strengthLevel)
      ensures BoulderFell(boulderY) ==>
                boulderBodies == {boulder.body} && boulder.body !in old(boulderBodies)
      ensures !BoulderFell(boulderY) ==>
                boulder == old(boulder) && boulderBodies == old(boulderBodies) && nextBody == old(nextBody)
    {
      jumpCooldown := CooldownStep(jumpCooldown);
      spawnCooldown := CooldownStep(spawnCooldown);
      CheckLevelUp();
      CheckBoulderState(boulderY);
    }
  }
}
