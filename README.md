# Squaresyphus progression core in Dafny

Squaresyphus is a pygame/pymunk game: a square player pushes a boulder
up a hill. This project models the game's progression and cooldown state
machine, which lives in the `Game` class of `game.py`, together with the
constant tables in `utils/constants.py` that drive it. Rendering, audio and
the physics engine are not part of it.

- `constants.dfy`, module `Constants`: the tables as Dafny constants and maps.
  These are the boulder radii, unlock costs, money and XP rewards, per-level
  XP thresholds, collision tags, base strength, jump force and jump cooldown.
  `BOULDER_COSTS.get(size, 0)` becomes `CostOf`.
  `XP_REQUIREMENTS.get(level, float('inf'))` becomes `NextLevelRequirement`,
  where `None` stands for infinity.
- `progression.dfy`, module `Progression`: the transition rules as pure
  functions. They cover one purchase (`TryUnlock` on a `Wallet` of money and
  unlocked sizes), one frame of a cooldown (`CooldownStep`), the jump gate
  (`CanJump`), the one-step level check (`LevelStep`), the strength formula
  (`StrengthFor`) and the fall test (`BoulderFell`). `LevelFor` is an
  independent reference definition: the level that a total XP earns, given by
  the `EarnedLevel` predicate. The lemmas say what runs of steps do: purchases
  keep money non-negative and unlocks monotone, a cooldown reaches zero after
  that many frames, and the frame-by-frame level check climbs one level per
  frame to `LevelFor(xp)` and then stays there.
- `game.dfy`, module `GameModel`: class `Game`, with the fields the source
  updates in place. Its methods `TryUnlockSize`, `HandleInput`,
  `OnGroundBegin`, `OnGroundSeparate`, `SpawnBoulder`, `CheckLevelUp`,
  `CheckBoulderState` and `Update` state the new field values in terms of the
  functions above. Each keeps `Valid()`, which says:
  - money ≥ 0 and small is unlocked;
  - 1 ≤ level ≤ `LevelFor(xp)` ≤ 9, and strength matches the level;
  - jump force is unchanged;
  - the cooldowns stay within [0, 50] and [0, 60];
  - exactly one boulder body, of the small radius, is in the physics space.

The physics engine appears only at its interface:

- The boulder bodies in pymunk's space are a set of handles. A counter hands
  out fresh handles.
- The contact callbacks are the methods `OnGroundBegin` and `OnGroundSeparate`.
- The boulder's height after the physics step is the `real` parameter of
  `Update`.
- The impulses `handle_input` gives the player come back as a sequence of
  `Impulse` values.

The model follows the code as written, including these points:

- The level check compares the total XP with the current level's threshold.
  It rises at most one level per frame. It does not subtract thresholds, and
  it does not recompute jump force.
- A jump does not clear `is_grounded`. Only the separation callback does.
- `handle_ground_separation` clears `is_grounded` on any separation from a
  terrain shape. The ground, the three hill segments and the three walls are
  separate shapes, so a player who leaves one while still touching another is
  marked not grounded. `OnGroundSeparate` does the same.
- `spawn_boulder` always spawns the small radius. Nothing checks
  `spawn_cooldown` or the unlocked sizes before a spawn.
- A purchase does not require the next-smaller size to be unlocked.
- `BASE_STRENGTH * (1 + (level - 1) * 0.5)` is a float in the source.
  `StrengthFor` is the integer 36 + 18·(level − 1). Its contract proves this
  equals the formula over the reals.

## Model

| member | source | states |
|---|---|---|
| Constants.SmallRadius | utils/constants.py:21-32 | the small radius is the smallest one and has no unlock cost |
| Constants.CostOf | game.py:163 | a size's price is never negative, and it is zero exactly when the size has no entry in the cost table |
| Constants.NextLevelRequirement | game.py:213 | a positive threshold exists exactly for levels 1 to 8; beyond them the lookup gives the infinite fallback |
| Constants.BoulderSizesIncrease | utils/constants.py:21-26 | radii strictly increase: small 40 < medium 50 < large 80 < huge 120 |
| Constants.CostsIncreaseWithRadius | utils/constants.py:28-32 | costs are given for medium, large and huge only (not small) and strictly increase with radius |
| Constants.RewardsIncreaseWithRadius | utils/constants.py:34-39 | money rewards are defined for all four radii and strictly increase with radius |
| Constants.XpRewardsIncreaseWithRadius | utils/constants.py:41-46 | XP rewards are defined for all four radii and strictly increase with radius |
| Constants.XpRequirementsIncrease | utils/constants.py:49-58 | thresholds have keys exactly 1..8 (9 is absent) and strictly increase |
| Constants.CollisionTypesDistinct | utils/constants.py:67-72 | the four collision tags are pairwise distinct; the player, terrain and boulder entries equal the literal tags 1, 2 and 3 that the entity and terrain code writes (the shapes themselves are not modelled) |
| Constants.PlayerConstantsPositive | utils/constants.py:15-18 | base strength, base jump force and jump cooldown are positive |
| Progression.InitialWallet | game.py:118-134 | a fresh game has money 0 and exactly the four radii as keys, of which only small is unlocked |
| Progression.IsUnlocked | game.py:164 | `unlocked_sizes.get(size, False)`: a size with no entry counts as locked, otherwise its stored flag decides |
| Progression.CanUnlock | game.py:163-164 | the purchase guard: when it holds, money covers the cost and stays ≥ 0 after paying; it never holds for a size already unlocked; for a size without a price it holds iff money ≥ 0 and the size is locked |
| Progression.TryUnlock | game.py:162-166 | a purchase succeeds iff money ≥ cost and the size is locked; success subtracts exactly the cost and unlocks the size, failure changes nothing; no other size changes, no unlock is undone, money stays ≥ 0 |
| Progression.UnlockWithoutPriceIsFree | game.py:163-166 | a size with no cost entry is unlocked for free whenever it is still locked |
| Progression.RepeatedUnlockChangesNothing | game.py:164-166 | buying the same size twice has the effect of buying it once |
| Progression.PurchasesKeepWalletValid | game.py:162-166 | over any sequence of purchase attempts money stays ≥ 0 and never grows, small stays unlocked, and no unlocked size reverts |
| Progression.CooldownStep | game.py:198-201 | a tick lowers a positive cooldown by exactly 1, leaves a non-positive one unchanged, and keeps a non-negative one in [0, c] |
| Progression.CooldownAfterFrames | game.py:198-201 | after n ticks a cooldown c ≥ 0 is max(c − n, 0) |
| Progression.JumpBlockedForCooldown | game.py:185-201 | with `handle_input` then `update` in each frame, a grounded player who jumps in frame f is blocked in frames f+1 to f+49 and may jump again from frame f+50 on |
| Progression.CanJump | game.py:185 | the jump gate: never open off the ground or while the cooldown is positive, and open on the ground once the cooldown is 0 |
| Progression.StrengthFor | game.py:216 | the integer strength equals 36·(1 + 0.5·(level − 1)) over the reals, and is positive for every level ≥ 1 |
| Progression.LevelStep | game.py:212-216 | the level check raises the level by at most 1, and does so iff level ≤ 8 and xp ≥ XP_REQUIREMENTS[level]; a level in 1..9 stays in 1..9 |
| Progression.LevelFrom | game.py:212-215 | repeating the level check from a level whose lower thresholds are all met ends at a level no lower, which is the level the XP earns under the threshold table |
| Progression.LevelFor | utils/constants.py:49-58 | the reference level for a total XP: every lower threshold met, its own (if any) not met, within 1..9 |
| Progression.LevelForUnique | utils/constants.py:49-58 | exactly one level satisfies the reference definition for a given XP |
| Progression.LevelForZero | game.py:120-121 | the starting XP 0 earns the starting level 1 |
| Progression.LevelForMonotone | utils/constants.py:49-58 | more XP never earns a lower level |
| Progression.TopLevelThreshold | game.py:213-214 | level 9, the cap, is earned exactly when xp ≥ 2000 |
| Progression.LevelStepTowardsEarned | game.py:212-215 | below the earned level the check raises the level by one; at the earned level it does nothing |
| Progression.LevelStepsConverge | game.py:203-204 | n frames of level checks from a level at or below the earned one reach min(level + n, LevelFor(xp)) |
| Progression.BoulderFell | game.py:230 | the fall test holds exactly when the height exceeds WINDOW_HEIGHT + 100 = 700, so only below the window |
| GameModel.Game.constructor | game.py:113-134 | a fresh game has the initial wallet, XP 0, level 1, base strength and jump force, not grounded, both cooldowns 0, one small boulder |
| GameModel.Game.TryUnlockSize | game.py:162-166 | the new money and unlocked sizes are TryUnlock of the old ones; the invariant is kept |
| GameModel.Game.HandleInput | game.py:175-187 | move impulses for each pressed direction; the jump impulse is given iff jump is pressed, grounded and cooldown ≤ 0, and then the cooldown is set to 50, otherwise unchanged |
| GameModel.Game.OnGroundBegin | game.py:144-146 | begin contact with terrain sets grounded and lets the collision proceed |
| GameModel.Game.OnGroundSeparate | game.py:148-150 | separation from terrain clears grounded and lets the collision proceed |
| GameModel.Game.SpawnBoulder | game.py:152-160 | the old boulder's body leaves the space, and a fresh small boulder is the only one tracked afterwards |
| GameModel.Game.CheckLevelUp | game.py:212-216 | the level becomes LevelStep of the old level; strength is recomputed for it; jump force is untouched; level stays ≤ LevelFor(xp) |
| GameModel.Game.CheckBoulderState | game.py:229-232 | iff y > WINDOW_HEIGHT + 100 the boulder is replaced by a fresh small one and the spawn cooldown becomes 60; otherwise nothing changes |
| GameModel.Game.Update | game.py:189-210 | one frame: both cooldowns tick, then one level check, then the boulder check, in that order |

## Left out

- Physics simulation: `space.step` is not modelled. The same goes for the
  impulses' effect on bodies, the terrain builders, the `Sisyphus` and
  `Boulder` constructors' mass and moment, and `Sisyphus.resize`. These are
  pymunk calls. Only the body handles, the contact callbacks and the boulder's
  height appear.
- Contact callbacks: the model does not receive pymunk's `arbiter`, `space`
  and `data` arguments, because the handlers ignore them.
- `update_camera` and the `camera_x` field are left out. They are float
  smoothing by 0.1, clamped to [0, 800], and nothing in the progression
  reads them.
- Cosmetic systems: particles, clouds and the level-up particle burst. They
  use random numbers and floats and do not feed back into the game state.
- Presentation: `draw`, `draw_ui`, `setup_ui`, `Button`, the fonts and
  sprites in `load_assets`, and `toggle_music` with the `music_enabled` field.
  These are rendering and audio I/O.
- The loop: `run` polls pygame events and keys, and `main.py` shows a splash
  screen. Key presses arrive as the booleans of `HandleInput`, and button
  clicks arrive as calls to `TryUnlockSize`. As written, `__init__` never
  calls `setup_ui` (game.py:68-69), the only code that creates
  `self.buttons`. Yet `run` (game.py:282) and `draw_ui` (game.py:272) loop
  over it. So the program raises AttributeError in its first frame, in
  `draw_ui` at the latest, and no button can ever call `try_unlock_size`.
  `TryUnlockSize` models the purchase those buttons are meant to trigger.
- `hill_passes`, `BOULDER_REWARDS` and `XP_REWARDS`: game.py never
  reads them. There is no pass detection, reward payout or save/load in it,
  so none is modelled. The reward tables are modelled as constants only.
- Raising XP: nothing in game.py raises `strength_xp`. The class keeps
  it fixed, and `Valid()` admits any XP ≥ 0. The lemmas about levels take XP
  as a parameter.
- Removing a body twice: `remove_from_space` would raise inside pymunk if the
  body were absent. `SpawnBoulder` shows that it is always present, so the
  error path never arises and is not modelled.
- `sisyphus-cursor-newtry1.py` is a standalone physics prototype and is not
  part of this model.
