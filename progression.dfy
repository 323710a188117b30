/**
 * The transition rules of Squaresyphus's progression, as pure functions:
 * buying a boulder size, ticking a cooldown, the one-step level check and the
 * strength it recomputes, and the boulder-fall test.  The `Game` class in
 * module GameModel performs these steps on its fields; the lemmas here say
 * what many steps in a row do.
 */
module Progression {
  import opened Constants

  /** Frames the spawn cooldown is set to when a fallen boulder is respawned. */
  const FallRespawnCooldown: int := 60

  // ---------------------------------------------------------------------------
  // Buying boulder sizes
  // ---------------------------------------------------------------------------

  /** The part of the game state a purchase reads and writes. */
  datatype Wallet = Wallet(money: int, unlocked: map<int, bool>)

  /** `unlocked_sizes.get(size, False)`: a size with no entry counts as locked. */
  predicate IsUnlocked(unlocked: map<int, bool>, size: int): (b: bool)
    ensures size !in unlocked ==> !b
    ensures size in unlocked ==> (b <==> unlocked[size])
  {
    size in unlocked && unlocked[size]
  }

  /** The guard of a purchase: enough money and not bought before. */
  predicate CanUnlock(w: Wallet, size: int): (b: bool)
    ensures b ==> w.money - CostOf(size) >= 0 && w.money >= 0
    ensures IsUnlocked(w.unlocked, size) ==> !b
    ensures size !in BoulderCosts ==> (b <==> w.money >= 0 && !IsUnlocked(w.unlocked, size))
  {
    w.money >= CostOf(size) && !IsUnlocked(w.unlocked, size)
  }

  /** Every size unlocked in `before` is still unlocked in `after`. */
  ghost predicate KeepsUnlocks(before: map<int, bool>, after: map<int, bool>)
  {
    forall s :: IsUnlocked(before, s) ==> IsUnlocked(after, s)
  }

  /** What every reachable wallet satisfies. */
  predicate WalletValid(w: Wallet)
  {
    w.money >= 0 && IsUnlocked(w.unlocked, SmallRadius())
  }

  /** The wallet of a fresh game: no money, only the small size unlocked. */
  function InitialWallet(): (w: Wallet)
    ensures WalletValid(w) && w.money == 0
    ensures w.unlocked.Keys == BoulderSizes.Values
    ensures forall s :: s in BoulderSizes.Values ==> (IsUnlocked(w.unlocked, s) <==> s == SmallRadius())
  {
    assert BoulderSizes.Values == {40, 50, 80, 120} by {
      assert BoulderSizes[Small] == 40 && BoulderSizes[Medium] == 50;
      assert BoulderSizes[Large] == 80 && BoulderSizes[Huge] == 120;
    }
    Wallet(0, map[BoulderSizes[Small] := true, BoulderSizes[Medium] := false,
                  BoulderSizes[Large] := false, BoulderSizes[Huge] := false])
  }

  /** One press of a "Boulder <size>px" button. */
  function TryUnlock(w: Wallet, size: int): (w': Wallet)
    ensures IsUnlocked(w'.unlocked, size) <==> IsUnlocked(w.unlocked, size) || w.money >= CostOf(size)
    ensures w'.money == if CanUnlock(w, size) then w.money - CostOf(size) else w.money
    ensures !CanUnlock(w, size) ==> w' == w
    ensures w'.unlocked - {size} == w.unlocked - {size}
    ensures KeepsUnlocks(w.unlocked, w'.unlocked)
    ensures WalletValid(w) ==> WalletValid(w')
  {
    if CanUnlock(w, size) then Wallet(w.money - CostOf(size), w.unlocked[size := true]) else w
  }

  /** A size with no price is unlocked for nothing whenever it is still locked. */
  lemma UnlockWithoutPriceIsFree(w: Wallet, size: int)
    requires size !in BoulderCosts && !IsUnlocked(w.unlocked, size) && w.money >= 0
    ensures TryUnlock(w, size) == Wallet(w.money, w.unlocked[size := true])
  {
  }

  /** Pressing the same button twice costs no more than pressing it once. */
  lemma RepeatedUnlockChangesNothing(w: Wallet, size: int)
    ensures TryUnlock(TryUnlock(w, size), size) == TryUnlock(w, size)
  {
  }

  /** A run of button presses, in order. */
  function TryUnlockAll(w: Wallet, sizes: seq<int>): Wallet
    decreases |sizes|
  {
    if sizes == [] then w else TryUnlockAll(TryUnlock(w, sizes[0]), sizes[1..])
  }

  /**
   * Over any run of purchases money stays non-negative and never grows, the
   * small size stays unlocked and no unlocked size is ever locked again.
   */
  lemma {:induction false} PurchasesKeepWalletValid(w: Wallet, sizes: seq<int>)
    requires WalletValid(w)
    ensures WalletValid(TryUnlockAll(w, sizes))
    ensures TryUnlockAll(w, sizes).money <= w.money
    ensures KeepsUnlocks(w.unlocked, TryUnlockAll(w, sizes).unlocked)
    decreases |sizes|
  {
    if sizes != [] {
      var w1 := TryUnlock(w, sizes[0]);
      PurchasesKeepWalletValid(w1, sizes[1..]);
    }
  }

  // ---------------------------------------------------------------------------
  // Cooldowns
  // ---------------------------------------------------------------------------

  /** One frame of a cooldown counter: a positive counter goes down by one. */
  function CooldownStep(c: int): (r: int)
    ensures r == c <==> c <= 0
    ensures c > 0 ==> r == c - 1
    ensures c >= 0 ==> 0 <= r <= c
  {
    if c > 0 then c - 1 else c
  }

  /** A cooldown counter after `n` frames. */
  function CooldownAfter(c: int, n: nat): int
  {
    if n == 0 then c else CooldownAfter(CooldownStep(c), n - 1)
  }

  /** A non-negative counter reaches zero after that many frames and stays there. */
  lemma {:induction false} CooldownAfterFrames(c: int, n: nat)
    requires c >= 0
    ensures CooldownAfter(c, n) == if n >= c then 0 else c - n
  {
    if n > 0 {
      CooldownAfterFrames(CooldownStep(c), n - 1);
    }
  }

  /** The jump gate of `handle_input`: on the ground and the cooldown run out. */
  predicate CanJump(grounded: bool, cooldown: int): (b: bool)
    ensures !grounded ==> !b
    ensures cooldown > 0 ==> !b
    ensures grounded && cooldown == 0 ==> b
  {
    grounded && cooldown <= 0
  }

  /**
   * A frame runs `handle_input` and then `update`.  If the player jumps in
   * frame f, the jump gate in frame f + n sees the cooldown after n ticks, so
   * it is closed for n < JumpCooldown (the 49 frames in between) and open
   * again from frame f + JumpCooldown on, for a grounded player.
   */
  lemma JumpBlockedForCooldown(n: nat)
    ensures !CanJump(true, CooldownAfter(JumpCooldown, n)) <==> n < JumpCooldown
  {
    CooldownAfterFrames(JumpCooldown, n);
  }

  // ---------------------------------------------------------------------------
  // Levels and strength
  // ---------------------------------------------------------------------------

  /** `BASE_STRENGTH * (1 + (level - 1) * 0.5)`, an integer since BaseStrength is even. */
  function StrengthFor(level: int): (s: int)
    ensures s as real == BaseStrength as real * (1.0 + (level - 1) as real * 0.5)
    ensures level >= 1 ==> s >= BaseStrength > 0
  {
    BaseStrength + (level - 1) * (BaseStrength / 2)
  }

  /** `check_level_up`: leave `level` when the total experience meets its threshold. */
  function LevelStep(level: int, xp: int): (l: int)
    ensures l == level || l == level + 1
    ensures l == level + 1 <==> 1 <= level <= 8 && xp >= XpRequirements[level]
    ensures 1 <= level <= 9 ==> 1 <= l <= 9
  {
    match NextLevelRequirement(level)
    case Some(req) => if xp >= req then level + 1 else level
    case None => level
  }

  /**
   * `l` is the level total experience `xp` has earned: every threshold below
   * it is met and its own (if it has one) is not.
   */
  ghost predicate EarnedLevel(xp: int, l: int)
  {
    && 1 <= l <= 9
    && (forall k :: 1 <= k < l ==> k in XpRequirements && XpRequirements[k] <= xp)
    && (l <= 8 ==> xp < XpRequirements[l])
  }

  /**
   * Climbs from `level` while the experience meets the current threshold; the
   * caller guarantees every threshold below `level` is met.
   */
  function LevelFrom(level: int, xp: int): (l: int)
    requires 1 <= level <= 9
    requires forall k :: 1 <= k < level ==> k in XpRequirements && XpRequirements[k] <= xp
    ensures level <= l && EarnedLevel(xp, l)
    decreases 9 - level
  {
    var next := LevelStep(level, xp);
    if next == level then level else LevelFrom(next, xp)
  }

  /** The level total experience `xp` earns. */
  function LevelFor(xp: int): (l: int)
    ensures EarnedLevel(xp, l)
  {
    LevelFrom(1, xp)
  }

  /** EarnedLevel pins down one level. */
  lemma LevelForUnique(xp: int, l: int)
    requires EarnedLevel(xp, l)
    ensures l == LevelFor(xp)
  {
  }

  /** A fresh game's zero experience earns level 1. */
  lemma LevelForZero()
    ensures LevelFor(0) == 1
  {
  }

  /** More experience never earns a lower level. */
  lemma LevelForMonotone(x1: int, x2: int)
    requires x1 <= x2
    ensures LevelFor(x1) <= LevelFor(x2)
  {
  }

  /** The top level 9 is earned exactly from the last threshold on. */
  lemma TopLevelThreshold(xp: int)
    ensures LevelFor(xp) == 9 <==> xp >= XpRequirements[8]
  {
  }

  /** Below its earned level the check raises by one; at it, the check does nothing. */
  lemma LevelStepTowardsEarned(level: int, xp: int)
    requires 1 <= level <= LevelFor(xp)
    ensures LevelStep(level, xp) == if level < LevelFor(xp) then level + 1 else level
  {
  }

  /** The level after `n` frames of `check_level_up` at a fixed experience. */
  function LevelAfter(level: int, xp: int, n: nat): int
    decreases n
  {
    if n == 0 then level else LevelAfter(LevelStep(level, xp), xp, n - 1)
  }

  function Min(a: int, b: int): int
  {
    if a <= b then a else b
  }

  /**
   * Starting at or below the earned level, the frame-by-frame check climbs one
   * level per frame until it reaches the earned level and then stays there.
   */
  lemma {:induction false} LevelStepsConverge(level: int, xp: int, n: nat)
    requires 1 <= level <= LevelFor(xp)
    ensures LevelAfter(level, xp, n) == Min(level + n, LevelFor(xp))
    decreases n
  {
    if n > 0 {
      LevelStepTowardsEarned(level, xp);
      LevelStepsConverge(LevelStep(level, xp), xp, n - 1);
    }
  }

  // ---------------------------------------------------------------------------
  // Boulder lifecycle
  // ---------------------------------------------------------------------------

  /** `check_boulder_state`: the boulder has fallen more than 100 below the window. */
  predicate BoulderFell(y: real): (b: bool)
    ensures b ==> y > WindowHeight as real
    ensures b <==> y > 700.0
  {
    y > (WindowHeight + 100) as real
  }
}
