/**
 The combat and equip state machine of the player controller, as pure values.

 One rendered frame runs three phases in source order: an equip attempt when the
 F key went down, an attack when the mouse button went down while a weapon is held
 and the cooldown has expired, and the idle reset of the combo counter. The class
 in module Player is proved to follow these definitions; the lemmas here state
 what the definitions promise. Time is an exact real number of seconds.
 */
module Combat {

  datatype Option<T> = None | Some(value: T)

  /** Identity of a weapon object returned by the overlap query. */
  datatype Weapon = Weapon(id: nat)

  /** The tunables, fixed for a session, and whether an animator is attached. */
  datatype Config = Config(comboResetTime: real, attackRate: real, hasAnimator: bool)

  /** The combat fields of the controller. */
  datatype CombatState = CombatState(
    combo: int,              // comboCounter
    lastClicked: real,       // lastClickedTime
    nextAttack: real,        // nextAttackTime
    weapon: Option<Weapon>)  // currentWeapon, None standing for null

  /** What one frame hands to the combat logic: the clock, the two button edges
      and what the overlap query around the player returns. */
  datatype Frame = Frame(now: real, fPressed: bool, clicked: bool, hits: seq<Weapon>)

  /** Writes to the animator's parameter bus that concern combat. */
  datatype AnimEvent = ComboCount(value: int) | OnAttack

  /** The highest combo step before the counter wraps. */
  const MaxCombo: int := 5

  ghost predicate ValidState(s: CombatState) {
    0 <= s.combo <= MaxCombo
  }

  /** Every ComboCount value in the log is a legal combo step. */
  ghost predicate EventsInRange(evs: seq<AnimEvent>) {
    forall i :: 0 <= i < |evs| && evs[i].ComboCount? ==> 0 <= evs[i].value <= MaxCombo
  }

  /** The field initialisers: no combo, both timestamps zero, empty hand. */
  function Initial(): (s: CombatState)
    ensures s.combo == 0 && s.lastClicked == 0.0 && s.nextAttack == 0.0 && s.weapon == None
    ensures ValidState(s)
  {
    CombatState(0, 0.0, 0.0, None)
  }

  /** The counter after an attack: incremented, and 6 wrapped back to 1. */
  function NextCombo(c: int): (r: int)
    ensures 0 <= c < MaxCombo ==> r == c + 1
    ensures c == MaxCombo ==> r == 1
    ensures 0 <= c <= MaxCombo ==> 1 <= r <= MaxCombo
  {
    var bumped := c + 1;
    if bumped > MaxCombo then 1 else bumped
  }

  /** PerformAttack: records the click, arms the cooldown and advances the combo. */
  function Attack(s: CombatState, cfg: Config, now: real): (r: CombatState)
    ensures r.lastClicked == now && r.nextAttack == now + cfg.attackRate
    ensures r.combo == NextCombo(s.combo) && r.weapon == s.weapon
    ensures ValidState(s) ==> ValidState(r) && r.combo >= 1
  {
    s.(combo := NextCombo(s.combo), lastClicked := now, nextAttack := now + cfg.attackRate)
  }

  /** The animator writes of PerformAttack, given the state it produced. */
  function AttackEvents(cfg: Config, after: CombatState): (evs: seq<AnimEvent>)
    ensures OnAttack in evs <==> cfg.hasAnimator
    ensures ComboCount(after.combo) in evs <==> cfg.hasAnimator
    ensures forall e :: e in evs && e.ComboCount? ==> e.value == after.combo
    ensures ValidState(after) ==> EventsInRange(evs)
  {
    if cfg.hasAnimator then [ComboCount(after.combo), OnAttack] else []
  }

  /** TryEquipWeapon followed by Equip, on the weapon slot alone. */
  function TryEquip(held: Option<Weapon>, hits: seq<Weapon>): (r: Option<Weapon>)
    ensures held.Some? ==> r == held
    ensures held.None? && |hits| == 0 ==> r == None
    ensures held.None? && |hits| > 0 ==> r == Some(hits[0])
  {
    if held.Some? then held
    else if |hits| > 0 then Some(hits[0])
    else None
  }

  /** Phase 1: an equip attempt on an F key edge. Only the slot can change. */
  function EquipPhase(s: CombatState, f: Frame): (r: CombatState)
    ensures !f.fPressed ==> r == s
    ensures f.fPressed ==> r.weapon == TryEquip(s.weapon, f.hits)
    ensures r.combo == s.combo && r.lastClicked == s.lastClicked && r.nextAttack == s.nextAttack
    ensures s.weapon.Some? ==> r.weapon == s.weapon
  {
    if f.fPressed then s.(weapon := TryEquip(s.weapon, f.hits)) else s
  }

  /** The attack gate: a click edge, a weapon in hand, and the cooldown expired. */
  predicate CanAttack(s: CombatState, f: Frame) {
    f.clicked && s.weapon.Some? && f.now >= s.nextAttack
  }

  /** Phase 2: the attack, or nothing at all when the gate is shut. */
  function AttackPhase(s: CombatState, cfg: Config, f: Frame): (r: CombatState)
    ensures !CanAttack(s, f) ==> r == s
    ensures CanAttack(s, f) ==> r.lastClicked == f.now && r.combo == NextCombo(s.combo)
    ensures CanAttack(s, f) ==> r.nextAttack == f.now + cfg.attackRate
    ensures r.weapon == s.weapon
  {
    if CanAttack(s, f) then Attack(s, cfg, f.now) else s
  }

  /** The idle test of phase 3: strictly more than the reset window since the last click. */
  predicate ResetDue(s: CombatState, cfg: Config, now: real) {
    now - s.lastClicked > cfg.comboResetTime
  }

  /** Phase 3: zero the counter once the idle window has passed. */
  function ResetPhase(s: CombatState, cfg: Config, now: real): (r: CombatState)
    ensures ResetDue(s, cfg, now) ==> r.combo == 0
    ensures !ResetDue(s, cfg, now) ==> r == s
    ensures r.lastClicked == s.lastClicked && r.nextAttack == s.nextAttack && r.weapon == s.weapon
  {
    if ResetDue(s, cfg, now) then s.(combo := 0) else s
  }

  /** The animator write of the idle reset: a zero combo count, if an animator is attached. */
  function ResetEvents(cfg: Config): (evs: seq<AnimEvent>)
    ensures forall e :: e in evs ==> e == ComboCount(0)
    ensures evs != [] <==> cfg.hasAnimator
    ensures EventsInRange(evs)
  {
    if cfg.hasAnimator then [ComboCount(0)] else []
  }

  /** The combat slice of one Update call. */
  function Step(s: CombatState, cfg: Config, f: Frame): (r: CombatState)
    ensures ValidState(s) ==> ValidState(r)
    ensures s.weapon.Some? ==> r.weapon == s.weapon
  {
    ResetPhase(AttackPhase(EquipPhase(s, f), cfg, f), cfg, f.now)
  }

  /** The animator writes of one Update call that concern combat, in order. */
  function StepEvents(s: CombatState, cfg: Config, f: Frame): (evs: seq<AnimEvent>)
    ensures ValidState(s) ==> EventsInRange(evs)
  {
    var equipped := EquipPhase(s, f);
    var attacked := AttackPhase(equipped, cfg, f);
    (if CanAttack(equipped, f) then AttackEvents(cfg, attacked) else [])
      + (if ResetDue(attacked, cfg, f.now) then ResetEvents(cfg) else [])
  }

  /** The state after a sequence of frames. */
  function Run(s: CombatState, cfg: Config, frames: seq<Frame>): (r: CombatState)
    decreases |frames|
  {
    if |frames| == 0 then s
    else Step(Run(s, cfg, frames[..|frames| - 1]), cfg, frames[|frames| - 1])
  }

  /** Everything the combat logic writes to the animator over a sequence of frames. */
  function RunEvents(s: CombatState, cfg: Config, frames: seq<Frame>): (evs: seq<AnimEvent>)
    decreases |frames|
  {
    if |frames| == 0 then []
    else
      var prefix := frames[..|frames| - 1];
      RunEvents(s, cfg, prefix) + StepEvents(Run(s, cfg, prefix), cfg, frames[|frames| - 1])
  }

  // ---------------------------------------------------------------------------
  // One frame

  /** A click that the gate refuses changes neither timestamp, and the counter only
      through the idle reset; the animator gets nothing but the reset's zero count. */
  lemma RefusedClickChangesNothing(s: CombatState, cfg: Config, f: Frame)
    requires !CanAttack(EquipPhase(s, f), f)
    ensures Step(s, cfg, f).lastClicked == s.lastClicked
    ensures Step(s, cfg, f).nextAttack == s.nextAttack
    ensures Step(s, cfg, f).combo == if ResetDue(s, cfg, f.now) then 0 else s.combo
    ensures StepEvents(s, cfg, f) == if ResetDue(s, cfg, f.now) then ResetEvents(cfg) else []
  {
  }

  /** A frame whose reset test fires ends with the counter at zero. */
  lemma IdleResetZeroes(s: CombatState, cfg: Config, f: Frame)
    requires ResetDue(AttackPhase(EquipPhase(s, f), cfg, f), cfg, f.now)
    ensures Step(s, cfg, f).combo == 0
    ensures cfg.hasAnimator ==> StepEvents(s, cfg, f)[|StepEvents(s, cfg, f)| - 1] == ComboCount(0)
  {
  }

  /** With a non-negative window, an attack survives the reset test of its own frame. */
  lemma AttackSurvivesReset(s: CombatState, cfg: Config, f: Frame)
    requires CanAttack(EquipPhase(s, f), f) && cfg.comboResetTime >= 0.0
    ensures Step(s, cfg, f).combo == NextCombo(s.combo)
    ensures Step(s, cfg, f).lastClicked == f.now
    ensures Step(s, cfg, f).nextAttack == f.now + cfg.attackRate
    ensures cfg.hasAnimator ==> StepEvents(s, cfg, f) == [ComboCount(NextCombo(s.combo)), OnAttack]
  {
  }

  /** With a negative window the reset test fires right after every attack. */
  lemma NegativeResetWindowCancelsAttack(s: CombatState, cfg: Config, f: Frame)
    requires CanAttack(EquipPhase(s, f), f) && cfg.comboResetTime < 0.0
    ensures Step(s, cfg, f).combo == 0
    ensures Step(s, cfg, f).lastClicked == f.now
  {
  }

  /** The reset test is strict: exactly the window after the last click, nothing resets. */
  lemma ResetIsStrict(s: CombatState, cfg: Config, f: Frame)
    requires !CanAttack(EquipPhase(s, f), f)
    requires f.now - s.lastClicked == cfg.comboResetTime
    ensures Step(s, cfg, f).combo == s.combo
  {
  }

  /** A frame that does not attack and stays inside the idle window changes nothing. */
  lemma QuietFrame(s: CombatState, cfg: Config, f: Frame)
    requires s.weapon.Some? && !CanAttack(s, f)
    requires f.now - s.lastClicked <= cfg.comboResetTime
    ensures Step(s, cfg, f) == s
    ensures StepEvents(s, cfg, f) == []
  {
  }

  /** Equip runs before the attack gate, so a weapon picked up in a frame can
      already attack in that frame. */
  lemma EquipAndAttackSameFrame(s: CombatState, cfg: Config, f: Frame)
    requires s.weapon.None? && f.fPressed && |f.hits| > 0
    requires f.clicked && f.now >= s.nextAttack
    ensures Step(s, cfg, f).weapon == Some(f.hits[0])
    ensures Step(s, cfg, f).lastClicked == f.now
    ensures Step(s, cfg, f).nextAttack == f.now + cfg.attackRate
  {
  }

  // ---------------------------------------------------------------------------
  // Sequences of frames

  /** The counter stays in [0, 5] over any sequence of frames. */
  lemma {:induction false} RunPreservesValid(s: CombatState, cfg: Config, frames: seq<Frame>)
    requires ValidState(s)
    ensures ValidState(Run(s, cfg, frames))
    decreases |frames|
  {
    if |frames| > 0 {
      RunPreservesValid(s, cfg, frames[..|frames| - 1]);
    }
  }

  /** Appending two in-range logs gives an in-range log. */
  lemma EventsInRangeAppend(a: seq<AnimEvent>, b: seq<AnimEvent>)
    requires EventsInRange(a) && EventsInRange(b)
    ensures EventsInRange(a + b)
  {
  }

  /** Every combo count the combat logic ever sends to the animator lies in [0, 5]. */
  lemma {:induction false} RunEventsInRange(s: CombatState, cfg: Config, frames: seq<Frame>)
    requires ValidState(s)
    ensures EventsInRange(RunEvents(s, cfg, frames))
    decreases |frames|
  {
    if |frames| > 0 {
      var prefix := frames[..|frames| - 1];
      RunEventsInRange(s, cfg, prefix);
      RunPreservesValid(s, cfg, prefix);
      EventsInRangeAppend(RunEvents(s, cfg, prefix), StepEvents(Run(s, cfg, prefix), cfg, frames[|frames| - 1]));
    }
  }

  /** Once a weapon is held it is never cleared or replaced. */
  lemma {:induction false} WeaponNeverReleased(s: CombatState, cfg: Config, frames: seq<Frame>)
    requires s.weapon.Some?
    ensures Run(s, cfg, frames).weapon == s.weapon
    decreases |frames|
  {
    if |frames| > 0 {
      WeaponNeverReleased(s, cfg, frames[..|frames| - 1]);
    }
  }

  /** A frame in which the equip attempt finds something. */
  predicate PicksUp(f: Frame) {
    f.fPressed && |f.hits| > 0
  }

  /** Starting empty-handed, the hand stays empty exactly when no frame picks up,
      and otherwise holds the first hit of the first frame that does. */
  lemma {:induction false} HeldWeaponIsFirstPickup(s: CombatState, cfg: Config, frames: seq<Frame>)
    requires s.weapon.None?
    ensures Run(s, cfg, frames).weapon.None? <==> forall i :: 0 <= i < |frames| ==> !PicksUp(frames[i])
    ensures forall i :: (0 <= i < |frames| && PicksUp(frames[i]) && (forall j :: 0 <= j < i ==> !PicksUp(frames[j])))
                        ==> Run(s, cfg, frames).weapon == Some(frames[i].hits[0])
    decreases |frames|
  {
    if |frames| > 0 {
      var n := |frames| - 1;
      var prefix := frames[..n];
      HeldWeaponIsFirstPickup(s, cfg, prefix);
      var before := Run(s, cfg, prefix);
      assert forall i :: 0 <= i < n ==> prefix[i] == frames[i];
      if before.weapon.Some? {
        var k :| 0 <= k < n && PicksUp(prefix[k]);
        FirstWitness(prefix, k);
        var m :| 0 <= m < n && PicksUp(prefix[m]) && (forall j :: 0 <= j < m ==> !PicksUp(prefix[j]));
        assert before.weapon == Some(prefix[m].hits[0]);
        forall i | 0 <= i < |frames| && PicksUp(frames[i]) && (forall j :: 0 <= j < i ==> !PicksUp(frames[j]))
          ensures i == m
        {
        }
      }
    }
  }

  /** Some element satisfying PicksUp means there is a first one. */
  lemma {:induction false} FirstWitness(fs: seq<Frame>, k: nat)
    requires k < |fs| && PicksUp(fs[k])
    ensures exists m :: 0 <= m < |fs| && PicksUp(fs[m]) && (forall j :: 0 <= j < m ==> !PicksUp(fs[j]))
    decreases k
  {
    if !forall j :: 0 <= j < k ==> !PicksUp(fs[j]) {
      var j :| 0 <= j < k && PicksUp(fs[j]);
      FirstWitness(fs, j);
    }
  }

  /** Running two sequences of frames one after the other is running their concatenation. */
  lemma {:induction false} RunAppend(s: CombatState, cfg: Config, a: seq<Frame>, b: seq<Frame>)
    ensures Run(s, cfg, a + b) == Run(Run(s, cfg, a), cfg, b)
    decreases |b|
  {
    if |b| == 0 {
      assert a + b == a;
    } else {
      var n := |b| - 1;
      assert (a + b)[..|a + b| - 1] == a + b[..n];
      assert (a + b)[|a + b| - 1] == b[n];
      RunAppend(s, cfg, a, b[..n]);
    }
  }

  // A combo streak. The three functions below follow the timestamps through a
  // sequence of frames judged from the frames alone: a frame attacks when it
  // clicks at or after the cooldown that the earlier attacks left.

  /** The cooldown expiry after the frames, starting from the state's own. */
  ghost function Cooldown(s: CombatState, cfg: Config, fs: seq<Frame>): (t: real)
    decreases |fs|
  {
    if |fs| == 0 then s.nextAttack
    else
      var before := Cooldown(s, cfg, fs[..|fs| - 1]);
      var f := fs[|fs| - 1];
      if f.clicked && f.now >= before then f.now + cfg.attackRate else before
  }

  /** The time of the last attack among the frames, or the state's own last click. */
  ghost function LastAttack(s: CombatState, cfg: Config, fs: seq<Frame>): (t: real)
    decreases |fs|
  {
    if |fs| == 0 then s.lastClicked
    else
      var f := fs[|fs| - 1];
      if f.clicked && f.now >= Cooldown(s, cfg, fs[..|fs| - 1]) then f.now
      else LastAttack(s, cfg, fs[..|fs| - 1])
  }

  /** How many of the frames attack. */
  ghost function AttackCount(s: CombatState, cfg: Config, fs: seq<Frame>): (k: nat)
    decreases |fs|
  {
    if |fs| == 0 then 0
    else
      var f := fs[|fs| - 1];
      AttackCount(s, cfg, fs[..|fs| - 1])
        + (if f.clicked && f.now >= Cooldown(s, cfg, fs[..|fs| - 1]) then 1 else 0)
  }

  /** Frame i of fs is an attack. */
  ghost predicate AttackFrame(s: CombatState, cfg: Config, fs: seq<Frame>, i: nat)
    requires i < |fs|
  {
    fs[i].clicked && fs[i].now >= Cooldown(s, cfg, fs[..i])
  }

  /** No idle reset: every frame either attacks or comes within the reset window of
      the last attack. Frames without a click and clicks refused by the cooldown
      may come between the attacks. */
  ghost predicate Unbroken(s: CombatState, cfg: Config, fs: seq<Frame>) {
    forall i :: 0 <= i < |fs| ==>
      AttackFrame(s, cfg, fs, i) || fs[i].now - LastAttack(s, cfg, fs[..i]) <= cfg.comboResetTime
  }

  /** The counter after k attacks from c, with no reset between them. */
  function ComboAfter(c: int, k: nat): (r: int) {
    if k == 0 then c else (c + k - 1) % MaxCombo + 1
  }

  /** One more attack moves the closed form forward by one. */
  lemma WrapStep(c: int, k: nat)
    requires 0 <= c <= MaxCombo
    ensures NextCombo(ComboAfter(c, k)) == ComboAfter(c, k + 1)
  {
  }

  /** With a weapon in hand and a non-negative reset window, an unbroken run that
      attacks k times takes counter c to ((c + k - 1) mod 5) + 1 (c itself when
      k = 0), and leaves the timestamps of its last attack. */
  lemma {:induction false} AttackStreak(s: CombatState, cfg: Config, fs: seq<Frame>)
    requires ValidState(s) && s.weapon.Some? && cfg.comboResetTime >= 0.0
    requires Unbroken(s, cfg, fs)
    ensures Run(s, cfg, fs).combo == ComboAfter(s.combo, AttackCount(s, cfg, fs))
    ensures Run(s, cfg, fs).lastClicked == LastAttack(s, cfg, fs)
    ensures Run(s, cfg, fs).nextAttack == Cooldown(s, cfg, fs)
    ensures Run(s, cfg, fs).weapon == s.weapon
    decreases |fs|
  {
    if |fs| > 0 {
      var n := |fs| - 1;
      var prefix := fs[..n];
      assert Unbroken(s, cfg, prefix) by {
        forall i | 0 <= i < n
          ensures AttackFrame(s, cfg, prefix, i) || prefix[i].now - LastAttack(s, cfg, prefix[..i]) <= cfg.comboResetTime
        {
          assert prefix[..i] == fs[..i];
          assert AttackFrame(s, cfg, fs, i) || fs[i].now - LastAttack(s, cfg, fs[..i]) <= cfg.comboResetTime;
        }
      }
      AttackStreak(s, cfg, prefix);
      var before := Run(s, cfg, prefix);
      var f := fs[n];
      assert fs[..n] == prefix;
      assert AttackFrame(s, cfg, fs, n) || f.now - LastAttack(s, cfg, prefix) <= cfg.comboResetTime;
      if AttackFrame(s, cfg, fs, n) {
        AttackSurvivesReset(before, cfg, f);
        WrapStep(s.combo, AttackCount(s, cfg, prefix));
      } else {
        QuietFrame(before, cfg, f);
      }
    }
  }

  /** Five attacks from zero with no idle reset reach 5; a sixth wraps to 1. */
  lemma FiveAttacksThenWrap(s: CombatState, cfg: Config, fs: seq<Frame>)
    requires s.combo == 0 && s.weapon.Some? && cfg.comboResetTime >= 0.0
    requires Unbroken(s, cfg, fs)
    ensures AttackCount(s, cfg, fs) == 5 ==> Run(s, cfg, fs).combo == 5
    ensures AttackCount(s, cfg, fs) == 6 ==> Run(s, cfg, fs).combo == 1
  {
    AttackStreak(s, cfg, fs);
  }
}
