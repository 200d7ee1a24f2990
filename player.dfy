/**
 The player controller object, restricted to its combat and equip fields.

 Each method updates the fields in place as the controller does, and is proved to
 produce exactly the state and the animator writes that module Combat defines.
 RunFrames stands for the engine calling Update once per rendered frame.
 */
module Player {
  import opened Combat

  class PlayerMovement {
    // Tunables, set before play and not changed during a session.
    const comboResetTime: real
    const attackRate: real
    // Whether an Animator component was found; without one no parameter is written.
    const hasAnimator: bool

    var comboCounter: int
    var lastClickedTime: real
    var nextAttackTime: real
    var currentWeapon: Option<Weapon>

    /** The ComboCount and OnAttack writes sent to the animator so far. */
    var animatorLog: seq<AnimEvent>

    function Configuration(): (cfg: Config) {
      Config(comboResetTime, attackRate, hasAnimator)
    }

    function State(): (s: CombatState)
      reads this
    {
      CombatState(comboCounter, lastClickedTime, nextAttackTime, currentWeapon)
    }

    /** The object invariant: the counter is a legal combo step and so is every
        combo count already written to the animator. */
    ghost predicate Valid()
      reads this
    {
      ValidState(State()) && EventsInRange(animatorLog)
    }

    constructor (comboResetTime: real, attackRate: real, hasAnimator: bool)
      ensures Valid()
      ensures State() == Initial() && animatorLog == []
      ensures Configuration() == Config(comboResetTime, attackRate, hasAnimator)
    {
      this.comboResetTime := comboResetTime;
      this.attackRate := attackRate;
      this.hasAnimator := hasAnimator;
      comboCounter := 0;
      lastClickedTime := 0.0;
      nextAttackTime := 0.0;
      currentWeapon := None;
      animatorLog := [];
    }

    /** Records the click, arms the cooldown, advances the combo (wrapping 6 to 1)
        and tells the animator. Nothing else changes. */
    method PerformAttack(now: real)
      modifies this
      ensures State() == Attack(old(State()), Configuration(), now)
      ensures animatorLog == old(animatorLog) + AttackEvents(Configuration(), State())
    {
      lastClickedTime := now;
      nextAttackTime := now + attackRate;
      comboCounter := comboCounter + 1;
      if comboCounter > MaxCombo {
        comboCounter := 1;
      }
      if hasAnimator {
        animatorLog := animatorLog + [ComboCount(comboCounter), OnAttack];
      }
    }

    /** Puts the weapon in the hand slot; the physics and re-parenting are not modelled. */
    method Equip(weapon: Weapon)
      modifies this
      ensures currentWeapon == Some(weapon)
      ensures comboCounter == old(comboCounter)
      ensures lastClickedTime == old(lastClickedTime) && nextAttackTime == old(nextAttackTime)
      ensures animatorLog == old(animatorLog)
    {
      currentWeapon := Some(weapon);
    }

    /** Given what the overlap query returned, takes the first hit unless a weapon
        is already held. */
    method TryEquipWeapon(hits: seq<Weapon>)
      modifies this
      ensures currentWeapon == TryEquip(old(currentWeapon), hits)
      ensures comboCounter == old(comboCounter)
      ensures lastClickedTime == old(lastClickedTime) && nextAttackTime == old(nextAttackTime)
      ensures animatorLog == old(animatorLog)
    {
      if currentWeapon.Some? {
        return;
      }
      if |hits| > 0 {
        var weapon := hits[0];
        Equip(weapon);
      }
    }

    /** The combat slice of one frame: equip on F, attack on click, idle reset. */
    method Update(frame: Frame)
      modifies this
      ensures old(Valid()) ==> Valid()
      ensures State() == Step(old(State()), Configuration(), frame)
      ensures animatorLog == old(animatorLog) + StepEvents(old(State()), Configuration(), frame)
    {
      if frame.fPressed {
        TryEquipWeapon(frame.hits);
      }
      if frame.clicked && currentWeapon.Some? {
        if frame.now >= nextAttackTime {
          PerformAttack(frame.now);
        }
      }
      if frame.now - lastClickedTime > comboResetTime {
        comboCounter := 0;
        if hasAnimator {
          animatorLog := animatorLog + [ComboCount(0)];
        }
      }
      if old(Valid()) {
        EventsInRangeAppend(old(animatorLog), StepEvents(old(State()), Configuration(), frame));
      }
    }

    /** The engine's frame loop: Update once per frame, in order. The counter and
        every combo count sent to the animator stay in [0, 5] throughout. */
    method RunFrames(frames: seq<Frame>)
      modifies this
      ensures old(Valid()) ==> Valid()
      ensures State() == Run(old(State()), Configuration(), frames)
      ensures animatorLog == old(animatorLog) + RunEvents(old(State()), Configuration(), frames)
    {
      for i := 0 to |frames|
        invariant old(Valid()) ==> Valid()
        invariant State() == Run(old(State()), Configuration(), frames[..i])
        invariant animatorLog == old(animatorLog) + RunEvents(old(State()), Configuration(), frames[..i])
      {
        assert frames[..i + 1][..i] == frames[..i];
        Update(frames[i]);
      }
      assert frames[..|frames|] == frames;
    }
  }
}
