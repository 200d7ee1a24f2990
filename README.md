# Player combat and equip state machine

This project models the combat part of the `PlayerMovement` controller of a Unity
character. Each frame the controller does three things in order:

1. When the F key went down, it tries to pick up the first weapon that the overlap
   query around the player returns. It does nothing if a weapon is already held.
2. When the left mouse button went down, a weapon is held and the attack cooldown has
   expired, it attacks. An attack records the click time, sets the cooldown to
   `now + attackRate` and advances the combo counter. The counter wraps from 5 back to 1.
3. When strictly more than `comboResetTime` has passed since the last attack, it sets
   the counter to 0.

An attack writes the new `ComboCount` and an `OnAttack` trigger to the animator. A
reset writes `ComboCount = 0`. Both writes happen only when an animator is attached.

- `combat.dfy` (module `Combat`) holds the state machine as pure values. Each phase of
  a frame is a function. `Step` is one frame and `Run` is a sequence of frames.
  `StepEvents` and `RunEvents` give the animator writes. The lemmas state what the
  controller promises.
- `player.dfy` (module `Player`) holds the class `PlayerMovement`. It has the
  controller's fields (`comboCounter`, `lastClickedTime`, `nextAttackTime`,
  `currentWeapon`) and the animator writes as an appended log (`animatorLog`). Each
  method updates the fields in place, as the source does. Each method is proved to give
  the state and the writes that `Combat` defines. `RunFrames` stands for the engine
  calling `Update` once per frame. It keeps the invariant that the counter and every
  logged combo count lie in [0, 5].

The inputs that come from the engine are parameters of a `Frame`:
- the clock `Time.time`, as `now`;
- the F-key edge and the mouse-button edge, as two booleans (a missing keyboard or
  mouse reads as "not pressed");
- the result of `Physics.OverlapSphere`, as a sequence of weapon identities.

Time is an exact `real`. The rounding of `float` arithmetic is not modelled. Whether an
`Animator` component exists is the configuration flag `hasAnimator`.

The idle reset uses a strict comparison (`>`, line 90 of the controller). So exactly
`comboResetTime` seconds after the last attack the counter is kept.
`Combat.ResetIsStrict` states the boundary.

## Model

| member | source | states |
|---|---|---|
| `Combat.Initial` | Assets/Scripts/Player/PlayerMovement.cs:35-39 | the fields start with combo 0, both timestamps 0 and no weapon (all stated in the contract), a state inside the counter invariant |
| `Combat.NextCombo` | Assets/Scripts/Player/PlayerMovement.cs:141-146 | an attack maps counter c to c+1 when 0 <= c < 5 and to 1 when c = 5, so any counter in [0,5] becomes one in [1,5] |
| `Combat.Attack` | Assets/Scripts/Player/PlayerMovement.cs:136-146 | an attack sets lastClicked to now and nextAttack to now + attackRate, advances the counter by NextCombo, keeps the weapon, and leaves a valid counter valid and at least 1 |
| `Combat.AttackEvents` | Assets/Scripts/Player/PlayerMovement.cs:148-152 | an attack sends the OnAttack trigger and the new combo count exactly when an animator is attached, every combo count it writes is the new counter, and from a valid counter every written count lies in [0,5] |
| `Combat.TryEquip` | Assets/Scripts/Player/PlayerMovement.cs:155-170 | a held weapon is kept whatever the hits are; an empty hand stays empty on no hits and takes hits[0] otherwise |
| `Combat.EquipPhase` | Assets/Scripts/Player/PlayerMovement.cs:75-78 | without an F press the state is unchanged; with one the slot becomes TryEquip of the old slot and the hits; only the slot can change, and never a slot that is already filled |
| `Combat.AttackPhase` | Assets/Scripts/Player/PlayerMovement.cs:80-88 | when the click, the weapon or the cooldown is missing the state is unchanged; otherwise the click time is now, the cooldown expires at now + attackRate and the counter advances; the weapon is kept |
| `Combat.ResetPhase` | Assets/Scripts/Player/PlayerMovement.cs:90-94 | past the idle window the counter is 0; otherwise nothing changes; the timestamps and the weapon never change |
| `Combat.ResetEvents` | Assets/Scripts/Player/PlayerMovement.cs:93 | the reset writes nothing but combo count 0, writes something exactly when an animator is attached, and every written count lies in [0,5] |
| `Combat.Step` | Assets/Scripts/Player/PlayerMovement.cs:75-94 | one frame keeps the counter in [0,5] and never drops or replaces a held weapon |
| `Combat.StepEvents` | Assets/Scripts/Player/PlayerMovement.cs:75-94 | from a valid state, every combo count a frame writes to the animator lies in [0,5] |
| `Combat.RefusedClickChangesNothing` | Assets/Scripts/Player/PlayerMovement.cs:81-94 | a frame whose attack gate stays shut (no click, no weapon, or before the cooldown) keeps both timestamps, changes the counter only by the idle reset, and writes nothing to the animator except the reset's ComboCount(0) |
| `Combat.IdleResetZeroes` | Assets/Scripts/Player/PlayerMovement.cs:90-94 | when the reset test fires, the frame ends with the counter at 0, and the last animator write is combo count 0 |
| `Combat.AttackSurvivesReset` | Assets/Scripts/Player/PlayerMovement.cs:84-94 | with comboResetTime >= 0 an attack frame ends with the advanced counter and the new timestamps, because the attack just set lastClicked to now; the animator gets exactly the new count and the trigger |
| `Combat.NegativeResetWindowCancelsAttack` | Assets/Scripts/Player/PlayerMovement.cs:84-94 | with comboResetTime < 0 the reset fires right after every attack, so the frame ends with the counter at 0 |
| `Combat.ResetIsStrict` | Assets/Scripts/Player/PlayerMovement.cs:90 | exactly comboResetTime after the last click, with no attack, the counter is kept |
| `Combat.QuietFrame` | Assets/Scripts/Player/PlayerMovement.cs:81-94 | with a weapon held, a frame that does not attack and stays within the idle window leaves the whole state unchanged and writes nothing to the animator |
| `Combat.EquipAndAttackSameFrame` | Assets/Scripts/Player/PlayerMovement.cs:75-88 | equip runs before the attack gate: an empty-handed frame with F, hits, a click and an expired cooldown both picks up hits[0] and attacks |
| `Combat.RunPreservesValid` | Assets/Scripts/Player/PlayerMovement.cs:37 | the counter stays in [0,5] over any sequence of frames |
| `Combat.RunEventsInRange` | Assets/Scripts/Player/PlayerMovement.cs:90-94 | every ComboCount value written to the animator, by the reset here and by the attack at line 150, over any sequence of frames from a valid state lies in [0,5] |
| `Combat.WeaponNeverReleased` | Assets/Scripts/Player/PlayerMovement.cs:157 | once a weapon is held it is never cleared or replaced, over any sequence of frames |
| `Combat.HeldWeaponIsFirstPickup` | Assets/Scripts/Player/PlayerMovement.cs:157-170 | from an empty hand, the hand stays empty exactly when no frame has F pressed with a non-empty hit list; otherwise it holds hits[0] of the first such frame |
| `Combat.RunAppend` | Assets/Scripts/Player/PlayerMovement.cs:58-94 | running frames a and then frames b gives the same state as running a + b |
| `Combat.AttackStreak` | Assets/Scripts/Player/PlayerMovement.cs:81-94 | with a weapon held and comboResetTime >= 0, a run in which every frame either attacks or stays within the idle window of the last attack (quiet frames and clicks refused by the cooldown allowed in between) takes counter c to ((c + k - 1) mod 5) + 1 after k attacks, c itself after none, and leaves the cooldown and click time of its last attack |
| `Combat.FiveAttacksThenWrap` | Assets/Scripts/Player/PlayerMovement.cs:141-146 | from 0, a run without an idle reset that attacks five times ends at 5, and one that attacks six times ends at 1 |
| `Player.PlayerMovement.constructor` | Assets/Scripts/Player/PlayerMovement.cs:35-39 | a new controller holds the initial state, an empty animator log and the given tunables |
| `Player.PlayerMovement.PerformAttack` | Assets/Scripts/Player/PlayerMovement.cs:136-153 | the fields become Attack of the old fields and the log grows by exactly the attack's writes; nothing else changes |
| `Player.PlayerMovement.Equip` | Assets/Scripts/Player/PlayerMovement.cs:168-170 | the slot holds the given weapon; the counter, timestamps and log are unchanged |
| `Player.PlayerMovement.TryEquipWeapon` | Assets/Scripts/Player/PlayerMovement.cs:155-166 | the slot becomes TryEquip of the old slot and the hits; nothing else changes |
| `Player.PlayerMovement.Update` | Assets/Scripts/Player/PlayerMovement.cs:58-94 | the fields become Step of the old fields and the log grows by StepEvents; a valid object stays valid |
| `Player.PlayerMovement.RunFrames` | Assets/Scripts/Player/PlayerMovement.cs:58-94 | calling Update once per frame gives Run of the old state and the log grows by RunEvents, with the counter invariant kept throughout |

## Left out

- Movement, rotation, jump and gravity (lines 96-133, and the jump velocity formula): floating-point motion over engine vector types.
- The per-frame snapping of the held weapon's local position and rotation (lines 60-64): scene-graph writes with no effect on combat state.
- Equip's physics and scene-graph effects (lines 171-180): making the rigidbody kinematic, disabling the collider and re-parenting onto the hand socket are engine calls. Only the slot assignment is modelled.
- The overlap query itself (line 159): its result is an input of each frame. Its position, radius and layer filter are not modelled.
- The `Speed`, `IsGrounded` and `Jump` animator writes (lines 118-122 and 129): they depend only on movement. Only the combat writes `ComboCount` and `OnAttack` are logged.
- `Awake`, `OnEnable`, `OnDisable` and the input-action plumbing (lines 41-56, 66-73, 81): input I/O. The key and button edges are booleans of the frame, already false when no keyboard or mouse is present.
- Float rounding of `Time.time` arithmetic: time is an exact real.
- Destroyed weapons: Unity's `!=` on a `UnityEngine.Object` treats a destroyed object as null (lines 60, 81 and 157). The model assumes the held weapon is never destroyed, so `Combat.WeaponNeverReleased` and `Combat.HeldWeaponIsFirstPickup` do not cover another script destroying it, after which the next F press would equip a new weapon, and the attack gate would refuse clicks until then.
