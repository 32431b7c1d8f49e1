/** The state behind the HUD target box gauge: the target's status line and
    its "flash when it changes" memory, the per-item flash timers and blink
    bits, the wireframe display mode, and the integrity percentages shown.

    The module-level globals of the gauge (`Targetbox_flash_timers`,
    `CurrentWire`, `Current_ts`, `Last_ts`) live in the class `TargetBox`;
    the per-gauge blink state in `TargetBoxGauge` and `ExtraTargetData`.
    Time is the mission clock, seen only through `timestamp(delta)` and
    `timestamp_elapsed(stamp)`, which are left uninterpreted: every method
    that consults the clock takes the two functions as they are at that
    instant. */
module HudTargetBox {

  // ---------------------------------------------------------------------
  // Constants
  // ---------------------------------------------------------------------

  /** Target status codes (`TS_*`): disabled, fine, damaged, critical. */
  const TsDis: int := 0
  const TsOk: int := 1
  const TsDmg: int := 2
  const TsCrt: int := 3
  /** `Current_ts`/`Last_ts` before any status has been computed. */
  const TsNone: int := -1

  /** Flashing items of the target box (`TBOX_FLASH_*` in `hud/hudtargetbox.h`). */
  const NumFlashTimers: int := 5
  const FlashName: int := 0
  const FlashCargo: int := 1
  const FlashHull: int := 2
  const FlashStatus: int := 3
  const FlashSubsys: int := 4
  /** Default length of a flash, and the blink half-period, in milliseconds. */
  const FlashDuration: int := 1400
  const FlashInterval: int := 200

  /** The mission clock at one instant: `stamp(d)` is `timestamp(d)`, the
      stamp d milliseconds from now, and `elapsed(s)` is
      `timestamp_elapsed(s)`. */
  datatype Clock = Clock(stamp: int -> int, elapsed: int -> bool)

  // ---------------------------------------------------------------------
  // Target status
  // ---------------------------------------------------------------------

  /** The status shown for a ship: disabled (or engines disrupted) first,
      then by hull integrity, a fraction in [0, 1]. */
  function TargetStatus(disabled: bool, engineDisrupted: bool, integrity: real): (s: int)
    ensures TsDis <= s <= TsCrt
    ensures s == TsDis <==> disabled || engineDisrupted
    ensures s == TsOk <==> !(disabled || engineDisrupted) && integrity > 0.9
    ensures s == TsDmg <==> !(disabled || engineDisrupted) && 0.2 < integrity <= 0.9
    ensures s == TsCrt <==> !(disabled || engineDisrupted) && integrity <= 0.2
  {
    if disabled || engineDisrupted then TsDis
    else if integrity > 0.9 then TsOk
    else if integrity > 0.2 then TsDmg
    else TsCrt
  }

  /** For a working ship, more hull never shows a worse status. */
  lemma StatusMonotoneInIntegrity(i1: real, i2: real)
    requires i1 <= i2
    ensures TargetStatus(false, false, i2) <= TargetStatus(false, false, i1)
  {
  }

  /** A status change flashes only when there was a status before. */
  function StatusFlashes(last: int, current: int): (f: bool)
    ensures last == current ==> !f
    ensures TsDis <= last <= TsCrt && current != last ==> f
    ensures last == TsNone ==> !f
  {
    last != TsNone && current != last
  }

  // ---------------------------------------------------------------------
  // Wireframe mode
  // ---------------------------------------------------------------------

  /** `hud_targetbox_switch_wireframe_mode` on the value of `CurrentWire`:
      0 (standard), 1 (wireframe only), 2 (standard with lighting). */
  function NextWire(w: int): (r: int)
    ensures 0 <= w <= 2 ==> 0 <= r <= 2 && r != w
    ensures w >= 2 ==> r == (if w == 2 then 0 else w + 1)
  {
    if w + 1 == 3 then 0 else w + 1
  }

  /** Three switches bring a valid mode back; a mode beyond 2 only grows. */
  lemma WireframeCycle(w: int)
    ensures 0 <= w <= 2 ==> NextWire(NextWire(NextWire(w))) == w
    ensures w >= 3 ==> NextWire(w) == w + 1 > 3
  {
  }

  // ---------------------------------------------------------------------
  // Blink bits
  // ---------------------------------------------------------------------

  /** `1 << index`. */
  function Bit(index: int): bv32
    requires 0 <= index < 32
  {
    (1 as bv32) << index
  }

  /** Distinct items own distinct bits. */
  lemma BitsDisjoint(i: int, j: int)
    requires 0 <= i < 32 && 0 <= j < 32 && i != j
    ensures Bit(i) & Bit(j) == 0
  {
  }

  predicate BitSet(flags: bv32, index: int)
    requires 0 <= index < 32
  {
    flags & Bit(index) != 0
  }

  /** `flags ^ (1 << index)`: bit `index` flips. */
  function Toggle(flags: bv32, index: int): (r: bv32)
    requires 0 <= index < 32
    ensures BitSet(r, index) == !BitSet(flags, index)
  {
    var b := Bit(index);
    assert (flags ^ b) & b == (flags & b) ^ b;
    flags ^ b
  }

  /** `flags & ~(1 << index)`: bit `index` is cleared. */
  function Clear(flags: bv32, index: int): (r: bv32)
    requires 0 <= index < 32
    ensures !BitSet(r, index)
  {
    flags & !Bit(index)
  }

  /** Toggling one item's bit leaves every other item's bit alone. */
  lemma ToggleKeepsOtherBits(flags: bv32, index: int, other: int)
    requires 0 <= index < 32 && 0 <= other < 32 && other != index
    ensures BitSet(Toggle(flags, index), other) == BitSet(flags, other)
  {
    var a, b := Bit(index), Bit(other);
    assert (flags ^ a) & b == (flags & b) ^ (a & b);
    BitsDisjoint(index, other);
  }

  /** Clearing one item's bit leaves every other item's bit alone. */
  lemma ClearKeepsOtherBits(flags: bv32, index: int, other: int)
    requires 0 <= index < 32 && 0 <= other < 32 && other != index
    ensures BitSet(Clear(flags, index), other) == BitSet(flags, other)
  {
    var a, b := Bit(index), Bit(other);
    assert (flags & !a) & b == (flags & b) & (!a & b);
    BitsDisjoint(index, other);
    assert !a & b == b;
  }

  /** Toggling twice restores the flags: an item blinks with period two
      toggles. */
  lemma ToggleTwice(flags: bv32, index: int)
    requires 0 <= index < 32
    ensures Toggle(Toggle(flags, index), index) == flags
  {
    var b := Bit(index);
    assert (flags ^ b) ^ b == flags;
  }

  /** Blink half-period: `TBOX_FLASH_INTERVAL`, halved (and truncated) when
      fast flashing is asked for. */
  function BlinkInterval(flashFast: int): (d: int)
    ensures d > 0
    ensures flashFast != 0 ==> 2 * d == FlashInterval
    ensures flashFast == 0 ==> d == FlashInterval
  {
    if flashFast != 0 then FlashInterval / 2 else FlashInterval
  }

  // ---------------------------------------------------------------------
  // Integrity percentages
  // ---------------------------------------------------------------------

  /** `std::lround`: nearest integer, halves rounded away from zero. */
  function LRound(x: real): (r: int)
    ensures x >= 0.0 ==> r >= 0 && r as real - 0.5 <= x < r as real + 0.5
    ensures x <= 0.0 ==> r <= 0 && r as real - 0.5 < x <= r as real + 0.5
  {
    if x >= 0.0 then (x + 0.5).Floor else -((-x + 0.5).Floor)
  }

  /** The hull percentage shown for an integrity fraction: the percentage
      rounded by `lround`, except that a ship with any hull left never
      shows 0%. */
  function HullPercentShown(integrity: real): (r: int)
    ensures integrity * 100.0 >= 0.5 ==> r as real - 0.5 <= integrity * 100.0 < r as real + 0.5
    ensures 0.0 < integrity * 100.0 < 0.5 ==> r == 1
    ensures integrity <= 0.0 ==> r as real - 0.5 < integrity * 100.0 <= r as real + 0.5
    ensures integrity > 0.0 ==> r >= 1
    ensures integrity <= 0.0 ==> r <= 0
  {
    var shown := LRound(integrity * 100.0);
    if shown == 0 && integrity * 100.0 > 0.0 then 1 else shown
  }

  /** The percentage shown for the targeted subsystem: rounded by `lround`,
      never below 0, and never 0 while any strength is left. */
  function SubsysPercentShown(strength: real): (r: int)
    ensures r >= 0
    ensures r == 0 <==> strength <= 0.0
    ensures 0.0 < strength < 0.5 ==> r == 1
    ensures strength >= 0.5 ==> r as real - 0.5 <= strength < r as real + 0.5
  {
    var rounded := LRound(strength);
    var clamped := if rounded < 0 then 0 else rounded;
    if clamped == 0 && strength > 0.0 then 1 else clamped
  }

  /** `lround` never goes down as its argument grows. */
  lemma LRoundMonotone(x: real, y: real)
    requires x <= y
    ensures LRound(x) <= LRound(y)
  {
  }

  /** More hull never shows a smaller percentage. */
  lemma HullPercentMonotone(i1: real, i2: real)
    requires i1 <= i2
    ensures HullPercentShown(i1) <= HullPercentShown(i2)
  {
    LRoundMonotone(i1 * 100.0, i2 * 100.0);
  }

  /** A stronger subsystem never shows a smaller percentage. */
  lemma SubsysPercentMonotone(s1: real, s2: real)
    requires s1 <= s2
    ensures SubsysPercentShown(s1) <= SubsysPercentShown(s2)
  {
    LRoundMonotone(s1, s2);
  }

  // ---------------------------------------------------------------------
  // Module-level state of the target box
  // ---------------------------------------------------------------------

  class TargetBox {
    /** `Targetbox_flash_timers`: per item, the stamp at which its flashing ends. */
    const flashTimers: array<int>
    /** `CurrentWire`. */
    var currentWire: int
    /** `Current_ts` and `Last_ts`. */
    var currentTs: int
    var lastTs: int

    ghost predicate Valid()
      reads this
    {
      flashTimers.Length == NumFlashTimers
    }

    /** The statics start zeroed. */
    constructor ()
      ensures Valid() && fresh(flashTimers)
      ensures flashTimers[..] == [0, 0, 0, 0, 0]
      ensures currentWire == 0 && currentTs == 0 && lastTs == 0
    {
      flashTimers := new int[NumFlashTimers](_ => 0);
      currentWire, currentTs, lastTs := 0, 0, 0;
    }

    /** `hud_targetbox_switch_wireframe_mode`. */
    method SwitchWireframeMode()
      modifies this`currentWire
      ensures currentWire == NextWire(old(currentWire))
      ensures 0 <= old(currentWire) <= 2 ==> 0 <= currentWire <= 2
    {
      currentWire := currentWire + 1;
      if currentWire == 3 {
        currentWire := 0;
      }
    }

    /** `hud_targetbox_init_flash_timer`: the item's flashing is over. */
    method InitFlashTimer(index: int)
      requires Valid() && 0 <= index < NumFlashTimers
      modifies flashTimers
      ensures flashTimers[..] == old(flashTimers[..])[index := 1]
    {
      flashTimers[index] := 1;
    }

    /** `hud_targetbox_init_flash`: every item's flashing is over and no
      status is remembered, so the next status update cannot flash. */
    method InitFlash()
      requires Valid()
      modifies this`currentTs, this`lastTs, flashTimers
      ensures forall i :: 0 <= i < flashTimers.Length ==> flashTimers[i] == 1
      ensures currentTs == TsNone && lastTs == TsNone
      ensures currentWire == old(currentWire)
    {
      var i := 0;
      while i < NumFlashTimers
        invariant 0 <= i <= NumFlashTimers
        invariant forall k :: 0 <= k < i ==> flashTimers[k] == 1
      {
        InitFlashTimer(i);
        i := i + 1;
      }
      lastTs := TsNone;
      currentTs := TsNone;
    }

    /** `hud_targetbox_start_flash(index, duration)`. */
    method StartFlash(index: int, duration: int, clock: Clock)
      requires Valid() && 0 <= index < NumFlashTimers
      modifies flashTimers
      ensures flashTimers[..] == old(flashTimers[..])[index := clock.stamp(duration)]
    {
      flashTimers[index] := clock.stamp(duration);
    }

    /** `hud_targetbox_end_flash(index)`: flashing ends now. */
    method EndFlash(index: int, clock: Clock)
      requires Valid() && 0 <= index < NumFlashTimers
      modifies flashTimers
      ensures flashTimers[..] == old(flashTimers[..])[index := clock.stamp(0)]
    {
      flashTimers[index] := clock.stamp(0);
    }

    /** `hud_update_ship_status` for the ship in slot `instance` of a ship
        table of `maxShips` entries, with the player's target integrity.
        An out-of-range slot leaves the status alone, but `Last_ts` is
        still brought level with `Current_ts`. */
    method UpdateShipStatus(instance: int, maxShips: int, disabled: bool, engineDisrupted: bool,
                            integrity: real, clock: Clock)
      requires Valid()
      modifies this`currentTs, this`lastTs, flashTimers
      ensures 0 <= instance < maxShips ==> currentTs == TargetStatus(disabled, engineDisrupted, integrity)
      ensures !(0 <= instance < maxShips) ==> currentTs == old(currentTs)
      ensures lastTs == currentTs
      ensures flashTimers[..] ==
                if 0 <= instance < maxShips && StatusFlashes(old(lastTs), currentTs)
                then old(flashTimers[..])[FlashStatus := clock.stamp(FlashDuration)]
                else old(flashTimers[..])
      ensures currentWire == old(currentWire)
    {
      if 0 <= instance < maxShips {
        if disabled || engineDisrupted {
          currentTs := TsDis;
        } else {
          if integrity > 0.9 {
            currentTs := TsOk;
          } else if integrity > 0.2 {
            currentTs := TsDmg;
          } else {
            currentTs := TsCrt;
          }
        }
        if lastTs != TsNone && currentTs != lastTs {
          StartFlash(FlashStatus, FlashDuration, clock);
        }
      }
      lastTs := currentTs;
    }
  }

  /** After `hud_targetbox_init_flash` the first status update of a new
      target never starts the status flash. */
  method FirstUpdateAfterInitDoesNotFlash(box: TargetBox, instance: int, maxShips: int, disabled: bool,
                                          engineDisrupted: bool, integrity: real, clock: Clock)
    requires box.Valid()
    modifies box, box.flashTimers
    ensures forall i :: 0 <= i < box.flashTimers.Length ==> box.flashTimers[i] == 1
    ensures box.lastTs == box.currentTs
  {
    box.InitFlash();
    box.UpdateShipStatus(instance, maxShips, disabled, engineDisrupted, integrity, clock);
  }

  // ---------------------------------------------------------------------
  // Per-gauge blink state
  // ---------------------------------------------------------------------

  /** The blink state of one target box gauge. */
  class TargetBoxGauge {
    /** `Next_flash_timers`: per item, the stamp of its next bright/dim toggle. */
    const nextFlashTimers: array<int>
    /** `flash_flags`: bit i set while item i is drawn bright. */
    var flashFlags: bv32
    /** `GaugeWireframe`: the wireframe mode this gauge starts in. */
    var gaugeWireframe: int

    ghost predicate Valid()
      reads this
    {
      nextFlashTimers.Length == NumFlashTimers
    }

    /** The constructor sets none of the blink state; it is taken to start
        zeroed, with the standard wireframe mode. */
    constructor ()
      ensures Valid() && fresh(nextFlashTimers)
      ensures nextFlashTimers[..] == [0, 0, 0, 0, 0]
      ensures gaugeWireframe == 0 && flashFlags == 0
    {
      nextFlashTimers := new int[NumFlashTimers](_ => 0);
      flashFlags := 0;
      gaugeWireframe := 0;
    }

    /** `initGaugeWireframe`: the mode `initialize()` will select. */
    method InitGaugeWireframe(wireframe: int)
      modifies this`gaugeWireframe
      ensures gaugeWireframe == wireframe
    {
      gaugeWireframe := wireframe;
    }

    /** `initFlashTimer(index)`: toggle at once and start dim. */
    method InitFlashTimer(index: int)
      requires Valid() && 0 <= index < NumFlashTimers
      modifies nextFlashTimers, this`flashFlags
      ensures nextFlashTimers[..] == old(nextFlashTimers[..])[index := 1]
      ensures flashFlags == Clear(old(flashFlags), index)
    {
      nextFlashTimers[index] := 1;
      flashFlags := flashFlags & !Bit(index);
    }

    /** The timer part of `initialize()`: every item reset, and the global
        wireframe mode set to this gauge's. */
    method Initialize(box: TargetBox)
      requires Valid()
      modifies nextFlashTimers, this`flashFlags, box`currentWire
      ensures forall i :: 0 <= i < nextFlashTimers.Length ==> nextFlashTimers[i] == 1
      ensures forall i :: 0 <= i < NumFlashTimers ==> !BitSet(flashFlags, i)
      ensures forall i :: NumFlashTimers <= i < 32 ==> BitSet(flashFlags, i) == BitSet(old(flashFlags), i)
      ensures box.currentWire == gaugeWireframe
    {
      var i := 0;
      while i < NumFlashTimers
        invariant 0 <= i <= NumFlashTimers
        invariant forall k :: 0 <= k < i ==> nextFlashTimers[k] == 1
        invariant forall k :: 0 <= k < i ==> !BitSet(flashFlags, k)
        invariant forall k :: i <= k < 32 ==> BitSet(flashFlags, k) == BitSet(old(flashFlags), k)
      {
        ghost var before := flashFlags;
        InitFlashTimer(i);
        forall k | 0 <= k < 32 && k != i
          ensures BitSet(flashFlags, k) == BitSet(before, k)
        {
          ClearKeepsOtherBits(before, i, k);
        }
        i := i + 1;
      }
      box.currentWire := gaugeWireframe;
    }

    /** `maybeFlashElement(index, flash_fast)`: while item `index` is still
        flashing, toggle its bit whenever its toggle stamp has passed, and
        report 1 when the item is to be drawn bright. */
    method MaybeFlashElement(index: int, flashFast: int, box: TargetBox, clock: Clock)
      returns (drawBright: int)
      requires Valid() && box.Valid() && 0 <= index < NumFlashTimers
      requires box.flashTimers != nextFlashTimers
      modifies nextFlashTimers, this`flashFlags
      ensures var flashing := !clock.elapsed(box.flashTimers[index]);
              var toggles := flashing && clock.elapsed(old(nextFlashTimers[index]));
              && nextFlashTimers[..] == (if toggles
                                         then old(nextFlashTimers[..])[index := clock.stamp(BlinkInterval(flashFast))]
                                         else old(nextFlashTimers[..]))
              && flashFlags == (if toggles then Toggle(old(flashFlags), index) else old(flashFlags))
              && drawBright == (if flashing && BitSet(flashFlags, index) then 1 else 0)
    {
      drawBright := 0;
      if !clock.elapsed(box.flashTimers[index]) {
        if clock.elapsed(nextFlashTimers[index]) {
          if flashFast != 0 {
            nextFlashTimers[index] := clock.stamp(FlashInterval / 2);
          } else {
            nextFlashTimers[index] := clock.stamp(FlashInterval);
          }
          flashFlags := Toggle(flashFlags, index);
        }
        if BitSet(flashFlags, index) {
          drawBright := 1;
        }
      }
    }
  }

  /** The dock-status blink state of the extra target data gauge. */
  class ExtraTargetData {
    /** `flash_timer`: [0] the stamp at which flashing ends, [1] the next toggle. */
    const flashTimer: array<int>
    /** `flash_flags`: drawn bright. */
    var flashFlags: bool

    ghost predicate Valid()
      reads this
    {
      flashTimer.Length == 2
    }

    /** The constructor runs `initDockFlashTimer`: no flashing, dim. */
    constructor ()
      ensures Valid() && fresh(flashTimer) && flashTimer[..] == [1, 1] && !flashFlags
    {
      flashTimer := new int[2](_ => 1);
      flashFlags := false;
    }

    /** `initDockFlashTimer`: no flashing, toggle at once, dim. */
    method InitDockFlashTimer()
      requires Valid()
      modifies flashTimer, this`flashFlags
      ensures flashTimer[..] == [1, 1] && !flashFlags
    {
      flashTimer[0] := 1;
      flashTimer[1] := 1;
      flashFlags := false;
    }

    /** `startFlashDock(duration)`. */
    method StartFlashDock(duration: int, clock: Clock)
      requires Valid()
      modifies flashTimer
      ensures flashTimer[..] == [clock.stamp(duration), old(flashTimer[1])]
    {
      flashTimer[0] := clock.stamp(duration);
    }

    /** `endFlashDock`: flashing ends now. */
    method EndFlashDock(clock: Clock)
      requires Valid()
      modifies flashTimer
      ensures flashTimer[..] == [clock.stamp(0), old(flashTimer[1])]
    {
      flashTimer[0] := clock.stamp(0);
    }

    /** `maybeFlashDock(flash_fast)`: the boolean twin of `maybeFlashElement`. */
    method MaybeFlashDock(flashFast: int, clock: Clock) returns (drawBright: int)
      requires Valid()
      modifies flashTimer, this`flashFlags
      ensures var flashing := !clock.elapsed(old(flashTimer[0]));
              var toggles := flashing && clock.elapsed(old(flashTimer[1]));
              && flashTimer[..] == [old(flashTimer[0]),
                                    if toggles then clock.stamp(BlinkInterval(flashFast)) else old(flashTimer[1])]
              && flashFlags == (if toggles then !old(flashFlags) else old(flashFlags))
              && drawBright == (if flashing && flashFlags then 1 else 0)
    {
      drawBright := 0;
      if !clock.elapsed(flashTimer[0]) {
        if clock.elapsed(flashTimer[1]) {
          if flashFast != 0 {
            flashTimer[1] := clock.stamp(FlashInterval / 2);
          } else {
            flashTimer[1] := clock.stamp(FlashInterval);
          }
          if flashFlags {
            flashFlags := false;
          } else {
            flashFlags := true;
          }
        }
        if flashFlags {
          drawBright := 1;
        }
      }
    }

    /** The dock line of one frame of the gauge: a change of target ends the
        flash; while the target is docked the flash is restarted for two
        seconds and the blink advanced.  Returns whether the dock line is
        drawn bright (0 when it is not drawn). */
    method DockStatusFrame(targetChanged: bool, docked: bool, clock: Clock) returns (drawBright: int)
      requires Valid()
      modifies flashTimer, this`flashFlags
      ensures !docked ==> drawBright == 0 && flashFlags == old(flashFlags)
      ensures !docked ==> flashTimer[..] == [if targetChanged then clock.stamp(0) else old(flashTimer[0]),
                                             old(flashTimer[1])]
      ensures docked ==> flashTimer[0] == clock.stamp(2000)
      ensures docked && !clock.elapsed(clock.stamp(2000)) && clock.elapsed(old(flashTimer[1]))
              ==> flashFlags == !old(flashFlags)
    {
      drawBright := 0;
      if targetChanged {
        EndFlashDock(clock);
      }
      if docked {
        StartFlashDock(2000, clock);
        drawBright := MaybeFlashDock(0, clock);
      }
    }
  }
}
