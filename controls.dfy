/**
 * The controls shared by the teleprompter and the moderator
 * (src/js/CommonControls.js): the clicker key and the two flip buttons.
 */
module CommonControls {
  import opened Shared
  import Teleprompter

  /**
   * The keydown handler: 'AudioVolumeUp' emits teleprompterRefresh and
   * prevents the default action; any other key does nothing.
   */
  method KeyDown(sh: Store, key: string) returns (preventDefault: bool)
    modifies sh`events
    ensures preventDefault <==> key == "AudioVolumeUp"
    ensures sh.events == old(sh.events) + (if key == "AudioVolumeUp" then [TeleprompterRefresh] else [])
  {
    preventDefault := key == "AudioVolumeUp";
    if preventDefault {
      sh.events := sh.events + [TeleprompterRefresh];
    }
  }

  /** The configuration after the flipHorizontal button: only that flag is negated. */
  function FlippedHorizontally(c: Config): (r: Config)
    ensures r.flipHorizontal == !c.flipHorizontal
    ensures r.(flipHorizontal := c.flipHorizontal) == c
  {
    c.(flipHorizontal := !c.flipHorizontal)
  }

  /** The configuration after the flipVertical button: only that flag is negated. */
  function FlippedVertically(c: Config): (r: Config)
    ensures r.flipVertical == !c.flipVertical
    ensures r.(flipVertical := c.flipVertical) == c
  {
    c.(flipVertical := !c.flipVertical)
  }

  /**
   * Each flip mirrors exactly one axis of the teleprompter's transform, and
   * pressing the same button twice restores the configuration.
   */
  lemma FlipsMirrorOneAxis(c: Config)
    ensures Teleprompter.ConfigStyle(FlippedHorizontally(c)).scaleX == -Teleprompter.ConfigStyle(c).scaleX
    ensures Teleprompter.ConfigStyle(FlippedHorizontally(c)).scaleY == Teleprompter.ConfigStyle(c).scaleY
    ensures Teleprompter.ConfigStyle(FlippedVertically(c)).scaleY == -Teleprompter.ConfigStyle(c).scaleY
    ensures Teleprompter.ConfigStyle(FlippedVertically(c)).scaleX == Teleprompter.ConfigStyle(c).scaleX
    ensures FlippedHorizontally(FlippedHorizontally(c)) == c
    ensures FlippedVertically(FlippedVertically(c)) == c
  {
  }

  /** The flipHorizontal button: negate the flag, then emit configUpdate. */
  method FlipHorizontal(sh: Store)
    modifies sh`config, sh`events
    ensures sh.config == FlippedHorizontally(old(sh.config))
    ensures sh.events == old(sh.events) + [ConfigUpdate]
  {
    sh.config := FlippedHorizontally(sh.config);
    sh.events := sh.events + [ConfigUpdate];
  }

  /** The flipVertical button: negate the flag, then emit configUpdate. */
  method FlipVertical(sh: Store)
    modifies sh`config, sh`events
    ensures sh.config == FlippedVertically(old(sh.config))
    ensures sh.events == old(sh.events) + [ConfigUpdate]
  {
    sh.config := FlippedVertically(sh.config);
    sh.events := sh.events + [ConfigUpdate];
  }

  /** Pressing either flip button twice restores the configuration and emits configUpdate twice. */
  method FlipTwice(sh: Store, horizontal: bool)
    modifies sh`config, sh`events
    ensures sh.config == old(sh.config)
    ensures sh.events == old(sh.events) + [ConfigUpdate, ConfigUpdate]
  {
    if horizontal {
      FlipHorizontal(sh);
      FlipHorizontal(sh);
    } else {
      FlipVertical(sh);
      FlipVertical(sh);
    }
  }
}
