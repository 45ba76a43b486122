/**
 * The single display timing the JDI 1080p panel reports, and the connector
 * list that jdi_panel_get_modes adds it to.
 */
module Mode {

  /** The fields of drm_display_mode that the driver sets. */
  datatype DisplayMode = DisplayMode(
    clock: nat,          // pixel clock in kHz
    hdisplay: nat, hsyncStart: nat, hsyncEnd: nat, htotal: nat,
    vdisplay: nat, vsyncStart: nat, vsyncEnd: nat, vtotal: nat,
    vrefresh: nat,
    flags: nat)

  /** Active area, then front porch, sync width and back porch, in each direction. */
  const DefaultMode := DisplayMode(
    148876,
    1080, 1080 + 100, 1080 + 100 + 4, 1080 + 100 + 4 + 95,
    1920, 1920 + 10, 1920 + 10 + 1, 1920 + 10 + 1 + 9,
    30,
    0)

  /** Error code drm_mode_duplicate's failure is reported with, negated by the driver. */
  const ENOMEM := 12

  /** Active area, sync start, sync end and total are non-decreasing in each direction. */
  predicate Ordered(m: DisplayMode) {
    m.hdisplay <= m.hsyncStart <= m.hsyncEnd <= m.htotal &&
    m.vdisplay <= m.vsyncStart <= m.vsyncEnd <= m.vtotal
  }

  lemma DefaultModeTimings()
    ensures Ordered(DefaultMode)
    ensures DefaultMode.hdisplay == 1080 && DefaultMode.hsyncStart == 1180
    ensures DefaultMode.hsyncEnd == 1184 && DefaultMode.htotal == 1279
    ensures DefaultMode.vdisplay == 1920 && DefaultMode.vsyncStart == 1930
    ensures DefaultMode.vsyncEnd == 1931 && DefaultMode.vtotal == 1940
    ensures DefaultMode.clock == 148876 && DefaultMode.vrefresh == 30 && DefaultMode.flags == 0
  {
  }

  /**
   * The pixel clock is the 60 Hz rate of the total frame, rounded to the kHz:
   * 1279 * 1940 pixels * 60 = 148875.6 kHz. The vrefresh field says 30.
   */
  lemma DefaultModeClockIsSixtyHertz()
    ensures DefaultMode.htotal * DefaultMode.vtotal * 60 == 148875600
    ensures DefaultMode.clock == (DefaultMode.htotal * DefaultMode.vtotal * 60 + 500) / 1000
    ensures DefaultMode.vrefresh * 2 == 60
  {
  }

  /** The probed-mode list of the connector the panel is attached to. */
  class Connector {
    var modes: seq<DisplayMode>

    constructor ()
      ensures modes == []
    {
      modes := [];
    }
  }
}
