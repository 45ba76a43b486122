/**
 * The panel object of the JDI 1080p driver and the drm_panel callbacks that
 * change it in place.
 *
 * The foreign calls the driver makes (regulators, GPIO lines, sleeps, DSI
 * writes) are the methods at the top of JdiPanel: each one appends its event
 * to the trace, and those that can fail take their result from the reply
 * script. Every callback is proved to append exactly the events, return
 * exactly the value and consume exactly the replies that the matching function
 * of Protocol gives for the script it started with.
 */
module Panel {
  import opened Dsi
  import opened Events
  import opened Protocol
  import opened Mode

  class JdiPanel {
    var prepared: bool
    var enabled: bool
    /** The MIPI_DSI_MODE_LPM bit of the DSI device's mode flags. */
    var lpm: bool
    // Levels last written to the enable, reset and dcdc-en lines.
    var enableGpio: Level
    var resetGpio: Level
    var dcdcEnGpio: Level
    /** Everything the driver has done to the outside world, oldest first. */
    var trace: seq<Event>
    /** The answers still to be given to regulator and DSI calls. */
    var replies: seq<int>

    function Gpios(): GpioState
      reads this
    {
      GpioState(enableGpio, resetGpio, dcdcEnGpio)
    }

    /** The line levels are those the trace's GPIO writes leave, starting from acquisition. */
    ghost predicate TraceAgrees()
      reads this
    {
      Gpios() == ApplyGpio(Idle, trace)
    }

    /** A prepared panel is powered; an unprepared one holds the acquisition levels. */
    ghost predicate Valid()
      reads this
    {
      TraceAgrees() && Gpios() == (if prepared then Active else Idle)
    }

    /**
     * The panel as probe leaves it: a zeroed object, the three lines acquired
     * as enable low, reset high, dcdc-en low, and LPM not among the DSI mode flags.
     */
    constructor (replies: seq<int>)
      ensures Valid()
      ensures !prepared && !enabled && !lpm && Gpios() == Idle
      ensures trace == [] && this.replies == replies
    {
      prepared, enabled, lpm := false, false, false;
      enableGpio, resetGpio, dcdcEnGpio := Low, High, Low;
      trace := [];
      this.replies := replies;
    }

    // -------------------------------------------------------------------------
    // Foreign calls

    method NextReply() returns (ret: int)
      modifies this`replies
      ensures ret == Reply(old(replies), 0) && replies == Drop(old(replies), 1)
    {
      ret := Reply(replies, 0);
      replies := Drop(replies, 1);
    }

    method RegulatorBulkEnable() returns (ret: int)
      modifies this`trace, this`replies
      ensures trace == old(trace) + [RegulatorsOn]
      ensures ret == Reply(old(replies), 0) && replies == Drop(old(replies), 1)
    {
      trace := trace + [RegulatorsOn];
      ret := NextReply();
    }

    method RegulatorBulkDisable() returns (ret: int)
      modifies this`trace, this`replies
      ensures trace == old(trace) + [RegulatorsOff]
      ensures ret == Reply(old(replies), 0) && replies == Drop(old(replies), 1)
    {
      trace := trace + [RegulatorsOff];
      ret := NextReply();
    }

    method GpiodSetValue(line: Line, level: Level)
      modifies this`enableGpio, this`resetGpio, this`dcdcEnGpio, this`trace
      ensures Gpios() == Write(old(Gpios()), line, level)
      ensures trace == old(trace) + [SetGpio(line, level)]
    {
      match line {
        case EnableLine => enableGpio := level;
        case ResetLine => resetGpio := level;
        case DcdcEnLine => dcdcEnGpio := level;
      }
      trace := trace + [SetGpio(line, level)];
    }

    method Msleep(ms: nat)
      modifies this`trace
      ensures trace == old(trace) + [Sleep(ms)]
    {
      trace := trace + [Sleep(ms)];
    }

    method UsleepRange(minUs: nat, maxUs: nat)
      modifies this`trace
      ensures trace == old(trace) + [Delay(minUs, maxUs)]
    {
      trace := trace + [Delay(minUs, maxUs)];
    }

    /**
     * One generic or DCS write on the command channel, sent in low-power mode
     * exactly when the LPM bit is set at the time of the write.
     */
    method DsiWrite(f: Frame) returns (ret: int)
      modifies this`trace, this`replies
      ensures trace == old(trace) + [Transfer(f, lpm)]
      ensures ret == Reply(old(replies), 0) && replies == Drop(old(replies), 1)
    {
      trace := trace + [Transfer(f, lpm)];
      ret := NextReply();
    }

    // -------------------------------------------------------------------------
    // Driver operations

    /**
     * The table replay of jdi_panel_init: the frames of fs in order, returning
     * at the first write that fails. ret holds prev until a write is made.
     */
    method WriteFrames(fs: seq<Frame>, prev: int) returns (ret: int)
      requires lpm
      modifies this`trace, this`replies
      ensures trace == old(trace) + FramesRun(old(replies), fs, prev).events
      ensures ret == FramesRun(old(replies), fs, prev).ret
      ensures replies == Drop(old(replies), FramesRun(old(replies), fs, prev).calls)
    {
      ret := prev;
      var i := 0;
      while i < |fs|
        invariant 0 <= i <= |fs|
        invariant forall j :: 0 <= j < i ==> Reply(old(replies), j) >= 0
        invariant ret == if i == 0 then prev else Reply(old(replies), i - 1)
        invariant trace == old(trace) + Sends(fs[..i])
        invariant replies == Drop(old(replies), i)
      {
        ret := DsiWrite(fs[i]);
        SendsStep(fs, i);
        DropDrop(old(replies), i, 1);
        if ret < 0 {
          FramesStopAt(old(replies), fs, prev, i);
          return;
        }
        i := i + 1;
      }
      FramesAllSent(old(replies), fs, prev);
    }

    /**
     * The writes of jdi_panel_init for a table fs: the soft reset, returning
     * at once if it fails, 10-20 ms, then the frames of fs in order, all in
     * low-power mode.
     */
    method SendInitSequence(fs: seq<Frame>) returns (ret: int)
      requires lpm
      modifies this`trace, this`replies
      ensures trace == old(trace) + ResetAndSend(old(replies), fs).events
      ensures ret == ResetAndSend(old(replies), fs).ret
      ensures replies == Drop(old(replies), ResetAndSend(old(replies), fs).calls)
    {
      ret := DsiWrite(SoftReset);
      if ret < 0 {
        return;
      }
      UsleepRange(10000, 20000);
      ghost var head := [Transfer(SoftReset, true), ResetSettle];
      assert trace == old(trace) + head;
      ghost var w := FramesRun(Drop(old(replies), 1), fs, ret);
      ret := WriteFrames(fs, ret);
      DropDrop(old(replies), 1, w.calls);
      AppendAssoc(old(trace), head, w.events, []);
    }

    /**
     * jdi_panel_init: sets LPM first, so the soft reset and the init table
     * all go out in low-power mode, returning at the first write that fails.
     */
    method Init() returns (ret: int)
      modifies this`lpm, this`trace, this`replies
      ensures lpm
      ensures trace == old(trace) + InitRun(old(replies)).events
      ensures ret == InitRun(old(replies)).ret
      ensures replies == Drop(old(replies), InitRun(old(replies)).calls)
    {
      lpm := true;
      ret := SendInitSequence(InitTable);
    }

    /** jdi_panel_on: sets LPM, then sends display-on in low-power mode. */
    method PanelOn() returns (ret: int)
      modifies this`lpm, this`trace, this`replies
      ensures lpm
      ensures trace == old(trace) + [Transfer(DisplayOn, true)]
      ensures ret == Reply(old(replies), 0) && replies == Drop(old(replies), 1)
    {
      lpm := true;
      ret := DsiWrite(DisplayOn);
    }

    /**
     * jdi_panel_off: clears LPM first, so display-off and enter-sleep go out
     * outside low-power mode; it sends both whatever they answer, then waits
     * 100 ms.
     */
    method PanelOff()
      modifies this`lpm, this`trace, this`replies
      ensures !lpm
      ensures trace == old(trace) + [Transfer(DisplayOff, false), Transfer(EnterSleep, false), Sleep(100)]
      ensures replies == Drop(old(replies), 2)
    {
      lpm := false;
      var ret := DsiWrite(DisplayOff);
      ret := DsiWrite(EnterSleep);
      DropDrop(old(replies), 1, 1);
      Msleep(100);
    }

    /**
     * The steps of prepare after the regulators are on: 20 ms, then dcdc-en
     * high, reset low and enable high, each followed by 10-20 us.
     */
    method PowerUpLines()
      modifies this`enableGpio, this`resetGpio, this`dcdcEnGpio, this`trace
      ensures Gpios() == Active
      ensures trace == old(trace) + PowerUpSteps
    {
      Msleep(20);
      GpiodSetValue(DcdcEnLine, High);
      UsleepRange(10, 20);
      GpiodSetValue(ResetLine, Low);
      UsleepRange(10, 20);
      GpiodSetValue(EnableLine, High);
      UsleepRange(10, 20);
    }

    /**
     * The power-down steps shared by unprepare and the failure path of
     * prepare: regulators off, then enable low, reset high, dcdc-en low.
     */
    method PowerOff() returns (ret: int)
      modifies this`enableGpio, this`resetGpio, this`dcdcEnGpio, this`trace, this`replies
      ensures Gpios() == Idle
      ensures trace == old(trace) + PowerDownEvents
      ensures ret == Reply(old(replies), 0) && replies == Drop(old(replies), 1)
    {
      ret := RegulatorBulkDisable();
      GpiodSetValue(EnableLine, Low);
      GpiodSetValue(ResetLine, High);
      GpiodSetValue(DcdcEnLine, Low);
    }

    /**
     * jdi_panel_prepare after the regulators are on: the line steps, init and
     * display-on; the panel becomes prepared if both succeed, and is powered
     * down again, returning the regulator-disable result, if either fails.
     */
    method BringUp() returns (ret: int)
      requires !prepared
      modifies this`prepared, this`lpm, this`enableGpio, this`resetGpio, this`dcdcEnGpio
      modifies this`trace, this`replies
      ensures trace == old(trace) + BringUpRun(old(replies)).events
      ensures ret == BringUpRun(old(replies)).ret
      ensures replies == Drop(old(replies), BringUpRun(old(replies)).calls)
      ensures prepared == BringUpSucceeds(old(replies)) && lpm
      ensures Gpios() == if prepared then Active else Idle
    {
      PowerUpLines();
      ghost var init := InitRun(old(replies));
      ret := Init();
      ghost var on := [Transfer(DisplayOn, true)];
      if ret < 0 {
        ret := PowerOff();
        DropDrop(old(replies), init.calls, 1);
        AppendAssoc(old(trace), PowerUpSteps, init.events, PowerDownEvents);
        return;
      }
      ret := PanelOn();
      DropDrop(old(replies), init.calls, 1);
      AppendAssoc(old(trace), PowerUpSteps, init.events, on);
      if ret < 0 {
        ret := PowerOff();
        DropDrop(old(replies), 1 + init.calls, 1);
        AppendAssoc(old(trace), PowerUpSteps + init.events, on, PowerDownEvents);
        return;
      }
      prepared := true;
      return 0;
    }

    /**
     * jdi_panel_prepare. On a prepared panel it does nothing. Otherwise it
     * enables the regulators, returning the error at once if that fails, and
     * then brings the panel up.
     */
    method Prepare() returns (ret: int)
      requires Valid()
      modifies this`prepared, this`lpm, this`enableGpio, this`resetGpio, this`dcdcEnGpio
      modifies this`trace, this`replies
      ensures Valid()
      ensures old(prepared) ==>
                ret == 0 && prepared && lpm == old(lpm) &&
                trace == old(trace) && replies == old(replies)
      ensures !old(prepared) ==>
                trace == old(trace) + PrepareRun(old(replies)).events &&
                ret == PrepareRun(old(replies)).ret &&
                replies == Drop(old(replies), PrepareRun(old(replies)).calls) &&
                prepared == PrepareSucceeds(old(replies)) &&
                lpm == (if Reply(old(replies), 0) < 0 then old(lpm) else true)
    {
      if prepared {
        return 0;
      }
      ghost var run := PrepareRun(old(replies));
      ApplyGpioAppend(Idle, old(trace), run.events);
      PrepareLevels(old(replies), Idle);
      ret := RegulatorBulkEnable();
      if ret < 0 {
        return;
      }
      PrepareCases(old(replies));
      ghost var b := BringUpRun(Drop(old(replies), 1));
      ret := BringUp();
      DropDrop(old(replies), 1, b.calls);
      AppendAssoc(old(trace), [RegulatorsOn], b.events, []);
    }

    /**
     * jdi_panel_unprepare. On an unprepared panel it does nothing. Otherwise
     * it turns the display off and powers it down; a failed regulator disable
     * is only logged, and the panel ends unprepared either way.
     */
    method Unprepare() returns (ret: int)
      requires Valid()
      modifies this`prepared, this`lpm, this`enableGpio, this`resetGpio, this`dcdcEnGpio
      modifies this`trace, this`replies
      ensures Valid() && ret == 0 && !prepared
      ensures !old(prepared) ==> trace == old(trace) && replies == old(replies) && lpm == old(lpm)
      ensures old(prepared) ==>
                trace == old(trace) + UnprepareEvents && replies == Drop(old(replies), 3) && !lpm
    {
      if !prepared {
        return 0;
      }
      PanelOff();
      var disabled := PowerOff();
      DropDrop(old(replies), 2, 1);
      AppendAssoc(old(trace), [Transfer(DisplayOff, false), Transfer(EnterSleep, false), Sleep(100)], PowerDownEvents, []);
      ApplyGpioAppend(Idle, old(trace), UnprepareEvents);
      UnprepareIdles(Active);
      prepared := false;
      return 0;
    }

    /** jdi_panel_enable: marks the panel enabled; nothing else changes. */
    method Enable() returns (ret: int)
      modifies this`enabled
      ensures enabled && ret == 0
    {
      if enabled {
        return 0;
      }
      enabled := true;
      return 0;
    }

    /** jdi_panel_disable: marks the panel disabled; nothing else changes. */
    method Disable() returns (ret: int)
      modifies this`enabled
      ensures !enabled && ret == 0
    {
      if !enabled {
        return 0;
      }
      enabled := false;
      return 0;
    }

    /**
     * jdi_panel_get_modes. duplicated says whether the copy of the default
     * mode could be allocated: if so it is added to the connector and 1 is
     * returned, otherwise the connector is left alone and -ENOMEM is returned.
     */
    method GetModes(connector: Connector, duplicated: bool) returns (count: int)
      modifies connector
      ensures duplicated ==> count == 1 && connector.modes == old(connector.modes) + [DefaultMode]
      ensures !duplicated ==> count == -ENOMEM && connector.modes == old(connector.modes)
    {
      if !duplicated {
        return -ENOMEM;
      }
      connector.modes := connector.modes + [DefaultMode];
      return 1;
    }
  }
}
