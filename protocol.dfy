/**
 * The traces the driver's operations produce, as pure functions of the reply
 * script, and what they promise: the order of the power-up and power-down
 * steps, the in-order replay of the init table that stops at the first failed
 * write, and the rollback when a step after the regulators fails.
 *
 * Each function gives, for one operation started on a given script, the events
 * it appends to the trace, the value it returns and how many replies it uses.
 * Panel.JdiPanel is proved to behave exactly as these functions say.
 */
module Protocol {
  import opened Dsi
  import opened Events

  datatype Run = Run(events: seq<Event>, ret: int, calls: nat)

  /** The 10-20 ms settle delay after the soft reset. */
  const ResetSettle := Delay(10000, 20000)

  /** Regulators on, then the line steps. */
  const PowerUpEvents: seq<Event> := [RegulatorsOn] + PowerUpSteps

  /** 20 ms, then dcdc-en high, reset low and enable high, each with a 10-20 us delay. */
  const PowerUpSteps: seq<Event> :=
    [Sleep(20)]
    + [SetGpio(DcdcEnLine, High), Delay(10, 20)]
    + [SetGpio(ResetLine, Low), Delay(10, 20)]
    + [SetGpio(EnableLine, High), Delay(10, 20)]

  /** Regulators off, then enable low, reset high, dcdc-en low. */
  const PowerDownEvents: seq<Event> := [
    RegulatorsOff, SetGpio(EnableLine, Low), SetGpio(ResetLine, High), SetGpio(DcdcEnLine, Low)
  ]

  const PowerUpWrites: seq<Event> :=
    [SetGpio(DcdcEnLine, High), SetGpio(ResetLine, Low), SetGpio(EnableLine, High)]

  const PowerDownWrites: seq<Event> :=
    [SetGpio(EnableLine, Low), SetGpio(ResetLine, High), SetGpio(DcdcEnLine, Low)]

  // ---------------------------------------------------------------------------
  // jdi_panel_init

  /** The soft reset, its settle delay, then the first n frames of the table. */
  function InitPrefix(n: nat): seq<Event>
    requires n <= |InitTable|
  {
    [Transfer(SoftReset, true), ResetSettle] + Sends(InitTable[..n])
  }

  lemma SendsStep(fs: seq<Frame>, i: nat)
    requires i < |fs|
    ensures Sends(fs[..i + 1]) == Sends(fs[..i]) + [Transfer(fs[i], true)]
  {
    assert fs[..i + 1][..i] == fs[..i];
  }

  /** How many of the n calls answered from position base succeed before the first failure. */
  function FirstFailure(replies: seq<int>, base: nat, n: nat): (k: nat)
    ensures k <= n
    ensures forall j :: base <= j < base + k ==> Reply(replies, j) >= 0
    ensures k < n ==> Reply(replies, base + k) < 0
    decreases n
  {
    if n == 0 || Reply(replies, base) < 0 then 0
    else 1 + FirstFailure(replies, base + 1, n - 1)
  }

  /**
   * Writing the frames of fs in order, each answered by the next reply, and
   * stopping after the first write that fails. The result is that of the last
   * write made, or prev when fs is empty.
   */
  function FramesRun(replies: seq<int>, fs: seq<Frame>, prev: int): (r: Run)
    ensures r.calls <= |fs|
    ensures r.events == Sends(fs[..r.calls])
    ensures r.ret == if r.calls == 0 then prev else Reply(replies, r.calls - 1)
    ensures forall j :: 0 <= j < r.calls - 1 ==> Reply(replies, j) >= 0
    ensures r.calls < |fs| ==> 0 < r.calls && r.ret < 0
    ensures r.calls == |fs| ==> forall j :: 0 <= j < |fs| - 1 ==> Reply(replies, j) >= 0
  {
    var k := FirstFailure(replies, 0, |fs|);
    var sent := if k < |fs| then k + 1 else k;
    Run(Sends(fs[..sent]), if sent == 0 then prev else Reply(replies, sent - 1), sent)
  }

  /** With every reply non-negative, all frames are written. */
  lemma FramesAllSent(replies: seq<int>, fs: seq<Frame>, prev: int)
    requires forall j :: 0 <= j < |fs| ==> Reply(replies, j) >= 0
    ensures FramesRun(replies, fs, prev) ==
            Run(Sends(fs), if fs == [] then prev else Reply(replies, |fs| - 1), |fs|)
  {
    assert fs[..|fs|] == fs;
  }

  /** When write i is the first to fail, frames 0..i are written and nothing after. */
  lemma FramesStopAt(replies: seq<int>, fs: seq<Frame>, prev: int, i: nat)
    requires i < |fs|
    requires forall j :: 0 <= j < i ==> Reply(replies, j) >= 0
    requires Reply(replies, i) < 0
    ensures FramesRun(replies, fs, prev) == Run(Sends(fs[..i + 1]), Reply(replies, i), i + 1)
  {
    var k := FirstFailure(replies, 0, |fs|);
    assert k == i;
  }

  /**
   * jdi_panel_init over a table fs: the soft reset (reply 0), the settle delay,
   * then the frames of fs in order (frame i answered by reply i + 1), stopping
   * after the first write that fails. It returns the result of the last write
   * it made, so it succeeds exactly when every write it could make succeeded.
   */
  function ResetAndSend(replies: seq<int>, fs: seq<Frame>): (r: Run)
    ensures 1 <= r.calls <= 1 + |fs|
    ensures r.ret == Reply(replies, r.calls - 1)
    ensures forall j :: 0 <= j < r.calls - 1 ==> Reply(replies, j) >= 0
    ensures r.ret >= 0 <==> forall j :: 0 <= j <= |fs| ==> Reply(replies, j) >= 0
    ensures r.ret >= 0 ==> r.calls == 1 + |fs|
  {
    var reset := Reply(replies, 0);
    if reset < 0 then Run([Transfer(SoftReset, true)], reset, 1)
    else
      var rest := Drop(replies, 1);
      var w := FramesRun(rest, fs, reset);
      DropReplies(replies, 1);
      assert forall j :: 1 <= j <= |fs| ==> Reply(replies, j) == Reply(rest, j - 1);
      Run([Transfer(SoftReset, true), ResetSettle] + w.events, w.ret, 1 + w.calls)
  }

  /** jdi_panel_init on its twenty-frame table. */
  function InitRun(replies: seq<int>): Run {
    ResetAndSend(replies, InitTable)
  }

  /** The events of an init whose soft reset succeeded are the prefix sent so far. */
  lemma InitEvents(replies: seq<int>)
    requires Reply(replies, 0) >= 0
    ensures 2 <= InitRun(replies).calls
    ensures InitRun(replies).events == InitPrefix(InitRun(replies).calls - 1)
  {
    InitTableWellFormed();
  }

  /** With no failure, the soft reset, the delay and all twenty frames go out in table order. */
  lemma InitAllSent(replies: seq<int>)
    requires forall j :: 0 <= j <= |InitTable| ==> Reply(replies, j) >= 0
    ensures InitRun(replies) ==
            Run(InitPrefix(|InitTable|), Reply(replies, |InitTable|), 1 + |InitTable|)
  {
    InitTableWellFormed();
    var rest := Drop(replies, 1);
    DropReplies(replies, 1);
    FramesAllSent(rest, InitTable, Reply(replies, 0));
  }

  /**
   * When frame k is the first write to fail, frames 0..k are sent (k + 1 of them
   * after the soft reset), nothing after k is sent, and frame k's error is returned.
   */
  lemma InitStopsAtFailure(replies: seq<int>, k: nat)
    requires k < |InitTable|
    requires forall j :: 0 <= j <= k ==> Reply(replies, j) >= 0
    requires Reply(replies, k + 1) < 0
    ensures InitRun(replies) ==
            Run(InitPrefix(k + 1), Reply(replies, k + 1), k + 2)
  {
    var rest := Drop(replies, 1);
    DropReplies(replies, 1);
    FramesStopAt(rest, InitTable, Reply(replies, 0), k);
  }

  /** The frames jdi_panel_init puts on the channel are the soft reset and a prefix of the table. */
  lemma InitTransfers(replies: seq<int>)
    ensures Only(InitRun(replies).events, IsTransfer) == Sends([SoftReset] + InitTable[..InitRun(replies).calls - 1])
    ensures Only(InitRun(replies).events, IsGpioWrite) == []
    ensures Only(InitRun(replies).events, IsRegulatorsOff) == []
    ensures forall s :: ApplyGpio(s, InitRun(replies).events) == s
  {
    var r := InitRun(replies);
    if Reply(replies, 0) < 0 {
      assert [SoftReset] + InitTable[..0] == [SoftReset];
      assert r.events == Sends([SoftReset]);
      SendsOnlyTransfers([SoftReset]);
    } else {
      InitEvents(replies);
      ResetThenSends(InitTable[..r.calls - 1]);
    }
  }

  /** The soft reset and its delay followed by frame writes: only transfers, lines untouched. */
  lemma ResetThenSends(frames: seq<Frame>)
    ensures var events := [Transfer(SoftReset, true), ResetSettle] + Sends(frames);
            Only(events, IsTransfer) == Sends([SoftReset] + frames) &&
            Only(events, IsGpioWrite) == [] &&
            Only(events, IsRegulatorsOff) == [] &&
            forall s :: ApplyGpio(s, events) == s
  {
    var head := [Transfer(SoftReset, true), ResetSettle];
    SendsOnlyTransfers(frames);
    OnlyPair(Transfer(SoftReset, true), ResetSettle, IsTransfer);
    OnlyPair(Transfer(SoftReset, true), ResetSettle, IsGpioWrite);
    OnlyPair(Transfer(SoftReset, true), ResetSettle, IsRegulatorsOff);
    OnlyAppend(head, Sends(frames), IsTransfer);
    OnlyAppend(head, Sends(frames), IsGpioWrite);
    OnlyAppend(head, Sends(frames), IsRegulatorsOff);
    SendsPrepend(SoftReset, frames);
    forall s ensures ApplyGpio(s, head + Sends(frames)) == s {
      ApplyGpioAppend(s, head, Sends(frames));
      ApplyGpioQuiet(s, head);
    }
  }

  lemma {:induction false} SendsPrepend(f: Frame, fs: seq<Frame>)
    ensures Sends([f] + fs) == [Transfer(f, true)] + Sends(fs)
    decreases |fs|
  {
    if fs != [] {
      var init := fs[..|fs| - 1];
      assert ([f] + fs)[..|fs|] == [f] + init;
      SendsPrepend(f, init);
    }
  }

  lemma {:induction false} ApplyGpioAppend(s: GpioState, a: seq<Event>, b: seq<Event>)
    ensures ApplyGpio(s, a + b) == ApplyGpio(ApplyGpio(s, a), b)
    decreases |b|
  {
    if b == [] {
      assert a + b == a;
    } else {
      var b' := b[..|b| - 1];
      assert (a + b)[..|a + b| - 1] == a + b';
      ApplyGpioAppend(s, a, b');
    }
  }

  // ---------------------------------------------------------------------------
  // jdi_panel_prepare on a panel that is not yet prepared

  /** Regulators, init and display-on all succeed. */
  predicate PrepareSucceeds(replies: seq<int>) {
    Reply(replies, 0) >= 0 &&
    var init := InitRun(Drop(replies, 1));
    init.ret >= 0 && Reply(replies, 1 + init.calls) >= 0
  }

  /** Init and display-on succeed, answered from rest. */
  predicate BringUpSucceeds(rest: seq<int>) {
    var init := InitRun(rest);
    init.ret >= 0 && Reply(rest, init.calls) >= 0
  }

  /**
   * The part of jdi_panel_prepare after the regulators are on, answered from
   * rest: the line steps, init, display-on; if init or display-on fails, the
   * power-down follows and the regulator-disable answer is returned.
   */
  function BringUpRun(rest: seq<int>): Run {
    var init := InitRun(rest);
    if init.ret < 0 then
      Run(PowerUpSteps + init.events + PowerDownEvents, Reply(rest, init.calls), 1 + init.calls)
    else if Reply(rest, init.calls) < 0 then
      Run(PowerUpSteps + init.events + [Transfer(DisplayOn, true)] + PowerDownEvents,
          Reply(rest, 1 + init.calls), 2 + init.calls)
    else
      Run(PowerUpSteps + init.events + [Transfer(DisplayOn, true)], 0, 1 + init.calls)
  }

  /**
   * jdi_panel_prepare on an unprepared panel. Reply 0 answers the regulator
   * enable; if it fails, its error is returned at once. The rest of the script
   * answers the bring-up.
   */
  function PrepareRun(replies: seq<int>): Run {
    var enable := Reply(replies, 0);
    if enable < 0 then Run([RegulatorsOn], enable, 1)
    else
      var b := BringUpRun(Drop(replies, 1));
      Run([RegulatorsOn] + b.events, b.ret, 1 + b.calls)
  }

  /**
   * The three ways a prepare whose regulators came up can go, written out
   * over the whole script: init fails, display-on fails, or both succeed.
   */
  lemma PrepareCases(replies: seq<int>)
    requires Reply(replies, 0) >= 0
    ensures var init := InitRun(Drop(replies, 1));
            var on := [Transfer(DisplayOn, true)];
            PrepareSucceeds(replies) == BringUpSucceeds(Drop(replies, 1)) &&
            PrepareRun(replies) ==
              if init.ret < 0 then
                Run(PowerUpEvents + init.events + PowerDownEvents, Reply(replies, 1 + init.calls), 2 + init.calls)
              else if Reply(replies, 1 + init.calls) < 0 then
                Run(PowerUpEvents + init.events + on + PowerDownEvents,
                    Reply(replies, 2 + init.calls), 3 + init.calls)
              else
                Run(PowerUpEvents + init.events + on, 0, 2 + init.calls)
  {
    var init := InitRun(Drop(replies, 1));
    var on := [Transfer(DisplayOn, true)];
    var up := [RegulatorsOn];
    DropReply(replies, 1, init.calls);
    DropReply(replies, 1, 1 + init.calls);
    AppendAssoc(up, PowerUpSteps, init.events, PowerDownEvents);
    AppendAssoc(up, PowerUpSteps, init.events, on);
    AppendAssoc(up, PowerUpSteps + init.events, on, PowerDownEvents);
    AppendAssoc(up, PowerUpSteps, init.events + on, PowerDownEvents);
  }

  /**
   * A failed regulator enable is returned at once with nothing else done. A
   * prepare that succeeds returns 0. Any other prepare starts with the full
   * power-up, ends with the full power-down, and returns the answer to its
   * last call, the regulator disable.
   */
  lemma PrepareOutcome(replies: seq<int>)
    ensures var r := PrepareRun(replies);
            (Reply(replies, 0) < 0 ==> r == Run([RegulatorsOn], Reply(replies, 0), 1)) &&
            (PrepareSucceeds(replies) ==> r.ret == 0) &&
            r.calls >= 1 &&
            (Reply(replies, 0) >= 0 ==> PowerUpEvents <= r.events) &&
            (Reply(replies, 0) >= 0 && !PrepareSucceeds(replies) ==>
               r.ret == Reply(replies, r.calls - 1) &&
               |r.events| >= |PowerDownEvents| && r.events[|r.events| - |PowerDownEvents|..] == PowerDownEvents)
  {
  }

  /**
   * A fault-free prepare: regulators, 20 ms, dcdc-en/reset/enable with their
   * delays, the init sequence, display-on; it returns 0.
   */
  lemma PrepareSuccess(replies: seq<int>)
    requires forall j :: 0 <= j <= |InitTable| + 2 ==> Reply(replies, j) >= 0
    ensures PrepareSucceeds(replies)
    ensures PrepareRun(replies) ==
            Run(PowerUpEvents + InitPrefix(|InitTable|) + [Transfer(DisplayOn, true)], 0, |InitTable| + 3)
  {
    var rest := Drop(replies, 1);
    DropReplies(replies, 1);
    InitAllSent(rest);
    PrepareCases(replies);
    var init := InitRun(rest);
    assert init.calls == |InitTable| + 1 && init.ret >= 0;
    assert Reply(replies, 1 + init.calls) >= 0;
  }

  /** A failed soft reset: no settle delay, no table frame, then the rollback. */
  lemma PrepareSoftResetFailure(replies: seq<int>)
    requires Reply(replies, 0) >= 0 && Reply(replies, 1) < 0
    ensures !PrepareSucceeds(replies)
    ensures PrepareRun(replies) ==
            Run(PowerUpEvents + [Transfer(SoftReset, true)] + PowerDownEvents, Reply(replies, 2), 3)
  {
  }

  /** Table frame k fails: frames after k are never sent, and the rollback follows. */
  lemma PrepareFrameFailure(replies: seq<int>, k: nat)
    requires k < |InitTable|
    requires forall j :: 0 <= j <= k + 1 ==> Reply(replies, j) >= 0
    requires Reply(replies, k + 2) < 0
    ensures !PrepareSucceeds(replies)
    ensures PrepareRun(replies) ==
            Run(PowerUpEvents + InitPrefix(k + 1) + PowerDownEvents,
                Reply(replies, k + 3), k + 4)
  {
    DropReplies(replies, 1);
    InitStopsAtFailure(Drop(replies, 1), k);
    PrepareCases(replies);
  }

  /** Display-on fails after a complete init: the rollback follows the display-on frame. */
  lemma PrepareDisplayOnFailure(replies: seq<int>)
    requires forall j :: 0 <= j <= |InitTable| + 1 ==> Reply(replies, j) >= 0
    requires Reply(replies, |InitTable| + 2) < 0
    ensures !PrepareSucceeds(replies)
    ensures PrepareRun(replies) ==
            Run(PowerUpEvents + InitPrefix(|InitTable|) + [Transfer(DisplayOn, true)] + PowerDownEvents, Reply(replies, |InitTable| + 3), |InitTable| + 4)
  {
    DropReplies(replies, 1);
    InitAllSent(Drop(replies, 1));
    PrepareCases(replies);
  }

  /**
   * In every prepare the GPIO writes are dcdc-en high, reset low, enable high,
   * in that order; a rollback adds enable low, reset high, dcdc-en low. A
   * failed regulator enable writes no GPIO.
   */
  lemma PrepareGpioOrder(replies: seq<int>)
    ensures Only(PrepareRun(replies).events, IsGpioWrite) ==
            if Reply(replies, 0) < 0 then []
            else if PrepareSucceeds(replies) then PowerUpWrites
            else PowerUpWrites + PowerDownWrites
  {
    if Reply(replies, 0) < 0 {
      OnlyNone([RegulatorsOn], IsGpioWrite);
    } else {
      PowerStepsFiltered();
      PrepareFiltered(replies, IsGpioWrite, PowerUpWrites, PowerDownWrites);
    }
  }

  /**
   * Filtering a prepare trace whose regulators came up: the filtered power-up
   * steps, nothing from the command traffic, then the filtered teardown if
   * prepare failed.
   */
  lemma PrepareFiltered(replies: seq<int>, keep: Event -> bool, up: seq<Event>, down: seq<Event>)
    requires Reply(replies, 0) >= 0
    requires keep == IsGpioWrite || keep == IsRegulatorsOff
    requires Only(PowerUpEvents, keep) == up && Only(PowerDownEvents, keep) == down
    ensures Only(PrepareRun(replies).events, keep) ==
            if PrepareSucceeds(replies) then up else up + down
  {
    var init := InitRun(Drop(replies, 1));
    PrepareCases(replies);
    InitTransfers(Drop(replies, 1));
    assert Only(init.events, keep) == [];
    var on := [Transfer(DisplayOn, true)];
    OnlyNone(on, keep);
    OnlyAppend(PowerUpEvents, init.events, keep);
    assert Only(PowerUpEvents + init.events, keep) == up;
    OnlyAppend(PowerUpEvents + init.events, on, keep);
    if init.ret < 0 {
      OnlyAppend(PowerUpEvents + init.events, PowerDownEvents, keep);
    } else if !PrepareSucceeds(replies) {
      OnlyAppend(PowerUpEvents + init.events + on, PowerDownEvents, keep);
    }
  }

  /**
   * The teardown runs exactly once when prepare fails after the regulators
   * were enabled, and never otherwise.
   */
  lemma PrepareRollsBackOnce(replies: seq<int>)
    ensures Only(PrepareRun(replies).events, IsRegulatorsOff) ==
            if Reply(replies, 0) >= 0 && !PrepareSucceeds(replies) then [RegulatorsOff] else []
  {
    if Reply(replies, 0) < 0 {
      OnlyNone([RegulatorsOn], IsRegulatorsOff);
    } else {
      PowerStepsFiltered();
      PrepareFiltered(replies, IsRegulatorsOff, [], [RegulatorsOff]);
    }
  }

  /**
   * The GPIO levels a prepare leaves: the active levels when it succeeds, the
   * idle levels after a rollback, and the levels it found when the regulators
   * could not be enabled.
   */
  lemma PrepareLevels(replies: seq<int>, s: GpioState)
    ensures ApplyGpio(s, PrepareRun(replies).events) ==
            if Reply(replies, 0) < 0 then s
            else if PrepareSucceeds(replies) then Active
            else Idle
  {
    var r := PrepareRun(replies);
    if Reply(replies, 0) < 0 {
      assert r.events == [] + [RegulatorsOn];
    } else {
      var init := InitRun(Drop(replies, 1));
      PrepareCases(replies);
      InitTransfers(Drop(replies, 1));
      PowerUpActive(s);
      var up := ApplyGpio(s, PowerUpEvents);
      ApplyGpioAppend(s, PowerUpEvents, init.events);
      var on := [Transfer(DisplayOn, true)];
      ApplyGpioSnoc(s, PowerUpEvents + init.events, Transfer(DisplayOn, true));
      if init.ret < 0 {
        ApplyGpioAppend(s, PowerUpEvents + init.events, PowerDownEvents);
        PowerDownIdle(ApplyGpio(s, PowerUpEvents + init.events));
      } else if !PrepareSucceeds(replies) {
        ApplyGpioAppend(s, PowerUpEvents + init.events + on, PowerDownEvents);
        PowerDownIdle(ApplyGpio(s, PowerUpEvents + init.events + on));
      }
    }
  }

  /**
   * What prepare evidently means to return: 0 exactly when the panel came up,
   * otherwise the error of the step that failed (regulator enable, an init
   * write, or display-on).
   */
  function IntendedPrepareRet(replies: seq<int>): (ret: int)
    ensures ret == 0 <==> PrepareSucceeds(replies)
    ensures !PrepareSucceeds(replies) ==> ret < 0
  {
    var enable := Reply(replies, 0);
    if enable < 0 then enable
    else
      var init := InitRun(Drop(replies, 1));
      if init.ret < 0 then init.ret
      else
        var on := Reply(replies, 1 + init.calls);
        if on < 0 then on else 0
  }

  /**
   * The intended return value and the one as written agree whenever prepare
   * does not roll back. After a rollback the intended value is the answer to
   * the call just before the regulator disable: the step that failed.
   */
  lemma PrepareRetAsIntended(replies: seq<int>)
    ensures Reply(replies, 0) < 0 || PrepareSucceeds(replies) ==>
              PrepareRun(replies).ret == IntendedPrepareRet(replies)
    ensures Reply(replies, 0) >= 0 && !PrepareSucceeds(replies) ==>
              PrepareRun(replies).calls >= 3 &&
              IntendedPrepareRet(replies) == Reply(replies, PrepareRun(replies).calls - 2) < 0
  {
    if Reply(replies, 0) >= 0 {
      var init := InitRun(Drop(replies, 1));
      PrepareCases(replies);
      DropReply(replies, 1, init.calls - 1);
    }
  }

  /**
   * As written, prepare returns the regulator-disable result after a failed
   * init: when the soft reset fails and the disable succeeds, prepare reports
   * 0 although the panel is left unprepared, and the soft reset's error is lost.
   */
  lemma PrepareMasksInitError()
    ensures !PrepareSucceeds([0, -5]) && PrepareRun([0, -5]).ret == 0
    ensures IntendedPrepareRet([0, -5]) == -5
  {
    PrepareSoftResetFailure([0, -5]);
  }

  lemma PowerStepsFiltered()
    ensures Only(PowerUpEvents, IsGpioWrite) == PowerUpWrites
    ensures Only(PowerDownEvents, IsGpioWrite) == PowerDownWrites
    ensures Only(PowerUpEvents, IsRegulatorsOff) == []
    ensures Only(PowerDownEvents, IsRegulatorsOff) == [RegulatorsOff]
  {
    PowerUpFiltered();
    PowerDownFiltered(IsGpioWrite);
    PowerDownFiltered(IsRegulatorsOff);
  }

  /** Power-up drives the three lines once each and never switches the supplies off. */
  lemma PowerUpFiltered()
    ensures Only(PowerUpEvents, IsGpioWrite) == PowerUpWrites
    ensures Only(PowerUpEvents, IsRegulatorsOff) == []
  {
    var e0 := [RegulatorsOn, Sleep(20)];
    var e1 := [SetGpio(DcdcEnLine, High), Delay(10, 20)];
    var e2 := [SetGpio(ResetLine, Low), Delay(10, 20)];
    var e3 := [SetGpio(EnableLine, High), Delay(10, 20)];
    assert [RegulatorsOn] + [Sleep(20)] == e0;
    AppendAssoc([RegulatorsOn], [Sleep(20)], e1, e2);
    assert PowerUpEvents == e0 + e1 + e2 + e3;
    OnlyNone(PowerUpEvents, IsRegulatorsOff);
    OnlyAppend(e0, e1, IsGpioWrite);
    OnlyAppend(e0 + e1, e2, IsGpioWrite);
    OnlyAppend(e0 + e1 + e2, e3, IsGpioWrite);
    OnlyPair(RegulatorsOn, Sleep(20), IsGpioWrite);
    OnlyPair(SetGpio(DcdcEnLine, High), Delay(10, 20), IsGpioWrite);
    OnlyPair(SetGpio(ResetLine, Low), Delay(10, 20), IsGpioWrite);
    OnlyPair(SetGpio(EnableLine, High), Delay(10, 20), IsGpioWrite);
  }

  lemma PowerDownFiltered(keep: Event -> bool)
    ensures Only(PowerDownEvents, keep) ==
            Kept(RegulatorsOff, keep) + Kept(SetGpio(EnableLine, Low), keep)
            + Kept(SetGpio(ResetLine, High), keep) + Kept(SetGpio(DcdcEnLine, Low), keep)
  {
    var e0 := [RegulatorsOff, SetGpio(EnableLine, Low)];
    var e1 := [SetGpio(ResetLine, High), SetGpio(DcdcEnLine, Low)];
    assert PowerDownEvents == e0 + e1;
    OnlyAppend(e0, e1, keep);
    OnlyPair(RegulatorsOff, SetGpio(EnableLine, Low), keep);
    OnlyPair(SetGpio(ResetLine, High), SetGpio(DcdcEnLine, Low), keep);
  }

  lemma PowerUpActive(s: GpioState)
    ensures ApplyGpio(s, PowerUpEvents) == Active
  {
    var u := PowerUpEvents;
    ApplyGpioPrefix(s, u, 0);
    ApplyGpioPrefix(s, u, 1);
    ApplyGpioPrefix(s, u, 2);
    ApplyGpioPrefix(s, u, 3);
    ApplyGpioPrefix(s, u, 4);
    ApplyGpioPrefix(s, u, 5);
    ApplyGpioPrefix(s, u, 6);
    ApplyGpioPrefix(s, u, 7);
    assert u[..8] == u;
  }

  lemma PowerDownIdle(s: GpioState)
    ensures ApplyGpio(s, PowerDownEvents) == Idle
  {
    var d := PowerDownEvents;
    ApplyGpioPrefix(s, d, 0);
    ApplyGpioPrefix(s, d, 1);
    ApplyGpioPrefix(s, d, 2);
    ApplyGpioPrefix(s, d, 3);
    assert d[..4] == d;
  }

  // ---------------------------------------------------------------------------
  // jdi_panel_unprepare on a prepared panel

  /**
   * Display-off and enter-sleep (their replies only logged), 100 ms, then the
   * teardown whatever the regulator disable answers. Unprepare returns 0.
   */
  const UnprepareEvents: seq<Event> :=
    [Transfer(DisplayOff, false), Transfer(EnterSleep, false), Sleep(100)] + PowerDownEvents

  /** Unprepare leaves the lines idle and runs the teardown once. */
  lemma UnprepareIdles(s: GpioState)
    ensures ApplyGpio(s, UnprepareEvents) == Idle
    ensures Only(UnprepareEvents, IsGpioWrite) == PowerDownWrites
    ensures Only(UnprepareEvents, IsRegulatorsOff) == [RegulatorsOff]
  {
    var off := [Transfer(DisplayOff, false), Transfer(EnterSleep, false), Sleep(100)];
    ApplyGpioAppend(s, off, PowerDownEvents);
    PowerDownIdle(ApplyGpio(s, off));
    PowerStepsFiltered();
    OnlyNone(off, IsGpioWrite);
    OnlyNone(off, IsRegulatorsOff);
    OnlyAppend(off, PowerDownEvents, IsGpioWrite);
    OnlyAppend(off, PowerDownEvents, IsRegulatorsOff);
  }
}
