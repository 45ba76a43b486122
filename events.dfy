/**
 * What the panel driver does to the outside world, as an append-only trace of
 * events, and how the outside world answers.
 *
 * Regulators, GPIO lines, the DSI host and the sleep primitives are foreign
 * to the driver. Each call to them is one event; the calls that can fail
 * (regulator bulk enable/disable and every DSI write) take their return value
 * from a scripted list of replies, negative meaning an error code.
 */
module Events {
  import opened Dsi

  /** Logical level written with gpiod_set_value: 0 is Low, 1 is High. */
  datatype Level = Low | High

  /** The three output lines the panel owns. */
  datatype Line = EnableLine | ResetLine | DcdcEnLine

  datatype Event =
    | RegulatorsOn                          // regulator_bulk_enable on vddp, iovcc
    | RegulatorsOff                         // regulator_bulk_disable on vddp, iovcc
    | SetGpio(line: Line, level: Level)     // gpiod_set_value
    | Sleep(ms: nat)                        // msleep
    | Delay(minUs: nat, maxUs: nat)         // usleep_range
    | Transfer(frame: Frame, lpm: bool)     // one DSI write, in low-power mode if lpm

  predicate IsGpioWrite(e: Event) { e.SetGpio? }
  predicate IsTransfer(e: Event) { e.Transfer? }
  predicate IsRegulatorsOff(e: Event) { e.RegulatorsOff? }

  // ---------------------------------------------------------------------------
  // The reply script

  /** The answer to the k-th fallible call; calls beyond the script succeed with 0. */
  function Reply(replies: seq<int>, k: nat): int {
    if k < |replies| then replies[k] else 0
  }

  /** The script left after n fallible calls have been answered. */
  function Drop(replies: seq<int>, n: nat): seq<int>
  {
    if n <= |replies| then replies[n..] else []
  }

  /** The k-th answer after n calls is the (n + k)-th answer of the script. */
  lemma DropReply(replies: seq<int>, n: nat, k: nat)
    ensures Reply(Drop(replies, n), k) == Reply(replies, n + k)
  {
  }

  lemma DropReplies(replies: seq<int>, n: nat)
    ensures forall k: nat :: Reply(Drop(replies, n), k) == Reply(replies, n + k)
  {
    forall k: nat
      ensures Reply(Drop(replies, n), k) == Reply(replies, n + k)
    {
      DropReply(replies, n, k);
    }
  }

  lemma DropDrop(replies: seq<int>, a: nat, b: nat)
    ensures Drop(Drop(replies, a), b) == Drop(replies, a + b)
  {
    if a <= |replies| {
      assert a + b <= |replies| ==> replies[a..][b..] == replies[a + b..];
    }
  }

  /** Appending a trace after a longer one piece by piece, or all at once. */
  lemma AppendAssoc(t: seq<Event>, a: seq<Event>, b: seq<Event>, c: seq<Event>)
    ensures t + (a + b + c) == t + a + b + c
    ensures t + (a + b) == t + a + b
  {
  }

  // ---------------------------------------------------------------------------
  // GPIO levels

  datatype GpioState = GpioState(enable: Level, reset: Level, dcdcEn: Level)

  /** Levels requested at acquisition: enable low, reset high, dcdc-en low. */
  const Idle := GpioState(Low, High, Low)

  /** Levels of a powered panel: dcdc-en high, reset released, enable high. */
  const Active := GpioState(High, Low, High)

  /** The levels after driving one line to a level; the other two keep theirs. */
  function Write(s: GpioState, line: Line, level: Level): GpioState {
    GpioState(if line == EnableLine then level else s.enable,
              if line == ResetLine then level else s.reset,
              if line == DcdcEnLine then level else s.dcdcEn)
  }

  /** The effect of one event on the lines: only GPIO writes change them. */
  function Step(s: GpioState, e: Event): GpioState {
    if e.SetGpio? then Write(s, e.line, e.level) else s
  }

  /** The levels the lines hold after the events of a trace, starting from s. */
  function ApplyGpio(s: GpioState, trace: seq<Event>): GpioState
  {
    if trace == [] then s
    else Step(ApplyGpio(s, trace[..|trace| - 1]), trace[|trace| - 1])
  }

  lemma ApplyGpioSnoc(s: GpioState, trace: seq<Event>, e: Event)
    ensures ApplyGpio(s, trace + [e]) == Step(ApplyGpio(s, trace), e)
  {
    assert (trace + [e])[..|trace|] == trace;
  }

  /** A trace without GPIO writes leaves the lines as they were. */
  lemma {:induction false} ApplyGpioQuiet(s: GpioState, trace: seq<Event>)
    requires forall i :: 0 <= i < |trace| ==> !trace[i].SetGpio?
    ensures ApplyGpio(s, trace) == s
    decreases |trace|
  {
    if trace != [] {
      ApplyGpioQuiet(s, trace[..|trace| - 1]);
    }
  }

  lemma ApplyGpioPrefix(s: GpioState, trace: seq<Event>, k: nat)
    requires k < |trace|
    ensures ApplyGpio(s, trace[..k + 1]) == Step(ApplyGpio(s, trace[..k]), trace[k])
  {
    assert trace[..k + 1][..k] == trace[..k];
  }

  // ---------------------------------------------------------------------------
  // Views of a trace

  /** The events of a trace that satisfy keep, in their order. */
  function Only(trace: seq<Event>, keep: Event -> bool): seq<Event>
  {
    if trace == [] then []
    else
      var last := trace[|trace| - 1];
      Only(trace[..|trace| - 1], keep) + (if keep(last) then [last] else [])
  }

  lemma {:induction false} OnlyAppend(a: seq<Event>, b: seq<Event>, keep: Event -> bool)
    ensures Only(a + b, keep) == Only(a, keep) + Only(b, keep)
    decreases |b|
  {
    if b == [] {
      assert a + b == a;
    } else {
      var b' := b[..|b| - 1];
      assert (a + b)[..|a + b| - 1] == a + b';
      OnlyAppend(a, b', keep);
    }
  }

  lemma OnlyPrefix(trace: seq<Event>, keep: Event -> bool, k: nat)
    requires k < |trace|
    ensures Only(trace[..k + 1], keep) == Only(trace[..k], keep) + (if keep(trace[k]) then [trace[k]] else [])
  {
    assert trace[..k + 1][..k] == trace[..k];
  }

  lemma {:induction false} OnlyNone(trace: seq<Event>, keep: Event -> bool)
    requires forall i :: 0 <= i < |trace| ==> !keep(trace[i])
    ensures Only(trace, keep) == []
    decreases |trace|
  {
    if trace != [] {
      OnlyNone(trace[..|trace| - 1], keep);
    }
  }

  /** The event e alone if keep accepts it, nothing otherwise. */
  function Kept(e: Event, keep: Event -> bool): seq<Event> {
    if keep(e) then [e] else []
  }

  lemma OnlyPair(a: Event, b: Event, keep: Event -> bool)
    ensures Only([a, b], keep) == Kept(a, keep) + Kept(b, keep)
  {
    OnlyPrefix([a, b], keep, 0);
    OnlyPrefix([a, b], keep, 1);
    assert [a, b][..2] == [a, b];
  }

  /** The trace of sending the frames of fs one after another, all in low-power mode. */
  function Sends(fs: seq<Frame>): (r: seq<Event>)
    ensures |r| == |fs|
  {
    if fs == [] then [] else Sends(fs[..|fs| - 1]) + [Transfer(fs[|fs| - 1], true)]
  }

  /** Sending frames produces transfers and nothing else: no GPIO write, no power event. */
  lemma {:induction false} SendsOnlyTransfers(fs: seq<Frame>)
    ensures Only(Sends(fs), IsTransfer) == Sends(fs)
    ensures Only(Sends(fs), IsGpioWrite) == []
    ensures Only(Sends(fs), IsRegulatorsOff) == []
    ensures forall s :: ApplyGpio(s, Sends(fs)) == s
    decreases |fs|
  {
    if fs != [] {
      var init := fs[..|fs| - 1];
      SendsOnlyTransfers(init);
      assert Sends(fs)[..|Sends(fs)| - 1] == Sends(init);
    }
  }
}
