/**
  Properties of the sig dispatch, stated over `Step` and `Run`: what each
  button does to the panel's feedback, what it leaves alone, and what holds
  over any sequence of events.
 */
module ControlSystemProofs {
  import opened ChannelStore
  import opened RangeMapper
  import opened ControlSystem

  /** A press (value true) of digital join 21, from any device. */
  predicate IsTogglePress(e: Event) {
    e.SigChange? && e.sig == BoolSig(21, true)
  }

  /** Any event on one of the interlock joins 22 to 25. */
  predicate IsInterlockEvent(e: Event) {
    e.SigChange? && e.sig.BoolSig? && 22 <= e.sig.join <= 25
  }

  /** Number of toggle presses in `es`. */
  function TogglePresses(es: seq<Event>): (n: nat) {
    if es == [] then 0
    else (if IsTogglePress(es[0]) then 1 else 0) + TogglePresses(es[1..])
  }

  /** The toggle's text feedback agrees with its digital feedback. */
  ghost predicate ToggleInStep(p: Panel) {
    p.StringIn(21) == (if p.BoolIn(21) then "Hello World" else "")
  }

  // ---------------------------------------------------------------- join 12

  /** Join 12 shows the greeting on serial join 11 while held and clears it on release; no other feedback changes. */
  lemma HelloWorldButton(c: Controller, device: nat, v: bool)
    ensures var r := Step(c, SigChange(device, BoolSig(12, v)));
      && r.panel.StringIn(11) == (if v then "Hello World!" else "")
      && FeedbackWritesOnly(c.panel, r.panel, {}, {}, {11})
      && r.tp02Registered == c.tp02Registered
  {
  }

  /** A digital event on join 12, from any device, pressed or released. */
  predicate IsGreetingEvent(e: Event) {
    e.SigChange? && e.sig.BoolSig? && e.sig.join == 12
  }

  /**
    Reference for serial join 11: the text for the value of the last join-12
    event in `es`, or `s` when `es` holds none.
   */
  function LastSerial11(s: string, es: seq<Event>): (text: string)
    decreases |es|
  {
    if es == [] then s
    else LastSerial11(if IsGreetingEvent(es[0]) then (if es[0].sig.b then "Hello World!" else "") else s, es[1..])
  }

  /** Serial join 11 is written by a join-12 event and by no other event. */
  lemma Serial11Step(c: Controller, e: Event)
    ensures Step(c, e).panel.StringIn(11)
      == if IsGreetingEvent(e) then (if e.sig.b then "Hello World!" else "") else c.panel.StringIn(11)
  {
  }

  /** After any sequence of events, serial join 11 holds what the last join-12 event put there. */
  lemma {:induction false} Serial11Run(c: Controller, es: seq<Event>)
    ensures Run(c, es).panel.StringIn(11) == LastSerial11(c.panel.StringIn(11), es)
    decreases |es|
  {
    if es != [] {
      Serial11Step(c, es[0]);
      Serial11Run(Step(c, es[0]), es[1..]);
    }
  }

  // ---------------------------------------------------------------- join 21

  /** A press inverts the toggle and sets its text to match; only join 21's feedback changes. */
  lemma TogglePress(c: Controller, device: nat)
    ensures var r := Step(c, SigChange(device, BoolSig(21, true)));
      && r.panel.BoolIn(21) == !c.panel.BoolIn(21)
      && ToggleInStep(r.panel)
      && FeedbackWritesOnly(c.panel, r.panel, {21}, {}, {21})
      && r.tp02Registered == c.tp02Registered
  {
  }

  /** A release leaves every feedback slot and the registration exactly as they were. */
  lemma ToggleRelease(c: Controller, device: nat)
    ensures var r := Step(c, SigChange(device, BoolSig(21, false)));
      && SameInputs(c.panel, r.panel)
      && r.tp02Registered == c.tp02Registered
  {
  }

  /** Two presses bring the toggle and its text back to where they were, when they agreed to begin with. */
  lemma TogglePressTwice(c: Controller, d1: nat, d2: nat)
    ensures var r := Step(Step(c, SigChange(d1, BoolSig(21, true))), SigChange(d2, BoolSig(21, true)));
      && r.panel.BoolIn(21) == c.panel.BoolIn(21)
      && (ToggleInStep(c.panel) ==> r.panel.StringIn(21) == c.panel.StringIn(21))
  {
  }

  /** The toggle flag changes on a press of join 21 and on no other event. */
  lemma ToggleFlagStep(c: Controller, e: Event)
    ensures Step(c, e).panel.BoolIn(21) == (c.panel.BoolIn(21) != IsTogglePress(e))
  {
  }

  /**
    Over any sequence of events, whatever else it contains, the toggle flag
    ends up inverted exactly when the number of presses of join 21 is odd.
   */
  lemma {:induction false} ToggleParity(c: Controller, es: seq<Event>)
    ensures Run(c, es).panel.BoolIn(21) == (c.panel.BoolIn(21) != (TogglePresses(es) % 2 == 1))
    decreases |es|
  {
    if es != [] {
      ToggleFlagStep(c, es[0]);
      ToggleParity(Step(c, es[0]), es[1..]);
    }
  }

  /** Every event other than one on the interlock joins keeps the toggle's text in step with its flag. */
  lemma ToggleInStepStep(c: Controller, e: Event)
    requires ToggleInStep(c.panel)
    requires !IsInterlockEvent(e)
    ensures ToggleInStep(Step(c, e).panel)
  {
  }

  /** Without interlock events the toggle's text stays in step with its flag. */
  lemma {:induction false} ToggleInStepRun(c: Controller, es: seq<Event>)
    requires ToggleInStep(c.panel)
    requires forall i :: 0 <= i < |es| ==> !IsInterlockEvent(es[i])
    ensures ToggleInStep(Run(c, es).panel)
    decreases |es|
  {
    if es != [] {
      ToggleInStepStep(c, es[0]);
      ToggleInStepRun(Step(c, es[0]), es[1..]);
    }
  }

  /**
    The interlock writes its label to serial join 21, the toggle's text
    slot: with the toggle on, selecting member 22 replaces "Hello World"
    by "Interlock 1" while the toggle flag stays on.
   */
  lemma InterlockOverwritesToggleText()
    ensures var c0 := Controller(EmptyPanel, false);
      var c1 := Step(c0, SigChange(Tp01Id, BoolSig(21, true)));
      var c2 := Step(c1, SigChange(Tp01Id, BoolSig(22, true)));
      && ToggleInStep(c1.panel)
      && c2.panel.BoolIn(21)
      && c2.panel.StringIn(21) == "Interlock 1"
      && !ToggleInStep(c2.panel)
  {
  }

  // ---------------------------------------------------------- joins 22 - 25

  /**
    An event on member 22, 23 or 24, pressed or released, leaves exactly
    that member selected and shows its label; only the interlock's feedback
    changes.
   */
  lemma InterlockSelect(c: Controller, device: nat, m: nat, v: bool)
    requires 22 <= m <= 24
    ensures var r := Step(c, SigChange(device, BoolSig(m, v)));
      && (forall k :: 22 <= k <= 24 ==> r.panel.BoolIn(k) == (k == m))
      && r.panel.StringIn(21) == InterlockLabels[m - 22]
      && r.panel.StringIn(21) == "Interlock " + [(('0' as int) + m - 21) as char]
      && FeedbackWritesOnly(c.panel, r.panel, {22, 23, 24}, {}, {21})
      && r.tp02Registered == c.tp02Registered
  {
  }

  /** Delivering the same interlock event twice gives the same result as delivering it once. */
  lemma InterlockIdempotent(c: Controller, device: nat, m: nat, v: bool)
    requires 22 <= m <= 25
    ensures var e := SigChange(device, BoolSig(m, v));
      Step(Step(c, e), e) == Step(c, e)
  {
  }

  /**
    Any event on the clear button 25 deselects all members, lights join 25
    and empties the shared label, whatever was selected before.
   */
  lemma InterlockClear(c: Controller, device: nat, v: bool)
    ensures var r := Step(c, SigChange(device, BoolSig(25, v)));
      && !r.panel.BoolIn(22) && !r.panel.BoolIn(23) && !r.panel.BoolIn(24)
      && r.panel.BoolIn(25)
      && r.panel.StringIn(21) == ""
      && FeedbackWritesOnly(c.panel, r.panel, {22, 23, 24, 25}, {}, {21})
  {
  }

  /** No event clears join 25's feedback once it is lit. */
  lemma ClearFeedbackSticks(c: Controller, e: Event)
    requires c.panel.BoolIn(25)
    ensures Step(c, e).panel.BoolIn(25)
  {
  }

  /** Select 22, then 24, then clear. */
  lemma InterlockScenario()
    ensures var c0 := Controller(EmptyPanel, false);
      var c1 := Step(c0, SigChange(Tp01Id, BoolSig(22, true)));
      var c2 := Step(c1, SigChange(Tp01Id, BoolSig(24, true)));
      var c3 := Step(c2, SigChange(Tp01Id, BoolSig(25, true)));
      && c1.panel.BoolIn(22) && !c1.panel.BoolIn(23) && !c1.panel.BoolIn(24)
      && c1.panel.StringIn(21) == "Interlock 1"
      && !c2.panel.BoolIn(22) && !c2.panel.BoolIn(23) && c2.panel.BoolIn(24)
      && c2.panel.StringIn(21) == "Interlock 3"
      && !c3.panel.BoolIn(22) && !c3.panel.BoolIn(23) && !c3.panel.BoolIn(24)
      && c3.panel.StringIn(21) == ""
  {
  }

  // ---------------------------------------------------------------- join 31

  /**
    A digital event on join 31 flips the secondary panel's registration
    exactly when it comes from tp01 with value true, and writes no feedback.
   */
  lemma RegistrationToggle(c: Controller, device: nat, v: bool)
    ensures var r := Step(c, SigChange(device, BoolSig(31, v)));
      && (r.tp02Registered != c.tp02Registered <==> device == Tp01Id && v)
      && SameInputs(c.panel, r.panel)
  {
  }

  /** Only a digital event on join 31 can change the registration. */
  lemma RegistrationOnlyByJoin31(c: Controller, e: Event)
    requires !(e.SigChange? && e.sig.BoolSig? && e.sig.join == 31)
    ensures Step(c, e).tp02Registered == c.tp02Registered
  {
  }

  // ------------------------------------------------------------ the slider

  /**
    An analog event on any join writes the echo, percentage and level of
    the position held in analog output 31, which is the event's own value
    only when the event is on join 31; nothing else changes.
   */
  lemma SliderAnyJoin(c: Controller, device: nat, j: nat, u: UShort)
    ensures var r := Step(c, SigChange(device, UShortSig(j, u)));
      var raw := if j == 31 then u else c.panel.UShortOut(31);
      && r.panel.UShortIn(31) == raw
      && r.panel.UShortIn(32) == Percent(raw)
      && r.panel.UShortIn(33) == Bucket(raw)
      && r.panel.UShortIn(32) <= 100
      && FeedbackWritesOnly(c.panel, r.panel, {}, {31, 32, 33}, {})
      && r.tp02Registered == c.tp02Registered
  {
  }

  // ------------------------------------------------------ events with no rule

  /**
    Digital events on joins without a feedback rule (join 1 only logs, 31
    only registers), string events and an offline notice write no feedback.
   */
  lemma NoFeedbackWrites(c: Controller, e: Event)
    requires || (e.SigChange? && e.sig.BoolSig? && e.sig.join !in FeedbackJoins)
             || (e.SigChange? && e.sig.StringSig?)
             || e == OnlineStatus(false)
    ensures SameInputs(c.panel, Step(c, e).panel)
    ensures !(e.SigChange? && e.sig == BoolSig(31, true)) ==> Step(c, e).tp02Registered == c.tp02Registered
  {
  }

  /** Boolean join 999 is one the panel may send but nothing handles. */
  lemma UnknownJoinScenario(c: Controller)
    ensures var r := Step(c, SigChange(Tp01Id, BoolSig(999, true)));
      SameInputs(c.panel, r.panel) && r.tp02Registered == c.tp02Registered
  {
  }

  /** Going online lights digital join 11 and nothing else; going offline changes nothing at all. */
  lemma OnlineStatusFeedback(c: Controller)
    ensures var r := Step(c, OnlineStatus(true));
      r.panel.BoolIn(11) && WritesOnly(c.panel, r.panel, {11}, {}, {}) && r.tp02Registered == c.tp02Registered
    ensures Step(c, OnlineStatus(false)) == c
  {
  }

  /** Digital join 11 changes only when the panel comes online, and then it lights. */
  lemma Online11Step(c: Controller, e: Event)
    ensures Step(c, e).panel.BoolIn(11) == (c.panel.BoolIn(11) || e == OnlineStatus(true))
  {
  }

  /**
    After any sequence of events, digital join 11 is lit exactly when it was
    lit before or the sequence holds an online notice: nothing turns it off.
   */
  lemma {:induction false} Online11Run(c: Controller, es: seq<Event>)
    ensures Run(c, es).panel.BoolIn(11)
      <==> c.panel.BoolIn(11) || exists i :: 0 <= i < |es| && es[i] == OnlineStatus(true)
    decreases |es|
  {
    if es != [] {
      Online11Step(c, es[0]);
      Online11Run(Step(c, es[0]), es[1..]);
      assert forall i :: 0 <= i < |es[1..]| ==> es[1..][i] == es[i + 1];
    }
  }
}
