/**
  The sig dispatch of the device-registration exercise: what the program
  does when the main touch panel (tp01) reports a sig change or comes online.

  The handler only ever sees tp01, the one panel whose SigChange and
  OnlineStatusChange events it is subscribed to, so the writes it makes
  through `tp01` and through the event's device both land in one channel
  store, `Controller.panel`. The secondary panel (tp02) is reduced to the
  one fact the handler consults and changes: whether it is registered.

  An event is handled in two steps. The framework first records the
  arriving value in the panel's output sig (the sig an event carries *is*
  that output sig), then the handler runs against the updated store.
 */
module ControlSystem {
  import opened ChannelStore
  import opened RangeMapper

  /** The IP ID tp01 is created on; the handler compares device IDs against it. */
  const Tp01Id: nat := 0x03

  /** A sig change as the panel reports it: the sig's type, join number and new value. */
  datatype Sig =
    | BoolSig(join: nat, b: bool)
    | UShortSig(join: nat, u: UShort)
    | StringSig(join: nat, s: string)

  datatype Event =
    | SigChange(device: nat, sig: Sig)  // a sig change raised by the device with this ID
    | OnlineStatus(online: bool)        // tp01 went online (true) or offline (false)

  datatype Controller = Controller(panel: Panel, tp02Registered: bool)

  /** The feedback strings of the buttons. */
  const HelloWorldBang := "Hello World!"
  const HelloWorld := "Hello World"

  /** Labels of interlock members 22, 23, 24 and of the clear button 25, indexed by join - 22. */
  const InterlockLabels: seq<string> := ["Interlock 1", "Interlock 2", "Interlock 3", ""]

  /** The digital joins the handler has a rule for that writes feedback. */
  const FeedbackJoins: set<nat> := {12, 21, 22, 23, 24, 25}

  /** The three mutually exclusive interlock members are never selected two at a time. */
  ghost predicate InterlockExclusive(p: Panel) {
    && !(p.BoolIn(22) && p.BoolIn(23))
    && !(p.BoolIn(22) && p.BoolIn(24))
    && !(p.BoolIn(23) && p.BoolIn(24))
  }

  /** The framework stores the arriving value in the output sig the event is about. */
  function Receive(p: Panel, sig: Sig): (r: Panel)
    ensures SameInputs(p, r)
    ensures sig.BoolSig? ==> r.BoolOut(sig.join) == sig.b
    ensures sig.UShortSig? ==> r.UShortOut(sig.join) == sig.u
    ensures sig.StringSig? ==> r.StringOut(sig.join) == sig.s
    ensures forall j :: (!sig.BoolSig? || j != sig.join) ==> r.BoolOut(j) == p.BoolOut(j)
    ensures forall j :: (!sig.UShortSig? || j != sig.join) ==> r.UShortOut(j) == p.UShortOut(j)
    ensures forall j :: (!sig.StringSig? || j != sig.join) ==> r.StringOut(j) == p.StringOut(j)
  {
    match sig
    case BoolSig(j, b) => p.(boolOut := p.boolOut[j := b])
    case UShortSig(j, u) => p.(ushortOut := p.ushortOut[j := u])
    case StringSig(j, s) => p.(stringOut := p.stringOut[j := s])
  }

  /** Digital join 12 shows "Hello World!" on serial join 11 while pressed and clears it on release. */
  function ShowHelloWorld(p: Panel, pressed: bool): (r: Panel)
    ensures r.StringIn(11) == (if pressed then "Hello World!" else "")
    ensures WritesOnly(p, r, {}, {}, {11})
  {
    p.SetStringIn(11, if pressed then HelloWorldBang else "")
  }

  /**
    Digital join 21 is a toggle button. A press inverts the button's own
    feedback, BooleanInput[21], and writes "Hello World" or "" to serial
    join 21 to match the new state; a release does nothing. The feedback
    sig is the only record of the toggle state.
   */
  function Toggle(p: Panel, pressed: bool): (r: Panel)
    ensures pressed ==> r.BoolIn(21) == !p.BoolIn(21)
    ensures pressed ==> r.StringIn(21) == (if r.BoolIn(21) then "Hello World" else "")
    ensures pressed ==> WritesOnly(p, r, {21}, {}, {21})
    ensures !pressed ==> r == p
  {
    if pressed && !p.BoolIn(21) then
      p.SetBoolIn(21, true).SetStringIn(21, HelloWorld)
    else if pressed && p.BoolIn(21) then
      p.SetBoolIn(21, false).SetStringIn(21, "")
    else
      p
  }

  /**
    Digital joins 22, 23 and 24 form an interlock and 25 is its clear
    button. Any event on one of them, press or release, clears the three
    members, then sets the feedback of the join that fired (so 25 lights
    its own feedback too, which nothing ever clears) and writes that join's
    label to serial join 21.
   */
  function Interlock(p: Panel, join: nat): (r: Panel)
    requires 22 <= join <= 25
    ensures r.BoolIn(22) == (join == 22)
    ensures r.BoolIn(23) == (join == 23)
    ensures r.BoolIn(24) == (join == 24)
    ensures r.BoolIn(join)
    ensures join == 22 ==> r.StringIn(21) == "Interlock 1"
    ensures join == 23 ==> r.StringIn(21) == "Interlock 2"
    ensures join == 24 ==> r.StringIn(21) == "Interlock 3"
    ensures join == 25 ==> r.StringIn(21) == ""
    ensures WritesOnly(p, r, {22, 23, 24, join}, {}, {21})
  {
    p.SetBoolIn(22, false)
     .SetBoolIn(23, false)
     .SetBoolIn(24, false)
     .SetBoolIn(join, true)
     .SetStringIn(21, InterlockLabels[join - 22])
  }

  /**
    Digital join 31 registers the secondary panel when it is unregistered
    and unregisters it when it is registered, provided the event came from
    tp01 and the button's output sig reads true. No feedback is written.
   */
  function RegistrationButton(c: Controller, device: nat): (r: Controller)
    ensures r.panel == c.panel
    ensures r.tp02Registered != c.tp02Registered <==> (device == Tp01Id && c.panel.BoolOut(31))
  {
    if device == Tp01Id && c.panel.BoolOut(31) then
      c.(tp02Registered := !c.tp02Registered)
    else
      c
  }

  /**
    Any analog event, on whatever join, reads the slider position from
    analog output join 31 and writes back its echo on analog input 31, the
    percentage on 32 and the level on 33.
   */
  function Slider(p: Panel): (r: Panel)
    ensures r.UShortIn(31) == p.UShortOut(31)
    ensures r.UShortIn(32) <= 100
    ensures r.UShortIn(32) * MaxUShort <= p.UShortOut(31) * 100 < (r.UShortIn(32) + 1) * MaxUShort
    ensures r.UShortIn(33) == RawLevel(p.UShortOut(31))
    ensures WritesOnly(p, r, {}, {31, 32, 33}, {})
  {
    var raw := p.UShortOut(31);
    p.SetUShortIn(31, raw)
     .SetUShortIn(32, Percent(raw))
     .SetUShortIn(33, Bucket(raw))
  }

  /** The sig-change handler, run after the arriving value has been recorded. */
  function HandleSig(c: Controller, device: nat, sig: Sig): (r: Controller)
    ensures SameOutputs(c.panel, r.panel)
    ensures sig.StringSig? ==> r == c
    ensures sig.BoolSig? && sig.join !in FeedbackJoins ==> r.panel == c.panel
    ensures !(sig.BoolSig? && sig.join == 31) ==> r.tp02Registered == c.tp02Registered
    ensures r.panel.BoolIn(11) == c.panel.BoolIn(11)  // the online indicator is not a sig rule's to write
    ensures InterlockExclusive(c.panel) ==> InterlockExclusive(r.panel)
  {
    match sig
    case BoolSig(j, b) =>
      if j == 12 then c.(panel := ShowHelloWorld(c.panel, b))
      else if j == 21 then c.(panel := Toggle(c.panel, b))
      else if 22 <= j <= 25 then c.(panel := Interlock(c.panel, j))
      else if j == 31 then RegistrationButton(c, device)
      else c  // join 1 only writes to the error log; other joins have no rule
    case UShortSig(_, _) => c.(panel := Slider(c.panel))
    case StringSig(_, _) => c
  }

  /** The online-status handler lights digital join 11 when tp01 comes online; going offline is ignored. */
  function HandleOnline(c: Controller, online: bool): (r: Controller)
    ensures online ==> r.panel.BoolIn(11)
    ensures online ==> WritesOnly(c.panel, r.panel, {11}, {}, {})
    ensures r.tp02Registered == c.tp02Registered
    ensures !online ==> r == c
  {
    if online then c.(panel := c.panel.SetBoolIn(11, true)) else c
  }

  /** One event, delivered and handled to completion. */
  function Step(c: Controller, e: Event): (r: Controller)
    ensures e.SigChange? && e.sig.BoolSig? ==> r.panel.BoolOut(e.sig.join) == e.sig.b
    ensures e.SigChange? && e.sig.UShortSig? ==> r.panel.UShortOut(e.sig.join) == e.sig.u
    ensures e.SigChange? && e.sig.StringSig? ==> r.panel.StringOut(e.sig.join) == e.sig.s
    ensures forall j :: !(e.SigChange? && e.sig.BoolSig? && j == e.sig.join) ==> r.panel.BoolOut(j) == c.panel.BoolOut(j)
    ensures forall j :: !(e.SigChange? && e.sig.UShortSig? && j == e.sig.join) ==> r.panel.UShortOut(j) == c.panel.UShortOut(j)
    ensures forall j :: !(e.SigChange? && e.sig.StringSig? && j == e.sig.join) ==> r.panel.StringOut(j) == c.panel.StringOut(j)
    ensures e.OnlineStatus? ==> SameOutputs(c.panel, r.panel)
    ensures InterlockExclusive(c.panel) ==> InterlockExclusive(r.panel)
  {
    match e
    case SigChange(device, sig) => HandleSig(c.(panel := Receive(c.panel, sig)), device, sig)
    case OnlineStatus(online) => HandleOnline(c, online)
  }

  /** A sequence of events handled one at a time, in arrival order. */
  function Run(c: Controller, es: seq<Event>): (r: Controller)
    ensures InterlockExclusive(c.panel) ==> InterlockExclusive(r.panel)
    decreases |es|
  {
    if es == [] then c else Run(Step(c, es[0]), es[1..])
  }
}
