# Device-registration exercise: sig dispatch model

A Dafny model of the control program in `Ex_DeviceRegistration/ControlSystem.cs`. The program drives
one XPanel touch panel, tp01. It reacts to the panel's sig changes and to its online status. A sig is
a boolean (digital), ushort (analog) or string (serial) channel with a join number. Values arrive on
the panel's output sigs, and the program writes feedback to its input sigs.

The model is functional. `Controller` holds the panel's channel store and the one fact about the
secondary panel, tp02, that the program uses: whether it is registered. `Step(controller, event)`
handles one event completely, and `Run` folds `Step` over a sequence of events in arrival order.

- `channel_store.dfy` (`ChannelStore`): the six join-to-value maps of a panel, read with the
  framework's defaults (false, 0, ""), plus frame predicates such as `WritesOnly`.
- `range_mapper.dfy` (`RangeMapper`): maps the analog slider to a percentage and a level 0-3. It
  also gives an independent threshold table on the raw value, `RawLevel`.
- `control_system.dfy` (`ControlSystem`): the handlers. `Receive` models the framework recording
  an arriving value in its output sig. Then `HandleSig` dispatches on the sig type and join to one
  rule: join 12, the join-21 toggle, the 22-25 interlock, the join-31 registration button, or the
  slider. `HandleOnline` handles the online notice.
- `control_system_proofs.dfy` (`ControlSystemProofs`): what each button does and leaves alone,
  plus properties over whole event sequences.

How the model reads the code:

- The handler is subscribed only to tp01. So the writes made through `tp01` and through
  `currentDevice` go to one store. The event's device ID matters only for the join-31 guard.
  That guard compares it with tp01's ID, modelled as its IP ID 0x03.
- The percentage is `raw * 100 / 65535` in integer arithmetic, so it is the floor of the exact
  ratio. The `double` and `Convert.ToUInt16` only ever see a whole number from 0 to 100.
- Some of the program's behaviour is surprising; the model follows the code:
  - Raw 21845, a third of the range, gives percent 33 and therefore level 2.
  - The toggle's state is its own feedback sig, BooleanInput[21]. There is no separate flag.
  - The interlock writes its label to StringInput[21], the toggle's text slot. So the rule that
    "the toggle text matches the toggle flag" holds only while no interlock event arrives
    (`ToggleInStepRun`). `InterlockOverwritesToggleText` shows it breaking.
  - Members 22-24 also respond to a release. Join 25 also lights BooleanInput[25], and nothing
    ever clears it.
  - The slider rule runs for an analog event on any join. It always reads analog output 31.

## Model

| member | source | states |
|---|---|---|
| RangeMapper.Percent | Ex_DeviceRegistration/ControlSystem.cs:185 | the percentage is at most 100 and is the floor of raw*100/65535: pct*65535 <= raw*100 < (pct+1)*65535 |
| RangeMapper.Level | Ex_DeviceRegistration/ControlSystem.cs:189-192 | the level of a percentage is between 0 and 3; it is the body of `Bucket`, whose exact values `LevelMatchesRawLevel` pins down |
| RangeMapper.Bucket | Ex_DeviceRegistration/ControlSystem.cs:188-193 | the level of a raw position equals the raw threshold table: 0 up to 655, 1 up to 21626, 2 up to 43253, 3 above |
| RangeMapper.LevelMatchesRawLevel | Ex_DeviceRegistration/ControlSystem.cs:185-193 | applying the 1/33/66 percent thresholds to the floored percentage gives the raw threshold table |
| RangeMapper.PercentMonotone | Ex_DeviceRegistration/ControlSystem.cs:185 | the percentage never decreases as the raw position increases |
| RangeMapper.BucketMonotone | Ex_DeviceRegistration/ControlSystem.cs:188-193 | the level never decreases as the raw position increases |
| RangeMapper.BucketExamples | Ex_DeviceRegistration/ControlSystem.cs:185-193 | raw 0 gives (0,0), raw 65535 gives (100,3), raw 21845 gives (33,2) |
| ControlSystem.Receive | Ex_DeviceRegistration/ControlSystem.cs:104-110 | the arriving value is recorded in the output sig of its type and join; no other output sig and no feedback changes |
| ControlSystem.ShowHelloWorld | Ex_DeviceRegistration/ControlSystem.cs:124-127 | serial join 11 becomes "Hello World!" on press and "" on release; no other feedback changes |
| ControlSystem.Toggle | Ex_DeviceRegistration/ControlSystem.cs:131-142 | a press inverts BooleanInput[21] and sets StringInput[21] to "Hello World" or "" to match; only join 21 changes; a release leaves the panel unchanged |
| ControlSystem.Interlock | Ex_DeviceRegistration/ControlSystem.cs:148-160 | after any event on 22-25 exactly the join that fired is lit among 22-24 (none for 25), the firing join is lit, and StringInput[21] holds its label; only those slots change |
| ControlSystem.RegistrationButton | Ex_DeviceRegistration/ControlSystem.cs:165-179 | registration flips exactly when the device is tp01 and BooleanOutput[31] reads true; the panel is untouched |
| ControlSystem.Slider | Ex_DeviceRegistration/ControlSystem.cs:183-194 | analog inputs 31, 32, 33 get the echo of UShortOutput[31], its floored percentage and its threshold level; nothing else changes |
| ControlSystem.HandleSig | Ex_DeviceRegistration/ControlSystem.cs:106-200 | the handler never writes output sigs or the online indicator (digital join 11); string sigs and digital joins without a feedback rule leave the panel as it was; only digital join 31 touches registration; interlock exclusivity is kept |
| ControlSystem.HandleOnline | Ex_DeviceRegistration/ControlSystem.cs:207-212 | going online lights digital join 11 and changes nothing else; going offline changes nothing |
| ControlSystem.Step | Ex_DeviceRegistration/ControlSystem.cs:106-212 | an event's value is found afterwards in its output sig, every other output sig is unchanged, and no event can light two interlock members |
| ControlSystem.Run | Ex_DeviceRegistration/ControlSystem.cs:148-160 | over any event sequence, a panel with at most one interlock member lit never gets two |
| ControlSystemProofs.HelloWorldButton | Ex_DeviceRegistration/ControlSystem.cs:124-127 | a join-12 event sets serial join 11 from its value and writes no other feedback or registration |
| ControlSystemProofs.Serial11Step | Ex_DeviceRegistration/ControlSystem.cs:124-127 | serial join 11 changes on a join-12 event, to the text for its value, and on no other event |
| ControlSystemProofs.Serial11Run | Ex_DeviceRegistration/ControlSystem.cs:124-127 | after any event sequence serial join 11 holds the text of the last join-12 event, or its old value when there was none |
| ControlSystemProofs.TogglePress | Ex_DeviceRegistration/ControlSystem.cs:131-142 | a join-21 press inverts the flag, leaves its text matching, and changes no other feedback |
| ControlSystemProofs.ToggleRelease | Ex_DeviceRegistration/ControlSystem.cs:131-142 | a join-21 release changes no feedback and no registration |
| ControlSystemProofs.TogglePressTwice | Ex_DeviceRegistration/ControlSystem.cs:131-142 | two presses restore the flag, and also its text when the two agreed beforehand |
| ControlSystemProofs.ToggleFlagStep | Ex_DeviceRegistration/ControlSystem.cs:131-142 | BooleanInput[21] changes on a press of join 21 and on no other event |
| ControlSystemProofs.ToggleParity | Ex_DeviceRegistration/ControlSystem.cs:131-142 | after any event sequence the flag is inverted exactly when it held an odd number of join-21 presses |
| ControlSystemProofs.ToggleInStepStep | Ex_DeviceRegistration/ControlSystem.cs:131-160 | every event except an interlock event keeps the toggle text matching the toggle flag |
| ControlSystemProofs.ToggleInStepRun | Ex_DeviceRegistration/ControlSystem.cs:131-160 | over a sequence without interlock events the toggle text keeps matching the flag |
| ControlSystemProofs.InterlockOverwritesToggleText | Ex_DeviceRegistration/ControlSystem.cs:131-160 | with the toggle on, selecting member 22 replaces "Hello World" by "Interlock 1" in the shared slot |
| ControlSystemProofs.InterlockSelect | Ex_DeviceRegistration/ControlSystem.cs:148-159 | an event on member m (press or release) leaves exactly m lit among 22-24 and shows "Interlock k" with k = m-21 |
| ControlSystemProofs.InterlockIdempotent | Ex_DeviceRegistration/ControlSystem.cs:148-160 | delivering the same interlock event twice equals delivering it once |
| ControlSystemProofs.InterlockClear | Ex_DeviceRegistration/ControlSystem.cs:151-159 | any join-25 event clears 22-24, lights 25 and empties the shared label |
| ControlSystemProofs.ClearFeedbackSticks | Ex_DeviceRegistration/ControlSystem.cs:152-155 | once BooleanInput[25] is lit no event clears it |
| ControlSystemProofs.InterlockScenario | Ex_DeviceRegistration/ControlSystem.cs:148-160 | selecting 22, then 24, then clearing gives the expected lights and labels at each step |
| ControlSystemProofs.RegistrationToggle | Ex_DeviceRegistration/ControlSystem.cs:165-179 | a digital join-31 event flips registration exactly when it comes from tp01 with value true, and writes no feedback |
| ControlSystemProofs.RegistrationOnlyByJoin31 | Ex_DeviceRegistration/ControlSystem.cs:165-179 | no event other than a digital join-31 event changes registration |
| ControlSystemProofs.SliderAnyJoin | Ex_DeviceRegistration/ControlSystem.cs:183-194 | an analog event on any join writes echo, percent and level of UShortOutput[31] (the event value only when its join is 31), and nothing else |
| ControlSystemProofs.NoFeedbackWrites | Ex_DeviceRegistration/ControlSystem.cs:115-210 | digital joins without a feedback rule (including join 1 and join 31), string events and going offline write no feedback |
| ControlSystemProofs.UnknownJoinScenario | Ex_DeviceRegistration/ControlSystem.cs:115-180 | a digital event on join 999 writes no feedback and leaves registration alone |
| ControlSystemProofs.OnlineStatusFeedback | Ex_DeviceRegistration/ControlSystem.cs:210 | going online lights join 11 only; going offline leaves the controller unchanged |
| ControlSystemProofs.Online11Step | Ex_DeviceRegistration/ControlSystem.cs:207-212 | digital join 11 changes only on an online notice, and then it lights |
| ControlSystemProofs.Online11Run | Ex_DeviceRegistration/ControlSystem.cs:207-212 | after any event sequence digital join 11 is lit exactly when it was lit before or the sequence holds an online notice |

## Left out

- Constructor wiring (lines 55-99): the event subscriptions, `tp01.Register()`, smart-object loading and the thread limit. These are framework setup with no decision logic.
- Logging: the `ErrorLog` calls (lines 88, 97, 120, 125) have no effect on any channel.
- ControlSystem.RegistrationButton: tp02 is declared but never constructed, so line 172 would throw a null-reference exception. The model reduces tp02 to a registered flag that the button flips, and does not model the crash.
- Register/UnRegister results and how they fail: these are external calls, and their outcome is not modelled.
- `Xpanel_SO_SigChange`, `InitializeSystem` and the Ethernet, program-status and system event handlers (lines 219-313) are empty, so they are not modelled.
- Concurrency: the framework delivers events one at a time, and `Run` models exactly that order.
- Floating point: the `double` at line 185 only ever holds a whole number from 0 to 100. It is modelled as an integer, and the rounding of `Convert.ToUInt16` is not modelled.
- Other panels: writes through `currentDevice` are modelled on tp01's store, because the handler is subscribed only to tp01.
