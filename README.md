# Behaviour model of the consciousness-notes interactive components

The site renders pre-written devotional content. Three of its components keep
small state machines, and this project models them in Dafny with rendering
stripped away:

- **Breathing guide** (`Breathing`): a breathing pattern is a list of timed
  phases. While the guide is active, a one-second timeout takes one second
  off `timeLeft`. Once `timeLeft` reaches zero, the component's effect moves
  to the next phase, wrapping to phase 0. It reloads that phase's duration and
  counts a completed cycle on each wrap. Start, stop and the pattern buttons
  overwrite the state cells. The transitions are written once as functions on
  a `TimerState` value, and the proofs are written about those functions. The
  class `BreathingGuide` holds the component's state cells as fields, and each
  of its methods is tied to one of the transition functions.
- **Practice guide** (`Practice`): the user ticks steps off in a set of
  completed step ids. One step at a time can be expanded. A progress bar shows
  the completed share of the steps.
- **Trip guide** (`Trip`): the user selects a trip state and turns a mantra
  player on or off. While the player is on, a three-second interval moves the
  mantra index forward, wrapping at the end of the mantra list.

`Cyclic` holds the wrap-around successor `(i + 1) % n`, which both timers use.
`Wrappers` holds `Option`, the "id or null" of the source.

Timers are not modelled as timers. Each firing of a timeout or interval is an
explicit method call: `Tick`, `Advance` and `ElapseSecond` for the breathing
guide, `Rotate` for the trip guide. A firing that the component could not have
scheduled changes nothing. Examples are a tick while the guide is inactive, or
an interval firing while the player is off.

Three places where the code's own behaviour decides the model:

- With no steps, the code divides by `steps.length` with no guard and gets
  NaN. So `Progress` and `ProgressPercentage` require at least one step.
- The state buttons pass one of the shipped state objects
  (TripGuide.tsx:101-105). So `Trip.TripGuide.Select` takes a member of
  `TripStates`.
- The initial expanded step is `steps[0]?.id || null`, which also yields null
  when the first id is the empty string. The constructor models that case.

## Model

| member | source | states |
|---|---|---|
| `Cyclic.Next` | consciousness-notes-v2/src/components/spiritual/TripGuide.tsx:65 | the wrapped successor stays below the count, steps to i + 1 below the last index, and is 0 exactly after the last index |
| `Cyclic.Iterate` | consciousness-notes-v2/src/components/spiritual/TripGuide.tsx:65 | defines k successive wraps of the index |
| `Cyclic.FullTurn` | consciousness-notes-v2/src/components/spiritual/TripGuide.tsx:65 | as many successive wraps as there are items return any index to itself |
| `Breathing.PatternOf` | consciousness-notes-v2/src/components/spiritual/BreathingGuide.tsx:12-43 | defines the shipped catalogue: basic 4-4-4-4, Krishna 6-2-6-2 and Kali 5-3-7-1, each as Inhale, Hold, Exhale, Hold |
| `Breathing.Started` | consciousness-notes-v2/src/components/spiritual/BreathingGuide.tsx:74-79 | defines the state `startBreathing` sets: active, phase 0 with its full duration, no cycles |
| `Breathing.Stopped` | consciousness-notes-v2/src/components/spiritual/BreathingGuide.tsx:81-84 | defines the state `stopBreathing` and the pattern buttons set: inactive, no time left, phase and cycles kept |
| `Breathing.Ticked` | consciousness-notes-v2/src/components/spiritual/BreathingGuide.tsx:69 | defines the timeout firing: one second off while active with time left, otherwise no change |
| `Breathing.Advanced` | consciousness-notes-v2/src/components/spiritual/BreathingGuide.tsx:58-67 | defines the advance: while active with no time left, the wrapped next phase with its duration, and a cycle counted on reaching phase 0 |
| `Breathing.Second` | consciousness-notes-v2/src/components/spiritual/BreathingGuide.tsx:55-72 | defines one elapsed second as the timeout followed by the effect's reaction |
| `Breathing.Run` | consciousness-notes-v2/src/components/spiritual/BreathingGuide.tsx:55-72 | defines n elapsed seconds as n successive seconds |
| `Breathing.CycleLength` | consciousness-notes-v2/src/components/spiritual/BreathingGuide.tsx:58-67 | the sum of all phase durations, at least one second per phase for a well-formed pattern |
| `Breathing.Inv` | consciousness-notes-v2/src/components/spiritual/BreathingGuide.tsx:53-62 | defines the invariant: phase index in range, 0 <= timeLeft <= the phase's duration, and no time left while inactive |
| `Breathing.CatalogueWellFormed` | consciousness-notes-v2/src/components/spiritual/BreathingGuide.tsx:12-43 | every shipped pattern has exactly four phases, all with positive durations |
| `Breathing.InitialInv` | consciousness-notes-v2/src/components/spiritual/BreathingGuide.tsx:47-50 | the initial state (inactive, phase 0, nothing left, no cycles) satisfies the invariant and owes no advance |
| `Breathing.StartedInv` | consciousness-notes-v2/src/components/spiritual/BreathingGuide.tsx:74-79 | the started state satisfies the invariant and owes no advance |
| `Breathing.StoppedInv` | consciousness-notes-v2/src/components/spiritual/BreathingGuide.tsx:81-84 | stopping preserves the invariant |
| `Breathing.SwitchedInv` | consciousness-notes-v2/src/components/spiritual/BreathingGuide.tsx:121-125 | the kept phase index stays in range after a pattern switch provided the new pattern has at least as many phases |
| `Breathing.TickedInv` | consciousness-notes-v2/src/components/spiritual/BreathingGuide.tsx:68-70 | a decrement preserves the invariant: phase in range and 0 <= timeLeft <= the phase's duration |
| `Breathing.AdvancedInv` | consciousness-notes-v2/src/components/spiritual/BreathingGuide.tsx:58-67 | an advance preserves the invariant and leaves positive time on the clock while active |
| `Breathing.SecondSettles` | consciousness-notes-v2/src/components/spiritual/BreathingGuide.tsx:55-72 | with positive durations, one elapsed second preserves the invariant and triggers at most one advance |
| `Breathing.RunInv` | consciousness-notes-v2/src/components/spiritual/BreathingGuide.tsx:55-72 | the invariant holds after any number of elapsed seconds |
| `Breathing.InactiveIsFrozen` | consciousness-notes-v2/src/components/spiritual/BreathingGuide.tsx:56 | while inactive, neither the decrement nor the advance changes the state |
| `Breathing.TickDecrements` | consciousness-notes-v2/src/components/spiritual/BreathingGuide.tsx:68-70 | while active with time left, a tick takes exactly one second off and keeps phase and cycles; no advance follows unless that was the last second |
| `Breathing.AdvanceMoves` | consciousness-notes-v2/src/components/spiritual/BreathingGuide.tsx:58-67 | while active with no time left: next phase with wrap to 0, that phase's full duration, and one more cycle exactly when the new phase is 0 |
| `Breathing.StoppedStaysFrozen` | consciousness-notes-v2/src/components/spiritual/BreathingGuide.tsx:55-84 | after a stop, no number of elapsed seconds changes phase, time left or cycle count |
| `Breathing.RunAdd` | consciousness-notes-v2/src/components/spiritual/BreathingGuide.tsx:55-72 | running a + b seconds equals running a seconds and then b seconds |
| `Breathing.CountdownThenAdvance` | consciousness-notes-v2/src/components/spiritual/BreathingGuide.tsx:58-70 | t seconds of countdown from t in one phase end exactly with that phase's advance |
| `Breathing.RestOfCycle` | consciousness-notes-v2/src/components/spiritual/BreathingGuide.tsx:58-70 | from the start of phase i, the total duration of phases i.. leads to the start of phase 0 with one more cycle |
| `Breathing.FullCycles` | consciousness-notes-v2/src/components/spiritual/BreathingGuide.tsx:58-79 | from a fresh start, k times the cycle length in seconds ends at phase 0 with full time and exactly k cycles |
| `Breathing.OneFullCycle` | consciousness-notes-v2/src/components/spiritual/BreathingGuide.tsx:58-79 | from a fresh start, after the sum of all durations: phase 0 and cyclesCompleted == 1 |
| `Breathing.BasicPatternExample` | consciousness-notes-v2/src/components/spiritual/BreathingGuide.tsx:13-21 | basic pattern: after 4 s phase 1 with 4 s left; after 16 s one cycle |
| `Breathing.BreathingGuide.constructor` | consciousness-notes-v2/src/components/spiritual/BreathingGuide.tsx:46-50 | basic pattern, inactive, phase 0, no time left, no cycles; invariant holds |
| `Breathing.BreathingGuide.CurrentPhaseData` | consciousness-notes-v2/src/components/spiritual/BreathingGuide.tsx:53 | the shown phase is a phase of the selected pattern and bounds the countdown |
| `Breathing.BreathingGuide.Start` | consciousness-notes-v2/src/components/spiritual/BreathingGuide.tsx:74-79 | active, phase 0, timeLeft = phase 0's duration, cycles 0, same pattern |
| `Breathing.BreathingGuide.Stop` | consciousness-notes-v2/src/components/spiritual/BreathingGuide.tsx:81-84 | inactive and timeLeft 0; phase, cycles and pattern unchanged |
| `Breathing.BreathingGuide.SwitchPattern` | consciousness-notes-v2/src/components/spiritual/BreathingGuide.tsx:121-125 | new pattern selected, inactive, timeLeft 0, phase and cycles untouched, invariant kept (all patterns have four phases) |
| `Breathing.BreathingGuide.Tick` | consciousness-notes-v2/src/components/spiritual/BreathingGuide.tsx:68-70 | the timeout takes one second off when active with time left, else nothing; phase, cycles and activity unchanged |
| `Breathing.BreathingGuide.Advance` | consciousness-notes-v2/src/components/spiritual/BreathingGuide.tsx:58-67 | when active with no time left: wrapped next phase, its duration, cycle counted on wrap; otherwise no change |
| `Breathing.BreathingGuide.ElapseSecond` | consciousness-notes-v2/src/components/spiritual/BreathingGuide.tsx:55-72 | one second is a tick followed by the advance it triggers; invariant kept and no advance left owing |
| `Practice.StepIds` | consciousness-notes-v2/src/components/spiritual/PracticeGuide.tsx:114 | the id set contains exactly the ids of the steps |
| `Practice.StepIdsCount` | consciousness-notes-v2/src/components/spiritual/PracticeGuide.tsx:99-114 | there are at most as many ids as steps, and exactly as many when ids are distinct |
| `Practice.Toggle` | consciousness-notes-v2/src/components/spiritual/PracticeGuide.tsx:33-43 | the toggled id's membership flips; every other id's membership is unchanged |
| `Practice.ToggleTwice` | consciousness-notes-v2/src/components/spiritual/PracticeGuide.tsx:33-43 | toggling the same id twice restores the completed set |
| `Practice.ToggleCount` | consciousness-notes-v2/src/components/spiritual/PracticeGuide.tsx:33-43 | each toggle changes the completed count by exactly one, down if present and up if absent |
| `Practice.ToggleWithinSteps` | consciousness-notes-v2/src/components/spiritual/PracticeGuide.tsx:138-141 | toggling a step's id keeps the completed set within the step ids |
| `Practice.Progress` | consciousness-notes-v2/src/components/spiritual/PracticeGuide.tsx:55 | progress is non-negative, at most 100 when done <= total, and exactly 100 iff done == total |
| `Practice.ProgressBounded` | consciousness-notes-v2/src/components/spiritual/PracticeGuide.tsx:55 | with completed ids drawn from the steps, progress lies in [0, 100] |
| `Practice.FullProgressIffAllCompleted` | consciousness-notes-v2/src/components/spiritual/PracticeGuide.tsx:55 | with distinct ids, progress is 100 exactly when every step id is completed |
| `Practice.AtMostOneExpanded` | consciousness-notes-v2/src/components/spiritual/PracticeGuide.tsx:116 | with distinct ids, at most one step is expanded |
| `Practice.ThreeStepExample` | consciousness-notes-v2/src/components/spiritual/PracticeGuide.tsx:33-55 | steps a, b, c: completing a and b gives 200/3 percent; toggling a again gives 100/3 |
| `Practice.PracticeGuide.constructor` | consciousness-notes-v2/src/components/spiritual/PracticeGuide.tsx:30-31 | nothing completed; first step's id expanded, or none when there is no step or its id is empty |
| `Practice.PracticeGuide.ToggleStep` | consciousness-notes-v2/src/components/spiritual/PracticeGuide.tsx:33-43 | the completed set becomes its toggle at the id; expanded step unchanged; invariant kept for step ids |
| `Practice.PracticeGuide.ToggleExpanded` | consciousness-notes-v2/src/components/spiritual/PracticeGuide.tsx:45-47 | collapses the id if it was expanded, expands it otherwise; completed set unchanged |
| `Practice.PracticeGuide.ClickCheckbox` | consciousness-notes-v2/src/components/spiritual/PracticeGuide.tsx:137-141 | toggles step i's completion without touching the expanded step (propagation is stopped); invariant kept |
| `Practice.PracticeGuide.ClickHeader` | consciousness-notes-v2/src/components/spiritual/PracticeGuide.tsx:130-131 | toggles step i's expansion; completed set unchanged; invariant kept |
| `Practice.PracticeGuide.ProgressPercentage` | consciousness-notes-v2/src/components/spiritual/PracticeGuide.tsx:55 | the bar's width lies in [0, 100] and, with distinct ids, is 100 iff every step is completed |
| `Trip.ShippedStates` | consciousness-notes-v2/src/components/spiritual/TripGuide.tsx:14-55 | `TripStates` is the shipped list; this lemma states it has five states with distinct ids, each with three mantras |
| `Trip.TripGuide.constructor` | consciousness-notes-v2/src/components/spiritual/TripGuide.tsx:58-60 | first shipped state selected, not playing, index 0 |
| `Trip.TripGuide.Rotate` | consciousness-notes-v2/src/components/spiritual/TripGuide.tsx:62-69 | while playing, the index moves to its wrapped successor modulo the mantra count; otherwise nothing; index stays in range |
| `Trip.TripGuide.TogglePlay` | consciousness-notes-v2/src/components/spiritual/TripGuide.tsx:71-76 | flips the flag; turning on resets the index to 0, turning off keeps it |
| `Trip.TripGuide.Select` | consciousness-notes-v2/src/components/spiritual/TripGuide.tsx:104-108 | the chosen state is selected, playing stops, the index is 0 |
| `Trip.TripGuide.DisplayedMantra` | consciousness-notes-v2/src/components/spiritual/TripGuide.tsx:171-174 | a mantra is shown exactly while playing, and it is one of the selected state's mantras |

## Left out

- Practice.PracticeGuide: the step list is fixed for the component's lifetime. In the source `steps` is a prop, and `useState` keeps the completed set and the expanded step when a parent re-renders with another list. A changed `steps` prop is not modelled, so the model does not capture a completed set that outgrows a shrunken list, where the source's percentage exceeds 100.
- Rendering: all JSX, CSS class strings, SVG and page composition. This covers `page.tsx`, `layout.tsx` (font loading), `WisdomCard.tsx`, `JourneyTimeline.tsx` and `index.ts`, which only render given text.
- Timer plumbing: `setTimeout`/`setInterval` and their cleanup, and when React re-runs effects. Each firing is an explicit method call. Cancelling on stop shows up as later ticks doing nothing.
- `getCircleScale` and `getPhaseColor` in the breathing guide: floating-point display maths and colour strings.
- Practice.Progress and Practice.PracticeGuide.ProgressPercentage: compute with exact rationals (`real`), so the rounding of JavaScript's floating-point division is not modelled.
- Practice.Progress and Practice.PracticeGuide.ProgressPercentage: with no steps the source yields NaN; the model requires at least one step instead of modelling NaN.
- The text of instructions, mantras for breathing phases, step content, descriptions and techniques. Only ids, names, durations and the trip states' mantra lists are kept.
- Breathing: a zero-duration phase would make an advance trigger the next advance at once. The model's `ElapseSecond` runs one advance per second, and the lemmas that rely on that (`SecondSettles` and the cycle theorems) assume positive durations, as every shipped pattern has.
- `BrahmanRealization.tsx` and `SamsaraWheel.tsx`: a decorative animation flag flipped by an interval, and a "last clicked" assignment passed on to a callback outside this model.
- The trip guide's colour classes and the three-second period of its interval.
