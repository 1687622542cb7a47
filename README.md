# Domino chain and balance beam: a Dafny model

The repository stages a chain of dominoes on a ledge. The last domino
knocks a bowling ball off the ledge into the left cup of a balance beam.
Box2D does the physics and pygame draws the scene. Around those two
libraries sit four pieces of deterministic logic, and this project models
them and proves what they promise:

- **the contact-flag observer** (`ContactListener` in `classes.py`, and
  the global-variable copy in `dominos.py`): three booleans driven by
  begin/end contact events on unordered pairs of bodies;
- **the run loops** of `dominos.py`, `will-tip.py` and `run.py`:
  - tip flags that latch;
  - a three-way beam classification with strict ±0.2 thresholds;
  - a ball-moving-right flag recomputed every frame;
  - a frame horizon;
  - `dominos.py` stops at the first positive tip and prints `success.`;
  - `will-tip.py` exits 0 at the first tipped pose, otherwise 1;
- **the scene layout**:
  - `get_world`: domino row, ball, second platform, beam, cup walls and joint limits;
  - the scenario table of `dominos.py`, its skip window and the push on the first created domino;
  - the fact generator `gen_simple`;
- **the abstract features** `get_abstract_feature_1` … `_5` over a
  `StructureRep` record, and the parameter table and slider clamp
  `get_values`.

Physics enters only as inputs:

- a trace `trace(k)` gives the pose seen after k world steps: beam angle, first and last domino angles, ball x-velocity;
- `events(k)` gives the contact events raised during step k;
- `angle(k)` gives the single domino's angle in `will-tip.py`;
- `clicked(i)` says whether frame i of the application saw a click on the start button.

Bodies are opaque ids. Printed facts are a datatype, not text. Python's
`//` by 2, `int()` on floats (`World.Trunc`) and negative list indexing
(`Wrappers.PyIndex`, with `IndexError` out of range) are written out.

Modules, one file each:

| file | module | models |
|---|---|---|
| wrappers.dfy | Wrappers | `Option`, `Result`, Python list indexing |
| geometry.dfy | Geometry | shared constants, domino centre formula |
| contacts.dfy | Contacts | `ContactListener` (class) and its pure event semantics |
| telemetry.dfy | Telemetry | per-frame flag and beam classification |
| world.dfy | World | `get_world` |
| scenarios.dfy | Scenarios | `gen_simple` and the facts of one scenario |
| dominos.dfy | DominosScript | the `dominos.py` script: table, placement, globals, loop |
| will_tip.dfy | WillTip | the `will-tip.py` script |
| run_app.dfy | RunApp | `get_values` and the frame loop of `run.py` |
| features.dfy | Features | `programs.py` |

## Model

| member | source | states |
|---|---|---|
| Wrappers.PyIndex | dominos.py:170-171 | `xs[i]` succeeds iff -len ≤ i < len. A negative index counts from the end. Out of range raises IndexError. |
| Geometry.CentresOnePitchApart | world.py:55 | Consecutive domino centres are exactly width + spacing apart. |
| Geometry.CentresIncreasing | dominos.py:151 | With a positive pitch, centres strictly increase with the index. |
| Contacts.FlagIsLatestEvent | classes.py:64-104 | After any event sequence, each flag is true iff the latest event on its pair was a begin. With no such event it keeps its initial value. |
| Contacts.ReplayAppend | classes.py:64-104 | Replaying a + b is replaying b from the state after a. |
| Contacts.TrackedPairEitherOrder | classes.py:71-104 | A begin on a tracked pair sets that pair's flag, in either A/B order. An end clears it, in either order. |
| Contacts.UntrackedEventIgnored | classes.py:64-104 | An event on none of the three tracked pairs leaves all flags unchanged. |
| Contacts.DistinctBodiesOneFlag | classes.py:64-104 | With four distinct tracked bodies, one event changes at most one flag. |
| Contacts.BeginsDoNotCount | classes.py:73-94 | A repeated begin is idempotent. One end after two begins clears the flag, because the flags are booleans and not counters. |
| Contacts.ContactListener.constructor | classes.py:52-62 | Stores the four tracked bodies. All three flags start false. |
| Contacts.ContactListener.BeginContact | classes.py:64-83 | The new flags are the begin-event update of the old ones. The event is appended to the history. |
| Contacts.ContactListener.EndContact | classes.py:85-104 | The new flags are the end-event update of the old ones. The event is appended to the history. |
| Contacts.ContactListener.GetContacts | classes.py:106-107 | Returns (domino-ball, top, bottom) in that order without changing state. The triple equals the replay of all events so far. |
| Telemetry.Classify | dominos.py:299-304 | Positive iff angle > 0.2, negative iff angle < -0.2, neutral iff -0.2 ≤ angle ≤ 0.2. |
| Telemetry.ObserveAllMeaning | dominos.py:292-308 | After a run of poses, each tip flag is its initial value or "some pose had \|angle\| > 0.5". The beam tip and the moving-right flag come from the last pose alone. |
| Telemetry.TipFlagsLatch | dominos.py:292-297 | A set tip flag stays set. |
| Telemetry.FirstIndex | dominos.py:356-369 | The first index below n where the predicate holds, or None iff there is none. |
| World.Trunc | world.py:49 | `int()` on a float truncates toward zero. The result is ≥ 1 iff the input is ≥ 1. |
| World.DominoRowLayout | world.py:45-60 | Consecutive dominoes are width + spacing apart. Each stands on the ledge top y = 6. Only domino 0 is tilted to -0.3; every other domino has angle 0. |
| World.CreateDominoes | world.py:48-60 | The loop creates max(n, 0) dominoes, and entry i is domino i of the row. |
| World.CupWallRectangles | world.py:93-137 | There are four cup walls of four vertices each, and each wall is a 0.1 × 1.0 rectangle. The centres are at -4, -2, 2 and 4, so the left cup's outer wall is at -beam_length/2. |
| World.CupsMirrored | world.py:97-133 | The right cup's walls are the left cup's walls mirrored under x ↦ -x. |
| World.GetWorld | world.py:26-160 | Fails with IndexError iff int(num) ≤ 0. Otherwise: exactly int(num) dominoes laid out as the row, first = domino 0 and last = domino n-1; the ball at `World.BallCentre`, on the ledge with its left edge `gap` past the last domino's right edge; the second platform centred at 26 + hole, leaving a hole of `hole` after the first; beam and fulcrum both at (32 + hole, 2) with the four cup walls; symmetric joint limits ±15·3.1416/180 with the motor off; the listener tracking four distinct bodies (last domino, ball, first platform, beam). |
| World.TrackedBodiesDistinct | world.py:158 | The four bodies handed to the listener are distinct. |
| World.DefaultWorld | world.py:26-72 | The defaults give 20 dominoes. The last domino is at (18.3, 6.5) and the ball at (19.0, 6.5). |
| DominosScript.BallFactMatchesWorld | dominos.py:173-184 | The printed ball_x is the x at which the world builder places the ball for the same row, with spacing 0.5 and gap 0.1. |
| Scenarios.EmittedBelowMeaning | gen_scenarios.py:19-25 | The indices emitted below i are exactly those outside [mid - k//2, mid + k//2), in increasing order. |
| Scenarios.EmittedExactly | gen_scenarios.py:19-25 | Index i yields a domino iff 0 ≤ i < n and i is outside the skip window. |
| Scenarios.EmittedIncreasing | gen_scenarios.py:23-32 | Emitted indices strictly increase in output order. |
| Scenarios.DominoXIncreasing | gen_scenarios.py:27 | Domino x = 5 + i·(w + 0.5) strictly increases with i. |
| Scenarios.ScenarioLayout | gen_scenarios.py:16-40 | A scenario is the width fact, the height fact, the push fact for the first emitted domino (only if one is emitted), one domino fact per emitted index in order, and one ball_x fact at the end. |
| Scenarios.ScenarioFrame | gen_scenarios.py:34-40 | Width is the first fact, height the second and ball_x the last, and each occurs once. Ball x is 5 + (n-1)(w+0.5) + w/2 + 0.6, computed from index n-1 even when that index was skipped. |
| Scenarios.PushFactPlacement | gen_scenarios.py:22-32 | With no domino emitted there is no push fact. Otherwise there is exactly one, at position 2, immediately before the first domino fact and at the same x. |
| Scenarios.DominoFactIff | gen_scenarios.py:19-32 | For a positive pitch (w + 0.5 > 0), a domino fact at x(i) occurs iff index i is in range and not skipped. |
| Scenarios.DominoFactsIncreasing | gen_scenarios.py:23-32 | For a positive pitch (w + 0.5 > 0), domino facts strictly increase in x in output order. |
| Scenarios.AppendScenario | gen_scenarios.py:16-40 | The inner loop appends exactly the facts of one (ratio, n, skip) triple to the list. |
| Scenarios.CombosAt | gen_scenarios.py:12-15 | The enumeration has \|ratios\|·\|counts\|·\|skips\| triples, ratio-major then count then skip, and the triple at each index is the one its position names. |
| Scenarios.GenSimple | gen_scenarios.py:7-43 | The yielded scenarios are exactly the scenarios of the enumerated triples, in order, each holding only its own facts. |
| Scenarios.GeneratedAt | gen_scenarios.py:7-43 | Scenario number (i·\|ns\| + j)·\|ks\| + l has height w·ratios[i], nums[j] dominoes and skips[l] skipped. |
| Scenarios.DefaultScenarios | gen_scenarios.py:8-43 | With the defaults there are 36 scenarios, and scenario (i·3 + j)·3 + l is the one for (0.2, 0.2·ratio i, count j, skip l). |
| DominosScript.BuildScenarioTable | dominos.py:122-127 | The three nested loops build the table of (0.2·r, n, k) over r ∈ [3,6,9,12], n ∈ [5,10,20], k ∈ [0,2,4]. |
| DominosScript.FillTable | dominos.py:124-127 | The nested loops build the table entries of the enumerated triples, in order. |
| DominosScript.ScenarioTableLayout | dominos.py:124-127 | The table has 36 entries, ratio-major. Entry (i·3 + j)·3 + l is (0.2·ratio i, count j, skip l). |
| DominosScript.TableMatchesGenerator | dominos.py:124-184 | The facts each table entry prints are the facts the generator yields for the same index. |
| DominosScript.TableRowsCreateDominoes | dominos.py:143-171 | For every table entry at least one domino is created, and the last one created is index n-1. |
| DominosScript.LastIndexEmitted | dominos.py:143-149 | Index n-1 is emitted whenever the skip window ends before it. |
| DominosScript.PlaceDominoes | dominos.py:143-167 | The placement loop with its `pushed` flag prints the scenario's push and domino facts. It creates one body per emitted index. |
| DominosScript.BodiesMatchFacts | dominos.py:147-167 | Only the first created domino has angle -0.3, and the push fact names its x. Every other domino has angle 0. Each body's x is the x of its domino fact, and each body stands on the ledge. |
| DominosScript.BodiesIncreasing | dominos.py:151-167 | Created domino x positions strictly increase in creation order. |
| DominosScript.RunOutcome | dominos.py:279-376 | `success.` is printed iff some pose after 0 … 3599 steps has beam angle > 0.2. The loop stops at the first such pose, and no earlier pose is positive. Otherwise it runs all 3600 steps. |
| DominosScript.StopsAt | dominos.py:356-357 | The first positive pose at j stops the run after j steps, having inspected j + 1 poses. |
| DominosScript.RunsOut | dominos.py:367-369 | With no positive pose the run takes all 3600 steps and inspects 3600 poses. |
| DominosScript.RunEnds | dominos.py:356-369 | A loop exit after k frames, with the exit conditions of the loop, fixes steps, success and the poses inspected. |
| DominosScript.OnlyInspectedPosesMatter | dominos.py:281-369 | Two traces agreeing on the inspected poses give the same outcome and the same observations. |
| DominosScript.NegativeTipDoesNotStop | dominos.py:299-304 | A beam that stays below -0.2 never stops the loop. The final beam tip is negative. |
| DominosScript.ScriptGlobals.constructor | dominos.py:38-50 | All globals start at their initial values: flags false and beam tip neutral. |
| DominosScript.ScriptGlobals.BeginContact | dominos.py:52-75 | The contact globals take the begin-event update. The loop variables are unchanged. |
| DominosScript.ScriptGlobals.EndContact | dominos.py:77-100 | The contact globals take the end-event update. The loop variables are unchanged. |
| DominosScript.ScriptGlobals.Deliver | dominos.py:360 | The listener callbacks raised during one step replay their events on the contact globals. |
| DominosScript.ScriptGlobals.UpdateVariables | dominos.py:290-308 | The loop variables become the observation of the current pose. The contact globals are unchanged. |
| DominosScript.ScriptGlobals.Frame | dominos.py:290-361 | One frame observes the pose and breaks iff the beam is positive. Otherwise it steps, and the step's contact events are applied. |
| DominosScript.ScriptGlobals.Run | dominos.py:277-369 | The loop stops at the first positive pose or after 3600 frames. The loop variables are the observations of every inspected pose. The contact flags are the replay of every step's events. |
| DominosScript.SetUpScenario | dominos.py:129-171 | Index ≥ 36 exits. Index < -36 raises IndexError. Any other index, negative ones counting from the end, prints that scenario's facts. It creates exactly one body per emitted index of that table entry (at least one), placed as `PlaceDominoes` places them. |
| DominosScript.DominosMain | dominos.py:120-376 | The whole script. It gives the exit cases above. Otherwise it gives the printed facts, `success.` iff the run succeeds, the steps taken and the final observations. The final contact flags are the replay, from all false, of every event raised during the steps taken. The tracked bodies are the last created domino, the ball, the ledge and the beam. |
| WillTip.SetUpDomino | will-tip.py:49-76 | One domino at (5, 6 + h/2) with angle -0.3. First and last are the same body. |
| WillTip.OutcomeMeaning | will-tip.py:78-102 | Exit 0 iff a pose after 0 … 179 steps has \|angle\| > 0.5. It exits at the first such pose, and every earlier pose is upright. Exit 1 comes after all 180 steps. |
| WillTip.TipsAt | will-tip.py:90-92 | The first tipped pose at j gives exit 0 after j steps. |
| WillTip.NeverTips | will-tip.py:98-102 | No tipped pose among the first 180 gives exit 1. |
| WillTip.OnlyFirstPosesMatter | will-tip.py:81-100 | Only the poses after 0 … 179 steps matter; the pose after the 180th step is never read. |
| WillTip.TipLoop | will-tip.py:79-102 | The loop's exit code and step count are the outcome above. Both tip flags are set iff it exits 0. |
| WillTip.WillTipMain | will-tip.py:49-102 | Exit 0 iff the domino tips beyond 0.5 rad within 180 frames; the exit code is 0 or 1. |
| RunApp.FixedTaskValues | run.py:22-27 | task_1, task_2 and task_3 return their fixed six-value lists. |
| RunApp.SliderValues | run.py:28-31 | Other tasks give one value per slider, each max(0.1, slider). The third from last is also raised to ≥ 1, and the others are untouched by that step. Fewer than three sliders raise IndexError. |
| RunApp.SixSlidersGiveDominoes | run.py:21-31 | With six sliders every task gives six values with a domino count ≥ 1. |
| RunApp.WorldFor | run.py:112-119 | The world built from those values never fails and has at least one domino. |
| RunApp.ActiveFramesMeaning | run.py:116-117 | With no click there are no steps. After a first click at frame c, each later frame steps once. |
| RunApp.RunFrames | run.py:102-177 | The start flag latches at the first click. The flags, the beam classification and the moving-right flag are the observations of every frame from then on. |
| Features.SpacingsSum | programs.py:14-20 | The consecutive spacings add up to last - first. |
| Features.AlignedIff | programs.py:22-25 | "All spacings within the tolerance of the mean" means the same as "every consecutive gap within it". |
| Features.Feature1Mean | programs.py:6-32 | With ≥ 2 positions, a non-None result is (last - first)/(n - 1). It is non-None iff every gap is within 0.01·width of that mean. |
| Features.Feature1EvenlySpaced | programs.py:6-32 | Gaps all equal to d give d for a non-negative width. A negative width gives None. |
| Features.Feature1OfRow | programs.py:6-32 | For a non-negative width, a laid-out row of two or more dominoes gives width + spacing. |
| Features.Feature1 | programs.py:9-11 | Fewer than two positions give None. |
| Features.Feature2 | programs.py:35-55 | The force feature is never None. |
| Features.Feature2Monotone | programs.py:39-50 | The force is non-negative and grows with the radius. It is zero for a zero radius or density. |
| Features.Feature3Cases | programs.py:58-85 | An empty list raises IndexError. A ball within the span with zero width raises ZeroDivisionError. A ball outside [first, last] gives None. |
| Features.Feature3AtMostOne | programs.py:66-84 | For a positive width, the balance is ≤ 1, and = 1 iff the ball is at the centre of the span. |
| Features.Feature3Ordering | programs.py:66-84 | For a positive width, a computed balance is ≥ 0 iff the ball is within n·w/2 of the span's centre. Of two ball positions that both give a balance, the one nearer the centre gives the strictly higher balance. |
| Features.Feature4 | programs.py:89-97 | None iff there are no positions. Otherwise the value is ball - last position. |
| Features.Feature4OfWorld | programs.py:89-97 | For the row and ball position `World.GetWorld` builds (it ensures its ball is `World.BallCentre`), the value is w/2 + 0.5 + gap. |
| Features.Feature5Defined | programs.py:101-132 | None iff the ball radius or density is zero. Positive when all dimensions are positive. |

## Left out

- **Box2D.** World stepping, collisions, joint solving and body or fixture creation are left out. The pose after each step is an input trace, and the contact events of each step are an input sequence.
- **pygame.** Rendering, the video writer, `to_pygame`, `Slider`, `Button` and `draw_world_on_screen` are left out. The event loop of `run.py` is reduced to one "start button clicked" bit per frame. Closing the window is modelled as the number of frames run.
- **Output text.** The printed facts and `success.` are values, not formatted text. `sys.argv` parsing is reduced to the scenario index and the domino size. The file writing in `gen_scenarios.py` is left out.
- **Other scripts.** `run_abstraction.py` (shell calls), `run_prompting.py`, `prompts.py` and `run_classifier.py` (language-model glue) are not part of this model. The exception is the `StructureRep` field list from `prompts.py`.
- **Floating point.** Arithmetic is exact `real`. Feature 2's `math.pi` is the constant 3.141592653589793; feature 5 keeps its literal 3.14159, and the joint limit keeps 3.1416.
- **Aliasing in `gen_simple`.** It yields the same list object and clears it after each yield. The model yields a snapshot at each yield, which is what a consumer sees if it uses each scenario before resuming the generator (as `gen_scenarios.py`'s main does). A consumer that keeps the yielded lists would see them emptied; the model does not capture that.
- **World rebuilding in `run.py`.** `run.py` rebuilds the world from the slider values on every pygame event. The model builds the world once, and the trace is what the world shows.
- **Unpacking in `run.py`.** `run.py:119` unpacks seven values from `get_world`, which returns five; `World.GetWorld` models the five-value result.
- **`Slider` call.** The `Slider` constructor takes five arguments but `run.py` passes six; sliders are modelled as their values.
- **`StructureRep` source.** `StructureRep` is imported from `classes.py`, but `classes.py` does not define it. The record is modelled from its field list in `prompts.py:12-19`.
- **Beam and cups in `dominos.py`.** The script builds its own beam and cups (`dominos.py:186-271`). They repeat `get_world`'s construction with the beam at x = 30, and they are covered only by `World.GetWorld`.
- **Exception handler in feature 5.** `get_abstract_feature_5` wraps its body in `except Exception`. Every division there is guarded, so exact arithmetic raises nothing, and the model has no exception path.
- **Scenario table source.** The table of `dominos.py` is built from the same three lists as `gen_simple`'s default arguments. `DominosScript.FillTable` runs over `Scenarios.DefaultRatios`, `DefaultCounts` and `DefaultSkips`, whose values match `dominos.py:124-126`.
