# Portfolio site: the discrete logic behind its scroll scenes, typing effect, contact form, navigation bar and music player

The site is a single-page React portfolio. Most of it is markup and
animation-library calls, but six components carry small pieces of
discrete logic, and this project models those pieces in Dafny and proves
their properties. Each file holds one module.

- `partition.dfy` (`Partition`) holds the scroll-step partition that the
  Projects showcase and the Experience timeline share. The scroll progress
  range [0, 1] is cut into `n` equal steps, and step `i` ends at the
  threshold `(i+1)/n`. Progress and thresholds are exact `real`s.
- `projects.dfy` (`Projects`) covers the active-project resolver. It is
  `findIndex(t => v <= t)` with a fall-back to the last index. Only the
  active card is shown and renders its title, and the section is
  `100 * n` vh high. The state that the scroll subscription overwrites is
  the class `ProjectsScene`.
- `experience.dfy` (`Experience`) covers the timeline. Each entry's scroll
  interval runs from the previous threshold (0 for the first entry) to its
  own threshold. Entries alternate above and below the line. The module
  also models the endpoints of the card and marker animations handed to
  the animation library, the 768 px mobile breakpoint and the scene height
  (`100*n*1.6` vh on mobile, `100*n*1.2` vh otherwise). The resize
  listener's `isMobile` flag is the class `Viewport`.
- `home.dfy` (`Home`) is the hero section's typing effect.
  - It is a state machine over `(index, subIndex, deleting)` plus a
    `holding` flag for the pending 1200 ms hold timer.
  - The step functions are proved for any list of roles.
  - The class `TypingEffect` holds the component's fields, and its timer
    callbacks are proved equal to the step functions.
  - One role takes `2L + 3` timer firings and `100L + 1300` ms. After a
    cycle of every role the effect is back where it started: 83 firings
    and 7.6 s for the three roles listed.
- `contact.dfy` (`Contact`) is the contact form, modelled as a class
  `ContactForm` over `map<string, string>`.
  - The change filter keeps `budget` numeric and blanks an edited field's
    error.
  - Validation rebuilds the error map in a loop, proved against a
    field-by-field specification.
  - On submit, the EmailJS send is reduced to a success/failure outcome.
- `navbar.dfy` (`Navbar`) is the navigation bar's show/hide machine. It
  reacts to scroll, to the home section's intersection and to a 3000 ms
  hide timer, with timers as explicit fields.
- `music_player.dfy` (`MusicPlayer`) is the music player's control state.
  It covers play, toggle, random shuffle, a track ending, a refusal to
  play, single- versus double-click discrimination with a 250 ms timer,
  and double tap within 400 ms.

Time is an integer millisecond input to each timer-related event. A
pending timer is a flag plus a due time, and a clock event fires it.
`Math.random` is a nondeterministic choice (`:|`).

The model follows the code as written, including in these places:

- The contact form's inputs are named `name`, `email` and `message`, and
  the `service` and `budget` inputs are commented out. The validator
  requires `name`, `email`, `service` and `idea`, so as written the form
  can never be sent (`Contact.FormNeverValidates`).
- The animation endpoints are modelled as the code passes them. No
  clamped interpolation is computed here, because that happens inside the
  animation library.
- The scroll-timeline intervals are closed `[start, end]` ramps.
- The style sheet's `md` breakpoint, which switches between the two
  timelines, is taken to be 768 px. The code does not state it; it is the
  style framework's default of 48rem at a 16 px root font size.
- The first render uses `isMobile = false`, and the mount effect measures
  the width at once. The `Viewport` constructor models the state after
  that effect.
- An empty project list is not handled by the code: the background colour
  of `projects[activeIndex]` would fail. The scene therefore requires at
  least one project.

## Model

| member | source | states |
|---|---|---|
| Partition.Thresholds | src/sections/Projects.jsx:82 | one threshold per item, and threshold `i` times `n` is `i+1`, i.e. it equals `(i+1)/n` |
| Partition.ThresholdsStrictlyIncreasing | src/sections/Experience.jsx:133-136 | the thresholds strictly increase |
| Partition.ThresholdsSorted | src/sections/Projects.jsx:82 | the thresholds are sorted, which the "first threshold at least v" rule relies on |
| Partition.ThresholdsInUnitRange | src/sections/Experience.jsx:134 | every threshold lies in (0, 1]; the first is `1/n` and the last is exactly 1 |
| Partition.ThresholdsEqualSteps | src/sections/Experience.jsx:134 | consecutive thresholds are exactly `1/n` apart |
| Projects.FindIndex | src/sections/Projects.jsx:90 | the result is -1 iff every threshold is below `v`; otherwise it is the first index whose threshold is at least `v` |
| Projects.ActiveIndexCharacterized | src/sections/Projects.jsx:89-92 | for a non-empty list the stored index is in range, is the smallest index whose threshold reaches `v`, and is the last index when none does |
| Projects.ActiveIndexMonotone | src/sections/Projects.jsx:82-92 | a larger progress never selects an earlier project, for any threshold list |
| Projects.FallbackUnusedInUnitRange | src/sections/Projects.jsx:89-92 | for progress in [0, 1] the find always succeeds (the last threshold is 1), so the index lies in `[0, n-1]` |
| Projects.SingleProjectAlwaysActive | src/sections/Projects.jsx:48-68 | with the single listed project, the active index is 0 for every progress value |
| Projects.TwoItemScenario | src/sections/Projects.jsx:89-92 | with two items, progress 0.3 and 0.5 select item 0 and 0.51 selects item 1 |
| Projects.TitlesFrom | src/sections/Projects.jsx:125-147 | at most one title is rendered from a position on, exactly when the active index lies at or after it, and it is the active project's title |
| Projects.ExactlyOneShown | src/sections/Projects.jsx:128-134 | exactly the active card has the visible class, and the rendered titles are exactly the active project's |
| Projects.ActiveIndex | src/sections/Projects.jsx:90-92 | the resolver; `Projects.ActiveIndexCharacterized` proves it is the first index whose threshold reaches the progress, or the last index |
| Projects.ProjectsScene.constructor | src/sections/Projects.jsx:84-108 | the section starts on project 0, which is the index progress 0 selects, and is `100 * n` vh high |
| Projects.ProjectsScene.OnProgressChange | src/sections/Projects.jsx:89-92 | the callback stores the active index of the progress, keeps it in range and records the progress |
| Projects.ProjectsScene.Background | src/sections/Projects.jsx:99-110 | the background colour is that of the project the last reported progress selects, which is the one card with the visible class |
| Experience.ItemInterval | src/sections/Experience.jsx:162-163 | an entry's scroll interval; `Experience.IntervalsTile`, `Experience.IntervalsNonEmpty` and `Experience.IntervalsOrdered` prove it tiles [0, 1] in non-empty steps |
| Experience.IntervalsTile | src/sections/Experience.jsx:161-163 | the first interval starts at 0, each interval ends where the next starts, and the last ends at 1 |
| Experience.IntervalsNonEmpty | src/sections/Experience.jsx:186-188 | every interval has start < end and is exactly `1/n` wide |
| Experience.IntervalsOrdered | src/sections/Experience.jsx:162-163 | an earlier interval ends no later than a later one starts |
| Experience.ActiveEntryContainsProgress | src/sections/Experience.jsx:133-136 | for progress in [0, 1] the item the active-index rule picks is one whose interval contains the progress |
| Experience.PlacementAlternates | src/sections/Experience.jsx:56 | entry 0 is above the line, and neighbouring entries are on opposite sides |
| Experience.EntryAnimationOf | src/sections/Experience.jsx:49-60 | an entry's four ramps; `Experience.EntryAnimationEndpoints` and `Experience.CardShiftFollowsLayout` state their intervals and endpoints |
| Experience.EntryAnimationEndpoints | src/sections/Experience.jsx:49-60 | all four animations of an entry run over that entry's interval; scale and opacities go from 0 to 1; the card comes to rest at offset 0 |
| Experience.CardShiftFollowsLayout | src/sections/Experience.jsx:56-60 | for every entry, the desktop card moves vertically from +30 iff above the line and from -30 iff below it, and the mobile card horizontally from -24; neighbouring desktop cards start from opposite offsets |
| Experience.BreakpointsAgree | src/sections/Experience.jsx:119 | the script's mobile test (width < 768) holds exactly when the style sheet shows the mobile timeline rather than the desktop one |
| Experience.SceneHeightVh | src/sections/Experience.jsx:126 | the scene is `160 * n` vh on mobile and `120 * n` vh otherwise |
| Experience.RenderedHeightVh | src/sections/Experience.jsx:145 | the height applied under the 120 vh minimum; `Experience.MinimumHeightInactive` proves the minimum never applies |
| Experience.MinimumHeightInactive | src/sections/Experience.jsx:145 | with at least one entry the 120 vh minimum never takes effect |
| Experience.Viewport.constructor | src/sections/Experience.jsx:115-120 | on mount the flag says whether the initial width is below 768 px |
| Experience.Viewport.OnResize | src/sections/Experience.jsx:118-123 | after a resize the flag says whether the width is below 768 px |
| Experience.Viewport.HeightVh | src/sections/Experience.jsx:126 | with the two listed entries the scene is 320 vh on mobile and 240 vh otherwise |
| Home.Shown | src/sections/Home.jsx:105 | the text shown is a prefix of the current role of length `subIndex` |
| Home.Tick | src/sections/Home.jsx:42-50 | the typing timer's step; `Home.TickBranches` states each branch, `Home.AdvanceKeepsValid` the invariant |
| Home.ReleaseHold | src/sections/Home.jsx:45 | the hold timer's step; `Home.HoldThenDelete` proves it starts deleting with the text complete |
| Home.DelayMs | src/sections/Home.jsx:45-51 | the pending timer's delay; `Home.TypingEffect.TypingDelay` ties it to 40/60 ms and `Home.HoldThenDelete` to the 1200 ms hold |
| Home.TickBranches | src/sections/Home.jsx:42-50 | under the invariant, a tick types one character, or arms the hold, or deletes one character, or moves to the empty next role (index + 1 modulo the number of roles), changing nothing else, and it always changes the state |
| Home.HoldThenDelete | src/sections/Home.jsx:44-45 | a complete role is first held (the tick changes nothing else and arms the 1200 ms timer), and when that timer fires deletion starts with the text still complete |
| Home.AdvanceKeepsValid | src/sections/Home.jsx:40-53 | every timer firing keeps the index below the number of roles, `subIndex` at most the current role's length, and the hold consistent |
| Home.AdvanceNValid | src/sections/Home.jsx:40-53 | the invariant holds after any number of firings |
| Home.AdvanceNSplit | src/sections/Home.jsx:40-53 | `a` firings and then `b` more are `a + b` firings, and their times add up |
| Home.TypesOut | src/sections/Home.jsx:43 | typing from `j` characters completes the role in one 60 ms firing per missing character |
| Home.DeletesOut | src/sections/Home.jsx:46 | deleting from `j` characters empties the text in `j` firings of 40 ms |
| Home.RoleCycle | src/sections/Home.jsx:40-53 | from the empty role `i`, `2L + 3` firings taking `100L + 1300` ms reach the empty next role |
| Home.RoleAfter | src/sections/Home.jsx:49 | the role reached after `m` wraps is always a valid index |
| Home.RoleAfterWraps | src/sections/Home.jsx:49 | within one round the role `m` wraps after `i` is `i + m`, wrapped around once |
| Home.Rounds | src/sections/Home.jsx:40-53 | `m` consecutive role cycles from the empty role `i` reach the empty role `m` wraps on, in the sum of the cycles' times |
| Home.Periodic | src/sections/Home.jsx:40-53 | one cycle of every role, from any role, brings the effect back to where it started |
| Home.PeriodOfListedRoles | src/sections/Home.jsx:31-34 | with the three listed roles one full period is 83 timer firings and 7600 ms |
| Home.TypingEffect.constructor | src/sections/Home.jsx:35-37 | the effect starts on role 0 with no text and not deleting |
| Home.TypingEffect.OnTypingTimer | src/sections/Home.jsx:41-50 | the typing-timer callback performs exactly one tick and keeps the invariant |
| Home.TypingEffect.OnHoldTimer | src/sections/Home.jsx:45 | the hold-timer callback starts deleting and keeps the invariant |
| Home.TypingEffect.TypingDelay | src/sections/Home.jsx:51 | the typing timer waits 40 ms while deleting and 60 ms otherwise, which is the delay the cycle times add up |
| Home.TypingEffect.Displayed | src/sections/Home.jsx:105 | the rendered text is a prefix of the current role of length `subIndex` |
| Contact.ChangeFormData | src/sections/Contact.jsx:36-38 | the data after a change; `Contact.ChangeTouchesOneField` proves only the named field changes |
| Contact.ChangeErrors | src/sections/Contact.jsx:36-40 | the errors after a change; `Contact.ChangeClearsOwnError` proves only the edited field's error is blanked |
| Contact.ChangeTouchesOneField | src/sections/Contact.jsx:36-38 | a filtered change leaves the data as it was; any other change sets only the named field, and every other field keeps its value |
| Contact.BudgetFilter | src/sections/Contact.jsx:36 | a change is dropped exactly when it is a non-empty, not all-digit budget (`"12a"` is dropped, `"120"` and `""` pass) |
| Contact.ChangeClearsOwnError | src/sections/Contact.jsx:40 | a change keeps the error keys and the other fields' errors, and leaves the edited field's error empty unless the change was filtered |
| Contact.TrimStart | src/sections/Contact.jsx:48 | the result is a suffix left after removing only white space, and it does not start with white space |
| Contact.TrimEnd | src/sections/Contact.jsx:48 | the result is a prefix left after removing only white space, and it does not end with white space |
| Contact.Trim | src/sections/Contact.jsx:48 | the trimmed value is no longer than the value and neither starts nor ends with white space; `Contact.TrimMeaning` proves it is the value's middle with only white space before and after it |
| Contact.TrimMeaning | src/sections/Contact.jsx:48 | the trimmed value is the slice of the value between a white-space-only prefix and a white-space-only suffix |
| Contact.BlankIffAllWhitespace | src/sections/Contact.jsx:48 | a value trims to empty iff it is white space only; otherwise what remains starts and ends with a visible character |
| Contact.BuildErrors | src/sections/Contact.jsx:44-55 | the error map has "Fill this field" for exactly the blank required fields and, when the service is not "other", a blank budget; it is empty iff the form validates |
| Contact.InputsNeverSetService | src/sections/Contact.jsx:33-41 | changes coming from the rendered inputs keep every key and never write `service` |
| Contact.FormNeverValidates | src/sections/Contact.jsx:160-212 | from the initial data, through any edits of the rendered inputs, validation fails, since `service` stays "" |
| Contact.MessageIsNotValidated | src/sections/Contact.jsx:221 | the textarea writes `message`, which is not validated, while the validated `idea` has no input |
| Contact.ContactForm.constructor | src/sections/Contact.jsx:22-31 | the form starts with all five fields empty, no errors and no status |
| Contact.ContactForm.HandleChange | src/sections/Contact.jsx:33-41 | the new data and errors are those of the change filter, and the status is unchanged |
| Contact.ContactForm.ValidateForm | src/sections/Contact.jsx:43-56 | the stored errors are the validation result, and the result is true iff the form validates, iff there are no errors |
| Contact.ContactForm.HandleSubmit | src/sections/Contact.jsx:58-63 | from a status other than sending (the button is disabled while sending, line 257), the send starts, with status "sending", iff validation passes; otherwise the status is unchanged |
| Contact.ContactForm.SendFinished | src/sections/Contact.jsx:77-81 | the send started by a submit settles: on success the status is "success" and the data is replaced by the five empty fields of the initial data (a `message` key is dropped, not reset); on failure the status is "error" and the data is kept |
| Navbar.NavbarState.constructor | src/components/Navbar.jsx:8-12 | the bar starts visible, not forced, at scroll 0, with no pending hide |
| Navbar.NavbarState.OnHomeIntersection | src/components/Navbar.jsx:18-25 | entering home forces and shows the bar, leaving only lifts the force; a flip of the force cancels the pending hide (the scroll effect's cleanup, lines 64-67) |
| Navbar.NavbarState.OnScroll | src/components/Navbar.jsx:37-61 | a forced scroll shows the bar and changes nothing else; a downward scroll hides it; an upward one shows it and re-arms one 3000 ms hide; every unforced scroll records the position |
| Navbar.NavbarState.OnClock | src/components/Navbar.jsx:55-57 | a due hide timer hides the bar and clears itself; otherwise nothing changes |
| Navbar.NavbarState.Teardown | src/components/Navbar.jsx:64-67 | teardown clears the pending hide |
| MusicPlayer.TrackIndices | src/components/MusicPlayer.jsx:90 | the random index ranges over exactly `0 .. count-1` |
| MusicPlayer.ShuffleTargets | src/components/MusicPlayer.jsx:89-91 | the retry loop's possible exits are in range, exclude the current track when there is more than one, and are never none |
| MusicPlayer.ShuffleChangesTrack | src/components/MusicPlayer.jsx:89-91 | with the five listed tracks a shuffle never keeps the track and can reach every other one |
| MusicPlayer.Player.constructor | src/components/MusicPlayer.jsx:13-18 | the player starts on track 0, paused, showing the invitation, with no pending click |
| MusicPlayer.Player.PlayTrack | src/components/MusicPlayer.jsx:58-63 | the track becomes `index`, playing, with the double-tap hint, and the track is loaded to play |
| MusicPlayer.Player.TogglePlay | src/components/MusicPlayer.jsx:66-80 | play flips; paused shows the invitation and pauses the audio; playing shows the double-tap hint and reloads the current track to play |
| MusicPlayer.Player.ShuffleNextTrack | src/components/MusicPlayer.jsx:83-97 | the new track is a different one from the allowed set; the play state and hint are kept; it is loaded and played iff music was playing |
| MusicPlayer.Player.OnTrackEnded | src/components/MusicPlayer.jsx:100-102 | a track ending shuffles to another track, keeping the play state |
| MusicPlayer.Player.OnPlayRejected | src/components/MusicPlayer.jsx:46-50 | a refused play reflects the paused state and the invitation |
| MusicPlayer.Player.OnTouchStart | src/components/MusicPlayer.jsx:139-145 | a touch within 400 ms of the previous one shuffles, any other touch changes no track; every touch records its time |
| MusicPlayer.Player.OnClick | src/components/MusicPlayer.jsx:148-160 | a click while the single-click timer is pending cancels it and shuffles; otherwise it arms a 250 ms timer and changes nothing else |
| MusicPlayer.Player.OnClock | src/components/MusicPlayer.jsx:155-158 | a due single-click timer toggles playback and clears itself; otherwise nothing changes |

The client methods `Navbar.ScenarioHomeCancelsHide`,
`Navbar.ScenarioHideAfterIdle` and `MusicPlayer.ScenarioClicks` drive the
classes through short event sequences and assert the outcome. They have no
contract of their own.

## Left out

- Animation-library internals are not modelled: scroll measurement, the
  interpolation of the ramps, presence animations and variants. Scroll
  progress is an input real, and only the intervals and endpoint values
  the code passes in are modelled.
- The timeline's line width and height (`v * 100` percent) are not
  modelled, because they are a direct pass-through of the progress.
- The audio element's side effects are reduced to the last command given
  to it (load and maybe play, or pause): `src`, `load`, `play`, `pause`,
  the `canplay` and `error` listeners, muting and volume. The refused
  play is a separate event.
- The ArrowUp/ArrowDown volume keys are not modelled, because they are
  floating-point stepping with rounding.
- The EmailJS send and its environment variables are not modelled. The
  send is an outcome passed to `SendFinished`, and the `console.error` of
  a failure is dropped.
- Real time is not modelled. `setTimeout` and `Date.now` become fields
  and an integer `now` input, and a clock event fires a due timer.
- `MusicPlayer.Player.ShuffleNextTrack`: the `Math.random` retry loop is
  modelled by its exit condition (any allowed index), not as a loop. Its
  termination with probability 1 is not modelled.
- `MusicPlayer.Player.PlayTrack`: requires an index inside the playlist.
  The component never calls `playTrack`, so it has no caller to take the
  index from.
- The mirrored `isPlayingRef` is the same field as `isPlaying`. Stale
  closures of the React render model are not modelled: event handlers
  read the current state.
- The Projects section's `useIsMobile` (639 px) only changes styling and
  the image choice, so it is not modelled.
- `Projects.ProjectsScene.constructor`: requires at least one project,
  because the code reads the active project's colour without a guard. The
  zero scroll range of a one-project scene is not modelled either.
- On unmount the typing effect clears its typing timer but not a pending
  1200 ms hold timer. Unmounting is not modelled.
- The Navbar's `menuOpen` flag and the overlay menu are not modelled,
  because they do not affect visibility. The intersection observer's 10%
  threshold is taken as the boolean it reports.
- IntroAnimation, CustomCursor, About, Footer, App and all styling are not
  modelled, because they are presentation only.
