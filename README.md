# Stranger Things portfolio: a verified model of its interaction logic

The portfolio is a single-page React site. Almost all of it is markup and
animation. This project models the parts that hold state or compute
values, and proves what they guarantee:

- **GooeyNav**, the animated navigation widget (`gooey_particles.dfy`, `gooey_nav.dfy`):
  - the clamped active index and the effects that re-clamp it;
  - the registry of pending timer ids and its unmount cleanup;
  - the arithmetic of a particle burst: jitter, lifetimes, rotation, spawn delays and the glow-off time;
  - the highlight-box formula, including the compensation for the widget's scale;
  - the activation sequence.
- **Navbar** (`navbar.dfy`):
  - the width breakpoints and the grid and scale table;
  - building a label and a link from each section slug;
  - the menu flag, the scroll flag, and the properties the bar hands to GooeyNav.
- **TypewriterTerminal** (`typewriter.dfy`): the effect that clears the terminal
  and schedules one line every 600 ms, the firing of those timers, and the
  cleanup that cancels them.
- **App** (`app.dfy`): the two-value theme toggle, the one-way loader flag,
  the theme-dependent snowfall settings, the body-overflow rule and the
  order of the page sections.

Inputs from the environment are parameters:

- Each `Math.random()` draw is a real `r` with `0 <= r < 1`, six per particle, in the order the code draws them.
- Element rectangles are `Rect` values.
- Timer ids come from a counter.

The browser's timer table of GooeyNav is a sequence of `Timer`s. The
environment fires any pending one with `Widget.Fire(id)`. The terminal's
timers fire in delay order, which for them is registration order.

One might expect GooeyNav's activation to clamp the index and to cancel the earlier burst. The code does neither, and it handles a change in the number of items in an unexpected way; the model follows the code:

- `activateItem` sets the index it is given without clamping it (`GooeyNav.jsx:357`).
- Activation does not cancel the timers of an earlier burst; only the unmount cleanup cancels (`GooeyNav.jsx:239-245`, `355-368`).
- When the number of items changes, the effect at `GooeyNav.jsx:247-249` re-clamps the current index. The effect at `GooeyNav.jsx:251-253` then runs on the same change and overrides it. The net effect is that a change of length resets the index to the clamped initial index.

## Model

| member | source | states |
|---|---|---|
| GooeyNav.ClampIndex | src/components/ui/GooeyNav.jsx:203-206 | 0 when max <= 0; otherwise a value in [0, max-1]; the value itself when already in range; 0 below the range and max-1 above it |
| GooeyNav.ClampScenario | src/components/ui/GooeyNav.jsx:228 | three items with initial index 5 clamp to index 2 |
| GooeyNav.ClampIdempotent | src/components/ui/GooeyNav.jsx:247-249 | re-clamping an already clamped index changes nothing |
| GooeyNav.MountScenario | src/components/ui/GooeyNav.jsx:228 | mounting items A, B and C with initialActiveIndex 5 makes index 2 active |
| GooeyNav.Widget.constructor | src/components/ui/GooeyNav.jsx:224-228 | the initial index is clamped to the item count; no timers, particles or box yet |
| GooeyNav.Widget.Rerender | src/components/ui/GooeyNav.jsx:247-253 | when the item count or the initial index changes, the index becomes clamp(initial, count), otherwise it is kept; an index in range stays in range |
| GooeyNav.Widget.RegisterTimeout | src/components/ui/GooeyNav.jsx:230-237 | appends a timer with a fresh id to the table and the same id to the registry, and returns the id; the registry stays equal to the table's ids, duplicate-free |
| GooeyNav.WithoutOne | src/components/ui/GooeyNav.jsx:233 | filtering a registered id out removes exactly that id; the ids before and after it stay, in order |
| GooeyNav.Widget.Retire | src/components/ui/GooeyNav.jsx:233 | the timer leaves the table and its id leaves the registry; the registry still equals the table's ids |
| GooeyNav.Widget.Fire | src/components/ui/GooeyNav.jsx:230-237 | a pending id fires once: a spawn appends its node, lights the glow and registers its removal at the particle's lifetime, taking one fresh node number and one fresh timer id; a removal drops exactly that node; glow-off turns the glow off; then exactly that id leaves the registry; an id already gone changes nothing, counters included |
| GooeyNav.Cancel | src/components/ui/GooeyNav.jsx:230-241 | a timer leaving the browser's table: exactly the timers of other ids remain |
| GooeyNav.RemoveNode | src/components/ui/GooeyNav.jsx:322 | `particle.remove()`: exactly the particle nodes with other numbers remain |
| GooeyNav.Widget.SpawnParticle | src/components/ui/GooeyNav.jsx:300-325 | appends the particle node with a fresh node number, sets the glow, and registers its removal after the particle's lifetime |
| GooeyNav.Widget.Unmount | src/components/ui/GooeyNav.jsx:239-245 | every pending timer is cleared, the registry is empty, then the particle nodes are removed |
| GooeyNav.Widget.ClearParticles | src/components/ui/GooeyNav.jsx:281-286 | removes every particle node when the highlight element exists, otherwise nothing |
| GooeyParticles.Scaled | src/components/ui/GooeyNav.jsx:263 | r*n lies in [0, n] for n >= 0, and below n for n > 0 |
| GooeyParticles.Noise | src/components/ui/GooeyNav.jsx:263 | noise(n) lies in (-n/2, n/2] for n > 0 and is 0 for n = 0 |
| GooeyParticles.Lifetime | src/components/ui/GooeyNav.jsx:297 | a particle lifetime lies in (2A - V, 2A + V] |
| GooeyParticles.Rotation | src/components/ui/GooeyNav.jsx:271-277 | for radius >= 0 the rotation is positive exactly when its jitter is; positive rotations lie in (radius/2, radius], the others in [-radius, -radius/2] |
| GooeyParticles.SlotPoint | src/components/ui/GooeyNav.jsx:265-268 | the point keeps its distance; its angle is within 4 degrees per turn of the even share pointIndex/totalPoints of 360 |
| GooeyParticles.CreateParticle | src/components/ui/GooeyNav.jsx:270-279 | keeps t as its time; starts at the near distance; ends within 3.5 of the far distance; scale in (0.9, 1.1]; rotation sign as its jitter; both angles in slot particleCount - i |
| GooeyParticles.BubbleTime | src/components/ui/GooeyNav.jsx:292 | with a non-negative variance no particle lifetime exceeds the bubble time |
| GooeyParticles.SpawnTimer | src/components/ui/GooeyNav.jsx:296-325 | the spawn timer of particle i has id firstId + i, a delay of at least 30 ms, and spawns a particle that starts at the near distance and lives no longer than the bubble time |
| GooeyParticles.SpawnTimers | src/components/ui/GooeyNav.jsx:296-325 | one spawn timer for each of the first n particles |
| GooeyParticles.GlowOffTimer | src/components/ui/GooeyNav.jsx:327-329 | the glow-off timer fires at least 120 ms after the longest possible particle lifetime |
| GooeyParticles.Burst | src/components/ui/GooeyNav.jsx:288-330 | one burst is particleCount + 1 timers with consecutive ids from firstId: spawns, then a glow-off last |
| GooeyParticles.BurstShape | src/components/ui/GooeyNav.jsx:292-329 | one burst is particleCount spawn timers, particle i at delay 30 + 12i with consecutive ids, then one glow-off timer at 2A + V + 120 |
| GooeyParticles.BurstSpawnOrder | src/components/ui/GooeyNav.jsx:296-300 | spawn delays strictly increase with the particle index |
| GooeyParticles.BurstLifetimes | src/components/ui/GooeyNav.jsx:297-298 | every spawn timer of a burst carries a particle whose lifetime lies in the variance band and which starts at the near distance |
| GooeyParticles.SpawnTimersAt | src/components/ui/GooeyNav.jsx:296-325 | the spawn timers of a burst are the spawn timers of particles 0 .. n-1 in index order |
| GooeyNav.Widget.ScheduleSpawn | src/components/ui/GooeyNav.jsx:296-325 | one turn of the loop registers exactly the spawn timer of particle i under the next id |
| GooeyNav.Widget.ScheduleSpawns | src/components/ui/GooeyNav.jsx:296-325 | the loop registers exactly the burst's spawn timers, in order, with the next particleCount ids |
| GooeyNav.Widget.MakeParticles | src/components/ui/GooeyNav.jsx:288-330 | sets the bubble time, turns the glow off, and appends exactly the burst's timers to the table and their ids to the registry |
| GooeyNav.ScaleFactor | src/components/ui/GooeyNav.jsx:339 | the divisor is never 0: the scale itself, or 1 when the scale is 0 |
| GooeyNav.EffectBox | src/components/ui/GooeyNav.jsx:332-353 | a box exists exactly when container, highlight element and item element all exist; box times scale factor equals offset from the container and item size |
| GooeyNav.EffectBoxScenario | src/components/ui/GooeyNav.jsx:339-343 | an item 200 wide gives a box 100 wide at scale 2 and 200 wide at scale 0 |
| GooeyNav.Widget.UpdateEffectPosition | src/components/ui/GooeyNav.jsx:332-353 | writes the box when every part exists and leaves the old box otherwise |
| GooeyNav.Widget.ActivateItem | src/components/ui/GooeyNav.jsx:355-368 | without an element nothing changes; otherwise the index is set, the box moved and onSelect recorded only when the item has one; with the highlight element the particles are cleared, the glow is off, the bubble time set, and a new burst takes the next particleCount + 1 ids behind the pending timers (none cancelled); without it particles, timers, glow and bubble time stay |
| GooeyNav.ActivateTwiceScenario | src/components/ui/GooeyNav.jsx:355-368 | activating item 1 twice runs its onSelect twice and leaves both bursts, 2(particleCount + 1) timers, pending |
| GooeyNav.Widget.SyncEffectPosition | src/components/ui/GooeyNav.jsx:377-384 | with the list and container mounted and an element at the active index, the box is placed over that element; otherwise it stays |
| Navbar.Classify | src/components/layout/Navbar.jsx:53-55 | the breakpoint is mobile, tablet or desktop exactly when the width is below 1100, in [1100, 1280), or at least 1280 |
| Navbar.ExactlyOneBreakpoint | src/components/layout/Navbar.jsx:53-55 | every width is in exactly one of the three ranges |
| Navbar.GetGridConfig | src/components/layout/Navbar.jsx:91-117 | navScale is 0.88 exactly on tablets and 1 otherwise; the side columns are 85, 110 or 150 px |
| Navbar.NavScaleUsedAsIs | src/components/layout/Navbar.jsx:202 | the scale passed to GooeyNav is never 0, so the highlight divides by it and not by the fallback |
| Navbar.Split | src/components/layout/Navbar.jsx:61 | at least one piece, none containing the separator |
| Navbar.JoinSplit | src/components/layout/Navbar.jsx:60-63 | joining the pieces of a split with the same separator gives the string back |
| Navbar.SplitJoin | src/components/layout/Navbar.jsx:60-63 | splitting a join of separator-free pieces gives the pieces back |
| Navbar.Capitalize | src/components/layout/Navbar.jsx:62 | same length; first character upper-cased, the rest unchanged |
| Navbar.Label | src/components/layout/Navbar.jsx:60-63 | a label is as long as its slug |
| Navbar.LabelOfWord | src/components/layout/Navbar.jsx:60-63 | a slug without a dash is labelled by capitalizing it, e.g. certifications |
| Navbar.LabelWords | src/components/layout/Navbar.jsx:60-63 | the words of a label are the capitalized dash-separated segments of its slug |
| Navbar.LabelRoundTrip | src/components/layout/Navbar.jsx:60-63 | a slug of lower-case letters and dashes is recovered from its label |
| Navbar.LabelInjective | src/components/layout/Navbar.jsx:60-63 | distinct slugs get distinct labels |
| Navbar.MakeItem | src/components/layout/Navbar.jsx:64-71 | the entry scrolls to its slug and links to '#' + slug; its label is as long as the slug and gives the slug back |
| Navbar.NavItems | src/components/layout/Navbar.jsx:57-74 | one entry per slug, in the same order, each built from its slug |
| Navbar.NavItemsFaithful | src/components/layout/Navbar.jsx:59-71 | each entry links to '#' + slug, scrolls to that slug, and has a label as long as the slug; distinct slugs give distinct labels |
| Navbar.NavLinksAreSlugs | src/components/layout/Navbar.jsx:8-16 | the seven section names are slugs and pairwise distinct |
| Navbar.NavLabelsDistinct | src/components/layout/Navbar.jsx:241-243 | the bar's seven labels are distinct, as the key of each menu button needs |
| Navbar.NavbarBurst | src/components/layout/Navbar.jsx:187-203 | with the bar's properties a burst is 15 timers: spawns at 30 to 186 ms, lifetimes in [920, 1480] ms, glow-off at 1600 ms |
| Navbar.ScrolledMonotone | src/components/layout/Navbar.jsx:26 | scrolling further down keeps the bar compact; exactly 24 px is not yet past the threshold |
| Navbar.Bar.constructor | src/components/layout/Navbar.jsx:19-23 | the bar starts unscrolled with the menu closed, at the window's width, with no scroll requested |
| Navbar.Bar.OnScroll | src/components/layout/Navbar.jsx:26 | the flag is set exactly when scrollY > 24 |
| Navbar.Bar.OverlayVisible | src/components/layout/Navbar.jsx:221 | the overlay shows exactly when the menu is open at a mobile breakpoint |
| Navbar.Bar.GooeyVisible | src/components/layout/Navbar.jsx:177-187 | GooeyNav shows exactly at the tablet and desktop breakpoints |
| Navbar.Bar.OnResize | src/components/layout/Navbar.jsx:32-34 | the width follows the window |
| Navbar.Bar.ToggleMenu | src/components/layout/Navbar.jsx:49 | negates menuOpen |
| Navbar.Bar.CloseMenu | src/components/layout/Navbar.jsx:48 | menuOpen becomes false |
| Navbar.Bar.Select | src/components/layout/Navbar.jsx:67-70 | the item's section is requested for scrolling, then the menu is closed and the overlay hidden |
| Navbar.OverlayExcludesGooey | src/components/layout/Navbar.jsx:177-221 | the overlay shows only when the menu is open on a mobile width, GooeyNav only on non-mobile widths, never both |
| Typewriter.RevealDelay | src/components/ui/TypewriterTerminal.jsx:14 | line idx is due after a whole idx times 600 ms; only the first line is due at once |
| Typewriter.Schedule | src/components/ui/TypewriterTerminal.jsx:11-16 | one timer per line |
| Typewriter.ScheduleAt | src/components/ui/TypewriterTerminal.jsx:11-16 | timer idx carries line idx, delay idx * 600 and the idx-th registered id |
| Typewriter.ScheduleOrdered | src/components/ui/TypewriterTerminal.jsx:14 | the delays strictly increase, so lines are revealed in order |
| Typewriter.ScheduleCarries | src/components/ui/TypewriterTerminal.jsx:11-16 | the pending timers of a fresh effect carry every line, in order, at its delay, each with a recorded id |
| Typewriter.CarriesTail | src/components/ui/TypewriterTerminal.jsx:12-14 | after the earliest timer fires, the remaining timers carry the lines from one further on |
| Typewriter.CancelId | src/components/ui/TypewriterTerminal.jsx:19 | clearTimeout removes exactly the timers of that id |
| Typewriter.Terminal.constructor | src/components/ui/TypewriterTerminal.jsx:5-16 | mounting shows nothing and schedules every line |
| Typewriter.Terminal.RunEffect | src/components/ui/TypewriterTerminal.jsx:7-17 | the display is emptied before any timer is scheduled; the pending timers are exactly the schedule of the lines and their ids are recorded |
| Typewriter.Terminal.ScheduleLine | src/components/ui/TypewriterTerminal.jsx:12-15 | one turn of the loop extends the schedule by the timer of line idx and records its id |
| Typewriter.Terminal.Fire | src/components/ui/TypewriterTerminal.jsx:12-14 | the earliest timer appends exactly its own line and nothing else changes; displayed stays a prefix of lines and is all of lines once nothing is pending |
| Typewriter.Terminal.RunToEnd | src/components/ui/TypewriterTerminal.jsx:11-14 | once every timer has fired, displayed equals lines |
| Typewriter.Terminal.Cleanup | src/components/ui/TypewriterTerminal.jsx:18-20 | cancelling every recorded id leaves no timer pending |
| Typewriter.Terminal.SetLines | src/components/ui/TypewriterTerminal.jsx:7-21 | new lines cancel the old timers, empty the display and schedule the new lines |
| Typewriter.Terminal.Unmount | src/components/ui/TypewriterTerminal.jsx:18-20 | unmounting leaves no timer pending and the display as it was |
| App.Toggled | src/App.jsx:43-44 | the result is always one of the two themes, and it is upside-down exactly when the previous theme was normal |
| App.ToggleTwice | src/App.jsx:43-44 | toggling twice from either theme returns it |
| App.ToggleParity | src/App.jsx:43-44 | from normal, n clicks give normal for even n and upside-down for odd n |
| App.SnowfallConfig | src/App.jsx:50-62 | 150 particles at speed 1 in both themes; wind 0.8 exactly in upside-down, 1 otherwise; the theme's glow colour |
| App.BodyOverflow | src/App.jsx:37 | overflow is hidden exactly while the loader shows and empty otherwise |
| App.SectionsMatchNavigation | src/App.jsx:19-30 | the seven section keys, in page order, are the navigation slugs |
| App.Page.constructor | src/App.jsx:16-17 | the page starts in the normal theme with the loader shown and scrolling locked |
| App.Page.Overflow | src/App.jsx:37 | the overflow the effect writes is hidden exactly while the loader shows |
| App.Page.ToggleTheme | src/App.jsx:43-44 | the theme becomes the toggle of the previous theme |
| App.Page.FinishLoader | src/App.jsx:70 | the loader is hidden and scrolling unlocked |

## Left out

- The CSS style block, the JSX markup, the Tailwind classes and the framer-motion props. They are presentation only.
- DOM work. Particle nodes are descriptors with a node number. Bounding rectangles are inputs.
- The requestAnimationFrame of a spawn callback (`GooeyNav.jsx:317-319`): the glow is set directly in `SpawnParticle`.
- The cosine and sine in `getXY`: the model keeps particle positions in polar form (distance and angle in degrees), because floating-point trigonometry is not modelled.
- GooeyParticles.SlotPoint: states angle bounds in degrees only, not the pixel offsets they turn into.
- Real timer timing and concurrency. GooeyNav timers fire in an order the environment chooses. Terminal timers fire in delay order.
- ResizeObserver, the window resize fallback, and the scroll and resize listeners of the bar. These are event plumbing. `SyncEffectPosition`, `OnScroll` and `OnResize` are the triggers they would call.
- The early `return null` of an empty item list (`GooeyNav.jsx:410-412`). With no items nothing renders, so no element can be activated and `filterRef` stays unattached. The model does not tie the two: it lets a widget with no items have `hasFilter` set.
- Whether `filterRef` is still attached when the unmount cleanup runs. The model takes `hasFilter` as fixed for the widget's lifetime.
- GooeyNav's visual properties: colours, class name and the individual style strings. Its burst properties are fixed for a widget's lifetime.
- Theme changes remount GooeyNav (via its `key`). The model has no remount, only a fresh `Widget` in place of the old one.
- `scrollToId` (`src/utils/scroll`) is not part of this model. A selection appends the slug to `scrollRequests`.
- The bar's body-overflow effect for the open menu (`Navbar.jsx:39-46`), its accent colours, header padding and shadow.
- Navbar.Upper and Navbar.Lower: map ASCII letters only. `toUpperCase` handles all of Unicode, but every slug here is ASCII.
- Navbar.GetGridConfig: states navScale and the column template only. Its gap, padding and font size are given in its body but not restated in its contract.
- The `dataset.theme` write (`App.jsx:33-35`) and the cleanup of the overflow effect, which are DOM writes. The overflow value itself is `App.BodyOverflow`.
- ThemeToggle, the section components, the loader, the footer and the snowfall background. Only the properties App hands them are modelled.
- PropTypes declarations.
- React's comparison of `lines` by reference. `SetLines` stands for every render whose `lines` is a new array.
