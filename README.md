# Seat-activity generator

A Dafny model of the mock seat-activity generator of a Copilot-style usage
API mock, and of the small driver that runs it statelessly or statefully.

The generator is built from a seats template `{ seats: [...] }` and a
`SeatsMockConfig` (simulation window, usage pattern, heavy users, editor
pool). Construction throws when the template's `seats` property is absent
or `null`, and otherwise seeds a login → last-activity map by visiting the seats in order.
Each `generateMetrics()` call copies the template and rewrites every copied
seat: `last_activity_editor` becomes a randomly drawn editor, and
`last_activity_at` becomes the seat's stored time plus a pattern-dependent
number of hours (4 for `heavy`; 12 or 24 for `heavy-but-siloed`, depending
on whether the login is a heavy user; 24 for `moderate`; 168 for `light`),
or `false` when that would pass the end date. The map is only ever read
after construction, so timestamps move on only when a new generator is
built from a previous output.

The driver has a fixed `heavy` configuration for 2024. Its stateless entry
point always builds from the fixed template. Its stateful entry point keeps
a module-level cache that starts out `null`, is seeded with the template,
and is replaced by every output.

Files:

- `seat_types.dfy` (module `SeatTypes`): seats, the template document, the
  configuration, and timestamps as integer milliseconds since the epoch. The
  `false` written into a capped seat is the constructor `Capped`. Rebuilding
  a generator from it gives time 0, which is what `new Date(false)` does.
- `seat_generation.dfy` (module `SeatGeneration`): the pure behaviour. It
  has the editor draw, the increment table, the capped advance, the seeded
  map, and the snapshot one call produces. It also holds the stateless and
  stateful chaining lemmas.
- `mock_seats_generator.dfy` (module `MockSeats`): the `MockSeatsGenerator`
  class. The constructor fills the map in a loop. `GenerateMetrics` copies
  the seats into a fresh array and overwrites them in place. Both are
  proved against the functions of `SeatGeneration`. `GenerateMetrics` has
  no `modifies` clause, so the verifier itself checks that it changes
  neither the map nor the template.
- `run_seats_generator.dfy` (module `RunSeats`): the driver's fixed
  configuration and its module state as a `SeatsRunner` object.

Random choices are injected: each seat takes a draw `d`, the value of
`Math.floor(Math.random() * editors.length)`. So `d < |editors|`, or
`d == 0` when the pool is empty. An empty pool gives an `undefined` editor,
modelled as `None`.

The map is never written after construction. A capped seat stores `false`,
so a generator rebuilt from it restarts one increment after the epoch
(`CappedRestartsAtEpoch`).

## Model

| member | source | states |
|---|---|---|
| `SeatGeneration.RandomEditor` | src/mockSeatsGenerator.ts:31-33 | the drawn editor is present exactly when the pool is non-empty, and is then a member of the pool |
| `SeatGeneration.NextActivityIncrement` | src/mockSeatsGenerator.ts:35-48 | the increment is always positive and at most one week (168 hours) |
| `SeatGeneration.IncrementTable` | src/mockSeatsGenerator.ts:38-47 | the increment is 4 for heavy, 12 for heavy users and 24 for others under heavy-but-siloed, 24 for moderate, 168 for light; only the siloed pattern depends on the login |
| `SeatGeneration.HeavyUsersNeverSlower` | src/mockSeatsGenerator.ts:35-48 | a heavy user's increment never exceeds anyone else's, and for every login heavy < moderate < light |
| `SeatGeneration.NextActivity` | src/mockSeatsGenerator.ts:53-65 | the result is a time exactly when current + hours is at most the end date (exactly the end date is allowed); that time is exactly `hours` later, never past the end date, and strictly later for a positive increment; otherwise it is `false` |
| `SeatGeneration.UpdateActivity` | src/mockSeatsGenerator.ts:50-66 | for a login in the map, the result is exactly the stored time plus the pattern's increment in hours, which is strictly later than the stored time and not past the end date, or it is `false` exactly when stored time + increment passes the end date |
| `SeatGeneration.SeedActivities` | src/mockSeatsGenerator.ts:22-28 | the seeded map's keys are exactly the template's logins, so the lookup at line 51 always finds an entry |
| `SeatGeneration.SeedActivitiesLatest` | src/mockSeatsGenerator.ts:23-28 | a seat whose login no later seat repeats has its own time in the map: a repeated login keeps the later seat's value |
| `SeatGeneration.SeedActivitiesAgree` | src/mockSeatsGenerator.ts:23-28 | when seats sharing a login carry the same time, every seat's own time is the map's value for its login |
| `SeatGeneration.SeedActivitiesUnique` | src/mockSeatsGenerator.ts:23-28 | with distinct logins, every seat's own time is the map's value for its login |
| `SeatGeneration.GenerateSeats` | src/mockSeatsGenerator.ts:71-78 | the output has as many seats as the template, in the same order; each differs from its template seat only in editor and activity; every editor comes from the pool (and is present for a non-empty pool); every activity is the capped update of the login's stored time |
| `SeatGeneration.Generate` | src/mockSeatsGenerator.ts:11-81 | construction plus one call fails with the 'seats' error exactly when the template has no seats; otherwise it keeps the template's other properties and its seat count |
| `SeatGeneration.StatelessTimesAgree` | src/__tests__/mockSeatsGenerator.test.ts:52-60 | two calls on one template, or on two generators built from the same template, give identical `last_activity_at` for every seat, whatever editors are drawn |
| `SeatGeneration.SnapshotTimesAgree` | src/mockSeatsGenerator.ts:71-78 | in every output, seats that share a login carry the same activity |
| `SeatGeneration.ChainStep` | src/mockSeatsGenerator.ts:23-28 | a generator built from an output stores, in each seat, the capped advance of that seat's own output value (time 0 for `false`) |
| `SeatGeneration.ChainAdvances` | src/__tests__/mockSeatsGenerator.test.ts:42-50 | every seat with a time in run 1 differs in run 2, and is later by exactly its increment whenever that stays within the end date |
| `SeatGeneration.CappedRestartsAtEpoch` | src/mockSeatsGenerator.ts:25-27 | a seat that run 1 capped to `false` is rebuilt from the epoch, so run 2 stores the capped advance of time 0 |
| `SeatGeneration.ChainAlwaysDiffers` | src/__tests__/mockSeatsGenerator.test.ts:42-50 | with an end date at least a week after the epoch, every seat of run 2 differs from run 1, capped or not |
| `MockSeats.MockSeatsGenerator.constructor` | src/mockSeatsGenerator.ts:11-29 | once the seats check has passed, the object keeps the configuration and template and its map is the one seeded from the seats in order |
| `MockSeats.MockSeatsGenerator.New` | src/mockSeatsGenerator.ts:11-20 | construction fails with the 'seats' error exactly when the template has no seats; otherwise it yields a fresh, valid generator over that template and configuration |
| `MockSeats.MockSeatsGenerator.GenerateMetrics` | src/mockSeatsGenerator.ts:68-81 | the copied-and-updated template is exactly the snapshot `Generate` specifies; map and template are unchanged (no `modifies`) |
| `RunSeats.MockConfigIncrement` | src/runSeatsGenerator.ts:7-19 | under the driver's fixed 'heavy' configuration every login advances by 4 hours |
| `RunSeats.SeatsRunner.constructor` | src/runSeatsGenerator.ts:22-24 | the driver starts with the fixed template and an empty (`null`) cache |
| `RunSeats.SeatsRunner.GenerateStatelessMetrics` | src/runSeatsGenerator.ts:26-29 | the result is always the snapshot of the fixed template, and no state changes |
| `RunSeats.SeatsRunner.GenerateStatefulMetrics` | src/runSeatsGenerator.ts:31-39 | the first call builds from the template; each call builds from the cache and leaves its output in the cache; outputs agree per login; from an agreeing cache every seat advances by exactly 4 hours, or becomes `false` past the end date |
| `RunSeats.HeavyStep` | src/runSeatsGenerator.ts:35-37 | from a template whose equal logins agree, one heavy call advances every seat from its own time by 4 hours, capped at the end date |
| `RunSeats.StatelessCallsAgree` | src/runSeatsGenerator.ts:26-29 | two stateless calls give the same `last_activity_at` for every seat |
| `RunSeats.StatefulCallsAdvance` | src/runSeatsGenerator.ts:31-39 | of two stateful calls, the second moves every timed seat of the first on by exactly 4 hours, or to `false` past the end date |

## Left out

- Date parsing and `date-fns`: ISO strings and `Date` objects are integer milliseconds. `addHours` is the addition of `hours * 3600000`. The finite range of JavaScript dates (Invalid Date) is not modelled.
- A `null` `last_activity_at` in a template (a seat never used) is not modelled. Only times and the `false` written by the generator are represented.
- `Math.random` is replaced by injected draws, one per seat.
- The `console.log` at src/mockSeatsGenerator.ts:55-57 is left out. It compares two `Date` references, which are never equal, so it never fires.
- `JSON.parse(JSON.stringify(...))` is modelled as value copying only. Its serialisation details, such as dropped `undefined` properties, are not modelled.
- Usage patterns are a closed enumeration. The source's fall-through to `undefined` for other strings cannot arise in the model.
- The metric-series generator (`SophisticatedMockGenerator`) and its example driver are out of scope. The type-only declarations file is not modelled either.
- Aliasing of the template is not modelled: the model copies values. The constructor keeps the caller's template object by reference (src/mockSeatsGenerator.ts:13), and `generateStatefulMetrics` returns the very object it keeps as its cache (src/runSeatsGenerator.ts:36-38). If a caller changes either object after construction, for example by adding a seat with a new login, the next `generateMetrics` copies the changed template; the lookup at src/mockSeatsGenerator.ts:51 then misses, `addHours` yields an Invalid Date that the end-date test does not catch, and that value is written into the seat. The model, and the claim that the lookup always finds an entry, assume callers never change these objects.
- The unused `fs`/`path` imports and the console loop driver are not modelled.
- The example seats file that the driver loads is a constructor parameter of `SeatsRunner`.
