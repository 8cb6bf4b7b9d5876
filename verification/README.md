# sterno: metric building and gauge updates in Dafny

sterno reads a configuration listing metric declarations, registers one
Prometheus gauge per declaration and starts, for each, a goroutine that keeps
setting the gauge to a static value or to a pseudo-random value between two
bounds. This project models the part of `main.go` that has logic in it:

- `Declarations`: the `Config` and `Metric` records, the defaults `main`
  applies (empty namespace becomes `"sterno"`, zero interval becomes one
  second), and the default subsystem `buildMetrics` applies to each
  declaration.
- `Registry`: `buildMetrics` as a fail-fast left fold over the declarations.
  The registry is the sequence of identities `(namespace, subsystem, name)`
  registered into it, in order. The first declaration whose type is not
  `"gauge"` ends the build with an error carrying that type, and no registry.
- `Updater`: one tick of a gauge's goroutine as a pure function from the
  previous value and the outcome of the entropy read to the next value, and
  `Run`, a sequence of ticks.
- `UInt64`: Go's `uint64`, with its wrapping `-` and `+` written out, because
  the random draw `(res % (max - min)) + min` is computed in it.
- `Results`: the `Ok`/`Err` outcome used in place of Go's `(value, error)`.

Go's `%` by zero panics. That panic kills the process. The model does not
forbid `min == max` with a precondition. Instead the tick returns the fault
`DivideByZero`, and `Run` stops there.

Three behaviours of the code are easy to miss. The model keeps the first and the last; the second is where it parts from Go.
- Bounds with `max <= min` are not checked when the build runs. `max == min`
  faults on the first tick that draws. `max < min` wraps around.
- Registration is modelled as appending an identity, and it always succeeds.
  In Go, `MustRegister` (main.go:51) panics when Prometheus rejects a gauge.
  It rejects a gauge whose name is invalid, such as an empty name. It also
  rejects one whose joined name `namespace_subsystem_name` is already
  registered. Two distinct triples can join to the same name. The panic
  ends the process inside `buildMetrics`, before any later declaration is
  looked at. So every result of the model's build, success or error,
  describes Go only when each earlier registration was accepted.
- Only a negative `binary.Uvarint` byte count skips a tick. A count of 0
  ("buffer too small") goes on to draw with the returned `res`.

## Model

| member | source | states |
|---|---|---|
| Declarations.WithDefaultSubsystem | main.go:39-41 | the result's subsystem is never empty; an empty one becomes `"sterno"`, a non-empty one is kept, and name, type and every other field are unchanged |
| Declarations.WithDefaults | main.go:103-109 | the result is normalised (namespace non-empty, interval non-zero); empty namespace becomes `"sterno"`, zero interval becomes one second, other namespaces, intervals, the port and the metric list are kept |
| Declarations.NormalisedIsFixedPoint | main.go:103-109 | a configuration that already has a namespace and a non-zero interval is left exactly as it is |
| Declarations.WithDefaultsIdempotent | main.go:103-109 | applying the configuration defaults twice equals applying them once |
| Declarations.WithDefaultSubsystemIdempotent | main.go:39-41 | applying the subsystem default twice equals applying it once |
| Registry.BuildFrom | main.go:38-80 | from any partial registry, the loop succeeds iff every remaining declaration is a gauge, then extending the registry by exactly one identity per declaration in order; otherwise it fails with the type of the first non-gauge |
| Registry.BuildMetrics | main.go:35-83 | the build succeeds iff every declaration is a gauge; on success the registry has one identity per declaration, in order, each (config namespace, defaulted subsystem, name); on failure the error carries the type of the first non-gauge declaration and there is no registry |
| Registry.BuildFailsAtFirstUnsupported | main.go:43-78 | whenever declaration `i` is the first non-gauge, the build returns exactly the error naming its type, whatever comes after it |
| Registry.BuildFromConcat | main.go:38-82 | building `a + b` is building `a` and, only if that succeeds, continuing through `b` with its registry; a failure in `a` hides all of `b` |
| Registry.Startup | main.go:103-111 | `main`'s build succeeds iff every declaration is a gauge; then each declaration, in order, is registered under (defaulted namespace, defaulted subsystem, name), and every namespace and subsystem is non-empty; otherwise the error names the first non-gauge |
| Registry.DuplicateDeclarationsBothRegistered | main.go:38-51 | two identical gauge declarations both register, under the same identity, and the build succeeds; this is where the model parts from `MustRegister`, which panics |
| UInt64.Sub | main.go:68 | `uint64` subtraction equals the true difference when it is non-negative and wraps by 2^64 otherwise |
| UInt64.Add | main.go:68 | `uint64` addition equals the true sum below 2^64 and wraps by 2^64 otherwise |
| UInt64.AddUndoesSub | main.go:68 | wrapping addition of `b` undoes wrapping subtraction of `b`, whichever operand is larger |
| Updater.Draw | main.go:68 | the draw faults exactly when `min == max`; when `min < max` the value lies in `[min, max)` for every 64-bit `res`, and the unwrapped sum stays below 2^64 |
| Updater.DrawCoversRange | main.go:68 | with `min < max` every value of `[min, max)` is the draw of some `res` |
| Updater.DrawWrapsOnReversedBounds | main.go:68 | with `0 < max < min`, `res = Sub(max, min) - 1` draws `max - 1`, because both the subtraction and the addition wrap |
| Updater.DrawOnReversedBoundsAvoidsGap | main.go:68 | with `max < min` no draw faults, and for every `res` the draw lies outside `[max, min)`: at or above `min`, or wrapped below `max` |
| Updater.EightByteDrawBelowCap | main.go:56-68 | for a `res` below 2^56, the size bound of an 8-byte `Uvarint` decode, every draw with `min != max`, reversed bounds included, succeeds and lies below `min + 2^56` |
| Updater.EightByteDrawsCover | main.go:56-68 | a value `v` of `[min, max)` is the draw of some `res` below 2^56 iff `v - min < 2^56`: a range wider than 2^56 is only partly reachable |
| Updater.EightByteTickBelowCap | main.go:55-70 | for any bounds with `min != max`, a random tick fed by an outcome an 8-byte decode can produce writes a value below `min + 2^56` |
| Updater.Run | main.go:53-74 | the loop of ticks faults only for a random gauge with `min == max`, and only if some tick gets past the entropy checks; its other properties are stated by the run lemmas below |
| Updater.Tick | main.go:55-71 | a static gauge is set to its static value regardless of the previous value; a random gauge keeps its previous value when the read fails or the count is negative; it faults iff it reaches the draw with `min == max`; with `min < max` a drawn value lies in `[min, max)` |
| Updater.StaticRunIsConstant | main.go:53-74 | after any positive number of ticks a static gauge holds its static value |
| Updater.SkippedRunPreserves | main.go:55-66 | a random gauge whose every tick fails the read or decodes a negative count is never written, whatever its bounds |
| Updater.RandomRunStaysInRange | main.go:53-74 | with `min < max` a random gauge never faults; once any tick gets past the entropy checks its value lies in `[min, max)`, and until then it keeps its initial value |
| Updater.RandomRunFromInRange | main.go:53-74 | a random gauge with `min < max` that holds a value of its range keeps one over any number of further ticks |
| Updater.EqualBoundsFault | main.go:62-68 | a random gauge with `min == max` faults at the first tick that gets past the entropy checks |

## Left out

- Reading the configuration file, YAML/JSON parsing and flag parsing (main.go:86-101): input handling and a foreign parser. The model starts from a parsed `Config`.
- The HTTP server and the OpenMetrics exposition (main.go:116-126): network code. The port is carried in `Config`; only the server uses it.
- Prometheus' `Registry` and `MustRegister` (main.go:36, main.go:45-51): library code that is not visible here. Registration is appending an identity. Name validation, duplicate rejection and the `MustRegister` panic are not modelled.
- The goroutine, its infinite loop and `time.Sleep(c.Interval)` (main.go:53-54, main.go:73): concurrency and timing. A single tick is modelled, and `Run` strings ticks together. Goroutines started for earlier gauges before a failing declaration is reached are not modelled either; `main` exits on the error anyway.
- `crypto/rand` and the exact `binary.Uvarint` decoding (main.go:56-62): the entropy outcome is an input. `res` is any `uint64`, so every range result holds for all of them. The predicate `FromEightBytes` states what a real 8-byte decode can produce: a value below 2^56 and a count that is never negative, so the negative-count skip is never taken.
- Updater.DrawCoversRange: coverage is a property of the arithmetic of main.go:68 alone, for an arbitrary `uint64` `res`. With the `res` an 8-byte decode can produce it fails for ranges wider than 2^56; `EightByteDrawsCover` states what is reachable then.
- A skipped tick also skips `time.Sleep` (main.go:59, main.go:65, main.go:73). So an entropy source that keeps failing makes the goroutine spin without pausing. Timing is not modelled.
- The `[min, max)` results hold of the `uint64` draw before `float64(...)` at main.go:68. Above 2^53 the conversion rounds: with `min = 2^63`, `max = 2^63 + 1600` and `res = 1500` the gauge shows `2^63 + 2048`, which is not below `max`.
- The `float64` conversions in `gauge.Set` and the static value as a float (main.go:30, main.go:68, main.go:70): floating point. A random value stays a `uint64`, and the static value is an opaque type parameter.
- Registry.BuildMetrics: the error carries the offending type string rather than the formatted message `Type %q is not supported`, because Go's `%q` quoting is not modelled.
- Eager rejection of `max <= min` at build time and a cancellation signal for the updaters are not modelled. The code has neither.
- Registry.BuildFrom: every result, Ok or Err, assumes each registration before it is accepted by `MustRegister` (main.go:51). In Go an invalid name, or a joined name `namespace_subsystem_name` that is already registered, panics there. That ends the build before a later non-gauge can produce the error of main.go:78. Prometheus' name validation and duplicate test are not modelled.
- Registry.BuildMetrics: the same assumption applies to both directions of its iff. Distinct `(namespace, subsystem, name)` triples are not enough for Go to succeed, because the duplicate test is on the joined name.
- Registry.Startup: the same assumption applies, through `BuildMetrics`, to both its success and its error clauses.
- Registry.BuildFailsAtFirstUnsupported: the error names the first non-gauge only when every gauge before it registers without a panic at main.go:51. With `[gauge "a", gauge "a", counter]` Go panics on the second gauge instead.
- Registry.DuplicateDeclarationsBothRegistered: states the model's behaviour, not Go's. On `[m, m]` Go panics at main.go:51, while the model appends both and succeeds.
- The logging calls are not modelled: `log.Printf` on a skipped tick (main.go:58, main.go:64) and `log.Fatal` on a build error (main.go:113).
