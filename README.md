# hello_cargo: default lookups and the `ResponseTime` middleware

This project models the two pieces of logic in the `hello_cargo` crate's
`src/lib.rs`.

- **Default-value lookups.** `get_or_default`, `get_or_default2` and
  `get_or_default3` each return the element of a vector at an index when the
  index is in bounds, and a default otherwise. `get_or_default` and
  `get_or_default2` borrow the vector; `get_or_default3` takes it by value.
  `Option::unwrap_or` gives the carried value or the default. Module `Lookup`
  (`lookup.dfy`) and module `RustOption` (`option.dfy`) hold these. A vector is
  a `seq<int>`, which is a value, so no lookup can change it. `Vec::get` is
  `Lookup.Get`. It is checked against `Lookup.Nth`, an independent definition
  that walks the vector from its head.
- **Request timing.** The `ResponseTime` middleware has two hooks. Its
  before-hook stores a `u64` nanosecond clock reading in the request's type map
  under its own key. Its after-hook reads the reading back, subtracts it from a
  fresh reading, logs the difference and returns the response unchanged. Module
  `ResponseTime` (`response_time.dfy`) models the request as a class whose
  `extensions` field is a `map` the before-hook reassigns. The clock reading is
  a parameter of each hook. The response is a value of an arbitrary type that
  must come back as it went in. The after-hook has two panics: `unwrap` on a
  missing entry, and `u64` underflow in a debug build. Both are its
  preconditions. `Chained` runs one request through both hooks. `Interleaved`
  runs two requests' hooks interleaved and shows that each after-hook reads only
  its own request's stamp.

## Model

| member | source | states |
|---|---|---|
| `RustOption.Option.UnwrapOr` | src/lib.rs:52-55 | for every value and default, `Some(x).unwrap_or(d) == x` and `None.unwrap_or(d) == d`, the laws asserted here and again at src/lib.rs:94-97 |
| `RustOption.UnwrapOrExamples` | src/lib.rs:52-55 | the four concrete `unwrap_or` assertions of the test hold (`"car"`, `1`, `"bike"`, `-1`) |
| `Lookup.Get` | src/lib.rs:107 | `Vec::get` (also used at src/lib.rs:77, 89, 115, 123) yields `Some` exactly when the index is in bounds, and then the element at that index |
| `Lookup.GetAgreesWithNth` | src/lib.rs:107 | bounds-checked indexing agrees with a head-first walk of `i` steps on every vector and index, `None` past the end; the walk is a reference definition, not something the crate does, so this lemma is about the sequence model of `Vec::get` more than about the program |
| `Lookup.GetOrDefault` | src/lib.rs:106-112 | in bounds the result is `v[i]`; out of bounds it is the default, with no panic |
| `Lookup.GetOrDefault2` | src/lib.rs:114-119 | the `match` form agrees with the `if let` form on every vector, index and default |
| `Lookup.GetOrDefault3` | src/lib.rs:121-124 | the result is `v[100]` when the vector has more than 100 elements, else `-1`; it equals `get_or_default(v, 100, -1)` |
| `Lookup.DefaultReachesResultIffOutOfBounds` | src/lib.rs:106-112 | every default is returned unchanged iff the index is out of bounds; the result is independent of the default iff the index is in bounds |
| `Lookup.DemoLookups` | src/lib.rs:75-89 | on `[1,2,3]`: index 100 is absent, index 1 gives `2`, index 100 gives `-1`; on the six-element vector `get_or_default3` gives `-1` |
| `ResponseTime.Stamp` | src/lib.rs:24 | inserting the reading puts it under the middleware's key, adds no other key and leaves every other entry unchanged |
| `ResponseTime.StampTwice` | src/lib.rs:24 | a second insertion replaces the first reading |
| `ResponseTime.StampMakesFinishable` | src/lib.rs:24-31 | after a stamp at `start`, the after-hook's preconditions hold at `now` iff `start <= now` |
| `ResponseTime.Before` | src/lib.rs:22-27 | the request's extensions become the old extensions with the reading inserted under the middleware's key; nothing else changes |
| `ResponseTime.After` | src/lib.rs:29-35 | needs the stamp present and not later than `now`; the delta plus the stamp is `now`, so the delta is a non-negative `u64` no larger than `now`; the response is returned unchanged and the request is not modified |
| `ResponseTime.Chained` | src/lib.rs:42-44 | before-hook at `start`, handler, after-hook at `finish`: the logged delta is `finish - start` and the handler's response comes back unchanged |
| `ResponseTime.Interleaved` | src/lib.rs:22-35 | with two distinct requests whose hooks interleave, each delta is computed from that request's own stamp |

## Left out

- `start_server` and the Iron `Chain` / HTTP listener (src/lib.rs:41-46) are network and framework plumbing. `Chained` models only the before-handler-after order that the chain sets up.
- `hello_world` (src/lib.rs:37-39) is not modelled. Its response is one instance of the arbitrary response type.
- `precise_time_ns` is a real clock. Each hook takes the reading as a parameter, and the monotonic clock is the `start <= finish` precondition of `Chained` and `Interleaved`.
- The `f64` conversion to milliseconds and the `info!` log lines (src/lib.rs:32 and src/lib.rs:122) are floating point and logging output and are not modelled. `After` returns the nanosecond delta it would log.
- `ResponseTime.After`: release builds wrap `u64` subtraction instead of panicking. The model follows debug builds and requires `start <= now`.
- `IronResult` is always `Ok` in both hooks, so `Before` returns nothing and `After` returns the response directly.
- The type map holds values of a different type for each key. The model gives every entry a `u64` value, because only the middleware's own entry is read.
- `Vec<i32>` is `seq<int>` and `usize` indices are `nat`. No lookup does arithmetic, so the widths do not matter. A `seq` is a value, so the difference between borrowing the vector and taking it by value (`get_or_default3`) is not modelled.
- `demo` (src/lib.rs:66-104): logger setup, the `OsString` comparison, logging and the loopback-address checks are left out. Only its lookups and `unwrap_or` assertions are modelled.
- `do_something` (src/lib.rs:126-128) only logs. The `another` test (src/lib.rs:58-62) only panics.
- `src/main.rs` holds logger setup, calls to `run_fib` and `start_server`. `run_fib` is not part of this model.
