# shrub builder core in Dafny

This project models the builder core of shrub, a Go library that assembles
CI pipeline definitions in memory. It covers three parts:

- **Step records.** `CommandDefinition` is mutated in place by fluent setters,
  an append-only variant filter, and upsert/extend/replace/reset operations on
  its two optional maps, `params` and `vars`.
- **Lookup-or-create acquisition.** `Configuration` acquires named tasks,
  task groups, variants and functions.
- **Sequence building.** `Task` appends validated commands, function calls
  and dependencies in call order.

Layout, one module per source file plus two shared ones:

- `wrappers.dfy`, module `Wrappers`: `Option` (a Go nil map is `None`) and
  `Outcome` (what a validation reports).
- `command.dfy`, module `Commands`: models `command.go`. It holds the
  `CommandDefinition` class and the `Definition` value snapshot that its
  setters are specified against. It also holds the map merge functions
  `Upsert` and `Extend`, and the `Command` abstraction.
- `lookup.dfy`, module `Lookup`: lookup-or-create stated over the sequence of
  identity names of a collection. It defines first match, the acquired names
  and index, idempotence, and keeping names distinct.
- `task.dfy`, module `Tasks`: models `task.go`. It holds the `Task` class and
  the validate-then-append specification `FirstFailure` / `Appended` /
  `CommandOutcome`.
- `config.dfy`, module `Configurations`: models `config.go`. It holds the
  `Configuration` class with its four acquisitions, and identity-only
  `TaskGroup` and `Variant` classes.

Modelling choices:

- **`Command` interface.** `Command` is a datatype. A raw
  `CommandDefinition` used as a command (`Raw`) validates and resolves to
  itself. Any other implementation (`Other`) is described by the outcome its
  `Validate` reports and the record its `Resolve` returns.
- **Panics.** The panic in `Task.Command` becomes a `Fail` outcome. The
  record prefix appended before the failing command stays in place.
- **Durations.** A `time.Duration` is an integer count of nanoseconds. The
  conversion to whole seconds truncates toward zero.
- **Identity fields.** The identity fields (`Task.name`, `TaskGroup.name`,
  `Variant.buildName`) are `const`: no operation renames an entity.

The source snapshot does not compile as it stands, so the model follows its
evident intent:

- the record has one function-name field, although the field `Function`
  clashes with the method `Function` and `task.go` writes a `FunctionName`
  field;
- a task group is identified by `name`, although `config.go` reads `GroupName`;
- `g.Name(name)` and `v.Name(id)` set the identity and return the entity;
- `Variant` is a class with a `buildName`;
- `CommandSequence` is a sequence of record references.

Where the design description and the code differ, the model follows the code:

- a negative duration gives a negative `timeoutSecs`, where the design
  expects a non-negative timeout;
- the concrete command types are stubs, so none of the per-command validation
  or name mapping the design describes exists in the code.

## Model

| member | source | states |
|---|---|---|
| `Commands.WholeSeconds` | command.go:27-30 | a duration in nanoseconds becomes whole seconds truncated toward zero: bounded by the duration from below and above within one second, with the sign kept |
| `Commands.Upsert` | command.go:43-51 | single-key upsert into an optional map, creating it when absent: the key maps to the value, every other existing key keeps its value, no key is lost |
| `Commands.Extend` | command.go:53-64 | merging into an absent map adopts the argument as is (absent stays absent); into a present map the argument's keys win, all old keys are kept, nothing is removed |
| `Commands.UpsertAll` | command.go:59-61 | copying every entry of the argument into the map one key at a time, in any visiting order, yields exactly the merge `Extend` describes |
| `Commands.ExtendTwice` | command.go:53-64 | two successive merges equal one merge of the two arguments' last-writer-wins union |
| `Commands.ExtendIdempotent` | command.go:53-64 | merging the same argument a second time changes nothing |
| `Commands.ExtendParamsLastWriterWins` | command.go:53-64 | on a fresh record, merging `{x:1}` and then `{x:2, y:3}` leaves the parameters exactly `{x:2, y:3}` |
| `Commands.CommandDefinition.constructor` | task.go:28 | a new record is zero-valued: empty strings, no variants, no timeout, both maps absent |
| `Commands.CommandDefinition.Validate` | command.go:21 | a raw record always validates |
| `Commands.CommandDefinition.Resolve` | command.go:22 | a raw record resolves to the same object, not a copy |
| `Commands.CommandDefinition.Function` | command.go:23 | sets only the function name and returns the receiver |
| `Commands.CommandDefinition.Type` | command.go:24 | sets only the execution type and returns the receiver |
| `Commands.CommandDefinition.DisplayName` | command.go:25 | sets only the display name and returns the receiver |
| `Commands.CommandDefinition.Command` | command.go:26 | sets only the built-in command name and returns the receiver |
| `Commands.CommandDefinition.Timeout` | command.go:27-30 | sets only the timeout, to the duration truncated to whole seconds |
| `Commands.CommandDefinition.Variants` | command.go:31-34 | the variant filter becomes the old one followed by the arguments, order and duplicates kept; nothing else changes |
| `Commands.CommandDefinition.ResetVars` | command.go:35 | the variables become absent (not empty); nothing else changes |
| `Commands.CommandDefinition.ResetParams` | command.go:36 | the parameters become absent (not empty); nothing else changes |
| `Commands.CommandDefinition.ReplaceVars` | command.go:37 | the variables become exactly the argument, absent included; nothing else changes |
| `Commands.CommandDefinition.ReplaceParams` | command.go:38-41 | the parameters become exactly the argument, absent included; nothing else changes |
| `Commands.CommandDefinition.Param` | command.go:43-51 | the parameters become present with the upsert of one key; nothing else changes |
| `Commands.CommandDefinition.ExtendParams` | command.go:53-64 | the parameters become the `Extend` merge of the old ones with the argument; nothing else changes |
| `Commands.CommandDefinition.Var` | command.go:66-73 | the variables become present with the upsert of one key; nothing else changes |
| `Commands.CommandDefinition.ExtendVars` | command.go:75-87 | the variables become the `Extend` merge of the old ones with the argument; nothing else changes |
| `Commands.Validate` | command.go:5-8 | a command's validation; a raw record always passes |
| `Commands.Resolve` | command.go:5-8 | a command's resolution; a raw record resolves to itself |
| `Lookup.FirstIndex` | config.go:14-18 | the scan finds a match exactly when the name is present, and then at a position holding the name with no earlier occurrence |
| `Lookup.FirstIndexAt` | config.go:14-18 | a position holding the name with no earlier occurrence is the one the scan returns |
| `Lookup.AcquiredNames` | config.go:13-24 | after acquisition the old names are a prefix, the name is present, and one name was appended exactly when it was missing |
| `Lookup.AcquiredIndex` | config.go:13-24 | the acquired entity sits at the first position holding the name: the first match on a hit, the new last position on a miss |
| `Lookup.AcquireIdempotent` | config.go:13-25 | a second acquisition of the same name changes no names and returns the same position as the first |
| `Lookup.DistinctOccursOnce` | config.go:13-25 | in a collection of distinct names, a present name occurs exactly once |
| `Lookup.AcquirePreservesDistinct` | config.go:13-25 | acquisition keeps names distinct, and afterwards the acquired name occurs exactly once |
| `Tasks.FirstFailure` | task.go:16-21 | finds no failure exactly when every command validates; otherwise finds the first failing command, with all earlier ones passing |
| `Tasks.Appended` | task.go:15-25 | the records appended are the resolutions of a validating prefix, in call order; when it is shorter than the input, the next command failed |
| `Tasks.CommandOutcome` | task.go:16-21 | the call succeeds exactly when every resolution was appended; on failure it reports the error of the first failing command |
| `Tasks.ResolveAllConcat` | task.go:22 | resolving two command lists one after the other gives the concatenation of their resolutions |
| `Tasks.FirstFailureAfterPassing` | task.go:16-21 | after commands that all validate, the first failure is found at the position of the first failure among the commands that follow |
| `Tasks.AppendedSplit` | task.go:15-25 | after a successful call, a second call appends what one call over all the commands would append, and reports the same outcome |
| `Tasks.Task.constructor` | config.go:20-21 | a new task has the given name, zero priority, no dependencies and no commands |
| `Tasks.Task.Command` | task.go:15-25 | appends the resolutions of the validating prefix with no rollback, reports the first failure, and leaves priority and dependencies unchanged |
| `Tasks.Task.AddCommand` | task.go:27-31 | appends one fresh zero-valued record and returns that same object, now the last element |
| `Tasks.Task.Dependency` | task.go:33-36 | the dependencies become the old ones followed by the arguments; the commands are unchanged |
| `Tasks.Task.Function` | task.go:38-46 | appends one distinct fresh record per name, in order, each with only its function name set; earlier commands are unchanged |
| `Tasks.Task.FunctionWithVars` | task.go:48-55 | appends exactly one fresh record with that function name and exactly those variables |
| `Tasks.Task.Priority` | task.go:57 | sets only the priority override |
| `Configurations.WithFunction` | config.go:39-50 | the function table after acquisition: created if absent, the name present, existing entries unchanged, a miss inserts an empty body |
| `Configurations.WithFunctionIdempotent` | config.go:39-50 | acquiring the same function twice leaves the table as the first acquisition did |
| `Configurations.TaskGroup.constructor` | config.go:33-36 | a new group carries the requested name |
| `Configurations.Variant.constructor` | config.go:58-61 | a new variant carries the requested build name |
| `Configurations.Configuration.constructor` | config.go:3-11 | a new configuration has no function table, no entities and empty hooks |
| `Configurations.Configuration.Task` | config.go:13-25 | returns the first task with the name and leaves the collection unchanged on a hit; on a miss appends one fresh zero-valued task at the end; keeps names distinct; no other collection or hook changes |
| `Configurations.Configuration.TaskGroup` | config.go:27-37 | the same hit, miss, append-at-end and distinctness behaviour over the groups |
| `Configurations.Configuration.Function` | config.go:39-50 | the table becomes `WithFunction` of the old one, and the returned body is the table's entry for the name; nothing else changes |
| `Configurations.Configuration.Variant` | config.go:52-62 | the same hit, miss, append-at-end and distinctness behaviour over the variants, keyed by build name |
| `Configurations.AcquireTaskTwice` | config.go:13-25 | acquiring a task name twice returns the same object; the collection grows by at most that one task, and holds it exactly once when names were distinct |

## Left out

- The concrete command types (`CmdExec` through `CmdAttachArtifacts`) are
  stubs whose `Resolve` returns nil and whose `Validate` returns nil. Any such
  command is covered by `Command.Other`. A nil resolution is not modelled:
  every command resolves to a record.
- The `TaskGroup` operations in `groups.go` are no-op stubs. `TaskGroup` keeps
  only its identity, and the group and variant fields named in the design
  (hooks, host limits, expansions, run targets) are not modelled.
- JSON serialization (field names, `omitempty`, nil versus empty slices) is
  done by reflection in a library that is not part of this model. Absence is
  modelled as `None`, not as emitted output.
- Commands.CommandDefinition.Timeout: the conversion goes through
  floating-point `Duration.Seconds()`, which can round very large durations.
  The model truncates the exact integer quotient instead.
- Commands.CommandDefinition.ExtendParams: when the parameters are absent the
  Go code adopts the caller's map by reference, so later upserts also change
  the caller's map. Maps are values here, so only the value semantics is
  stated. The same holds for `ExtendVars`, `ReplaceParams`, `ReplaceVars` and
  `Task.FunctionWithVars`.
- Tasks.Task.Command: a panic does not return. The model returns the receiver
  together with a `Fail` outcome that carries the validation error.
- Configurations.Configuration.Function: the Go function returns a slice
  header, and appending to it does not update the table. Only the returned
  value is modelled.
- Go's 64-bit `int` range is not modelled for the priority or the timeout;
  both are unbounded integers here.
