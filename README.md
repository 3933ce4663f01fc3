# Verified model of the meteo GraphQL API core

This project models the two parts of the repository that hold original logic, and proves what they promise.

1. **The non-empty hourly observation fields** (`getNonEmptyObservationHoraireFields`).
   - It takes a batch of fetched hourly observation records.
   - It keeps the fields of the first record that are non-`null` in at least one record.
   - It attaches each field's schema description, with `null` when that description is missing or empty.
   - It sorts the data fields by name and puts each quality flag (`q` + name) right behind the data field it qualifies.
   - Quality flags without such a field go last, sorted.
2. **The default `take` guard** (`applyDefaultTake`), which the Prisma client extension runs before every `findMany`, `findUnique` and `findFirst`.
   - A query-argument object whose `take` key is present but falsy gets the configured default.
   - So does every object-valued entry of `include` and of `select`, whether or not it had a `take` key.
   - The default is `DEFAULT_PRISMA_TAKE` converted to a number, or 10 when that conversion is falsy.

Modules:

- `Optional` (`optional.dfy`): the `Option` type that stands for a JavaScript value which may be `null`.
- `StringOrder` (`string_order.dfy`): the ordinal order on names that stands for `localeCompare`. It is proved to be a strict total order.
- `ObservationFields` (`observation_fields.dfy`): the field ranking.
  - Steps 2–4 of the source (filter, describe) are pure functions.
  - The two `forEach` loops of step 5 are methods with loop invariants. `PartitionFields` builds `regularFields` and the `qualityIndicators` map. `MergeQualityFlags` builds `sortedFields`.
  - Each loop method is proved against a specification function (`Regulars`, `Qualities`, `ValuesInOrder`, `Interleave`).
  - Separate lemmas prove that the assembled result is a permutation of the described fields in the promised arrangement (`WellArranged`).
  - That arrangement is unique (`ArrangementUnique`), so the result is determined by the set of descriptors it arranges.
  - A JavaScript `Map` is a Dafny `map` plus the sequence of its keys in insertion order. `[...map.values()]` is `ValuesInOrder`.
- `DefaultTake` (`default_take.dfy`): the guard.
  - A query-argument object is a `QueryArgs` class whose `take` field the guard rewrites in place.
  - Its `include` and `select` keys are the fields `includes` and `selects`, because `include` is a Dafny keyword.
  - Relation entries are nested `QueryArgs` nodes or non-object entries the guard skips (`Flag`). The frame `modifies args`take, Children(args)`take` says that nothing but `take` slots changes.
  - The same node may be reached several times, and `args` may even sit among its own relations. The contract covers these cases; it does not exclude them.

Four behaviours of the code are easy to misread:

- The guard gives a relation node a `take` even when the node has no `take` key (src/lib/prisma.ts:19-20). Only the top level checks that the key is present.
- A truthy `take` is any number other than 0, negative numbers included, and is never overwritten.
- A record property that is missing reads as `undefined`, which is `!== null`. So a field of the first record counts as non-empty when a later record lacks it.
- Only the first record's keys are candidates.

## Model

| member | source | states |
|---|---|---|
| `StringOrder.BeforeIrreflexive` | src/graphql/resolvers/getNonEmptyObservationHoraireFields.ts:50 | no name sorts before itself |
| `StringOrder.BeforeAsymmetric` | src/graphql/resolvers/getNonEmptyObservationHoraireFields.ts:50 | if `a` sorts before `b`, then `b` does not sort before `a` |
| `StringOrder.BeforeTransitive` | src/graphql/resolvers/getNonEmptyObservationHoraireFields.ts:50 | the comparator order is transitive |
| `StringOrder.BeforeConnected` | src/graphql/resolvers/getNonEmptyObservationHoraireFields.ts:50 | two distinct names are always ordered one way or the other, so the sorted order is unique |
| `ObservationFields.KeepNonEmpty` | src/graphql/resolvers/getNonEmptyObservationHoraireFields.ts:22-24 | a name is kept iff it is a key and some record has a non-`null` value under it; no more names than keys; distinct keys give distinct kept names |
| `ObservationFields.Description` | src/graphql/resolvers/getNonEmptyObservationHoraireFields.ts:33 | a description that is given is the schema entry for that name and is non-empty; `null` is given only when the name has no schema entry, or its entry is `null` or the empty string |
| `ObservationFields.Describe` | src/graphql/resolvers/getNonEmptyObservationHoraireFields.ts:32-35 | one descriptor per name, in order. Its description is the schema's when that is present and non-empty, otherwise `null` |
| `ObservationFields.InsertAscending` | src/graphql/resolvers/getNonEmptyObservationHoraireFields.ts:50 | inserting a new name into an ascending list adds exactly that element and keeps the list strictly ascending |
| `ObservationFields.SortByFieldSorts` | src/graphql/resolvers/getNonEmptyObservationHoraireFields.ts:50 | sorting by name is a permutation and yields a strictly ascending list |
| `ObservationFields.Regulars` | src/graphql/resolvers/getNonEmptyObservationHoraireFields.ts:41-47 | holds exactly the elements whose name does not start with `q` |
| `ObservationFields.Qualities` | src/graphql/resolvers/getNonEmptyObservationHoraireFields.ts:41-47 | holds exactly the elements whose name starts with `q` |
| `ObservationFields.FiltersDistinct` | src/graphql/resolvers/getNonEmptyObservationHoraireFields.ts:41-47 | splitting a list with distinct names gives two lists with distinct names |
| `ObservationFields.ValuesInOrderAppend` | src/graphql/resolvers/getNonEmptyObservationHoraireFields.ts:43 | `Map.set` of a new key appends its value at the end of `values()` |
| `ObservationFields.ValuesInOrderUnchanged` | src/graphql/resolvers/getNonEmptyObservationHoraireFields.ts:43 | setting a key not yet listed leaves the values of the listed keys as they were |
| `ObservationFields.IndexRegularStep` | src/graphql/resolvers/getNonEmptyObservationHoraireFields.ts:44-45 | a data field leaves the quality map and its values order as they are |
| `ObservationFields.IndexQualityStep` | src/graphql/resolvers/getNonEmptyObservationHoraireFields.ts:42-43 | a new quality flag goes in under its name minus the `q`, that key is new, and the map's values stay the flags seen so far, in order |
| `ObservationFields.PartitionFields` | src/graphql/resolvers/getNonEmptyObservationHoraireFields.ts:38-47 | `regularFields` is the data fields in input order; the map sends each stripped flag name to its flag, and `values()` lists the flags in input order |
| `ObservationFields.Unemitted` | src/graphql/resolvers/getNonEmptyObservationHoraireFields.ts:63-65 | keeps exactly the values whose name the emitted list does not contain |
| `ObservationFields.UnemittedDistinct` | src/graphql/resolvers/getNonEmptyObservationHoraireFields.ts:63-65 | the filter keeps names distinct |
| `ObservationFields.InterleaveMembers` | src/graphql/resolvers/getNonEmptyObservationHoraireFields.ts:53-60 | the merged list holds every data field and the flag found for it, and nothing else |
| `ObservationFields.InterleaveAdjacent` | src/graphql/resolvers/getNonEmptyObservationHoraireFields.ts:54-59 | in the merged list, a data field with an entry in the map is immediately followed by that entry |
| `ObservationFields.InterleaveAscending` | src/graphql/resolvers/getNonEmptyObservationHoraireFields.ts:50-60 | the data fields of the merged list stay in strictly ascending order |
| `ObservationFields.InterleaveDistinct` | src/graphql/resolvers/getNonEmptyObservationHoraireFields.ts:53-60 | no name occurs twice in the merged list |
| `ObservationFields.EmitApart` | src/graphql/resolvers/getNonEmptyObservationHoraireFields.ts:55-58 | what one data field emits has no repeated name and no name emitted before it |
| `ObservationFields.InterleaveIsInterleaving` | src/graphql/resolvers/getNonEmptyObservationHoraireFields.ts:53-60 | the merged list satisfies all of the above together (`InterleavingOf`) |
| `ObservationFields.MergeQualityFlags` | src/graphql/resolvers/getNonEmptyObservationHoraireFields.ts:53-60 | the `regularFields.forEach` loop builds a list satisfying `InterleavingOf` for the sorted data fields and the map |
| `ObservationFields.SortedParts` | src/graphql/resolvers/getNonEmptyObservationHoraireFields.ts:41-50 | after partition and sort, the data fields are a strictly ascending permutation with no `q` name; map entries are named `q` + key; the map's values have distinct names |
| `ObservationFields.StepsAssemble` | src/graphql/resolvers/getNonEmptyObservationHoraireFields.ts:38-66 | the facts the partition, merge and orphan steps leave behind fit together (`Assembled`) |
| `ObservationFields.ResultDataFields` | src/graphql/resolvers/getNonEmptyObservationHoraireFields.ts:53-66 | a name is a data field of the result iff it is one of the sorted data fields |
| `ObservationFields.ResultOrphans` | src/graphql/resolvers/getNonEmptyObservationHoraireFields.ts:53-66 | the merged prefix holds no orphan flag, and the appended tail holds only orphan flags |
| `ObservationFields.ResultMembers` | src/graphql/resolvers/getNonEmptyObservationHoraireFields.ts:53-66 | the result holds exactly the described fields, no name twice |
| `ObservationFields.ResultAscending` | src/graphql/resolvers/getNonEmptyObservationHoraireFields.ts:50-66 | the result's data fields are in strictly ascending order |
| `ObservationFields.ResultAdjacent` | src/graphql/resolvers/getNonEmptyObservationHoraireFields.ts:53-66 | in the result, a data field whose flag is present is immediately followed by it |
| `ObservationFields.ResultOrphansSorted` | src/graphql/resolvers/getNonEmptyObservationHoraireFields.ts:62-66 | once an orphan flag appears, only orphan flags follow, in strictly ascending order |
| `ObservationFields.ResultOrder` | src/graphql/resolvers/getNonEmptyObservationHoraireFields.ts:53-66 | the result is `WellArranged`: distinct names, data fields ascending, each flag right behind its field, orphans last and ascending |
| `ObservationFields.OrderFields` | src/graphql/resolvers/getNonEmptyObservationHoraireFields.ts:37-66 | step 5 returns a permutation of its input, and that permutation is `WellArranged` |
| `ObservationFields.NonEmptyObservationFields` | src/graphql/resolvers/getNonEmptyObservationHoraireFields.ts:19-68 | no records give `[]`. Otherwise a name is in the result iff it is a key of the first record with a non-`null` value somewhere. Each element carries its description. The result is a permutation of the described non-empty fields and is `WellArranged` |
| `ObservationFields.ArrangementUnique` | src/graphql/resolvers/getNonEmptyObservationHoraireFields.ts:37-66 | two `WellArranged` lists with the same elements are equal. Together with `OrderFields` this means the result is fully determined by the elements it arranges |
| `ObservationFields.TemperatureExample` | src/graphql/resolvers/getNonEmptyObservationHoraireFields.ts:19-68 | records with `t`, `qt` and an always-`null` `alti` give `[{t, "temperature"}, {qt, "temp quality"}]` |
| `ObservationFields.OrphanExample` | src/graphql/resolvers/getNonEmptyObservationHoraireFields.ts:19-68 | a record with keys `qfoo`, `qt`, `t` and no schema descriptions gives `[{t, null}, {qt, null}, {qfoo, null}]`: `qt` follows `t`, and the orphan flag `qfoo` goes last |
| `DefaultTake.DefaultPrismaTake` | src/lib/prisma.ts:5 | the default is never 0: it is the configured number when that is nonzero, and 10 when the conversion gives 0 or `NaN` |
| `DefaultTake.TopLevelTake` | src/lib/prisma.ts:11-13 | a truthy `take` is kept, a missing key stays missing, a present falsy `take` becomes the default |
| `DefaultTake.RelationTake` | src/lib/prisma.ts:19-21 | a truthy `take` is kept; any other slot, missing key included, becomes the default |
| `DefaultTake.TakeRulesIdempotent` | src/lib/prisma.ts:11-22 | a second pass of either rule, or the top-level rule after the relation rule, changes nothing, for every default |
| `DefaultTake.DefaultMakesTruthy` | src/lib/prisma.ts:5-21 | with the configured default, every relation slot ends truthy, and so does every top-level slot with a `take` key |
| `DefaultTake.FixedPoints` | src/lib/prisma.ts:11-21 | a slot is left alone by a rule exactly when it is truthy, or missing at the top level, or already the zero default |
| `DefaultTake.DefaultRelationTakes` | src/lib/prisma.ts:18-22 | the `Object.values(...).forEach` loop leaves each relation node's `take` rewritten by the relation rule exactly once, and changes nothing else |
| `DefaultTake.ApplyDefaultTake` | src/lib/prisma.ts:11-24 | only `take` slots change: the top-level one by the top-level rule (then the relation rule, if `args` is its own relation), every other relation node's by the relation rule. Afterwards the arguments are `Settled`. Arguments already settled come out unchanged |
| `DefaultTake.ApplyTwiceUnchanged` | src/lib/prisma.ts:11-22 | running the guard twice gives the same `take` slots, and leaves the other keys, exactly as running it once |
| `DefaultTake.UndefinedTakeExample` | src/lib/prisma.ts:11-22 | `{take: undefined, include: {observations: {}}}` becomes `{take: 10, include: {observations: {take: 10}}}`; no other key of either object is set or changed |
| `DefaultTake.TruthyTakeExample` | src/lib/prisma.ts:11-13 | `{take: 50}` keeps `take` 50 |

## Left out

- The database fetch and its logging (src/graphql/resolvers/getNonEmptyObservationHoraireFields.ts:12-17) are I/O. The fetched records are the `records` parameter.
- The schema lookup of field descriptions (src/graphql/resolvers/getNonEmptyObservationHoraireFields.ts:27-29) is a call into generated GraphQL code. The descriptions are the `meta` parameter; a name missing from it has no schema field.
- The GraphQL query registration (src/graphql/resolvers/getNonEmptyObservationHoraireFields.ts:72-93) is framework wiring with no logic.
- `localeCompare` is modelled as ordinal code point order.
  - True locale collation differs, for example in case and accents. It is not reproducible without the locale tables.
  - All results about order hold for the ordinal collation.
- `Array.prototype.sort` is a library routine that sorts in place. It is modelled as a pure insertion sort on sequences (`SortByField`). Names are distinct, so the sorted order is unique whatever algorithm the engine uses.
- `KeepNonEmpty`: its contract states which names are kept, not that they keep their relative order. Step 5 re-sorts every field, so that order never reaches the result.
- Record values other than `null` are not distinguished from one another. Only `!== null` matters to the source.
- The `query(args)` continuation and the `$extends` registration (src/lib/prisma.ts:26, 29-37) are a call into the Prisma client. `ApplyDefaultTake` stops at the mutated arguments.
- The conversion `Number(process.env.DEFAULT_PRISMA_TAKE)` on src/lib/prisma.ts:5 is read from the environment and yields a JavaScript float. Only the fallback rule is modelled: the conversion result is an optional integer, with `None` for `NaN`. A fractional take is not modelled.
- A `take` value of another JavaScript type (a string, a boolean) is not modelled. A take slot holds `undefined`, `null` or an integer.
- A `null` entry in `include` or `select` would throw on src/lib/prisma.ts:19, since `typeof null === 'object'`. This case is excluded by construction: a relation entry is an argument object or a skipped non-object entry (`Flag`, which stands for a boolean, `undefined`, a number or a string).
- The HTTP server, the GraphQL builder and schema, and the Pothos configuration are not part of this model. They are configuration and generated code.
