# Rolling index: bucket routing and template provisioning

This project models the two pieces of logic behind a *rolling index*, and proves properties of them.
A rolling index writes documents into a new index every wall-clock minute and reads all of those
indices through one alias.

- **Bucket routing** (`CustomMessageRepositoryImpl`). The repository works out the name of the bucket index
  from the time of day: `"msg-"`, then the `LocalTime` truncated to minutes and rendered by `toString()`,
  then every `:` replaced by `-`. `save` and `saveAll` write their entities into that one index, not into
  the entity's default index. The time is passed in as a parameter, so `LocalTime.now()` is not modelled.
- **Template provisioning** (`TemplateInitializer.setup`). A check-then-create step. If the store has no
  template named `msg-template`, it puts one. That template has the pattern `msg-*`, the entity's mapping,
  and one alias action that gives each new matching index the entity's own index names as aliases.

Files and modules:

| file | module | what it holds |
|---|---|---|
| `strings.dfy` | `Strings` | decimal rendering of non-negative ints (`Integer.toString`), with its round trip; `String.replace(char, char)` |
| `local_time.dfy` | `LocalTimes` | `LocalTime` as a subset type of a four-field record; `toNanoOfDay`, `ofNanoOfDay`, `truncatedTo(MINUTES)` computed as the JDK computes it (floor of the nano-of-day), and `toString()` with all its branches (`HH:mm`, `:ss`, 3/6/9 fraction digits) |
| `glob.dfy` | `Glob` | how a template pattern with `*` wildcards matches an index name |
| `store.dfy` | `Store` | the store's state as this code sees it: class `Operations` (index contents, written by `save`) and class `IndexOperations` (the templates, the put-template requests issued, and the entity's mapping and index names) |
| `repository.dfy` | `MessageRepository` | `IndexName`, the class `CustomMessageRepository` with `Save` and `SaveAll`, and the lemmas about bucket names |
| `templates.dfy` | `TemplateSetup` | the class `TemplateInitializer` with `Setup`, the specification function `AfterSetup`, and the lemmas about provisioning, including the link between the two parts: every bucket name falls under `msg-*` |

The store is a map from index name to a sequence of documents. The document type is a type parameter `D`.
An index that was never written to holds no documents, and it is created by its first write.
A bulk write of nothing changes nothing. The templates are a `map<string, Template>`. A put-template
request replaces whatever template is stored under its name.

Three facts about the code that the model keeps:
- `setup()` returns nothing. Any exception from the store propagates to its caller.
- The template's aliases are the index names declared on the entity, from
  `getIndexCoordinates().getIndexNames()`.
- `setup()` never reconciles a `msg-template` that is already stored. `DriftedTemplateIsKept` shows
  such a template, with a different pattern, that then covers no bucket.

## Model

| member | source | states |
|---|---|---|
| Strings.TwoDigits | src/main/java/com/sothawo/blogsderollingindex/CustomMessageRepositoryImpl.java:44 | the reference two-digit rendering of a value below 100: two digit characters whose values give back the number |
| Strings.DecimalString | src/main/java/com/sothawo/blogsderollingindex/CustomMessageRepositoryImpl.java:44 | the decimal text of a non-negative int: only digits, at least one, no leading zero, one digit exactly below 10, and reading it back gives the number |
| Strings.ReplaceChar | src/main/java/com/sothawo/blogsderollingindex/CustomMessageRepositoryImpl.java:44 | `replace(':', '-')`: same length; each position holds the new character where the old one stood and is unchanged elsewhere; the old character no longer occurs |
| Strings.PaddedIsTwoDigits | src/main/java/com/sothawo/blogsderollingindex/CustomMessageRepositoryImpl.java:44 | for a value below 100, a `0` in front of one-digit values followed by the decimal text gives exactly two digits |
| Strings.TwoDigitsInjective | src/main/java/com/sothawo/blogsderollingindex/CustomMessageRepositoryImpl.java:44 | two two-digit renderings are equal if and only if the numbers are |
| LocalTimes.ToNanoOfDay | src/main/java/com/sothawo/blogsderollingindex/CustomMessageRepositoryImpl.java:44 | the nano-of-day of every valid time lies within one day |
| LocalTimes.OfNanoOfDay | src/main/java/com/sothawo/blogsderollingindex/CustomMessageRepositoryImpl.java:44 | builds a valid time from any nano-of-day within one day, and that time has exactly this nano-of-day |
| LocalTimes.NanoOfDayInjective | src/main/java/com/sothawo/blogsderollingindex/CustomMessageRepositoryImpl.java:44 | two times with the same nano-of-day are the same time |
| LocalTimes.OfNanoOfDayOfToNanoOfDay | src/main/java/com/sothawo/blogsderollingindex/CustomMessageRepositoryImpl.java:44 | converting a valid time to its nano-of-day and back gives the same time, the second direction of the round trip |
| LocalTimes.TruncatedToMinutes | src/main/java/com/sothawo/blogsderollingindex/CustomMessageRepositoryImpl.java:44 | `truncatedTo(ChronoUnit.MINUTES)` as the JDK computes it; no contract of its own, see TruncatedToMinutesFields |
| LocalTimes.TruncatedToMinutesFields | src/main/java/com/sothawo/blogsderollingindex/CustomMessageRepositoryImpl.java:44 | flooring the nano-of-day to whole minutes keeps the hour and the minute and zeroes the seconds and nanos |
| LocalTimes.ToString | src/main/java/com/sothawo/blogsderollingindex/CustomMessageRepositoryImpl.java:44 | `LocalTime.toString()` with all its branches; no contract of its own, see ToStringWholeMinute and ToStringWholeSecond |
| LocalTimes.FractionString | src/main/java/com/sothawo/blogsderollingindex/CustomMessageRepositoryImpl.java:44 | the 3, 6 or 9 fraction digits of `toString()`; no contract of its own, and no bucket name uses it, because truncation zeroes the nanos (see TruncatedToMinutesFields) |
| LocalTimes.ToStringWholeMinute | src/main/java/com/sothawo/blogsderollingindex/CustomMessageRepositoryImpl.java:44 | a time on a whole minute renders as `HH:mm`, with two zero-padded digits each |
| LocalTimes.ToStringWholeSecond | src/main/java/com/sothawo/blogsderollingindex/CustomMessageRepositoryImpl.java:44 | a time with non-zero whole seconds renders as `HH:mm:ss` |
| MessageRepository.IndexName | src/main/java/com/sothawo/blogsderollingindex/CustomMessageRepositoryImpl.java:42-46 | `indexName()` with the clock reading as a parameter; no contract of its own, see IndexNameShape, IndexNameHasPrefix, IndexNameHasNoColon and SameIndexIffSameMinute |
| MessageRepository.IndexNameShape | src/main/java/com/sothawo/blogsderollingindex/CustomMessageRepositoryImpl.java:43-44 | the bucket name is `msg-` + two hour digits + `-` + two minute digits: nine characters, `-` at positions 3 and 6, digits at 4, 5, 7 and 8 |
| MessageRepository.IndexNameHasPrefix | src/main/java/com/sothawo/blogsderollingindex/CustomMessageRepositoryImpl.java:43 | every bucket name starts with `msg-` |
| MessageRepository.IndexNameHasNoColon | src/main/java/com/sothawo/blogsderollingindex/CustomMessageRepositoryImpl.java:44 | no bucket name contains `:` |
| MessageRepository.SameMinuteSameIndex | src/main/java/com/sothawo/blogsderollingindex/CustomMessageRepositoryImpl.java:44 | two times with the same hour and minute get the same bucket, whatever their seconds and nanos |
| MessageRepository.SameIndexIffSameMinute | src/main/java/com/sothawo/blogsderollingindex/CustomMessageRepositoryImpl.java:43-44 | two times get the same bucket if and only if they agree on hour and minute, so the name is injective on (hour, minute) |
| MessageRepository.ExampleBucket | src/main/java/com/sothawo/blogsderollingindex/CustomMessageRepositoryImpl.java:43-44 | a write at 22:10:58 goes to `msg-22-10` |
| MessageRepository.UntruncatedNameAddsSeconds | src/main/java/com/sothawo/blogsderollingindex/CustomMessageRepositoryImpl.java:44 | without the truncation, a time with whole non-zero seconds would get the bucket name plus `-ss`, so truncation is what keeps a minute in one bucket |
| MessageRepository.CustomMessageRepository.Save | src/main/java/com/sothawo/blogsderollingindex/CustomMessageRepositoryImpl.java:32-35 | returns the entity; the store afterwards is the old store with the entity appended to the bucket of `now`, and nothing else changed |
| MessageRepository.CustomMessageRepository.SaveAll | src/main/java/com/sothawo/blogsderollingindex/CustomMessageRepositoryImpl.java:37-40 | returns the entities; all of them are appended, in order, to the one bucket of `now`, and nothing else changed |
| Store.Appended | src/main/java/com/sothawo/blogsderollingindex/CustomMessageRepositoryImpl.java:34 | a write adds the target index to the store's index names when it writes anything, and no other name |
| Store.AppendedChangesOnlyTarget | src/main/java/com/sothawo/blogsderollingindex/CustomMessageRepositoryImpl.java:34 | after a write the target index holds its old documents followed by the new ones; every other index holds exactly what it held before and exists exactly when it existed before |
| Store.BulkIsOneByOne | src/main/java/com/sothawo/blogsderollingindex/CustomMessageRepositoryImpl.java:38-40 | a bulk write of a sequence into one index gives the same store as writing its documents one at a time in iteration order |
| Store.Operations.Save | src/main/java/com/sothawo/blogsderollingindex/CustomMessageRepositoryImpl.java:34 | `operations.save(entity, index)` returns the entity and appends it to the named index |
| Store.Operations.SaveAll | src/main/java/com/sothawo/blogsderollingindex/CustomMessageRepositoryImpl.java:39 | `operations.save(entities, index)` returns the entities and appends them, in order, to the named index |
| Store.IndexOperations.ExistsTemplate | src/main/java/com/sothawo/blogsderollingindex/TemplateInitializer.java:43 | answers true exactly when a template of that name is stored |
| Store.IndexOperations.CreateMapping | src/main/java/com/sothawo/blogsderollingindex/TemplateInitializer.java:45 | returns the mapping derived from the entity class |
| Store.IndexOperations.GetIndexNames | src/main/java/com/sothawo/blogsderollingindex/TemplateInitializer.java:49 | returns the index names declared on the entity class |
| Store.IndexOperations.PutTemplate | src/main/java/com/sothawo/blogsderollingindex/TemplateInitializer.java:58 | stores the request's template under its name, replacing any earlier one, and records the request |
| Glob.Matches | src/main/java/com/sothawo/blogsderollingindex/TemplateInitializer.java:30 | how the store matches a template pattern with `*` against an index name; no contract of its own, see WildcardMatchesAll and PrefixPatternMatches |
| Glob.WildcardMatchesAll | src/main/java/com/sothawo/blogsderollingindex/TemplateInitializer.java:30 | a lone `*` matches every index name |
| Glob.PrefixPatternMatches | src/main/java/com/sothawo/blogsderollingindex/TemplateInitializer.java:30 | a literal prefix followed by one `*` matches a name if and only if the name starts with that prefix |
| TemplateSetup.TemplateRequest | src/main/java/com/sothawo/blogsderollingindex/TemplateInitializer.java:53-56 | the request built from name `msg-template`, pattern `msg-*`, the mapping and one alias action; no contract of its own, see InstalledTemplateContents |
| TemplateSetup.SetupRequests | src/main/java/com/sothawo/blogsderollingindex/TemplateInitializer.java:43-58 | exactly one put-template request when `msg-template` is absent, none when it is present, and that request is the one built from the entity's mapping and index names |
| TemplateSetup.ApplyPuts | src/main/java/com/sothawo/blogsderollingindex/TemplateInitializer.java:58 | the template map after put-template requests, each replacing its name's entry; no contract of its own, see AfterSetupIsCheckThenPut |
| TemplateSetup.AfterSetup | src/main/java/com/sothawo/blogsderollingindex/TemplateInitializer.java:43-58 | the template map after `setup()`; no contract of its own, see AfterSetupIsCheckThenPut, SetupInstallsTemplate, SetupKeepsExisting and SetupIdempotent |
| TemplateSetup.AfterSetupIsCheckThenPut | src/main/java/com/sothawo/blogsderollingindex/TemplateInitializer.java:43-58 | applying the issued requests leaves a store holding `msg-template` unchanged; otherwise it adds `msg-template` with pattern `msg-*`, the mapping and one alias action adding the index names |
| TemplateSetup.SetupInstallsTemplate | src/main/java/com/sothawo/blogsderollingindex/TemplateInitializer.java:43-58 | after `setup()` a template named `msg-template` exists |
| TemplateSetup.SetupKeepsExisting | src/main/java/com/sothawo/blogsderollingindex/TemplateInitializer.java:43 | if `msg-template` already exists, the store is left unchanged, whatever the existing template holds |
| TemplateSetup.InstalledTemplateContents | src/main/java/com/sothawo/blogsderollingindex/TemplateInitializer.java:45-56 | a newly installed template has pattern `msg-*`, the mapping of `createMapping()`, and a single alias action adding the entity's index names |
| TemplateSetup.SetupChangesNoOtherTemplate | src/main/java/com/sothawo/blogsderollingindex/TemplateInitializer.java:53-58 | a template under any other name is neither added, removed nor changed |
| TemplateSetup.SetupIdempotent | src/main/java/com/sothawo/blogsderollingindex/TemplateInitializer.java:43-59 | a second `setup()` issues no request and leaves the store as the first left it, even with a different mapping or index names |
| TemplateSetup.TemplatePatternMatchesPrefix | src/main/java/com/sothawo/blogsderollingindex/TemplateInitializer.java:30 | `msg-*` matches a name if and only if it starts with `msg-` |
| TemplateSetup.BucketMatchesTemplatePattern | src/main/java/com/sothawo/blogsderollingindex/CustomMessageRepositoryImpl.java:43 | every bucket name the repository computes matches the template pattern `msg-*` |
| TemplateSetup.InstalledTemplateCoversBuckets | src/main/java/com/sothawo/blogsderollingindex/TemplateInitializer.java:53 | when `setup()` installed the template, its pattern matches the bucket name of every time of day |
| TemplateSetup.DriftedTemplateIsKept | src/main/java/com/sothawo/blogsderollingindex/TemplateInitializer.java:43 | an earlier `msg-template` with a different pattern (`log-*`) is kept by `setup()`, and then no bucket name matches it |
| TemplateSetup.TemplateInitializer.Setup | src/main/java/com/sothawo/blogsderollingindex/TemplateInitializer.java:39-60 | the templates afterwards are `AfterSetup` of the templates before; the request log grows by exactly the requests of `SetupRequests` (one if `msg-template` was absent, none if present) |
| TemplateSetup.SetupTwice | src/main/java/com/sothawo/blogsderollingindex/TemplateInitializer.java:39-60 | two `setup()` calls in a row leave the templates and the request log exactly as one call does |

## Left out

- Clock: `LocalTime.now()` is not modelled. The time of day is a parameter of `IndexName`, `Save` and `SaveAll`.
- `TemplateInitializer` receives the entity-bound `IndexOperations` directly. The call `operations.indexOps(Message.class)` inside `setup()` is not modelled.
- `IndexCoordinates.of(name)`, the wrapper around the single bucket name, is modelled as the name itself.
- Documents: the `Message` entity is not part of this model, so documents are a type parameter. The store assigning ids, and overwriting a document that has the same id, is store behaviour and not modelled.
- Store behaviour: applying a template when an index is created, assigning aliases automatically, and searching through the alias all belong to the document store. Only the template pattern match is modelled, with generic `*` wildcard semantics.
- The mapping from `createMapping()` and the names from `getIndexCoordinates().getIndexNames()` come from the library and the entity's annotations. They are opaque fixed values of `IndexOperations`.
- Failures: exceptions from the store (unreachable, request rejected) are not modelled. The code does not catch them; they propagate to the caller.
- Concurrency: two instances racing on the existence check in `setup()` are not modelled.
- `MessageController` (HTTP wiring), `MessageRepository` (derived search queries `searchAllBy` and `searchAllByMessage`, run by the library) and `ElasticConfiguration` (client connection to `localhost:9200`) are not part of this model. They are glue, or their behaviour lives in libraries.
