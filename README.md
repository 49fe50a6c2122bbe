# A verified model of the action runtime

This project is a Dafny model of the action runtime of a TypeScript application template. It also models the small libraries that runtime leans on. Every operation has a contract, and the properties the code promises are proved about the model.

**The action runtime** (`packages/internal/action`):
- `ActionDef` is a named, fluently built action definition.
- `flattenObject` walks a nested group of definitions with an explicit stack and a visited set. It collects the definitions under their dotted paths.
- `Module` indexes the flattened definitions by action name. It attaches handlers by path and lists the actions that carry a cron pattern.
- `Runtime` merges every module's actions and cron names. It starts the cron jobs and turns a scheduling request into a broker job: delay, retry attempts, backoff and payload.
- `Queue` memoizes one queue, one worker and one event stream per name.
- `ActionRegistry` matches completed, failed and timed-out jobs to the callers waiting on them.
- `executeSyncHandler` runs a handler in-process.
- The older `Module` of `action/module.ts` keeps its handlers in a nested object. It merges that object deeply, finds an action's path in the group structure and starts one worker per action.

**The pieces around the runtime:**
- **The error envelope:** `AppError` and its defaults, and `toProdJSON`. An action failure travels as JSON inside an `Error` message and is rebuilt by `fromActionFailReason`. `parseError` maps a caught value to an HTTP status and body.
- **Both cache-key builders:** `ActionCacheKey` and `CacheKeyBuilder`.
- **The in-memory Redis stand-in.**
- **The memo of asset providers.**
- **The pure helpers:** strings, file extensions and MIME types, pagination, arrays, objects, agent-instruction formatting and the auth redirect URLs.

**Conventions of the model:**
- `JsValues` models JavaScript values. Objects are lists of own properties in enumeration order, numbers are integers and functions are opaque ids.
- `Json` models `JSON.stringify` and `JSON.parse`. Their round trip is proved.
- `UrlEncoding` models `encodeURIComponent` and the `URLSearchParams` form encoding. Their round trips are proved too.
- The message broker is an abstract value: per queue name, the jobs it holds and the last job id it issued.
- The clock, the environment switch, random bytes and handler calls are all parameters.

**Form of the model:** the model follows the form of each source file. Code that changes state becomes a `class`: `Module`, `Runtime`, `Queue`, `ActionRegistry`, `ActionDef`, both key builders, the Redis stand-in and the provider memo. Its methods carry `modifies` clauses and state the whole new state. The loops of the source become methods with invariants, proved against recursive specification functions. Pure code becomes functions and lemmas.

## Model

| member | source | states |
|---|---|---|
| Arrays.MapSet | packages/internal/app-utils/src/arrays.ts:8 | setting a key on an insertion-ordered Map keeps an existing key in place with the new value and appends a new key last |
| Arrays.FirstOccurrences | packages/internal/app-utils/src/arrays.ts:8 | the Map's key order: every key of the input once, nothing else |
| Arrays.BuildMap | packages/internal/app-utils/src/arrays.ts:8 | the Map built from `arr.map(item => [item[key], item])` has the keys in first-occurrence order, each paired with an item of that key |
| Arrays.UniqueBy | packages/internal/app-utils/src/arrays.ts:7-9 | `uniqueBy` returns the Map's values in key order |
| Arrays.LastWins | packages/internal/app-utils/src/arrays.ts:8 | the value stored for a key is an input item with no later item of the same key |
| Arrays.UniqueByKeys | packages/internal/app-utils/src/arrays.ts:7-9 | the result has one item per distinct key, keys in order of first occurrence |
| Arrays.UniqueByLast | packages/internal/app-utils/src/arrays.ts:7-9 | each kept item is the last input item carrying its key |
| Arrays.Compact | packages/internal/app-utils/src/arrays.ts:16-20 | the result is no longer than the input, holds only truthy input elements and every truthy input element |
| Arrays.CompactAppend | packages/internal/app-utils/src/arrays.ts:19 | filtering distributes over concatenation, so kept elements keep their relative order |
| Arrays.CompactSingle | packages/internal/app-utils/src/arrays.ts:19 | an element is dropped exactly when `Boolean(x)` is false |
| Arrays.CompactIdempotent | packages/internal/app-utils/src/arrays.ts:16-20 | compacting twice equals compacting once |
| Objects.Clean | packages/internal/app-utils/src/objects.ts:6-12 | the result keeps exactly the entries whose value is not `undefined`, each taken from the input |
| Objects.CleanAppend | packages/internal/app-utils/src/objects.ts:9-11 | cleaning distributes over concatenation, so kept properties keep their order |
| Objects.CleanDefined | packages/internal/app-utils/src/objects.ts:6-12 | an object holding no `undefined` is returned unchanged |
| Objects.CleanIdempotent | packages/internal/app-utils/src/objects.ts:6-12 | cleaning twice equals cleaning once |
| Objects.CleanLookup | packages/internal/app-utils/src/objects.ts:9-11 | a key holding `undefined` disappears; every other key keeps its value |
| Objects.CleanGet | packages/internal/app-utils/src/objects.ts:6-12 | reading any property of the cleaned object gives what it gave before |
| Pagination.FloorDiv | packages/internal/db-utils/src/db-utils/pagination.ts:39 | `Math.floor` of a quotient: the greatest integer whose multiple of the divisor does not pass the dividend, for either sign of divisor |
| Pagination.CeilDiv | packages/internal/db-utils/src/db-utils/pagination.ts:37 | `Math.ceil` of a quotient: the least integer whose multiple of the positive divisor reaches the dividend |
| Pagination.ToPrismaSkipTake | packages/internal/db-utils/src/db-utils/pagination.ts:44-49 | `take` is the page size; the offset is non-negative for page numbers from 1 and non-negative sizes |
| Pagination.QueryWindow | packages/internal/db-utils/src/db-utils/pagination.ts:12-19 | no pagination means page 1 of 100; a page size of 0 falls back to `{skip: 0, take: 10}`; otherwise the skip/take of the input; `take` is never 0 |
| Pagination.FindManyWithPagination | packages/internal/db-utils/src/db-utils/pagination.ts:7-42 | the rows and count are passed through and `perPage` is the window's `take` |
| Pagination.ExactFloor | packages/internal/db-utils/src/db-utils/pagination.ts:39 | dividing an exact multiple gives back the factor, for either sign of divisor |
| Pagination.MetaPageRoundTrip | packages/internal/db-utils/src/db-utils/pagination.ts:39-49 | the `page` and `perPage` reported back are the ones asked for, whenever the page size is not 0 |
| Pagination.ZeroPageSize | packages/internal/db-utils/src/db-utils/pagination.ts:18-39 | a page size of 0 is served as page 1 of 10 |
| Pagination.TotalPagesLeast | packages/internal/db-utils/src/db-utils/pagination.ts:37 | `totalPages` is the fewest pages of `perPage` rows that hold `total` rows |
| Extensions.LastIndexOf | modules/assets/module/src/logic/extract-extension.ts:2 | `lastIndexOf`: -1 exactly when the character is absent, otherwise its last position |
| Extensions.ExtractExtension | modules/assets/module/src/logic/extract-extension.ts:1-7 | empty when there is no dot or the only dot leads the name; otherwise the lower-cased text after the last dot, which holds no dot |
| Extensions.ExtensionOfName | modules/assets/module/src/logic/extract-extension.ts:1-7 | `stem.ext` with a non-empty stem gives back `ext`, lower-cased |
| Extensions.NoExtension | modules/assets/module/src/logic/extract-extension.ts:3-5 | a name without a dot, or whose only dot is its first character, has no extension |
| Extensions.RemoveFirst | modules/assets/module/src/logic/extract-extension.ts:10 | `replace('.', '')` with a string pattern: a string without the character is unchanged |
| Extensions.GetContentTypeAsWritten | modules/assets/module/src/logic/extract-extension.ts:9-23 | as written: a table extension maps to its MIME type (an inherited `Object.prototype` key yields a non-string) |
| Extensions.InheritedKeyIsNotAType | modules/assets/module/src/logic/extract-extension.ts:11-22 | the file `x.constructor` has extension `constructor`, for which the as-written lookup returns a function, not a string |
| Extensions.MimeOf | modules/assets/module/src/logic/extract-extension.ts:11-21 | the table's own entries; `GetContentType` and `ContentTypeAgrees` state how the lookup uses it |
| Extensions.GetContentType | modules/assets/module/src/logic/extract-extension.ts:9-23 | the MIME type from the table for a listed extension, `application/octet-stream` for any other |
| Extensions.ContentTypeAgrees | modules/assets/module/src/logic/extract-extension.ts:9-23 | the corrected and as-written lookups agree on every extension that is listed or is not an inherited key |
| Extensions.ContentTypeIgnoresCase | modules/assets/module/src/logic/extract-extension.ts:10 | the content type does not depend on letter case |
| Extensions.ContentTypeIgnoresDot | modules/assets/module/src/logic/extract-extension.ts:10 | a leading dot does not change the content type |
| AgentInstructions.Section | packages/internal/ai-utils/src/ai-utils/format-agent-instructions.ts:14-18 | one `label:\nrendered` section; `Sections`, `RenderedValues` and `UntransformedValues` state its parts |
| AgentInstructions.Sections | packages/internal/ai-utils/src/ai-utils/format-agent-instructions.ts:13-19 | one `label:\nrendered` section per input segment, in order |
| AgentInstructions.FormatAgentInstructions | packages/internal/ai-utils/src/ai-utils/format-agent-instructions.ts:8-22 | the loop's result is the sections joined by blank lines |
| AgentInstructions.FormatAppend | packages/internal/ai-utils/src/ai-utils/format-agent-instructions.ts:18-21 | adding a segment appends a blank line and its section, or gives just the section when it is the first |
| AgentInstructions.RenderedValues | packages/internal/ai-utils/src/ai-utils/format-agent-instructions.ts:17 | a transformed segment renders a string as itself and an array as its normalised list |
| AgentInstructions.UntransformedValues | packages/internal/ai-utils/src/ai-utils/format-agent-instructions.ts:17 | examples and output structure have no transform and render as `String(value)` |
| AssetProviders.KindName | packages/internal/asset-providers/src/asset-providers/index.ts:18 | a provider's name is non-empty and holds no dash |
| AssetProviders.ThresholdTag | packages/internal/asset-providers/src/asset-providers/index.ts:18 | the threshold part is `default` exactly when the threshold is missing or 0 (`\|\| 'default'`) |
| AssetProviders.KeyNamesProvider | packages/internal/asset-providers/src/asset-providers/index.ts:18 | the cache key's part before the first dash is the provider, so different providers never share a key |
| AssetProviders.ZeroThresholdIsDefault | packages/internal/asset-providers/src/asset-providers/index.ts:18 | a threshold of 0 and no threshold give the same key `<provider>-default` |
| AssetProviders.GetOrCreate | packages/internal/asset-providers/src/asset-providers/index.ts:17-36 | a cached key returns its provider unchanged; without a factory, null; otherwise the factory's provider, cached only when non-null |
| AssetProviders.GetOrCreateMemoized | packages/internal/asset-providers/src/asset-providers/index.ts:20-33 | once a provider is returned, asking again for the same config returns the same provider from the cache, whatever the factory is by then |
| AssetProviders.GetOrCreateOnlyAddsKey | packages/internal/asset-providers/src/asset-providers/index.ts:17-36 | a lookup adds at most the config's key and changes no other entry |
| AssetProviders.AssetProviderManager.constructor | packages/internal/asset-providers/src/asset-providers/index.ts:8-11 | a new manager has an empty cache and no factory |
| AssetProviders.AssetProviderManager.SetFactory | packages/internal/asset-providers/src/asset-providers/index.ts:13-15 | sets the factory and keeps the cache |
| AssetProviders.AssetProviderManager.GetProvider | packages/internal/asset-providers/src/asset-providers/index.ts:17-36 | the returned provider and the new cache are those `GetOrCreate` gives for the old state; the factory is unchanged |
| AssetProviders.AssetProviderManager.ClearCache | packages/internal/asset-providers/src/asset-providers/index.ts:38-40 | empties the cache and keeps the factory |
| AiHelpers.NormalizeStringStringArray | packages/internal/ai-utils/src/ai-utils/_helpers.ts:4-11 | a non-array comes back unchanged; an array becomes one string |
| AiHelpers.SplitJoin | packages/internal/ai-utils/src/ai-utils/_helpers.ts:9 | splitting a newline-joined list of newline-free lines gives back the lines |
| AiHelpers.NormalizeLines | packages/internal/ai-utils/src/ai-utils/_helpers.ts:9 | without a map function, each single-line item becomes its own `- item` line, in order |
| AiHelpers.NormalizeWithMapFn | packages/internal/ai-utils/src/ai-utils/_helpers.ts:9 | with a map function, each line is the function's value for the item and its index |
| AiHelpers.NormalizeExample | packages/internal/ai-utils/src/ai-utils/_helpers.ts:8-10 | `["Test", "Word"]` becomes `- Test\n- Word` |
| AiHelpers.GetSegmentTransformation | packages/internal/ai-utils/src/ai-utils/_helpers.ts:14-62 | examples and output structure have their fixed labels and no transform; internal notes has its label and the normaliser; every other segment is labelled by its Pascal-cased key with the normaliser |
| AiHelpers.KeyIsWord | packages/internal/ai-utils/src/ai-utils/_helpers.ts:59 | every segment key is a non-empty alphanumeric word |
| AiHelpers.DefaultLabel | packages/internal/ai-utils/src/ai-utils/_helpers.ts:57-61 | a default label is the key with its first letter upper-cased |
| AuthRedirect.Pair | modules/auth/api/src/helpers/index.ts:15-31 | a serialised query pair never holds a raw `&` |
| AuthRedirect.SerializeSplits | modules/auth/api/src/helpers/index.ts:33 | splitting the serialised query on `&` gives back the pairs one by one |
| AuthRedirect.Url.constructor | modules/auth/api/src/helpers/index.ts:10 | a URL holds its prefix (scheme, user info, host and port), path, query pairs and fragment as given |
| AuthRedirect.AuthErrorCode | modules/auth/api/src/helpers/index.ts:12-25 | `session_expired` exactly for an AppError of type NOT_FOUND, `invalid_request` exactly for BAD_REQUEST, `auth_failed` for every other AppError and every other thrown value |
| AuthRedirect.AppendErrorToRedirectUrl | modules/auth/api/src/helpers/index.ts:8-26 | appends exactly one `error` pair with that code and changes no other part of the URL |
| AuthRedirect.ErrorPair | modules/auth/api/src/helpers/index.ts:15-24 | the error pair serialises as `error=<code>` without escaping |
| AuthRedirect.StripTrailingSlash | modules/auth/api/src/helpers/index.ts:29 | `replace(/\/$/, "")`: one trailing slash is removed and nothing else |
| AuthRedirect.GetSuccessRedirectUrl | modules/auth/api/src/helpers/index.ts:28-34 | the path gains `/auth` after any trailing slash is dropped, one `authToken` pair is appended, the rest of the URL is kept, and the result is the URL's text |
| AuthRedirect.SuccessPath | modules/auth/api/src/helpers/index.ts:29 | a path not ending in a slash, with or without one slash added, ends up as `<path>/auth`: only one trailing slash is dropped |
| AuthRedirect.TokenRecoverable | modules/auth/api/src/helpers/index.ts:31-33 | the token is the serialised query's last pair and decodes back to the token |
| CacheParams.StrLeTotal | packages/internal/cache-utils/src/cache-utils/cache-key-builder.ts:122 | the string order `sort()` uses is total |
| CacheParams.Insert | packages/internal/cache-utils/src/cache-utils/cache-key-builder.ts:121-122 | inserting a property adds exactly it to the multiset of properties |
| CacheParams.InsertSorted | packages/internal/cache-utils/src/cache-utils/cache-key-builder.ts:121-122 | insertion keeps the keys sorted |
| CacheParams.SortByKey | packages/internal/cache-utils/src/cache-utils/cache-key-builder.ts:121-122 | sorting the keys is a permutation of the properties |
| CacheParams.SortByKeySorted | packages/internal/cache-utils/src/cache-utils/cache-key-builder.ts:121-122 | the sorted properties are in key order and as many as before |
| CacheParams.SortByKeyLookup | packages/internal/cache-utils/src/cache-utils/cache-key-builder.ts:121-149 | sorting keeps every key's value, the key set and key uniqueness |
| CacheParams.SortValues | packages/internal/cache-utils/src/cache-utils/cache-key-builder.ts:123-149 | rewriting the values keeps the keys in place |
| CacheParams.SortMember | packages/internal/cache-utils/src/cache-utils/cache-key-builder.ts:126-145 | a property keeps its key when its value is deep-sorted |
| CacheParams.SortItems | packages/internal/cache-utils/src/cache-utils/cache-key-builder.ts:135-141 | an array keeps its length when its plain-object items are sorted |
| CacheParams.SortValuesLookup | packages/internal/cache-utils/src/cache-utils/cache-key-builder.ts:126-145 | each key reads the deep-sorted form of its old value |
| CacheParams.SortFieldsProperties | packages/internal/cache-utils/src/cache-utils/cache-key-builder.ts:117-150 | `#sortObjectKeys` returns its keys sorted and unique, the same key set, each value deep-sorted |
| CacheParams.MergeLookup | packages/internal/cache-utils/src/cache-utils/cache-key-builder.ts:44-50 | after `listParams`, a key of the new batch reads its sorted value and every other key keeps its earlier value |
| CacheParams.SpreadPrefix | packages/internal/cache-utils/src/cache-utils/cache-key-builder.ts:45-48 | spreading new keys onto an object appends them in order |
| CacheParams.FirstBatchSorted | packages/internal/cache-utils/src/cache-utils/cache-key-builder.ts:44-50 | the first `listParams` call stores the batch in sorted key order |
| CacheParams.SerializeValue | packages/internal/cache-utils/src/cache-utils/cache-key-builder.ts:104-112 | objects and arrays are serialised as JSON and every other value with `String` |
| CacheParams.ParamParts | packages/internal/cache-utils/src/cache-utils/cache-key-builder.ts:82-83 | one `k=<encoded value>` part per parameter, in order |
| CacheParams.ParamStringSplits | packages/internal/cache-utils/src/cache-utils/cache-key-builder.ts:82-86 | splitting the parameter string on `&` gives back the parts, and each encoded value decodes back to the serialised value |
| ActionCacheKeys.WordRun | packages/internal/cache-utils/src/cache-utils/cache-key-builder.ts:5 | the longest prefix of letters and dashes |
| ActionCacheKeys.GroupsSound | packages/internal/cache-utils/src/cache-utils/cache-key-builder.ts:5 | a string matched by the `(\.[a-zA-Z-]+)+` groups is a sequence of dot-led words |
| ActionCacheKeys.GroupsComplete | packages/internal/cache-utils/src/cache-utils/cache-key-builder.ts:5 | every sequence of dot-led words is matched by the groups |
| ActionCacheKeys.ValidActionIff | packages/internal/cache-utils/src/cache-utils/cache-key-builder.ts:3-22 | the schema accepts a name exactly when it is two or more words of letters and dashes joined by dots |
| ActionCacheKeys.ExampleValidName | packages/internal/cache-utils/src/cache-utils/cache-key-builder.ts:5 | `devProfile.get` is accepted |
| ActionCacheKeys.ExampleInvalidName | packages/internal/cache-utils/src/cache-utils/cache-key-builder.ts:5 | `myAction` (a single word) is rejected |
| ActionCacheKeys.DotToColon | packages/internal/cache-utils/src/cache-utils/cache-key-builder.ts:24-26 | every dot becomes a colon and every other character is kept |
| ActionCacheKeys.FirstPart | packages/internal/cache-utils/src/cache-utils/cache-key-builder.ts:98 | `split(':')[0]`: the longest colon-free prefix |
| ActionCacheKeys.ModuleTagIsFirstWord | packages/internal/cache-utils/src/cache-utils/cache-key-builder.ts:97-99 | the module tag is the action name's first word |
| ActionCacheKeys.OwnerSegment | packages/internal/cache-utils/src/cache-utils/cache-key-builder.ts:65-67 | empty exactly when the owner is unset or empty |
| ActionCacheKeys.SegmentString | packages/internal/cache-utils/src/cache-utils/cache-key-builder.ts:69-71 | empty exactly when there are no segments |
| ActionCacheKeys.OwnerTag | packages/internal/cache-utils/src/cache-utils/cache-key-builder.ts:89-95 | with an owner, the module tag and the owner; otherwise the whole prefix |
| ActionCacheKeys.KeyWithoutParams | packages/internal/cache-utils/src/cache-utils/cache-key-builder.ts:55-75 | without parameters the key is the prefix, then `:owner` when set, then the colon-joined segments |
| ActionCacheKeys.ParamStringNoColon | packages/internal/cache-utils/src/cache-utils/cache-key-builder.ts:82-84 | parameter names without a colon give a parameter string without one, because every value is URI-encoded |
| ActionCacheKeys.KeyWithParamsSplits | packages/internal/cache-utils/src/cache-utils/cache-key-builder.ts:55-87 | with parameters the key is the key without them, a colon and the `k=v&k=v` string; when no parameter name holds a colon, two keys are equal exactly when their keys without parameters and their parameter strings are (the key splits back at its last colon) |
| ActionCacheKeys.ExamplePrefix | packages/internal/cache-utils/src/cache-utils/cache-key-builder.ts:17-26 | `devProfile.get` gets the prefix `devProfile:get` |
| ActionCacheKeys.ActionCacheKey.constructor | packages/internal/cache-utils/src/cache-utils/cache-key-builder.ts:14-18 | a key for a valid name starts with the colon form of the name, no owner, segments or parameters |
| ActionCacheKeys.ActionCacheKey.Owner | packages/internal/cache-utils/src/cache-utils/cache-key-builder.ts:28-31 | sets the owner, changes nothing else and returns the same builder |
| ActionCacheKeys.ActionCacheKey.Single | packages/internal/cache-utils/src/cache-utils/cache-key-builder.ts:36-39 | appends `String(itemId)` to the segments, changes nothing else and returns the same builder |
| ActionCacheKeys.ActionCacheKey.ToString | packages/internal/cache-utils/src/cache-utils/cache-key-builder.ts:55-63 | the key begins with the action's colon prefix; `KeyWithoutParams` and `KeyWithParamsSplits` state its whole shape |
| ActionCacheKeys.ActionCacheKey.ListParams | packages/internal/cache-utils/src/cache-utils/cache-key-builder.ts:44-50 | the parameters become the old ones overlaid with the sorted batch; nothing else changes |
| ActionCacheKeys.NewActionCacheKey | packages/internal/cache-utils/src/cache-utils/cache-key-builder.ts:14-22 | construction succeeds exactly for a valid action name, giving a fresh, empty key with the colon prefix; otherwise the schema's error (also lines 156) |
| CacheKeyBuilders.LeadingSpaces | packages/internal/cache/src/utils/ck-builder.ts:6-17 | the number of leading whitespace characters `trim` drops |
| CacheKeyBuilders.TrailingSpaces | packages/internal/cache/src/utils/ck-builder.ts:6-17 | the number of trailing whitespace characters `trim` drops |
| CacheKeyBuilders.Trim | packages/internal/cache/src/utils/ck-builder.ts:6-17 | the trimmed string neither starts nor ends with whitespace, and is empty exactly when the input is all whitespace |
| CacheKeyBuilders.TrimIdempotent | packages/internal/cache/src/utils/ck-builder.ts:17 | trimming twice equals trimming once |
| CacheKeyBuilders.PrefixCoversExtensions | packages/internal/cache/src/utils/ck-builder.ts:86-107 | the prefix returned before more segments are added, plus a colon, begins every key built afterwards, so it can be used to invalidate them |
| CacheKeyBuilders.CacheKeyBuilder.constructor | packages/internal/cache/src/utils/ck-builder.ts:5-19 | the builder starts with the single segment `<module>:<version>`, both trimmed, and no parameters |
| CacheKeyBuilders.CacheKeyBuilder.List | packages/internal/cache/src/utils/ck-builder.ts:24-27 | appends `list` and returns the same builder |
| CacheKeyBuilders.CacheKeyBuilder.Single | packages/internal/cache/src/utils/ck-builder.ts:32-35 | appends `single` and the item id and returns the same builder |
| CacheKeyBuilders.CacheKeyBuilder.UserList | packages/internal/cache/src/utils/ck-builder.ts:40-43 | appends `user`, the user id and `list` and returns the same builder |
| CacheKeyBuilders.CacheKeyBuilder.UserPrefix | packages/internal/cache/src/utils/ck-builder.ts:49-53 | appends `user` and the user id and returns the same builder |
| CacheKeyBuilders.CacheKeyBuilder.UserSingle | packages/internal/cache/src/utils/ck-builder.ts:58-69 | appends `user`, the user id, `single` and the item id and returns the same builder |
| CacheKeyBuilders.CacheKeyBuilder.Params | packages/internal/cache/src/utils/ck-builder.ts:74-80 | the parameters become the old ones overlaid with the deep-sorted batch; segments are kept (also lines 132-169) |
| CacheKeyBuilders.NewCacheKeyBuilder | packages/internal/cache/src/utils/ck-builder.ts:5-19 | a blank module throws the module error first, then a blank version (default `v1`) throws the version error; otherwise a fresh builder with the trimmed `<module>:<version>` segment (also lines 175-178) |
| CacheKeyBuilders.MakeKeySplits | packages/internal/cache/src/utils/ck-builder.ts:85-100 | without parameters the key is the colon-joined segments, with them it is followed by `?` and the parameter string; when no segment holds a `?`, two keys are equal exactly when their segments join alike and their parameter strings agree (the key splits back at its first `?`) |
| CacheKeyBuilders.CacheKeyBuilder.Make | packages/internal/cache/src/utils/ck-builder.ts:85-99 | the prefix begins the key and is all of it exactly when there are no parameters; `MakeKeySplits` states how keys compare |
| CacheKeyBuilders.CacheKeyBuilder.GetPrefix | packages/internal/cache/src/utils/ck-builder.ts:105-107 | the joined segments; `PrefixCoversExtensions` and `Make` state that it begins the keys built from it |
| CacheKeyBuilders.CacheKeyBuilder.GetVersionedPrefix | packages/internal/cache/src/utils/ck-builder.ts:112-114 | the first segment, which begins every key the builder makes |
| CacheKeyBuilders.VersionedPrefixFirst | packages/internal/cache/src/utils/ck-builder.ts:112-114 | the versioned prefix begins every key the builder makes |
| MockRedis.Elems | infrastructure/redis/src/redis.ts:54-61 | the set of keys named in a `del` call |
| MockRedis.Remove | infrastructure/redis/src/redis.ts:57 | deleting a key from the insertion-ordered store drops exactly that key and keeps the order of the rest |
| MockRedis.RemoveAll | infrastructure/redis/src/redis.ts:56-59 | deleting several keys drops exactly those keys |
| MockRedis.AddMembers | infrastructure/redis/src/redis.ts:63-71 | adding members keeps the set's existing order, appends only new members, and holds exactly the old and new members |
| MockRedis.AddPresent | infrastructure/redis/src/redis.ts:67-70 | adding members that are all present changes nothing |
| MockRedis.AddMembersIdempotent | infrastructure/redis/src/redis.ts:62-73 | a second identical `sadd` changes nothing |
| MockRedis.AddMembersCount | infrastructure/redis/src/redis.ts:65-72 | the number reported added is the number of distinct new members |
| MockRedis.Redis.constructor | infrastructure/redis/src/redis.ts:40-43 | the mock starts with an empty store and no sets |
| MockRedis.Redis.Get | infrastructure/redis/src/redis.ts:45 | a key's value, or null when the key is missing or its value is empty (`\|\| null`) |
| MockRedis.Redis.SMembers | infrastructure/redis/src/redis.ts:74-77 | a set's members in insertion order, or none for a missing set |
| MockRedis.Redis.Scan | infrastructure/redis/src/redis.ts:78-83 | cursor `0` returns every stored key once with the next cursor `0`; any other cursor returns no keys |
| MockRedis.Redis.Set | infrastructure/redis/src/redis.ts:46-49 | stores the value, appends a new key to the key order, keeps the sets, replies `OK`; reading it back gives the value unless it is empty |
| MockRedis.Redis.SetEx | infrastructure/redis/src/redis.ts:50-53 | the same as `set`, the time-to-live ignored |
| MockRedis.Redis.DeleteKey | infrastructure/redis/src/redis.ts:57-58 | removes the key from the store and the sets and reports whether it was stored |
| MockRedis.Redis.Del | infrastructure/redis/src/redis.ts:54-61 | removes every named key from the store and the sets and returns how many distinct named keys were stored |
| MockRedis.Redis.SAdd | infrastructure/redis/src/redis.ts:62-73 | the set becomes the old members plus the new ones, the store is untouched, and the reply counts the members added |
| Brokers.InitialState | packages/internal/action/src/runtime.ts:99-116 | a job starts delayed exactly when it has a positive delay, otherwise waiting |
| Brokers.Add | packages/internal/action/src/queue.ts:22 | `queue.add` appends one job with the next id of that queue and changes no other queue |
| Brokers.AddValid | packages/internal/action/src/queue.ts:22 | adding a job keeps every queue's ids distinct and within its counter |
| Brokers.AddFresh | packages/internal/action/src/runtime.ts:118-121 | the id returned is not the id of any job already in the queue |
| Brokers.Without | packages/internal/action/src/action/registry.ts:78 | removing a job by id keeps exactly the other jobs |
| Brokers.Find | packages/internal/action/src/runtime.ts:134 | looking a job up by id finds a job with that id when there is one |
| Brokers.Cancel | packages/internal/action/src/runtime.ts:124-135 | a successful cancel removes that job from its queue only; a failed one changes nothing |
| Brokers.CancelIff | packages/internal/action/src/runtime.ts:124-135 | a cancel succeeds exactly when the queue holds a cancellable job with that id |
| Brokers.CancelValid | packages/internal/action/src/runtime.ts:134 | cancelling keeps the broker's ids consistent |
| Brokers.Remove | packages/internal/action/src/action/registry.ts:78 | `job.remove()` touches only that queue, removing the job or, for an active job, nothing |
| Brokers.RemoveValid | packages/internal/action/src/action/registry.ts:78 | removing keeps the ids consistent, and a job that is not active is gone afterwards |
| Brokers.NonRepeating | packages/internal/action/src/runtime.ts:231 | exactly the jobs without a repeat option |
| Brokers.DropRepeatable | packages/internal/action/src/runtime.ts:221-236 | every queue keeps exactly its non-repeating jobs |
| Brokers.DropRepeatableClean | packages/internal/action/src/runtime.ts:231 | afterwards no repeating job remains, and cleaning again changes nothing |
| Queues.MemoIdempotent | packages/internal/action/src/queue.ts:32-82 | a get-or-create returns on a second call what it returned on the first and leaves the table as it was |
| Queues.MemoOnlyAdds | packages/internal/action/src/queue.ts:32-82 | a get-or-create adds at most the requested name and keeps every other entry |
| Queues.Queue.constructor | packages/internal/action/src/queue.ts:11-17 | a new queue holds its connection, and no queues, workers or event listeners |
| Queues.Queue.GetOrCreateQ | packages/internal/action/src/queue.ts:32-41 | returns the existing queue for the name, or a new distinct one that is recorded; nothing else changes |
| Queues.Queue.GetOrCreateWorker | packages/internal/action/src/queue.ts:43-65 | returns the existing worker for the name, or records a new one running that handler with those settings |
| Queues.Queue.GetOrCreateQEvents | packages/internal/action/src/queue.ts:67-82 | returns the existing event listener for the name, or records a new distinct one |
| Queues.Queue.ScheduleJob | packages/internal/action/src/queue.ts:19-23 | the named queue exists afterwards and the broker gains exactly the job `Add` describes, whose id is returned |
| Queues.Queue.CancelJobById | packages/internal/action/src/runtime.ts:134 | the broker changes as `Cancel` says and the result says whether a job was cancelled |
| Queues.Queue.CleanAllRepeatableJobs | packages/internal/action/src/runtime.ts:231 | the broker loses exactly its repeating jobs |
| Queues.Queue.Clean | packages/internal/action/src/queue.ts:93-103 | the queue, worker and event tables are emptied; the jobs already in the broker stay |
| JsValues.Coalesce | packages/internal/error/src/error/app-error.ts:28-33 | `v ?? d`: the default exactly when the value is null or undefined |
| JsValues.Spread | packages/internal/error/src/error/helpers/index.ts:17 | `{...base, ...over}`; `SpreadLookup` and `SpreadKeys` state its lookups and keys |
| JsValues.SpreadLookup | packages/internal/error/src/error/helpers/index.ts:17 | in `{...base, ...over}` a key of `over` reads its value there and every other key reads the base's |
| JsValues.SpreadKeys | packages/internal/error/src/error/helpers/index.ts:17 | the spread object has the keys of both, the base's first in their order |
| JsValues.PutLookup | packages/internal/action/src/action/module.ts:217-222 | `result[key] = x` sets that key and leaves every other key's value |
| AppErrors.TypeOfName | packages/internal/error/src/error/__defs__/index.ts:1-12 | a name that resolves gives the error type carrying it, and a name that does not is carried by none of the seven types |
| AppErrors.TypeNameInjective | packages/internal/error/src/error/__defs__/index.ts:1-12 | every error type's name resolves back to it |
| AppErrors.DefCode | packages/internal/error/src/error/app-error.ts:33 | `AppErrorTypeDef[type].code`: the type's code for a listed type; an inherited `Object.prototype` key gives `undefined`; any other name throws |
| AppErrors.NewAppError | packages/internal/error/src/error/app-error.ts:15-46 | null or undefined options throw; the message is the option's; type and data are never nullish and action never null once defaulted; a given code is kept; with neither type nor code the error is INTERNAL with code 500 |
| AppErrors.TypedConstruction | packages/internal/error/src/error/app-error.ts:15-46 | an error built from a listed type and a message has that type's code, `{}` data and no action |
| AppErrors.MakeError | packages/internal/error/src/error/helpers/index.ts:7-9 | `makeError({type, message})` is the constructed error with the type's name and code and the message |
| AppErrors.ToJson | packages/internal/error/src/error/app-error.ts:48-58 | the development form has exactly the keys `name`, `action`, `type`, `message`, `data`, `code`, each reading the error's own field (`stack` left out) |
| AppErrors.ToProdJson | packages/internal/error/src/error/app-error.ts:60-65 | the production form has exactly `type` and `message`, the error's own |
| AppErrors.FallbackIsConstructed | packages/internal/error/src/error/app-error.ts:74-77 | the fallback is the INTERNAL error whose message is the reason |
| AppErrors.FromActionFailReason | packages/internal/error/src/error/app-error.ts:67-79 | a reason that is not JSON gives the fallback; a JSON reason the constructor accepts gives that error |
| AppErrors.TypedOptions | packages/internal/error/src/error/app-error.ts:15-46 | options naming a listed type give that type, the message, the action and data (with defaults) and the type's code unless one is given |
| AppErrors.EnvelopeParses | packages/internal/error/src/error/helpers/index.ts:11-18 | the message `preMakeActionError(action)(input)` throws is JSON of the input with the action added |
| AppErrors.EnvelopeLookup | packages/internal/error/src/error/helpers/index.ts:17 | that object reads the action under `action` and the input under every other key |
| AppErrors.ActionErrorRoundTrip | packages/internal/error/src/error/helpers/index.ts:11-18 | an action error rebuilt by `fromActionFailReason` has the type, message and action it was raised with |
| AppErrors.NumericReason | packages/internal/error/src/error/app-error.ts:67-79 | the reason `123` parses to a number, which builds an INTERNAL error with no message and code 500, not the fallback |
| AppErrors.UnknownTypeFallsBack | packages/internal/error/src/error/app-error.ts:33-78 | a JSON reason with an unlisted type and no code makes the constructor throw, so the fallback is returned |
| ParseErrors.PrismaResponse | packages/internal/error/src/error/helpers/parse-error.ts:47-71 | P2002, P2003 and P2025 give CONFLICT 409, BAD_REQUEST 400 and NOT_FOUND 404 with their messages; any other code gives none |
| ParseErrors.FormatError | packages/internal/error/src/error/helpers/parse-error.ts:14-15 | both forms expose the error's type and message; in production nothing else, outside it also the data, code and action |
| ParseErrors.FormatInternalError | packages/internal/error/src/error/helpers/parse-error.ts:17-20 | in production the body is only the generic message; outside it the error's message and its whole `toJSON()` form |
| ParseErrors.ParseError | packages/internal/error/src/error/helpers/parse-error.ts:22-86 | an AppError with code 500 gets the internal body; another AppError its own code (500 when missing); a message mentioning `type` is rebuilt as an action error; an object without a message is sent as JSON; any other message is sent as `{error}` with 500 |
| ParseErrors.PrismaStatuses | packages/internal/error/src/error/helpers/parse-error.ts:42-78 | a Prisma error gets 409, 400 or 404 for its three codes and 500 for any other |
| ParseErrors.FailReasonBeforePrisma | packages/internal/error/src/error/helpers/parse-error.ts:36-39 | a message mentioning `type` is handled as an action error even for a Prisma P2002 error |
| ParseErrors.NotJson | packages/internal/error/src/error/helpers/parse-error.ts:37 | the text `unknown type` is not JSON |
| ParseErrors.MembersMention | packages/internal/error/src/error/helpers/parse-error.ts:36 | the JSON of an object holds the quoted name of each key it writes |
| ParseErrors.EnvelopeMentionsType | packages/internal/error/src/error/helpers/parse-error.ts:36 | an action error's message always contains `type` |
| ParseErrors.ObjectMentionsType | packages/internal/error/src/error/helpers/parse-error.ts:36 | JSON of an object with a written `type` key contains `type` |
| ParseErrors.ActionErrorResponse | packages/internal/error/src/error/helpers/parse-error.ts:31-39 | an action error reaching `parseError` is answered with its own type and message and its type's status code |
| Json.Stringify | packages/internal/error/src/error/helpers/index.ts:12 | `JSON.stringify`, undefined for undefined and functions; `ParseStringify` states that `Parse` reads its text back |
| Json.Parse | packages/internal/action/src/action/registry.ts:161 | `JSON.parse`, None where it throws; `ParseStringify` and `Registries.CompletionSpec` state what it returns |
| Json.ParseStringify | packages/internal/error/src/error/helpers/index.ts:12 | `JSON.parse` of `JSON.stringify(v)` gives `v` back for every plain value (no undefined, functions or repeated keys) |
| Json.ValueRoundTrip | packages/internal/error/src/error/app-error.ts:68-71 | the parser reads back a serialized value followed by any delimiter and leaves the rest |
| Json.StringRoundTrip | packages/internal/cache-utils/src/cache-utils/cache-key-builder.ts:109 | a quoted, escaped string parses back to the same characters |
| Json.NumberRoundTrip | packages/internal/error/src/error/app-error.ts:68-71 | the decimal text of an integer parses back to that number |
| Json.ObjectRoundTrip | packages/internal/error/src/error/helpers/index.ts:12 | a serialized object with distinct keys parses back to the same members in the same order |
| Json.ArrayRoundTrip | packages/internal/error/src/error/helpers/index.ts:12 | a serialized array parses back to the same items |
| Json.EscapeUnescaped | packages/internal/cache-utils/src/cache-utils/cache-key-builder.ts:109 | a string with nothing to escape is written unchanged between its quotes |
| UrlEncoding.Utf8RoundTrip | packages/internal/cache-utils/src/cache-utils/cache-key-builder.ts:83 | the UTF-8 bytes of a string decode back to it |
| UrlEncoding.EncodeURIComponent | packages/internal/cache-utils/src/cache-utils/cache-key-builder.ts:83 | `encodeURIComponent` output holds only unreserved characters and `%` escapes |
| UrlEncoding.FormEncode | modules/auth/api/src/helpers/index.ts:31 | `searchParams.append` writes only unreserved characters, `+` and `%` escapes |
| UrlEncoding.EncodeBytesRoundTrip | packages/internal/cache-utils/src/cache-utils/cache-key-builder.ts:83 | percent-decoding the encoded bytes gives the bytes back |
| UrlEncoding.EncodeRoundTrip | packages/internal/cache-utils/src/cache-utils/cache-key-builder.ts:83 | both encodings decode back to the original string |
| UrlEncoding.NoDelimiters | modules/auth/api/src/helpers/index.ts:15-31 | an encoded name or value holds no `&`, `=`, `#` or `?` (no `:` for the component form), so it cannot split a query |
| UrlEncoding.PlainFormEncode | modules/auth/api/src/helpers/index.ts:15-31 | a string of letters, digits and `_` is written unchanged |
| StringUtils.ToUpper | packages/internal/string-utils/src/index.ts:127 | `toUpperCase` maps every character by the ASCII upper-case map and keeps the length |
| StringUtils.ToLower | packages/internal/string-utils/src/index.ts:34 | `toLowerCase` maps every character by the ASCII lower-case map and keeps the length |
| StringUtils.Capitalize | packages/internal/string-utils/src/index.ts:4-6 | the first character is upper-cased, every later one lower-cased, the length kept |
| StringUtils.CapitalizeShape | packages/internal/string-utils/src/index.ts:4-6 | a capitalized word begins with no lower-case letter, has no upper-case letter after it, and capitalizing it again changes nothing |
| StringUtils.ToCamelCase | packages/internal/string-utils/src/index.ts:19-23 | `toCamelCase`: a separator run is dropped and the next character upper-cased, then a leading capital lower-cased; stated by `CamelJoins` and `AlnumCase`, and `ToPascalCase` builds on it |
| StringUtils.AlnumCase | packages/internal/string-utils/src/index.ts:19-28 | an alphanumeric word keeps its tail; camel case lower-cases and Pascal case upper-cases its first character |
| StringUtils.CamelJoins | packages/internal/string-utils/src/index.ts:21 | a run of separators between two words is dropped and the next character is upper-cased |
| StringUtils.ToPascalCase | packages/internal/string-utils/src/index.ts:25-28 | Pascal case is camel case with the first character upper-cased |
| StringUtils.ToKebabCase | packages/internal/string-utils/src/index.ts:30-35 | the result has no upper-case letter, space or underscore |
| StringUtils.KebabKeepsWords | packages/internal/string-utils/src/index.ts:30-35 | without its dashes the result is the input's word characters lower-cased: nothing else is added or lost |
| StringUtils.KebabSplitsCamelHump | packages/internal/string-utils/src/index.ts:32 | a lower-case letter followed by an upper-case one is split by a dash and the second lower-cased |
| StringUtils.TruncateAsWritten | packages/internal/string-utils/src/index.ts:44-51 | `truncate` as written, negative slice end included; `TruncateAsWrittenGrows` shows it can outgrow its input and `TruncateAgrees` that it matches `Truncate` once the limit covers the suffix |
| StringUtils.TruncateAsWrittenGrows | packages/internal/string-utils/src/index.ts:50 | `truncate("hello world", 2)` gives `"hello worl..."`, longer than its input |
| StringUtils.Truncate | packages/internal/string-utils/src/index.ts:44-51 | input within the limit is returned unchanged; longer input gives a prefix of it followed by the suffix, `max(length, suffix.length)` long |
| StringUtils.TruncateAgrees | packages/internal/string-utils/src/index.ts:44-51 | when the limit is at least the suffix's length the corrected and as-written forms agree |
| StringUtils.Pluralize | packages/internal/string-utils/src/index.ts:130-138 | the singular exactly when the count is 1, otherwise the plural |
| StringUtils.EscapeHtml | packages/internal/string-utils/src/index.ts:69-79 | `escapeHtml`: each of `& < > " '` becomes its entity; `EscapeHtmlSafe` and `EscapeHtmlRoundTrip` state what the result means |
| StringUtils.EscapeHtmlSafe | packages/internal/string-utils/src/index.ts:69-79 | the escaped text holds none of `< > " '` and every `&` starts an entity |
| StringUtils.EscapeHtmlRoundTrip | packages/internal/string-utils/src/index.ts:69-79 | decoding the five entities gives the original text back |
| StringUtils.StripHtml | packages/internal/string-utils/src/index.ts:65-67 | the result holds only characters of the input |
| StringUtils.StripHtmlNoTags | packages/internal/string-utils/src/index.ts:65-67 | no `<` in the result is followed by a `>`: no tag is left |
| StringUtils.StripHtmlPlain | packages/internal/string-utils/src/index.ts:65-67 | text with no `<` is returned unchanged |
| StringUtils.Slugify | packages/internal/string-utils/src/index.ts:53-58 | `slugify`: lower-case, collapse runs outside `[a-z0-9]` into a dash, trim dashes; `SlugifyIsSlug`, `SlugifyKeeps` and `SlugifyIdempotent` state the result |
| StringUtils.SlugifyIsSlug | packages/internal/string-utils/src/index.ts:53-58 | the slug holds only `[a-z0-9-]`, has no leading or trailing dash and no two dashes in a row |
| StringUtils.SlugifyIdempotent | packages/internal/string-utils/src/index.ts:53-58 | slugifying a slug changes nothing |
| StringUtils.SlugifyKeeps | packages/internal/string-utils/src/index.ts:53-58 | without its dashes the slug is exactly the lower-cased input's letters and digits |
| StringUtils.BaseCharset | packages/internal/string-utils/src/index.ts:105-108 | with no options the charset is the letters then the digits |
| StringUtils.Exclude | packages/internal/string-utils/src/index.ts:114-119 | the filtered charset keeps exactly the characters `exclude` does not list |
| StringUtils.PickChars | packages/internal/string-utils/src/index.ts:121-125 | each byte picks `charset[byte % charset.length]`; an empty charset picks `"undefined"` each time |
| StringUtils.NumberStringGeneratorAsWritten | packages/internal/string-utils/src/index.ts:99-128 | as written: the error is thrown exactly when no character set is enabled, before `exclude` is applied; an emptied charset yields `"undefined"` repeated |
| StringUtils.ExcludeEverything | packages/internal/string-utils/src/index.ts:110-119 | excluding every digit from a digits-only charset passes the emptiness check and leaves nothing to pick from |
| StringUtils.UndefinedPicksTooLong | packages/internal/string-utils/src/index.ts:124 | then the output is nine times the requested length |
| StringUtils.Charset | packages/internal/string-utils/src/index.ts:105-119 | the character set after the enabled groups and a non-empty `exclude`; `Exclude` and `NumberStringGenerator` state what it holds and when it is empty |
| StringUtils.NumberStringGenerator | packages/internal/string-utils/src/index.ts:99-128 | an empty charset throws and nothing else does; otherwise exactly `characterLength` characters, each the byte's pick and each in the cased charset |
| Runtimes.UnionAll | packages/internal/action/src/runtime.ts:20 | `new Map(modules.flatMap(...))`; `UnionAllHas` and `UnionAllLastWins` state which names it holds and whose action wins |
| Runtimes.UnionAllHas | packages/internal/action/src/runtime.ts:20 | a name is in the runtime's action table exactly when some module registers it |
| Runtimes.UnionAllLastWins | packages/internal/action/src/runtime.ts:20 | when several modules register a name, the last module's action is kept (`new Map` over the flattened entries) |
| Runtimes.ConcatAll | packages/internal/action/src/runtime.ts:22 | every module's cron names are in the concatenation |
| Runtimes.Concurrency | packages/internal/action/src/runtime.ts:87 | a worker's concurrency is the action's setting, or 10 without one (also lines 158) |
| Runtimes.Payload | packages/internal/action/src/runtime.ts:114 | a job's payload is the object `{context, input}` holding exactly the given values (also line 164) |
| Runtimes.CronPattern | packages/internal/action/src/runtime.ts:153 | `CRON[cron]`: the table's pattern for a known name, undefined otherwise |
| Runtimes.NotRegistered | packages/internal/action/src/runtime.ts:75-78 | the error for an unregistered action is INTERNAL, code 500, with the message naming the action |
| Runtimes.SchedulePlan | packages/internal/action/src/runtime.ts:66-110 | what `scheduleJob` decides; `SchedulePlanSpec` states the order of the checks and the accepted job's options |
| Runtimes.SchedulePlanSpec | packages/internal/action/src/runtime.ts:66-110 | the checks run in order (no queue, then unregistered action, then a time not in the future); an accepted job is delayed by exactly the time left and neither repeats nor is removed on completion |
| Runtimes.JobOptions | packages/internal/action/src/runtime.ts:102-110 | the options `scheduleJob` enqueues with; `JobOptionsRetry` states where attempts and backoff come from |
| Runtimes.JobOptionsRetry | packages/internal/action/src/runtime.ts:102-110 | `jobRetry` sets `attempts` and, when present, the backoff; without it neither is set |
| Runtimes.CronKey | packages/internal/action/src/runtime.ts:193-208 | a name has a cron key exactly when it is registered and its settings name a cron, and the key is that cron |
| Runtimes.CronOpts | packages/internal/action/src/runtime.ts:165-169 | a cron job repeats on the table's pattern and has no delay, attempts or backoff |
| Runtimes.Occurrences | packages/internal/action/src/runtime.ts:45-47 | how often a name occurs among the cron names, 0 exactly when it is absent |
| Runtimes.CronJobs | packages/internal/action/src/runtime.ts:137-173 | the broker after `#startCron` ran for each name; `CronJobsAdds`, `CronJobsValid` and `CronJobsStep` state its jobs |
| Runtimes.CronJobsValid | packages/internal/action/src/runtime.ts:43-48 | starting the crons keeps the broker's ids consistent |
| Runtimes.CronJobsAdds | packages/internal/action/src/runtime.ts:137-173 | starting the crons keeps every queue's jobs and appends one repeating job with the cron payload per occurrence of a valid cron name, and none for other names (also lines 43-48) |
| Runtimes.CronJobsStep | packages/internal/action/src/runtime.ts:45-47 | running one more cron name extends the fold by that name |
| Runtimes.DropRepeatableValid | packages/internal/action/src/runtime.ts:231 | dropping repeating jobs keeps the ids consistent |
| Runtimes.Gather | packages/internal/action/src/runtime.ts:20-22 | the loop over the modules yields the union of their action tables and the concatenation of their cron lists |
| Runtimes.Runtime.constructor | packages/internal/action/src/runtime.ts:13-17 | a new runtime has no actions, no crons and no queue |
| Runtimes.Runtime.Init | packages/internal/action/src/runtime.ts:19-23 | the action table is replaced by the modules' union, the cron names are appended to the existing list, and the queue is set |
| Runtimes.Runtime.GetHandler | packages/internal/action/src/runtime.ts:50-52 | the registered action's handler, or none for an unknown name |
| Runtimes.StartCronStep | packages/internal/action/src/runtime.ts:146-160 | one `#startCron` memoizes a valid cron action's queue and worker and leaves the tables alone otherwise, so the tables extend the old ones by the cron set of one more name |
| Runtimes.Runtime.StartCron | packages/internal/action/src/runtime.ts:137-173 | with a usable queue and a cron action, the queue and worker tables are the `getOrCreateQ` and `getOrCreateWorker` memos of the old ones (a new worker runs the action's handler with its concurrency), the events table is unchanged, and one repeating job is added; otherwise the queue is untouched |
| Runtimes.Runtime.StartCrons | packages/internal/action/src/runtime.ts:43-48 | with a usable queue the broker gains the jobs of `CronJobs` for the cron list, both tables keep every old entry and gain exactly the valid cron actions (`Extends`, `CronSet`), each new worker runs its action's handler with its concurrency (`CronWorkers`), and the events table is unchanged; otherwise nothing changes |
| Runtimes.Runtime.Start | packages/internal/action/src/runtime.ts:25-41 | nothing happens with no actions, when testing, or without a connection; otherwise repeating jobs are dropped first, then every cron job is added and every valid cron action gets its queue and worker as in `StartCrons`, old entries and the events table kept (also lines 175-177, 221-236) |
| Runtimes.Runtime.ScheduleJob | packages/internal/action/src/runtime.ts:58-122 | fails exactly as the plan says, adding no job; past the queue and registration checks the queue and worker tables are the `getOrCreateQ` and `getOrCreateWorker` memos of the old ones and the events table is unchanged; an accepted job with `{context, input}` and the planned options is added to the broker and its id returned |
| Runtimes.Runtime.CancelScheduledJob | packages/internal/action/src/runtime.ts:124-135 | false without a usable queue; otherwise the broker's cancel, nothing else changing |
| Runtimes.Runtime.Shutdown | packages/internal/action/src/runtime.ts:238-256 | the queue's tables are emptied with its jobs kept, and the action table and the cron list end empty |
| Registries.TimeoutOptionsGets | packages/internal/action/src/action/registry.ts:80-84 | the timeout error's options give type INTERNAL, the message naming the job id, the action, and no code or data |
| Registries.TimeoutErrorSpec | packages/internal/action/src/action/registry.ts:79-85 | `new AppError` of those options is the INTERNAL error with code 500 naming the job |
| Registries.Completion | packages/internal/action/src/action/registry.ts:160-164 | the value a completed caller gets; `CompletionSpec` states it is the decoded return value, or the raw text |
| Registries.CompletionSpec | packages/internal/action/src/action/registry.ts:160-164 | a JSON-encoded return value is resolved as the decoded value; a return value that is not JSON is resolved as the raw string |
| Registries.FailureError | packages/internal/action/src/action/registry.ts:200-218 | the error a failed caller gets; `FailureErrorSpec` states its data, type and message |
| Registries.FailureErrorSpec | packages/internal/action/src/action/registry.ts:200-218 | the failure error always carries the pending job's data; a reason that parses as an error keeps its type and message; any other reason becomes an INTERNAL error whose message is the reason |
| Registries.IdsPerQueue | packages/internal/action/src/action/registry.ts:44-73 | job ids are counted per queue: adding to another queue does not change the id the next job of a queue receives |
| Registries.AddFreshCall | packages/internal/action/src/action/registry.ts:70-88 | a new call's job id is held by no armed or settled caller of that queue |
| Registries.AddJobKeeps | packages/internal/action/src/action/registry.ts:41-53 | recording a background job keeps the registry consistent |
| Registries.CallJobKeeps | packages/internal/action/src/action/registry.ts:66-98 | recording an action call and arming its timer keeps the registry consistent |
| Registries.SettleKeeps | packages/internal/action/src/action/registry.ts:77 | settling an armed caller once, clearing its timer and its entry, keeps the registry consistent, and no caller is settled twice (also lines 159, 167, 195-197) |
| Registries.DropBackgroundKeeps | packages/internal/action/src/action/registry.ts:167-197 | deleting a background job's entry keeps the registry consistent |
| Registries.ActionRegistry.constructor | packages/internal/action/src/action/registry.ts:18-23 | a new registry has no queues, workers, listeners, pending jobs, timers or settlements |
| Registries.ActionRegistry.RegisterQueue | packages/internal/action/src/action/registry.ts:25-27 | records the queue under the action; nothing else changes, the handle counter included |
| Registries.ActionRegistry.RegisterWorker | packages/internal/action/src/action/registry.ts:29-31 | records the worker under the action; nothing else changes |
| Registries.ActionRegistry.GetQueue | packages/internal/action/src/action/registry.ts:33-35 | the queue recorded for the action, or none |
| Registries.ActionRegistry.GetWorker | packages/internal/action/src/action/registry.ts:37-39 | the worker recorded for the action, or none |
| Registries.ActionRegistry.GetOrCreateQueue | packages/internal/action/src/action/registry.ts:100-114 | returns the action's queue, creating and recording one on first use; nothing else changes |
| Registries.ActionRegistry.GetOrCreateQueueEvents | packages/internal/action/src/action/registry.ts:116-143 | returns the action's event listener, creating and recording one on first use (the handle counter moves only then); nothing else changes |
| Registries.ActionRegistry.AddJob | packages/internal/action/src/action/registry.ts:41-64 | with the broker up, the job is added with no options of its own and recorded as a background job under its id; with it down, `QueueConnectionError` is thrown and nothing but the queue table changes |
| Registries.ActionRegistry.CallJob | packages/internal/action/src/action/registry.ts:66-98 | the job is added with `removeOnComplete` and priority 0, recorded as an action call, and its caller's timer armed for 30000 ms from now under a fresh call; the queue and event-listener tables become their get-or-create results for the action; a broker failure is thrown through |
| Registries.ActionRegistry.FireTimeout | packages/internal/action/src/action/registry.ts:76-86 | when the timer fires, the pending entry and timer are removed, the job is removed from the broker, and the caller is rejected with the timeout error |
| Registries.ActionRegistry.HandleCompleted | packages/internal/action/src/action/registry.ts:145-168 | an unknown id changes nothing; otherwise the entry is deleted and an action call's timer cleared and its caller resolved with the parsed return value |
| Registries.ActionRegistry.HandleFailed | packages/internal/action/src/action/registry.ts:170-235 | an unknown id changes nothing; otherwise the entry is deleted and only an action call's caller is rejected, with the failure error, its timer cleared |
| Registries.ActionRegistry.Cleanup | packages/internal/action/src/action/registry.ts:237-284 | the queue, worker and listener tables are emptied; pending jobs and the broker are kept |
| ActionDefs.ActionDef.constructor | packages/internal/action/src/__defs__/action-def.ts:14-16 | a new definition has its name, no schemas, no settings, and is not async |
| ActionDefs.ActionDef.Input | packages/internal/action/src/__defs__/action-def.ts:18-23 | sets the input schema, changes nothing else and returns the same definition |
| ActionDefs.ActionDef.Output | packages/internal/action/src/__defs__/action-def.ts:25-30 | sets the output schema, changes nothing else and returns the same definition |
| ActionDefs.ActionDef.Async | packages/internal/action/src/__defs__/action-def.ts:32-35 | marks the definition async, changes nothing else and returns it |
| ActionDefs.ActionDef.SetSettings | packages/internal/action/src/__defs__/action-def.ts:37-40 | replaces the settings, changes nothing else and returns the same definition |
| Flatten.Path | packages/internal/action/src/helpers/object.ts:29 | a path is the key alone under an empty prefix, otherwise `prefix.key` |
| Flatten.Put | packages/internal/action/src/helpers/object.ts:32 | `result[path] = value` keeps an existing path in place with the new value, appends a new path, and keeps paths unique |
| Flatten.PutMatches | packages/internal/action/src/helpers/object.ts:28-36 | the entries loop keeps every earlier path, stores every accepted entry under its path, and keeps paths unique |
| Flatten.PutMatchesSound | packages/internal/action/src/helpers/object.ts:28-36 | every pair the entries loop adds is an accepted entry of the object, stored with its value under its path |
| Flatten.PutMatchesStep | packages/internal/action/src/helpers/object.ts:31-32 | one more entry stores its value under its path exactly when it is accepted |
| Flatten.CoveredStep | packages/internal/action/src/helpers/object.ts:33-35 | a rejected entry that is an object is pushed onto the stack |
| Flatten.PushedFromStep | packages/internal/action/src/helpers/object.ts:34 | a pushed frame carries the object and its path as prefix |
| Flatten.ExpandEntry | packages/internal/action/src/helpers/object.ts:28-36 | one iteration of the entries loop: the result gains the entry when accepted, and an unaccepted object is pushed with its path |
| Flatten.ExpandEntries | packages/internal/action/src/helpers/object.ts:28-36 | the entries loop stores every accepted entry and pushes every unaccepted object with its path |
| Flatten.PopVisited | packages/internal/action/src/helpers/object.ts:21-25 | popping an object already visited keeps the stack and coverage invariants |
| Flatten.ExpandStack | packages/internal/action/src/helpers/object.ts:21-36 | expanding the top object keeps every stacked frame reachable from the root under its path |
| Flatten.ExpandParents | packages/internal/action/src/helpers/object.ts:26 | every visited object other than the root was pushed by a rejected entry of a parent visited before it, under that entry's path |
| Flatten.ExpandAccepted | packages/internal/action/src/helpers/object.ts:28-36 | every accepted entry of every visited object is in the result |
| Flatten.ExpandSound | packages/internal/action/src/helpers/object.ts:28-36 | every stored pair stays an accepted entry of a visited object under its path when one more object is visited |
| Flatten.ExpandRejected | packages/internal/action/src/helpers/object.ts:33-35 | every unaccepted object under a visited object is visited or still on the stack |
| Flatten.PopStep | packages/internal/action/src/helpers/object.ts:21-25 | the `continue` on a visited object keeps the loop invariant |
| Flatten.ExpandTraversal | packages/internal/action/src/helpers/object.ts:21-36 | visiting the top object keeps the stack, parent and coverage bookkeeping |
| Flatten.ExpandRecord | packages/internal/action/src/helpers/object.ts:28-36 | visiting the top object keeps the result exactly the accepted entries of the visited objects, each path once |
| Flatten.VisitShrinks | packages/internal/action/src/helpers/object.ts:26 | visiting an unvisited object leaves fewer objects to visit, so the outer loop ends |
| Flatten.ExpandStep | packages/internal/action/src/helpers/object.ts:21-36 | expanding an unvisited object keeps the loop invariant |
| Flatten.ExpandTop | packages/internal/action/src/helpers/object.ts:21-36 | one iteration of the outer loop on an unvisited object keeps the invariant and visits one more object |
| Flatten.FlattenDone | packages/internal/action/src/helpers/object.ts:20-39 | with the stack empty, the invariant gives `Flattened`: the root is visited under the prefix; each visited object other than the root was reached through a rejected entry of a parent visited before it, under that entry's path; every object a rejected reference leads to is visited; every accepted entry of a visited object has its path in the result; every stored pair is such an entry with its value; each path once |
| Flatten.FlattenObject | packages/internal/action/src/helpers/object.ts:9-40 | the result is what `Flattened` describes: complete (every accepted entry of a visited object is under its dotted path) and sound (every stored pair is an accepted entry of a visited object under its path), each path once; the visited objects are closed under rejected references and each was reached from the root through its parents |
| Flatten.ExpandedReachable | packages/internal/action/src/helpers/object.ts:20-36 | every visited object is reachable from the root through rejected references |
| Flatten.ReachableExpanded | packages/internal/action/src/helpers/object.ts:20-36 | every object reachable from the root through rejected references is visited |
| Flatten.ExpandedIffReachable | packages/internal/action/src/helpers/object.ts:20-36 | the visited objects are exactly those reachable from the root through references the predicate rejects, so the result holds the accepted entries of exactly those objects |
| Flatten.FlattenActionGroup | packages/internal/action/src/helpers/object.ts:3-4 | `Flattened` with `instanceof ActionDef` as the predicate and an empty prefix: exactly the definitions reachable through nested plain objects, under their dotted paths, each path once |
| Flatten.FlattenActionHandlers | packages/internal/action/src/helpers/object.ts:6-7 | `Flattened` with `typeof value === 'function'` as the predicate and an empty prefix: exactly the functions reachable through nested plain objects, under their dotted paths, each path once |
| ActionModules.DefinitionNotFound | packages/internal/action/src/module.ts:66-78 | the error for an unknown handler key is INTERNAL, code 500, with the source's message |
| ActionModules.Merge | packages/internal/action/src/module.ts:61-86 | the merge fails only with the not-found error |
| ActionModules.MergeKeepsDefs | packages/internal/action/src/module.ts:81-84 | merging keeps the set of actions and every action's definition |
| ActionModules.MergeErrorIff | packages/internal/action/src/module.ts:62-79 | the merge throws exactly when some handler key is not a known action path |
| ActionModules.MergeStopsAtFirstUnknown | packages/internal/action/src/module.ts:62-79 | handlers before the first unknown key are attached, none after it |
| ActionModules.Targets | packages/internal/action/src/module.ts:63 | the action names the handler keys resolve to |
| ActionModules.MergeUntouched | packages/internal/action/src/module.ts:61-86 | an action that no handler targets is left as it was |
| ActionModules.MergeAttaches | packages/internal/action/src/module.ts:81-84 | after a successful merge, each action carries the last handler given for it |
| ActionModules.CronNames | packages/internal/action/src/module.ts:35-37 | every definition with a cron schedule contributes its name to the cron list |
| ActionModules.HandlerEntries | packages/internal/action/src/module.ts:42 | the flattened handlers as path and function pairs, in order |
| ActionModules.IndexActions | packages/internal/action/src/module.ts:29-38 | the constructor's loop maps every path to its definition's name, stores each name's last definition without a handler, and lists the cron definitions' names in order |
| ActionModules.IndexStep | packages/internal/action/src/module.ts:30-33 | one more entry keeps the tables indexed |
| ActionModules.BuildModule | packages/internal/action/src/module.ts:23-39 | the entries are `flattenActionGroup` of the group (`Flattened`: every reachable definition under its path, nothing else); every path maps to its definition's name, each name holds its last definition without a handler, and the cron list names, in path order, exactly the entries whose settings have a cron schedule |
| ActionModules.Module.constructor | packages/internal/action/src/module.ts:23-39 | the module has its name and the tables `BuildModule` describes, each cron flag being whether that entry's settings have a cron schedule |
| ActionModules.Module.GetHandler | packages/internal/action/src/module.ts:47-51 | the handler attached to the definition's name, or none |
| ActionModules.Module.MergeIntoAction | packages/internal/action/src/module.ts:61-86 | the actions and the error are those of `Merge`; the path table and cron list are kept |
| ActionModules.Module.RegisterHandlers | packages/internal/action/src/module.ts:41-45 | the handler pairs are `flattenActionHandlers` of the group (`Flattened`: every reachable function under its path with its identity, nothing else, each path once) and are merged as `Merge` says; the path table and cron list are kept |
| ActionModules.Module.ClearHandlers | packages/internal/action/src/module.ts:53-59 | every action keeps its definition and loses its handler |
| ActionModules.CronNamesStep | packages/internal/action/src/module.ts:35-37 | one more entry appends its name to the cron list exactly when it has a cron schedule |
| SyncHandlers.PropFieldsUnique | packages/internal/action/src/helpers/handlers.ts:16-25 | the props object has exactly the keys `logger`, `makeError` and `cacheKey` |
| SyncHandlers.GetActionProps | packages/internal/action/src/helpers/handlers.ts:16-27 | fails exactly for an action name the cache key rejects; otherwise the logger and `makeError` given, and the name with dots turned into colons as the cache-key prefix |
| SyncHandlers.HandlerArgsSpec | packages/internal/action/src/helpers/index.ts:24-27 | the handler's argument reads the props for those three keys and the data for every other key |
| SyncHandlers.NoHandlerOptionsGets | packages/internal/action/src/helpers/index.ts:13-18 | the error options carry the message naming the action, the action, type INTERNAL and the data, and no code |
| SyncHandlers.NoHandlerErrorSpec | packages/internal/action/src/helpers/index.ts:12-19 | `new AppError` of those options is the INTERNAL error naming the action, with code 500 and the data (`{}` when nullish) |
| SyncHandlers.ExecuteSyncHandler | packages/internal/action/src/helpers/index.ts:6-32 | `executeSyncHandler`; `ExecuteSyncHandlerSpec` states its outcome in each case |
| SyncHandlers.ExecuteSyncHandlerSpec | packages/internal/action/src/helpers/index.ts:6-32 | without a handler the call throws that error; with one, an invalid action name throws before the handler runs; otherwise the handler's value or exception passes through unchanged |
| SyncHandlers.WrapperArgsSpec | packages/internal/action/src/helpers/handlers.ts:6-14 | a worker's wrapped handler sees exactly the job's context and input beside the logger and `makeError` |
| ActionModulesV1.NestedSame | packages/internal/action/src/action/module.ts:208-216 | the recursive merge of a key depends only on what the result already holds under that key |
| ActionModulesV1.DeepMerge | packages/internal/action/src/action/module.ts:199-223 | the loop over the source's keys computes `Merged(target, source)` |
| ActionModulesV1.MergedUpToStep | packages/internal/action/src/action/module.ts:202-220 | one more source key replaces exactly that key of the result, with the nested merge for a plain object and the value itself otherwise |
| ActionModulesV1.MergedUpToAbsent | packages/internal/action/src/action/module.ts:200 | a key the source has not reached yet keeps the target's value |
| ActionModulesV1.MergedUpToPresent | packages/internal/action/src/action/module.ts:202-220 | a source key ends up holding its merged value |
| ActionModulesV1.MergedSpec | packages/internal/action/src/action/module.ts:199-223 | `deepMerge` keeps every key the source lacks; a key the source has holds the source's value merged into the target's (plain objects recursively, anything else replacing) |
| ActionModulesV1.EntrySpec | packages/internal/action/src/action/module.ts:236-242 | an action's entry carries its name and its handler when that is a function, `undefined` otherwise |
| ActionModulesV1.MergeNameAndHandler | packages/internal/action/src/action/module.ts:225-255 | the loop over the names computes `Structure(names, handlers)` |
| ActionModulesV1.StructureKeys | packages/internal/action/src/action/module.ts:231-252 | the structure has exactly the name keys whose value is a string or an object |
| ActionModulesV1.StructureLeaf | packages/internal/action/src/action/module.ts:235-242 | a string name becomes the entry of that name with the handler under the same key |
| ActionModulesV1.StructureAppend | packages/internal/action/src/action/module.ts:231-252 | one more name key appends its entry or nested structure, and nothing for any other value |
| ActionModulesV1.StructureObjects | packages/internal/action/src/action/module.ts:236-250 | every value in the structure is an object |
| ActionModulesV1.FindActionPath | packages/internal/action/src/action/module.ts:59-82 | the loop computes `FindPath` |
| ActionModulesV1.FindSound | packages/internal/action/src/action/module.ts:59-82 | a non-empty path found extends the current path and leads to the target name |
| ActionModulesV1.WalkFirst | packages/internal/action/src/action/module.ts:64-65 | a path that leads somewhere starts with a key of the structure |
| ActionModulesV1.FindComplete | packages/internal/action/src/action/module.ts:64-81 | when a key from the current position on leads to the target, the search finds a path |
| ActionModulesV1.FindPathComplete | packages/internal/action/src/action/module.ts:54-82 | whenever some path leads to the target name, the search returns a non-empty path |
| ActionModulesV1.GetNestedHandler | packages/internal/action/src/action/module.ts:84-103 | the loop computes `NestedHandler` |
| ActionModulesV1.NestedIsWalk | packages/internal/action/src/action/module.ts:84-103 | following the path gives the value there, or `undefined` when a step is missing |
| ActionModulesV1.NestedMissing | packages/internal/action/src/action/module.ts:91-99 | once a step is missing, the result is `undefined` whatever follows |
| ActionModulesV1.Handles | packages/internal/action/src/action/module.ts:183-189 | the workers created are numbered consecutively |
| ActionModulesV1.RegisterAllAppend | packages/internal/action/src/action/module.ts:190 | registering two lists of workers is registering the first and then the second |
| ActionModulesV1.RegisterAllSpec | packages/internal/action/src/action/module.ts:190 | after registration each action name maps to the worker created for its last occurrence; other names are unchanged |
| ActionModulesV1.HandlesAppend | packages/internal/action/src/action/module.ts:189 | consecutive runs of workers concatenate |
| ActionModulesV1.WorkerNamesPrefix | packages/internal/action/src/action/module.ts:155 | the worker names of the first keys do not depend on later keys |
| ActionModulesV1.EntryWorkerNames | packages/internal/action/src/action/module.ts:158-159 | an entry creates one worker for a non-empty name and none for an empty name |
| ActionModulesV1.GroupNotEntry | packages/internal/action/src/action/module.ts:158-192 | a nested structure is never mistaken for an entry, so it is walked recursively |
| ActionModulesV1.WorkersPerAction | packages/internal/action/src/action/module.ts:154-196 | starting creates exactly one worker per non-empty action name of the group, in the group's order (also lines 105-109, 225-255) |
| ActionModulesV1.WorkersPerActionUpTo | packages/internal/action/src/action/module.ts:154-196 | the same for the first keys of the group (also lines 231-252) |
| ActionModulesV1.RunWorker | packages/internal/action/src/action/module.ts:160-181 | the wrapped handler of an entry; `RunWorkerSpec` states what it passes and returns |
| ActionModulesV1.RunWorkerSpec | packages/internal/action/src/action/module.ts:160-181 | the wrapped handler passes the job's context and input; with a function handler its result passes through; without one it resolves to `{data: null, context: {}}` |
| ActionModulesV1.Module.constructor | packages/internal/action/src/action/module.ts:21-29 | a new module has its name and group, no handlers, no workers and is not started |
| ActionModulesV1.Module.RegisterHandlers | packages/internal/action/src/action/module.ts:31-33 | the handlers become the deep merge of the old handlers and the config; nothing else changes |
| ActionModulesV1.Module.GetHandler | packages/internal/action/src/action/module.ts:46-57 | the handler is found by following, through the handlers, the path of the action name in the group |
| ActionModulesV1.Module.AddWorker | packages/internal/action/src/action/module.ts:183-190 | one new worker is appended and registered under the action name; the registry's other state is unchanged |
| ActionModulesV1.Module.CreateWorkers | packages/internal/action/src/action/module.ts:154-196 | one worker per action entry of the structure is appended and registered under its name; nothing else in the registry changes |
| ActionModulesV1.Module.Start | packages/internal/action/src/action/module.ts:111-125 | a started module changes nothing; otherwise one worker per action of the merged structure is created and registered and the module is started |
| ActionModulesV1.Module.Stop | packages/internal/action/src/action/module.ts:127-152 | a started module drops its workers and stops; an unstarted one changes nothing |
| ActionModulesV1.RegisteredHandlerFound | packages/internal/action/src/action/module.ts:84-103 | a handler registered under a key is found again under that key (also lines 31-33) |
| ActionModulesV1.UnknownNameWholeTree | packages/internal/action/src/action/module.ts:46-102 | for a name the group does not hold, the path is empty and `getHandler` returns the whole handler object |

## Left out

- BullMQ itself (`Queue`, `Worker`, `QueueEvents` objects, Redis connections, `getRepeatableJobs`): the broker is an abstract value of per-queue job lists and id counters, and queue, worker and event objects are opaque handles compared by identity.
- `Queue.executeJob` (packages/internal/action/src/queue.ts:25-30): it awaits `waitUntilFinished` on the broker's event stream, which is I/O and concurrency.
- `Queue.CancelJobById`, `Queue.CleanAllRepeatableJobs`: `runtime.ts` calls `cancelJobById` and `cleanAllRepeatableJobsFromAllQueues`, but `queue.ts` in this revision defines neither. They are modelled as their names and call sites describe: remove the job with that id, and drop every repeatable job.
- Runtimes.Runtime.StartCrons: `forEach(async …)` starts every cron without awaiting it. The model runs them one after another, so interleavings of the awaits inside `#startCron` are not modelled.
- Timers: `setTimeout` in `callJob` becomes the time the timeout fires, stored with the pending entry. `FireTimeout` is the timer's callback, and `clearTimeout` removes the armed timer. Real time is not modelled.
- The `SIGINT`/`SIGTERM` handlers of `registry.ts` and the logger calls throughout: process signals and logging.
- Promises: a caller's promise is the log of its settlements (`outcomes`) in the registry. The `await` points of the async methods are not interleaved.
- `Date.now()`, `NODE_ENV`, `randomBytes`, handler calls and the provider factory are parameters. The model fixes nothing about their values.
- `getActionStructure` (packages/internal/action/src/action/helpers/group.ts) is not part of this model. The older `Module` of action/module.ts takes the structure it returns as given.
- The older `Module`'s `makeError` and `logger` values passed to handlers are opaque values. The contracts say only where they appear in the argument object.
- The commented-out `legacy/` directory of the action package, `action/action-def.ts`, `action.ts` and `utils.ts`: dead code or thin wrappers outside the modelled core.
- Flatten.FlattenObject: when two entries give the same dotted path, `Flattened` says the stored value is one of them, not that it is the last written. When an object is reachable along several paths, its entries get the path of the parent it was first expanded from, and `Flattened` does not say which parent that is.
- Flatten.FlattenActionGroup: states the same `Flattened`, so it has the same gaps as `Flatten.FlattenObject`: which of two definitions with the same dotted path is kept, and which parent a shared object's path comes from.
- Flatten.FlattenActionHandlers: an action definition met while flattening handlers is a leaf and is dropped. The source would walk its fields, since it is an object and not a function.
- Flatten.FlattenObject: only own enumerable properties are walked, as `Object.entries` does; prototype-chain properties are not visited. Arrays are graph objects keyed by their indices (`"0"`, `"1"`, ...) and are walked like any other object, as the source walks them; `Prim` holds only values that are not objects.
- The `in` operator and `obj[key]` on inherited properties: objects have no prototype chain. The only inherited names modelled are those of `Object.prototype` (`__proto__` included), which `AppErrors.DefCode`, `Extensions.GetContentTypeAsWritten` and `ParseErrors` consult where the source indexes a literal table.
- `{...data}` on data that is neither an object, an array nor a string spreads nothing (`SyncHandlers.OwnFields`). Boxed primitives and symbol keys are not modelled.
- Integer-like keys: `Object.keys`, `Object.entries` and `for…in` list keys that are array indices (`"0"`, `"12"`) first, in numeric order, and then the other keys in insertion order. The model lists every key in insertion order. This changes key order, not key sets or values, in `JsValues.Put`, `JsValues.SpreadKeys`, `Objects.Clean`, `CacheParams.SpreadPrefix`, `Flatten.FlattenObject` and the key order `Json.Stringify` writes.
- Registries.ActionRegistry.GetOrCreateQueue: the queue's `defaultJobOptions` (keep 100 completed and 50 failed jobs, one attempt; packages/internal/action/src/action/registry.ts:105-109) are not modelled. The broker model keeps every job and never retries one, so these defaults would change nothing it records.
- Registries.ActionRegistry.AddJob: the job's options are only those given at the call (none). The queue defaults BullMQ merges in are left out, as for `GetOrCreateQueue`.
- AppErrors.ToJson: `stack` is left out. The source makes it enumerable and serialises it in `toJSON()` (packages/internal/error/src/error/app-error.ts:41, 55), and `formatInternalError` adds it to the body too. Stack traces are runtime text that the model has no value for.
- Job ids are natural numbers standing for BullMQ's decimal id strings.
- Numbers are integers. Floating point, `NaN`, and JSON numbers with a fraction or an exponent are outside the model; `Json.Parse` rejects such text.
- Text is a sequence of code points. `toUpperCase`/`toLowerCase` change ASCII letters only, and sorting compares code points, which for keys below U+10000 orders as JavaScript's UTF-16 sort does.
- Json: `\u` escapes of surrogate halves are rejected by `Parse`, and `Stringify` writes characters as themselves except the escapes JSON requires.
- The Redis client's real connection, `getRedis` and its event handlers (infrastructure/redis/src/redis.ts outside `createMockRedis`): network I/O.
- `findManyWithPagination`'s database calls: the rows and the total count are parameters of `Pagination.FindManyWithPagination`.
- `agentInstructions` (the `ChatPromptTemplate` wrapper in format-agent-instructions.ts): a foreign prompt library. Only the formatted text is modelled.
- StringUtils.StripHtml: the contract states that every kept character comes from the input and that no tag is left, not the exact characters removed.
- `capitalizeWords`, `capitalizeFirst`, `toSnakeCase`, `isValidEmail`, `genereateRandomUuid` and `generateCuid` in string-utils: outside the modelled core; the last two are randomness from foreign libraries.

## Findings

| source | as written | input that shows it | evidently intended | confidence | as-written member | corrected member |
|---|---|---|---|---|---|---|
| packages/internal/string-utils/src/index.ts:50 | `str.slice(0, length - suffix.length) + suffix`; a limit shorter than the suffix gives a negative end, which counts from the back | `truncate("hello world", 2)` gives `"hello worl..."`, longer than the input | keep no characters of the input when the suffix alone exceeds the limit | medium, not executed | StringUtils.TruncateAsWrittenGrows | StringUtils.Truncate |
| packages/internal/string-utils/src/index.ts:110-124 | the empty-charset check runs before `exclude` filters the charset | `numberStringGenerator({characterLength: 2, outputOption: {letters: false, exclude: ["0",…,"9"]}})` returns `"undefinedundefined"` | throw `At least one character set must be enabled.` when filtering leaves nothing | high, not executed | StringUtils.ExcludeEverything | StringUtils.NumberStringGenerator |
| modules/assets/module/src/logic/extract-extension.ts:22 | `types[ext]` reads inherited `Object.prototype` members | `getContentType("constructor")` returns the `Object` function rather than a string | `application/octet-stream` for every extension not in the table | medium, not executed | Extensions.InheritedKeyIsNotAType | Extensions.GetContentType |
