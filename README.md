# Form-field conditions, lock-server bookkeeping and parser-output decisions

A Dafny model of three parts of a MediaWiki-based wiki.

* **HTML form fields** (`includes/htmlform/HTMLFormField.php`). This covers:
  * the hide-if / disable-if condition language: validation of the raw nested arrays, short-circuit evaluation against the submitted data, and the rewrite for the browser that replaces field keys with submission names;
  * the lookup of the field a condition names, including the `wp` back-compat fallback;
  * the field predicates `isHidden`, `isDisabled` and `validate`;
  * how the constructor derives the name, id, default and stored conditions;
  * the attribute list;
  * the memoised option list and its two array helpers.
* **The database lock manager** (`includes/libs/lockmanager/DBLockManager.php`). This covers:
  * the sanitised bucket configuration;
  * the lock expiry and safe delay;
  * the expiring "server recently down" cache;
  * the registry that keeps one connection per lock server;
  * the server probe;
  * merging per-type lock results;
  * teardown.
* **Parser-output access** (`includes/page/ParserOutputAccess.php`). This covers:
  * the option bits;
  * when the parser cache may be used;
  * the ordered precondition checks;
  * how the final status is built from the cache and the pool work;
  * the key the pool work is filed under.

Files:

| file | module | contents |
|---|---|---|
| `wrappers.dfy` | `Wrappers` | `Option`, `Result` |
| `php_values.dfy` | `PhpValues` | PHP values: scalars, ordered arrays, truthiness, `strval`, `isset`/`empty`/`??`, element assignment |
| `status_values.dfy` | `StatusValues` | the status object: OK flag, messages, value |
| `cond_state.dfy` | `CondState` | the condition language |
| `form_field.dfy` | `FormFields` | class `FormField` and the option helpers |
| `db_lock_manager.dfy` | `DBLockManagers` | class `LockManager` |
| `parser_output_access.dfy` | `ParserOutputAccess` | the parser-output decisions |

### Modelling choices

* **Values.** PHP values are `Value`: `Null`, `Bool`, `Int`, `Str`, or `Arr`, an ordered list of key/value items.
* **Conditions.** A condition array is validated once into a `Cond`. A field stores that `Cond` where the source stores the raw array. `CondState.ValidateToRaw` shows that nothing is lost: `Validate(ToRaw(c)) == Success(c)`.
* **Exceptions** become `Result` failures.
* **Parent form.** The form is seen through a table that maps each descriptor key to the field's data key, its submission name and whether it is an inverted check field.
* **Lock manager state.** `LockManager` holds the failure cache and the connection registry as fields, and its methods update them. A ghost `log` records the calls made on the driver, in order.
* **Clock.** Time is an explicit `now` argument.
* **Collaborators** are parameters: the connection factory (which receives the server's name, standing for that server's whole configuration, so different servers can fail or succeed independently) and initialiser, the per-type lock call, the parser cache's answer and key, the pool work's result, and the message lookups for options.

## Model

| member | source | states |
|---|---|---|
| CondState.ParseOperator | includes/htmlform/HTMLFormField.php:202-234 | only the seven operator strings are recognised; a recognised operator is exactly the string naming it |
| CondState.ParseOperatorName | includes/htmlform/HTMLFormField.php:202-234 | each operator's name is recognised as that operator |
| CondState.ValidateChildren | includes/htmlform/HTMLFormField.php:213-219 | a successful check of the parameters yields one condition per parameter |
| CondState.ValidateChildrenSpec | includes/htmlform/HTMLFormField.php:213-219 | the parameters pass iff every one is an array that validates |
| CondState.ValidateChildrenValues | includes/htmlform/HTMLFormField.php:213-219 | when the parameters pass, the results are their validations, one per parameter, in order |
| CondState.ValidateRules | includes/htmlform/HTMLFormField.php:197-235 | an empty array and an unknown operator are rejected as unknown operations; NOT valid iff exactly one parameter that is a valid array; AND/OR/NAND/NOR valid iff every parameter is a valid array, keeping order; `===`/`!==` valid iff exactly two string parameters |
| CondState.ValidateErrors | includes/htmlform/HTMLFormField.php:202-234 | NOT with other than one parameter fails with the NOT arity error; a comparison with other than two parameters fails with its arity error, with a non-string parameter with its string error, and otherwise yields the comparison of the two strings |
| CondState.ValidateFirstBadChild | includes/htmlform/HTMLFormField.php:213-219 | a combinator, or NOT with one parameter, fails with the error of its first parameter that is not an array (`ExpectedArray`) or does not validate (that parameter's error) |
| CondState.ValidateChildrenFirstBad | includes/htmlform/HTMLFormField.php:213-219 | the parameter loop stops at its first bad parameter, with that parameter's error |
| CondState.ValidateToRaw | includes/htmlform/HTMLFormField.php:197-235 | the array form of any condition validates back to that condition |
| CondState.ValidateChildrenOf | includes/htmlform/HTMLFormField.php:213-219 | parameters that are arrays validating to given conditions make the parameter loop yield exactly those conditions, in order |
| CondState.NearestFieldLookup | includes/htmlform/HTMLFormField.php:130-146 | a name the form has is found as is; with back-compat, a missing `wp`-prefixed name is looked up without those two letters; lookup succeeds iff one of the two is present; no parent, no field |
| CondState.NearestFieldValueSpec | includes/htmlform/HTMLFormField.php:159-174 | the value is the submitted data under the found field's `fieldname` key, null when absent; for display, an inverted check field reads as the negated truthiness of that value; fails iff the field is not found |
| CondState.CompareReadsSubmittedValue | includes/htmlform/HTMLFormField.php:159-174 | `===` "1" on an inverted check field holds iff its submitted value is not truthy; on another field `===` compares the submitted value's string form |
| CondState.EvalFromSpec | includes/htmlform/HTMLFormField.php:253-268 | the combinator loop returns the default result iff no child decides, returns its negation iff the first deciding child yields the check value, and fails iff a child fails before any decides |
| CondState.CombinatorTruth | includes/htmlform/HTMLFormField.php:253-271 | AND true iff all children true; OR false iff all false; NAND false iff all true; NOR true iff all false |
| CondState.EvalMatchesDenote | includes/htmlform/HTMLFormField.php:253-284 | when every named field exists, evaluation succeeds with the reference meaning: AND = all, OR = some, NAND = some false, NOR = none, NOT = negation, `===` = the nearest field's value as a string equals the given string, `!==` = it does not |
| CondState.CombineMatchesDenote | includes/htmlform/HTMLFormField.php:259-268 | a combinator whose children evaluate to their meanings evaluates to its own meaning |
| CondState.DenoteByChk | includes/htmlform/HTMLFormField.php:255-256 | the two lookup tables encode the combinators: a combinator means the negated return value iff some child means its check value, else the return value |
| CondState.FirstDeciding | includes/htmlform/HTMLFormField.php:263-267 | if some child decides the combinator, there is a first one and every earlier child yields the non-deciding value |
| CondState.NotSameNegatesSame | includes/htmlform/HTMLFormField.php:273-282 | `!==` evaluates to the negation of `===` on the same field and value |
| CondState.ParseChildren | includes/htmlform/HTMLFormField.php:302-305 | the rewritten parameters are one per child |
| CondState.ParseCondStateIsRenamed | includes/htmlform/HTMLFormField.php:294-317 | when every field resolves, the client array is the array form of the condition with each field key replaced by the resolved field's submission name |
| CondState.ParseChildrenIsRenamed | includes/htmlform/HTMLFormField.php:302-305 | the same for a combinator's children |
| CondState.ParseCondStateFails | includes/htmlform/HTMLFormField.php:294-317 | the rewrite fails iff some named field cannot be found |
| CondState.ParseChildrenFails | includes/htmlform/HTMLFormField.php:302-305 | the same for a combinator's children |
| CondState.ParseCondStateKeepsShape | includes/htmlform/HTMLFormField.php:294-317 | the client array is a valid condition with the same operators, shape and compared values; its field keys, in order, are the submission names of the original keys' fields |
| CondState.RenamedErase | includes/htmlform/HTMLFormField.php:294-317 | renaming keeps operators, shape and compared values |
| CondState.RenamedFields | includes/htmlform/HTMLFormField.php:312-315 | renaming maps the list of field keys pointwise to submission names |
| CondState.RenamedFieldsFrom | includes/htmlform/HTMLFormField.php:302-305 | the same for a combinator's children |
| CondState.ResolvesFields | includes/htmlform/HTMLFormField.php:312-315 | a condition's fields all resolve iff each key in its field list resolves |
| CondState.ResolvesFieldsFrom | includes/htmlform/HTMLFormField.php:302-305 | the same for a combinator's children |
| CondState.TrueOperatorPassesValidation | includes/htmlform/HTMLFormField.php:202-234 | as written, `[true, ['===', 'wpCount', '1']]` passes validation as a NOT; the strict dispatch rejects it as an unknown operation |
| CondState.DispatchAgreesOnStrings | includes/htmlform/HTMLFormField.php:202-234 | the loose and strict dispatches agree on every string operator |
| FormFields.ValidateIfGiven | includes/htmlform/HTMLFormField.php:557-568 | an absent condition stores nothing; a given one stores its validation or fails with its error |
| FormFields.CondStateOf | includes/htmlform/HTMLFormField.php:557-568 | a hide condition is stored iff hide-if is set and truthy; a disable condition iff disable-if is set and truthy and `disabled` is not; each stored condition is the validation of its array; failure iff a given array is invalid, the hide-if error first |
| FormFields.FormField.Init | includes/htmlform/HTMLFormField.php:497-569 | name is "wp" + fieldname unless `name` is set; id is "mw-input-" + name unless `id` is set; default from `default`; no conditions yet |
| FormFields.FormField.SetUpCondState | includes/htmlform/HTMLFormField.php:557-568 | stores the conditions and their CSS classes (hide-if first); on an invalid condition reports its error, with no disable condition stored, and the hide condition (with its class) stored only when it was valid and the disable-if was the invalid one |
| FormFields.FormField.Create | includes/htmlform/HTMLFormField.php:497-569 | a field is built iff its conditions validate; the new field has the derived name, id, default, validation-callback flag, conditions and classes, and no options fetched yet |
| FormFields.FormField.IsHidden | includes/htmlform/HTMLFormField.php:340-346 | never hidden without a hide condition; otherwise the evaluation of that condition |
| FormFields.IsHiddenMeaning | includes/htmlform/HTMLFormField.php:340-346 | when the hide condition's fields exist, isHidden is exactly its reference meaning |
| FormFields.FormField.IsDisabled | includes/htmlform/HTMLFormField.php:356-366 | disabled whenever `disabled` is truthy and whenever the field is hidden; without a disable condition it is isHidden; false only when neither holds |
| FormFields.IsDisabledMeaning | includes/htmlform/HTMLFormField.php:356-366 | when the conditions' fields exist: disabled iff `disabled` is truthy, or the hide condition holds, or the disable condition holds |
| FormFields.FormField.Validate | includes/htmlform/HTMLFormField.php:395-412 | a hidden field accepts any value; a required field rejects `''` and `false` before the callback, and that rejection happens only then; otherwise a visible field gets the callback's answer when there is a callback and is accepted when there is none; fails only when isHidden fails |
| FormFields.FormField.ParseCondStateForClient | includes/htmlform/HTMLFormField.php:324-330 | keys `hide` then `disable` for the stored conditions; each entry is the array form of its condition with every field key replaced by the resolved field's submission name; fails iff rewriting a stored condition fails |
| FormFields.ClientEntry | includes/htmlform/HTMLFormField.php:326-328 | the entry is the array form of the stored condition with its field keys renamed to submission names, itself a valid condition with the same operators, shape and values |
| FormFields.FormField.GetAttributes | includes/htmlform/HTMLFormField.php:1137-1152 | the loop builds exactly `AttributesOf(params, list)` |
| FormFields.AttributesOfSpec | includes/htmlform/HTMLFormField.php:1137-1152 | a requested boolean attribute maps to `''` when not empty; any other requested key maps to its parameter when set; nothing else is present |
| FormFields.FormField.GetOptions | includes/htmlform/HTMLFormField.php:1196-1216 | computed once: options-messages, else options forced to strings, else options-message, else null; later calls return the stored value; no other field of the object changes |
| FormFields.FormField.FlattenOptions | includes/htmlform/HTMLFormField.php:1240-1252 | the loop returns the leaves of the nested options in left-to-right order |
| FormFields.Leaves | includes/htmlform/HTMLFormField.php:1240-1252 | no leaf is an array |
| FormFields.LeavesFrom | includes/htmlform/HTMLFormField.php:1243-1249 | the same for the entries from a position on |
| FormFields.LeavesOfScalars | includes/htmlform/HTMLFormField.php:1240-1252 | a list of scalars flattens to itself |
| FormFields.FlattenIdempotent | includes/htmlform/HTMLFormField.php:1240-1252 | flattening a flattened list changes nothing |
| FormFields.ForceToStringRecursive | includes/htmlform/HTMLFormField.php:1182-1188 | arrays stay arrays with the same keys; a scalar becomes its string form |
| FormFields.ForceItems | includes/htmlform/HTMLFormField.php:1184 | same keys in order, each value forced |
| FormFields.ForceLeaves | includes/htmlform/HTMLFormField.php:1182-1188 | the leaves of the forced array are the string forms of the original leaves, in order |
| FormFields.ForceLeavesFrom | includes/htmlform/HTMLFormField.php:1184 | the same for the entries from a position on |
| FormFields.ForcedLeavesAreStrings | includes/htmlform/HTMLFormField.php:1182-1188 | every leaf of a forced array is a string |
| FormFields.ForceIdempotent | includes/htmlform/HTMLFormField.php:1182-1188 | forcing twice equals forcing once |
| DBLockManagers.ArraysOnly | includes/libs/lockmanager/DBLockManager.php:81-82 | keeps every array-valued entry and nothing else, never more entries than given |
| DBLockManagers.ArraysOnlyAppend | includes/libs/lockmanager/DBLockManager.php:81-82 | filtering two parts one after the other is filtering the whole: order and repeated entries are kept |
| DBLockManagers.ArraysOnlyUnit | includes/libs/lockmanager/DBLockManager.php:81-82 | an empty list filters to nothing; a single entry is kept iff it is an array |
| DBLockManagers.ArraysOnlyKeepsArrays | includes/libs/lockmanager/DBLockManager.php:81-82 | a list of arrays is kept unchanged, each at its own index |
| DBLockManagers.SanitizeBuckets | includes/libs/lockmanager/DBLockManager.php:79-85 | every bucket is an array; with `dbsByBucket` a value is a bucket iff it is an array entry of that option; without it, one bucket listing every server name in order |
| DBLockManagers.SanitizeBucketsInOrder | includes/libs/lockmanager/DBLockManager.php:79-83 | the buckets of a concatenated `dbsByBucket` are the buckets of its first part followed by those of its second, so bucket indexes follow the configured order |
| DBLockManagers.LockExpiryOf | includes/libs/lockmanager/DBLockManager.php:87-92 | the configured expiry, else the execution-time limit, else 60 when that is 0 |
| DBLockManagers.SafeDelayOf | includes/libs/lockmanager/DBLockManager.php:93-95 | always positive; the lock expiry when that is positive, else 60 |
| DBLockManagers.DerivedSafeDelayPositive | includes/libs/lockmanager/DBLockManager.php:87-95 | the delay derived from any configuration is positive |
| DBLockManagers.Underscored | includes/libs/lockmanager/DBLockManager.php:232 | same length, each space replaced by `_`, other characters kept |
| DBLockManagers.MissKey | includes/libs/lockmanager/DBLockManager.php:231-233 | the prefix `dblockmanager:downservers:` followed by the name character by character, each space replaced by `_`, so no space follows the prefix |
| DBLockManagers.MissKeyConflatesSpaces | includes/libs/lockmanager/DBLockManager.php:231-233 | names differing only by space versus underscore share a miss key |
| DBLockManagers.LockManager.constructor | includes/libs/lockmanager/DBLockManager.php:75-100 | for server names that are distinct (as array keys are), stores the sanitised buckets, the derived expiry and delay, the given cache or an empty one, and no connection |
| DBLockManagers.LockManager.CacheCheckFailures | includes/libs/lockmanager/DBLockManager.php:207-211 | with a positive delay, eligible iff no live failure entry under the miss key; otherwise always eligible |
| DBLockManagers.LockManager.CacheRecordFailure | includes/libs/lockmanager/DBLockManager.php:219-223 | with a positive delay, stores the miss key with a time-to-live of exactly the delay when the cache accepts the write and returns whether it did; otherwise changes nothing and returns true |
| DBLockManagers.RecordedFailureExpires | includes/libs/lockmanager/DBLockManager.php:219-222 | a recorded failure is read back exactly until the delay has elapsed |
| DBLockManagers.LockManager.GetConnection | includes/libs/lockmanager/DBLockManager.php:156-187 | a stored connection is returned with no new call; otherwise the connection is opened and stored only on success; the registry stays one entry per server, in opening order |
| DBLockManagers.OpenClearsFlags | includes/libs/lockmanager/DBLockManager.php:164-166 | the factory gets the configured flags (0 if absent) with DBO_TRX and DBO_DEFAULT cleared and all other bits kept |
| DBLockManagers.OpenCallsFactoryFirst | includes/libs/lockmanager/DBLockManager.php:162-166 | opening from parameters first calls the factory once, with the server type and the cleared flags (the factory also receives the server's name, standing for its whole configuration) |
| DBLockManagers.WithoutTrxClears | includes/libs/lockmanager/DBLockManager.php:165 | clearing leaves neither DBO_TRX nor DBO_DEFAULT set and keeps every other bit |
| DBLockManagers.OpenUnknownServer | includes/libs/lockmanager/DBLockManager.php:170-172 | an unknown server fails with "No server called …" and makes no call |
| DBLockManagers.UnknownEntry | includes/libs/lockmanager/DBLockManager.php:158-171 | a name missing from the configuration reads as neither a connection nor parameters |
| DBLockManagers.OpenSetsTimeout | includes/libs/lockmanager/DBLockManager.php:176-181 | an opened connection gets a connect timeout equal to the lock expiry iff that is positive, then is initialised |
| DBLockManagers.LockManager.IsServerUp | includes/libs/lockmanager/DBLockManager.php:133-146 | a cached failure gives false with no connection attempt and no change; an existing connection gives true with no change; otherwise the connection is opened as by getConnection (registered on success, nothing registered on failure, its driver calls logged), a database error records a failure and gives false, success gives true, other errors propagate |
| DBLockManagers.LockManager.GetLocksOnServer | includes/libs/lockmanager/DBLockManager.php:109-116 | the merge of every per-type result; OK iff each is OK |
| DBLockManagers.MergeAllOk | includes/libs/lockmanager/DBLockManager.php:110-113 | a merged status is OK iff every part is, and carries all their messages in order |
| DBLockManagers.LockManager.FreeLocksOnServer | includes/libs/lockmanager/DBLockManager.php:124-126 | always good |
| DBLockManagers.LockManager.Destruct | includes/libs/lockmanager/DBLockManager.php:238-243 | releases all locks, then closes each open connection in opening order |
| ParserOutputAccess.OptionBits | includes/page/ParserOutputAccess.php:51-73 | FORCE_PARSE equals NO_CHECK_CACHE; NO_CACHE is 3 with both cache bits; the audience bit is disjoint from NO_CACHE |
| ParserOutputAccess.ShouldUseCache | includes/page/ParserOutputAccess.php:114-132 | false for a revision without an id; otherwise true iff no stub threshold, the page exists, the revision is absent or the latest, and the cache is supported |
| ParserOutputAccess.GetCachedParserOutput | includes/page/ParserOutputAccess.php:144-162 | nothing when there is a stub threshold or the cache may not be used; otherwise exactly what the cache holds |
| ParserOutputAccess.OldRevisionNeverCached | includes/page/ParserOutputAccess.php:127-131 | output for a revision other than the latest never comes from the cache |
| ParserOutputAccess.CheckPreconditions | includes/page/ParserOutputAccess.php:252-296 | in order: missing page gives `nopagetext`; without no-update, unsafe options or an id-less revision throw; a revision of another page throws; a non-public revision without the audience bit gives `missing-revision-permission`; passes iff none applies |
| ParserOutputAccess.NewPoolWorkArticleView | includes/page/ParserOutputAccess.php:306-347 | the work uses the cache iff no-update is clear and the cache may be used; its key is cache key, `:revid:`, the revision id, then `:current` or `:uncached` |
| ParserOutputAccess.WorkKeysDistinct | includes/page/ParserOutputAccess.php:323-337 | under one cache key, two stored revisions with different ids, or the two kinds of work for one revision, never share a work key |
| ParserOutputAccess.StatusFromWork | includes/page/ParserOutputAccess.php:219-239 | OK iff the work gave output and no fatal error; when OK, holds the output and adds the dirty-output warnings (contention or overload) only for stale output; otherwise `pool-errorunknown` when the work reported no fatal error |
| ParserOutputAccess.GetParserOutput | includes/page/ParserOutputAccess.php:186-242 | a precondition failure is returned or thrown unchanged; a cache hit is returned as good with no work unless NO_CHECK_CACHE is set; no revision at all gives `missing-revision` with the latest id; the work runs exactly when the preconditions pass, the cache gives nothing (or is not consulted) and there is a revision, and then under its key, with the status reporting it; work run with the no-update bit, or for a revision other than the latest, is always uncached |

## Left out

- Rendering in `HTMLFormField` is not modelled: table rows, divs, OOUI widgets, labels, help text, error formatting and tooltips. It produces markup through libraries that are not part of this model.
- Localisation is not modelled. The message lookups behind `options-messages` and `options-message` are parameters of `FormFields.FormField.GetOptions`.
- Request handling (`loadDataFromRequest`, `isSubmitAttempt`, `skipLoadData`) is web-request I/O and is not modelled.
- The constructor's label, direction, CSS class, help class, filter callback and `hidelabel` settings only feed rendering and are not modelled. The validation callback is a parameter of `FormField.Validate`.
- CondState.NearestField: the `cloner` branches of `getNearestField`/`getNearestFieldValue` are not modelled, because the cloner class is not part of this model. A missing field is a `NoSuchField` failure; what `HTMLForm::getField` does in that case is not part of this model.
- CondState.Validate: the parameters of a condition array are read by position and its keys are ignored. The exception's message text (field name, `var_export` of the array) is reduced to the `CondError` kind. A truthy hide-if or disable-if that is not an array makes `array_shift` raise a `TypeError` under PHP 8, which the constructor does not wrap; the model reports it as the ordinary `NotAnArray` validation failure.
- PHP floats are not represented in `Value`. `ForceToStringRecursive` on float options (`strval(1.5)`) and a `===` comparison against a float field value are therefore not covered.
- FormFields.FormField.Init: `name` and `id` are stored as their string forms; the source stores the raw parameter.
- FormFields.FormField.Validate: the required-field failure is the `RequiredMissing` verdict, not a message object.
- PHP integers are unbounded in the model. No overflow is possible for revision ids, page ids or times.
- DBLockManagers.LockManager.GetConnection: the driver's setting of session options and the subclass's `initConnection` are one fallible `initialise` step. A `DBError` from either fails the call, and nothing is stored.
- `IDatabase` is not part of this model. DBO_TRX and DBO_DEFAULT are taken as 8 and 16.
- The quorum logic is not in `DBLockManager.php` and is not modelled: bucket hashing, majority tally, lock/unlock and `releaseAllLocks`. Teardown records `releaseAllLocks` as an opaque call.
- `doGetLocksOnServer` is vendor SQL. It is a function parameter, so the model does not capture its effect on connections.
- `StatusValue` is not part of this model. Its merge, fatal, warning and setResult are modelled as:
  - OK is a conjunction;
  - messages are appended in order;
  - `setResult` sets OK and the value.
- The cache backend is not part of this model. An entry is taken to be readable while the clock is before its expiry.
- DBLockManagers.LockManager.CacheRecordFailure: the cache is a map owned by the manager. A `BagOStuff` shared with other processes, which they may also write or evict, is not modelled; whether the backend accepts a write is a parameter.
- DBLockManagers.LockManager.constructor: server names are required to be distinct, as keys of the PHP configuration array always are.
- `ini_get('max_execution_time')` is an integer argument of the constructor; 0 stands for "unset".
- ParserOutputAccess.GetCachedParserOutput: the stub-threshold statistics counter is not modelled.
- The parser cache, the revision renderer, the load balancer and PoolCounter work are not modelled. Their answers are parameters: the cached output, the cache key, and the work's output, error, dirtiness and fast-stale flags.
- `includes/pager/RangeChronologicalPager.php` is not part of this model.

## Findings

| source | as written | input that shows it | evidently intended | confidence | as-written member | corrected member |
|---|---|---|---|---|---|---|
| includes/htmlform/HTMLFormField.php:202-234 | `switch ($op)` compares loosely, so under PHP 8 a boolean `true` operator equals the first case, `'NOT'` | hide-if `[true, ['===', 'wpCount', '1']]` passes validation as a NOT; `checkStateRecurse` then takes `true` as `'AND'`, looks up undefined table entries, and the condition is always false | a non-string operator is rejected with "Unknown operation" | medium, not executed | CondState.TrueOperatorPassesValidation | CondState.ValidateRules |
