# JobParamConverter — a Dafny model

This project models the request parameter converter of the job bundle
(`Request/JobParamConverter.php`). For one controller parameter, the converter

1. merges its default deserialization context (an empty array) with the
   call site's `deserializationContext` option, the call site winning;
2. builds a deserialization context from that array: `groups` and `version`
   are set as such, every other key becomes a named attribute;
3. deserializes the request body with that context, turning an
   unsupported-format failure into *415 Unsupported Media Type* and any other
   serializer failure into *400 Bad Request*, both with the original message;
4. binds the object into the request attributes under the parameter's name;
5. if a validator is configured, resolves the `validator` option against the
   defaults `groups = null`, `traverse = false`, `deep = false` (unknown keys
   rejected), validates the object with the resolved groups only, and stores
   the violation list under `validationErrors`, even when it is empty;
6. returns true. `supports` returns true for every configuration.

Modules:

- `PhpArrays` (`php_arrays.dfy`): PHP values and ordered PHP arrays with
  string and integer keys, and `array_merge`.
- `DeserializationContexts` (`deserialization_context.dfy`): the context
  record and `configureContext`.
- `ValidatorOptions` (`validator_options.dfy`): the resolution of the
  `validator` option.
- `JobParamConverter` (`job_param_converter.dfy`): `apply` as a total
  function from the request, the configuration, the serializer, the
  validator and the body encoding to an `Outcome`, which is the end status
  with the request attributes as they stand at that point. `supports` is
  modelled here too.
- `Wrappers` (`wrappers.dfy`): `Option`.

The serializer, the validator and the body encoding are function parameters:
`Serializer` returns an object, `UnsupportedFormat(message)` or
`SerializerFailure(message)`, and `Validator` maps (object, constraints,
groups) to a violation list or to the exception it throws. An exception thrown by `apply` is an `Outcome`
whose status is not `Handled`. Its `attributes` are what the request holds
when the exception leaves `apply`.
A `validator` option that is set but is not an array cannot be passed to the
resolver, whose parameter is typed `array`; PHP raises a type error there, and
the model reports it as `ValidatorOptionsNotAnArray`.

The bound object is stored (line 90) before the validator options are
resolved (line 93), so a failed resolution leaves the object bound
(`JobParamConverter.ValidatorOptionsFailAfterBinding`). The same holds when
the validator itself throws (`JobParamConverter.ValidatorErrorsStored`).

## Model

| member | source | states |
|---|---|---|
| PhpArrays.ArrayMerge | Request/JobParamConverter.php:70 | `array_merge` yields a well-formed PHP array: every key once, and the iteration order lists exactly the stored keys |
| PhpArrays.MergeAll | Request/JobParamConverter.php:70 | appending one array's elements keeps the integer keys dense, 0 .. n-1, and advances the next free index by the number of integer-keyed elements |
| PhpArrays.MergeAllNames | Request/JobParamConverter.php:70 | while appending, a string key ends up present iff it was present before or is appended, and its value is the one appended last |
| PhpArrays.MergeAllKeepsIndex | Request/JobParamConverter.php:70 | while appending, the integer keys already present keep their values |
| PhpArrays.MergeAllIndices | Request/JobParamConverter.php:70 | while appending, the appended integer-keyed values land in order under the next free indices |
| PhpArrays.MergeNames | Request/JobParamConverter.php:70 | on string keys, `array_merge(a, b)` holds every key of `a` and of `b`, with `b`'s value on a shared key |
| PhpArrays.MergeIndices | Request/JobParamConverter.php:70 | on integer keys, `array_merge(a, b)` is the integer-keyed values of `a` followed by those of `b`, renumbered from 0 |
| PhpArrays.MergeIntoEmpty | Request/JobParamConverter.php:70 | merging a string-keyed array into the empty array gives back the same contents |
| DeserializationContexts.ConfigureAll | Request/JobParamConverter.php:120-128 | the key-by-key loop sets the groups iff `groups` is among the keys, sets the version iff `version` is among them, and adds every other key as an attribute with its value |
| DeserializationContexts.ConfigureContext | Request/JobParamConverter.php:118-129 | the built context has groups = `options['groups']` if present, version = `options['version']` if present, and attributes = all other keys with their values; neither special key is an attribute |
| DeserializationContexts.ConfigureContextLosesNothing | Request/JobParamConverter.php:118-129 | building a context drops no key: groups, version and attributes together give back exactly the options |
| DeserializationContexts.ConfigureContextExample | Request/JobParamConverter.php:118-129 | `{groups: ["g1"], version: "2.0", extra: "x"}` gives groups `["g1"]`, version `"2.0"` and the single attribute `extra = "x"` |
| ValidatorOptions.Resolve | Request/JobParamConverter.php:137-144 | resolution fails iff the argument is not an array or holds a key other than groups/traverse/deep, and the failure names exactly those keys; otherwise the result is the defaults overridden by the given keys |
| ValidatorOptions.GetValidatorOptions | Request/JobParamConverter.php:135-145 | the validator options resolve iff the `validator` option is absent or null, or is an array whose keys are all among `groups`, `traverse`, `deep`; a set non-array option is a type error; the rejection names exactly the unknown keys |
| ValidatorOptions.AbsentValidatorOptionGivesDefaults | Request/JobParamConverter.php:137-144 | without a `validator` option the resolved options are `{groups: null, traverse: false, deep: false}` |
| ValidatorOptions.CallerOverridesDefaults | Request/JobParamConverter.php:138-144 | each defined option resolves to the caller's value when given and to its default otherwise |
| ValidatorOptions.UnknownKeyRejected | Request/JobParamConverter.php:137-144 | `{groups: null, bogus: 1}` is rejected with exactly `bogus` as the unknown key |
| JobParamConverter.CallSiteContext | Request/JobParamConverter.php:69 | a call-site context is used iff `deserializationContext` is set, not null, and an array; it is then that array |
| JobParamConverter.ContextOptions | Request/JobParamConverter.php:69-73 | the array given to `configureContext` is well formed, and is the default context itself when there is no call-site context |
| JobParamConverter.ContextIgnoresValidatorOption | Request/JobParamConverter.php:69-74 | the serializer's context does not depend on the `validator` option |
| JobParamConverter.DefaultContextIsEmpty | Request/JobParamConverter.php:69-74 | since the default context is `[]` (line 33), a call site without a usable `deserializationContext` gives a context with nothing set |
| JobParamConverter.CallSiteContextWins | Request/JobParamConverter.php:69-70 | with a call-site context the merged array holds every string key of the defaults and of the call site, the call site winning on shared keys |
| JobParamConverter.CallSiteContextUsedAsGiven | Request/JobParamConverter.php:69-74 | a string-keyed call-site context reaches the serializer unchanged: its groups, its version, and all its other keys as attributes |
| JobParamConverter.BindAndValidate | Request/JobParamConverter.php:90-101 | after deserialization, the call fails iff a validator is configured and its options do not resolve or it throws; the object is then found under its name unless the violation list was stored over it, and no attribute other than the name and `validationErrors` changes |
| JobParamConverter.Apply | Request/JobParamConverter.php:65-104 | `apply` returns true iff deserialization succeeds and, with a validator, the validator options resolve and the validator does not throw; a failed deserialization leaves the attributes unchanged, a successful one binds the object under its name; no attribute other than that name and `validationErrors` ever changes |
| JobParamConverter.SerializerFailuresTranslated | Request/JobParamConverter.php:76-88 | an unsupported format becomes Unsupported Media Type and any other serializer failure Bad Request, each with the original message and the request attributes unchanged |
| JobParamConverter.NoValidatorBindsOnly | Request/JobParamConverter.php:90-92 | without a validator, a successful call only stores the object under the parameter's name; `validationErrors` is not set |
| JobParamConverter.NoValidatorIgnoresValidatorOption | Request/JobParamConverter.php:90-93 | without a validator the `validator` option is never inspected: configurations that differ only there behave alike |
| JobParamConverter.ValidatorErrorsStored | Request/JobParamConverter.php:92-101 | with a validator and resolvable options, `validationErrors` is exactly the violation list the validator returns for the object, null constraints and the resolved groups, stored even when empty; if the validator throws, the call fails with the object bound and `validationErrors` untouched |
| JobParamConverter.ValidatorOptionsFailAfterBinding | Request/JobParamConverter.php:90-93 | when the validator options do not resolve, the call fails with the object already bound and `validationErrors` untouched; unknown keys are reported as such |
| JobParamConverter.BindUsesOnlyGroups | Request/JobParamConverter.php:93-95 | after binding, `validator` options that resolve to the same groups give the same outcome |
| JobParamConverter.TraverseAndDeepIgnored | Request/JobParamConverter.php:93-95 | `traverse` and `deep` are never passed on: `validator` options that resolve to the same groups give the same outcome |
| JobParamConverter.BoundObjectShadowedByErrors | Request/JobParamConverter.php:90-100 | a parameter named `validationErrors` is overwritten by the violation list when a validator is configured and returns one |
| JobParamConverter.Supports | Request/JobParamConverter.php:109-112 | every configuration is supported |

## Left out

- The serializer's deserialization and the validator's constraint checking, including which inputs make the validator throw: both are function parameters whose results are taken as given.
- The re-encoding of the request body (`json_encode` with its flag argument, and the fact that the body is always JSON-encoded whatever the content type): an `Encoder` parameter.
- Serializer exceptions outside the serializer library's own hierarchy, which `apply` lets through untranslated: the `Serializer` type cannot return them.
- The internals of the serializer's context class, such as its own checks on empty groups or a null version: the context is the record of what the converter sets.
- The `(array)` cast of the configuration's options: the options are taken to be an array already, which is what the configuration holds.
- PHP's conversion of numeric-string keys to integer keys: keys are taken as PHP stores them.
- Floats and resources: not among the modelled PHP values, since the converter only passes values on.
- The text of the resolver's error message: only the set of unknown keys is kept.
- HTTP exception classes and exception chaining: errors are `Status` variants carrying the message.
- PhpArrays.ArrayMerge: the iteration order of string keys in the merged array is not stated, only its contents and the order of integer-keyed values, because the context built from it does not depend on that order.
