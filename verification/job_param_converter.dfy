/**
 * The request parameter converter of the job bundle.
 *
 * `Apply` deserializes the request body into an object with a context built
 * from the converter's default context and the call site's
 * `deserializationContext` option, translates serializer failures into HTTP
 * errors, binds the object into the request attributes and, when a
 * validator is configured, stores the validator's violation list under
 * `validationErrors`.
 *
 * The serializer, the validator and the body encoding are parameters:
 * their behaviour is not part of this model, only how they are called and
 * how their results are used.
 */
module JobParamConverter {
  import opened Wrappers
  import opened PhpArrays
  import opened DeserializationContexts
  import VO = ValidatorOptions

  /** What the serializer's `deserialize` yields: an object or one of the two failures the converter catches. */
  datatype Deserialized =
    | Deserialized(entity: Value)
    | UnsupportedFormat(message: string)   // the serializer does not know the format
    | SerializerFailure(message: string)   // any other serializer exception

  /** `deserialize(data, type, format, context)` */
  type Serializer = (string, string, Option<string>, Context) -> Deserialized

  /** What the validator yields: the violation list, or an exception it throws. */
  datatype Validation =
    | Violations(list: Value)
    | ValidatorException(message: string)   // e.g. a value it cannot validate without constraints

  /** The validator, called with the object, the constraints and the validation groups. */
  type Validator = (Value, Value, Value) -> Validation

  /** Turns the request's body parameters into the text given to the serializer. */
  type Encoder = PhpArray -> string

  /** The parts of the request the converter uses: body parameters, content type, attributes. */
  datatype Request = Request(body: PhpArray, contentType: Option<string>, attributes: map<string, Value>)

  /** The parameter's configuration: the attribute name to bind, the target class, the options. */
  datatype Configuration = Configuration(name: string, targetClass: string, options: PhpArray)

  /** The converter itself: the validator is optional. */
  datatype Converter = Converter(validator: Option<Validator>)

  /** How `Apply` ends: `Handled` is "returned true", the others are the exceptions it throws. */
  datatype Status =
    | Handled
    | UnsupportedMediaType(message: string)
    | BadRequest(message: string)
    | UndefinedValidatorOptions(unknown: set<Key>)
    | ValidatorOptionsNotAnArray
    | ValidatorError(message: string)   // the validator's exception, passed on untranslated

  /** The end status together with the request attributes as they are at that point. */
  datatype Outcome = Outcome(status: Status, attributes: map<string, Value>)

  /** The converter's default context: an empty array, never reassigned. */
  const DefaultContext: PhpArray := Empty

  /** The fixed attribute name under which validation errors are stored. */
  const ValidationErrorsArgument: string := "validationErrors"

  const DeserializationContextOption: Key := Name("deserializationContext")

  /** The call site's `deserializationContext` option, when it is present, not null and an array. */
  function CallSiteContext(options: PhpArray): (site: Option<PhpArray>)
    requires DeepValid(Arr(options))
    ensures site.Some? <==> IsSet(options, DeserializationContextOption) && options.vals[DeserializationContextOption].Arr?
    ensures site.Some? ==> Valid(site.value) && options.vals[DeserializationContextOption] == Arr(site.value)
  {
    if IsSet(options, DeserializationContextOption) && options.vals[DeserializationContextOption].Arr? then
      assert DeepValid(options.vals[DeserializationContextOption]);
      Some(options.vals[DeserializationContextOption].a)
    else None
  }

  /** The array given to `configureContext`: the defaults, merged with the call site's options if any. */
  function ContextOptions(defaults: PhpArray, site: Option<PhpArray>): (r: PhpArray)
    requires Valid(defaults) && (site.Some? ==> Valid(site.value))
    ensures Valid(r)
    ensures site.None? ==> r == defaults
  {
    match site
    case None => defaults
    case Some(given) => ArrayMerge(defaults, given)
  }

  /** The context the serializer is called with. */
  function SerializerContext(options: PhpArray): Context
    requires DeepValid(Arr(options))
  {
    ConfigureContext(ContextOptions(DefaultContext, CallSiteContext(options)))
  }

  /** The serializer call as the converter makes it. */
  function Deserialize(request: Request, config: Configuration, serializer: Serializer, encode: Encoder): Deserialized
    requires DeepValid(Arr(config.options))
  {
    serializer(encode(request.body), config.targetClass, request.contentType, SerializerContext(config.options))
  }

  /**
   * The validation step completes: there is no validator, or its options
   * resolve and the validator returns a violation list rather than throwing.
   */
  predicate ValidationCompletes(converter: Converter, config: Configuration, entity: Value) {
    || converter.validator.None?
    || (&& VO.GetValidatorOptions(config.options).Success?
        && converter.validator.value(entity, Null, VO.GetValidatorOptions(config.options).options.groups).Violations?)
  }

  /**
   * What `apply` does once the serializer has returned `entity`: bind it,
   * then, with a validator, resolve the validator options and store the
   * violation list.
   */
  function BindAndValidate(converter: Converter, attributes: map<string, Value>, config: Configuration, entity: Value): (r: Outcome)
    // The call fails exactly when a validator is configured and its options do not resolve or it throws.
    ensures r.status.Handled? <==> ValidationCompletes(converter, config, entity)
    ensures converter.validator.Some? && !VO.GetValidatorOptions(config.options).Success? ==>
      r.status.UndefinedValidatorOptions? || r.status.ValidatorOptionsNotAnArray?
    ensures !r.status.Handled? ==>
      r.status.UndefinedValidatorOptions? || r.status.ValidatorOptionsNotAnArray? || r.status.ValidatorError?
    // The object is bound under its name, unless the violation list was then stored over it.
    ensures config.name in r.attributes
    ensures config.name != ValidationErrorsArgument || converter.validator.None? || !r.status.Handled? ==>
      r.attributes[config.name] == entity
    // Nothing but the bound name and `validationErrors` changes.
    ensures forall k :: k != config.name && k != ValidationErrorsArgument ==>
      (k in r.attributes <==> k in attributes) &&
      (k in r.attributes ==> r.attributes[k] == attributes[k])
  {
    var bound := attributes[config.name := entity];
    match converter.validator
    case None => Outcome(Handled, bound)
    case Some(validate) =>
      match VO.GetValidatorOptions(config.options)
      case UndefinedOptions(unknown) => Outcome(UndefinedValidatorOptions(unknown), bound)
      case NotAnArray => Outcome(ValidatorOptionsNotAnArray, bound)
      case Success(resolved) =>
        match validate(entity, Null, resolved.groups)
        case ValidatorException(m) => Outcome(ValidatorError(m), bound)
        case Violations(errors) => Outcome(Handled, bound[ValidationErrorsArgument := errors])
  }

  /** One conversion: deserialize, bind, and optionally validate, as a transition on the request attributes. */
  function Apply(converter: Converter, request: Request, config: Configuration,
                 serializer: Serializer, encode: Encoder): (r: Outcome)
    requires DeepValid(Arr(config.options))
    // Apply returns true exactly when deserialization succeeds and the validation step completes.
    ensures r.status.Handled? <==>
      var d := Deserialize(request, config, serializer, encode);
      d.Deserialized? && ValidationCompletes(converter, config, d.entity)
    // A failed deserialization leaves the attributes alone; a successful one binds the object.
    ensures !Deserialize(request, config, serializer, encode).Deserialized? ==> r.attributes == request.attributes
    ensures Deserialize(request, config, serializer, encode).Deserialized? && config.name != ValidationErrorsArgument ==>
      config.name in r.attributes &&
      r.attributes[config.name] == Deserialize(request, config, serializer, encode).entity
    // Nothing but the bound name and `validationErrors` changes.
    ensures forall k :: k != config.name && k != ValidationErrorsArgument ==>
      (k in r.attributes <==> k in request.attributes) &&
      (k in r.attributes ==> r.attributes[k] == request.attributes[k])
  {
    match Deserialize(request, config, serializer, encode)
    case UnsupportedFormat(m) => Outcome(UnsupportedMediaType(m), request.attributes)
    case SerializerFailure(m) => Outcome(BadRequest(m), request.attributes)
    case Deserialized(entity) => BindAndValidate(converter, request.attributes, config, entity)
  }

  /** Whether the converter claims a parameter: it claims every configuration. */
  function Supports(config: Configuration): (r: bool)
    ensures r
  {
    true
  }

  /** Without a call-site context the serializer gets a context with nothing set. */
  lemma DefaultContextIsEmpty(options: PhpArray)
    requires DeepValid(Arr(options))
    requires CallSiteContext(options).None?
    ensures SerializerContext(options) == Fresh
  {
    var ctx := SerializerContext(options);
    assert ctx.attributes == map[];
  }

  /**
   * With a call-site context, the array given to `configureContext` holds
   * every string key of the defaults and of the call site, and the call
   * site's value wins on a shared key.
   */
  lemma CallSiteContextWins(defaults: PhpArray, site: PhpArray, k: Key)
    requires Valid(defaults) && Valid(site)
    requires k.Name?
    ensures var merged := ContextOptions(defaults, Some(site));
      && (k in merged.vals <==> k in defaults.vals || k in site.vals)
      && (k in site.vals ==> merged.vals[k] == site.vals[k])
      && (k in defaults.vals && k !in site.vals ==> merged.vals[k] == defaults.vals[k])
  {
    MergeNames(defaults, site, k);
  }

  /**
   * Since the default context is empty, a string-keyed call-site context
   * reaches the serializer exactly as given: groups, version, and every
   * other key as an attribute.
   */
  lemma CallSiteContextUsedAsGiven(options: PhpArray)
    requires DeepValid(Arr(options))
    requires CallSiteContext(options).Some?
    requires HasOnlyNames(CallSiteContext(options).value)
    ensures var site := CallSiteContext(options).value;
      var ctx := SerializerContext(options);
      && ctx.groups == Get(site, GroupsKey)
      && ctx.version == Get(site, VersionKey)
      && ctx.attributes == site.vals - {GroupsKey, VersionKey}
  {
    MergeIntoEmpty(CallSiteContext(options).value);
  }

  /** The serializer's context does not depend on the `validator` option. */
  lemma ContextIgnoresValidatorOption(options: PhpArray, options': PhpArray)
    requires DeepValid(Arr(options)) && DeepValid(Arr(options'))
    requires options.vals - {VO.ValidatorKey} == options'.vals - {VO.ValidatorKey}
    ensures SerializerContext(options) == SerializerContext(options')
  {
    var dc := DeserializationContextOption;
    var rest, rest' := options.vals - {VO.ValidatorKey}, options'.vals - {VO.ValidatorKey};
    assert dc in options.vals <==> dc in rest;
    assert dc in options'.vals <==> dc in rest';
    if dc in options.vals {
      assert options.vals[dc] == rest[dc] == rest'[dc] == options'.vals[dc];
    }
    assert CallSiteContext(options) == CallSiteContext(options');
  }

  /**
   * A serializer failure is translated with its message kept, and the
   * request attributes are left as they were.
   */
  lemma SerializerFailuresTranslated(converter: Converter, request: Request, config: Configuration,
                                     serializer: Serializer, encode: Encoder)
    requires DeepValid(Arr(config.options))
    ensures var d := Deserialize(request, config, serializer, encode);
      var r := Apply(converter, request, config, serializer, encode);
      && (d.UnsupportedFormat? ==> r == Outcome(UnsupportedMediaType(d.message), request.attributes))
      && (d.SerializerFailure? ==> r == Outcome(BadRequest(d.message), request.attributes))
  {
  }

  /**
   * Without a validator the bound object is the only change and
   * `validationErrors` is not touched.
   */
  lemma NoValidatorBindsOnly(converter: Converter, attributes: map<string, Value>, config: Configuration, entity: Value)
    requires converter.validator.None?
    ensures BindAndValidate(converter, attributes, config, entity) == Outcome(Handled, attributes[config.name := entity])
  {
  }

  /** Without a validator two configurations that differ only in their `validator` option behave alike. */
  lemma NoValidatorIgnoresValidatorOption(converter: Converter, request: Request, config: Configuration,
                                          options': PhpArray, serializer: Serializer, encode: Encoder)
    requires DeepValid(Arr(config.options)) && DeepValid(Arr(options'))
    requires converter.validator.None?
    requires config.options.vals - {VO.ValidatorKey} == options'.vals - {VO.ValidatorKey}
    ensures Apply(converter, request, config, serializer, encode) ==
            Apply(converter, request, config.(options := options'), serializer, encode)
  {
    var config' := config.(options := options');
    ContextIgnoresValidatorOption(config.options, options');
    var d := Deserialize(request, config, serializer, encode);
    assert d == Deserialize(request, config', serializer, encode);
    if d.Deserialized? {
      NoValidatorBindsOnly(converter, request.attributes, config, d.entity);
      NoValidatorBindsOnly(converter, request.attributes, config', d.entity);
    }
  }

  /**
   * With a validator whose options resolve, the validator is called on the bound
   * object with no constraints and the resolved groups. A violation list, an empty
   * one included, is stored under `validationErrors`; an exception leaves the
   * object bound and `validationErrors` untouched.
   */
  lemma ValidatorErrorsStored(converter: Converter, attributes: map<string, Value>, config: Configuration, entity: Value)
    requires converter.validator.Some?
    requires VO.GetValidatorOptions(config.options).Success?
    ensures var groups := VO.GetValidatorOptions(config.options).options.groups;
      var v := converter.validator.value(entity, Null, groups);
      BindAndValidate(converter, attributes, config, entity) ==
        if v.Violations? then Outcome(Handled, attributes[config.name := entity][ValidationErrorsArgument := v.list])
        else Outcome(ValidatorError(v.message), attributes[config.name := entity])
  {
  }

  /**
   * The validator options are resolved only after the object is bound:
   * when resolution fails the object is already in the attributes, and
   * `validationErrors` is left as it was.
   */
  lemma ValidatorOptionsFailAfterBinding(converter: Converter, attributes: map<string, Value>, config: Configuration, entity: Value)
    requires converter.validator.Some?
    requires !VO.GetValidatorOptions(config.options).Success?
    ensures var r := BindAndValidate(converter, attributes, config, entity);
      && r.attributes == attributes[config.name := entity]
      && (VO.GetValidatorOptions(config.options).UndefinedOptions? ==>
            r.status == UndefinedValidatorOptions(VO.GetValidatorOptions(config.options).unknown))
  {
  }

  /** After binding, only the resolved groups of the `validator` option matter. */
  lemma BindUsesOnlyGroups(converter: Converter, attributes: map<string, Value>, config: Configuration,
                           options': PhpArray, entity: Value)
    requires VO.GetValidatorOptions(config.options).Success?
    requires VO.GetValidatorOptions(options').Success?
    requires VO.GetValidatorOptions(config.options).options.groups ==
             VO.GetValidatorOptions(options').options.groups
    ensures BindAndValidate(converter, attributes, config, entity) ==
            BindAndValidate(converter, attributes, config.(options := options'), entity)
  {
  }

  /**
   * `traverse` and `deep` are never passed on: two `validator` options that
   * resolve to the same groups give the same outcome.
   */
  lemma TraverseAndDeepIgnored(converter: Converter, request: Request, config: Configuration,
                               options': PhpArray, serializer: Serializer, encode: Encoder)
    requires DeepValid(Arr(config.options)) && DeepValid(Arr(options'))
    requires config.options.vals - {VO.ValidatorKey} == options'.vals - {VO.ValidatorKey}
    requires VO.GetValidatorOptions(config.options).Success?
    requires VO.GetValidatorOptions(options').Success?
    requires VO.GetValidatorOptions(config.options).options.groups ==
             VO.GetValidatorOptions(options').options.groups
    ensures Apply(converter, request, config, serializer, encode) ==
            Apply(converter, request, config.(options := options'), serializer, encode)
  {
    var config' := config.(options := options');
    ContextIgnoresValidatorOption(config.options, options');
    var d := Deserialize(request, config, serializer, encode);
    assert d == Deserialize(request, config', serializer, encode);
    if d.Deserialized? {
      BindUsesOnlyGroups(converter, request.attributes, config, options', d.entity);
    }
  }

  /**
   * A parameter bound under the name `validationErrors` is overwritten by the
   * violation list when a validator is configured and returns one.
   */
  lemma BoundObjectShadowedByErrors(converter: Converter, attributes: map<string, Value>, config: Configuration, entity: Value)
    requires config.name == ValidationErrorsArgument
    requires converter.validator.Some?
    requires VO.GetValidatorOptions(config.options).Success?
    ensures var groups := VO.GetValidatorOptions(config.options).options.groups;
      var v := converter.validator.value(entity, Null, groups);
      BindAndValidate(converter, attributes, config, entity).attributes[config.name] ==
        if v.Violations? then v.list else entity
  {
  }
}
