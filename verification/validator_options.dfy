/**
 * Resolution of the converter's `validator` option with an options
 * resolver whose defaults are groups = null, traverse = false,
 * deep = false. Keys other than these three are rejected.
 */
module ValidatorOptions {
  import opened PhpArrays

  /** The resolved options, one field per defined option. */
  datatype Resolved = Resolved(groups: Value, traverse: Value, deep: Value)

  datatype Resolution =
    | Success(options: Resolved)
    | UndefinedOptions(unknown: set<Key>)   // some given keys are not defined options
    | NotAnArray                            // the argument is not an array at all

  const GroupsOption: Key := Name("groups")
  const TraverseOption: Key := Name("traverse")
  const DeepOption: Key := Name("deep")

  const DefinedOptions: set<Key> := {GroupsOption, TraverseOption, DeepOption}

  const Defaults: map<Key, Value> :=
    map[GroupsOption := Null, TraverseOption := Bool(false), DeepOption := Bool(false)]

  /** The resolved options as the array the resolver returns. */
  function AsArray(o: Resolved): map<Key, Value> {
    map[GroupsOption := o.groups, TraverseOption := o.traverse, DeepOption := o.deep]
  }

  function GetOrDefault(a: PhpArray, k: Key): Value
    requires k in Defaults
  {
    if k in a.vals then a.vals[k] else Defaults[k]
  }

  /**
   * Resolution of `given`: fails if `given` is not an array or holds a key that
   * is not a defined option; otherwise the defaults overridden by `given`.
   */
  function Resolve(given: Value): (r: Resolution)
    ensures r.NotAnArray? <==> !given.Arr?
    ensures r.UndefinedOptions? <==> given.Arr? && !(given.a.vals.Keys <= DefinedOptions)
    ensures r.UndefinedOptions? ==> r.unknown == given.a.vals.Keys - DefinedOptions && r.unknown != {}
    ensures r.Success? ==> AsArray(r.options) == Defaults + given.a.vals
  {
    match given
    case Arr(a) =>
      var unknown := a.vals.Keys - DefinedOptions;
      if unknown != {} then UndefinedOptions(unknown)
      else
        var r := Resolved(GetOrDefault(a, GroupsOption), GetOrDefault(a, TraverseOption), GetOrDefault(a, DeepOption));
        assert a.vals.Keys <= DefinedOptions;
        assert AsArray(r).Keys == DefinedOptions == Defaults.Keys;
        Success(r)
    case _ => NotAnArray
  }

  /** The key of the converter's options under which the validator options are given. */
  const ValidatorKey: Key := Name("validator")

  /** What the resolver is given: the `validator` option when it is present and not null, else the empty array. */
  function ValidatorArgument(options: PhpArray): Value {
    if IsSet(options, ValidatorKey) then options.vals[ValidatorKey] else Arr(Empty)
  }

  /**
   * The validator options of a converter call. They resolve exactly when the
   * `validator` option is absent or null, or is an array whose keys are all
   * defined options; an unknown key is reported by name.
   */
  function GetValidatorOptions(options: PhpArray): (r: Resolution)
    ensures r.Success? <==>
      !IsSet(options, ValidatorKey) ||
      (options.vals[ValidatorKey].Arr? && options.vals[ValidatorKey].a.vals.Keys <= DefinedOptions)
    ensures r.NotAnArray? <==> IsSet(options, ValidatorKey) && !options.vals[ValidatorKey].Arr?
    ensures r.UndefinedOptions? ==> r.unknown == options.vals[ValidatorKey].a.vals.Keys - DefinedOptions
  {
    Resolve(ValidatorArgument(options))
  }

  /** Without a (non-null) `validator` option the defaults are used unchanged. */
  lemma AbsentValidatorOptionGivesDefaults(options: PhpArray)
    requires !IsSet(options, ValidatorKey)
    ensures GetValidatorOptions(options) == Success(Resolved(Null, Bool(false), Bool(false)))
  {
  }

  /** A given key wins over its default; an absent key keeps its default. */
  lemma CallerOverridesDefaults(given: PhpArray, k: Key)
    requires Resolve(Arr(given)).Success?
    requires k in DefinedOptions
    ensures k in given.vals ==> AsArray(Resolve(Arr(given)).options)[k] == given.vals[k]
    ensures k !in given.vals ==> AsArray(Resolve(Arr(given)).options)[k] == Defaults[k]
  {
  }

  /** Example: `{groups: null, bogus: 1}` is rejected, naming `bogus`. */
  lemma UnknownKeyRejected()
    ensures var given := PhpArray([GroupsOption, Name("bogus")], map[GroupsOption := Null, Name("bogus") := Int(1)]);
      Resolve(Arr(given)) == UndefinedOptions({Name("bogus")})
  {
    var given := PhpArray([GroupsOption, Name("bogus")], map[GroupsOption := Null, Name("bogus") := Int(1)]);
    assert given.vals.Keys - DefinedOptions == {Name("bogus")};
  }
}
