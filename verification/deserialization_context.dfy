/**
 * The deserialization context handed to the serializer, and how the
 * converter fills it from a PHP array of options (`configureContext`).
 *
 * The context is kept as the three things the converter can set on it:
 * the groups, the version, and named attributes.
 */
module DeserializationContexts {
  import opened Wrappers
  import opened PhpArrays

  datatype Context = Context(groups: Option<Value>, version: Option<Value>, attributes: map<Key, Value>)

  /** A freshly constructed context: nothing set. */
  const Fresh: Context := Context(None, None, map[])

  const GroupsKey: Key := Name("groups")
  const VersionKey: Key := Name("version")

  /** One iteration of the `foreach` in `configureContext`. */
  function ConfigureOne(ctx: Context, k: Key, v: Value): Context {
    if k == GroupsKey then ctx.(groups := Some(v))
    else if k == VersionKey then ctx.(version := Some(v))
    else ctx.(attributes := ctx.attributes[k := v])
  }

  /**
   * The `foreach` over the option keys `ks`, in order. Each key is handled
   * on its own: `groups` and `version` land in their own fields, every other
   * key becomes an attribute, and nothing is dropped.
   */
  function ConfigureAll(ctx: Context, ks: seq<Key>, vals: map<Key, Value>): (r: Context)
    requires forall k :: k in ks ==> k in vals
    ensures r.groups == if GroupsKey in ks then Some(vals[GroupsKey]) else ctx.groups
    ensures r.version == if VersionKey in ks then Some(vals[VersionKey]) else ctx.version
    ensures forall k :: k in r.attributes <==> k in ctx.attributes || (k in ks && k != GroupsKey && k != VersionKey)
    ensures forall k :: k in r.attributes ==>
      r.attributes[k] == if k in ks && k != GroupsKey && k != VersionKey then vals[k] else ctx.attributes[k]
    decreases |ks|
  {
    if ks == [] then ctx
    else ConfigureAll(ConfigureOne(ctx, ks[0], vals[ks[0]]), ks[1..], vals)
  }

  /** Configures a freshly constructed context from the option array, key by key in iteration order. */
  function ConfigureContext(options: PhpArray): (ctx: Context)
    requires Valid(options)
    ensures ctx.groups == Get(options, GroupsKey)
    ensures ctx.version == Get(options, VersionKey)
    ensures ctx.attributes == options.vals - {GroupsKey, VersionKey}
  {
    var ctx := ConfigureAll(Fresh, options.keys, options.vals);
    var expected := options.vals - {GroupsKey, VersionKey};
    assert forall k :: k in ctx.attributes <==> k in expected;
    assert ctx.attributes == expected;
    ctx
  }

  /** Puts a context back into option form: attributes plus the two special keys. */
  function Options(ctx: Context): map<Key, Value> {
    var withGroups := if ctx.groups.Some? then ctx.attributes[GroupsKey := ctx.groups.value] else ctx.attributes;
    if ctx.version.Some? then withGroups[VersionKey := ctx.version.value] else withGroups
  }

  /** Building a context loses no option: reading it back gives the options again. */
  lemma ConfigureContextLosesNothing(options: PhpArray)
    requires Valid(options)
    ensures Options(ConfigureContext(options)) == options.vals
  {
    var ctx := ConfigureContext(options);
    var m := Options(ctx);
    forall k | k in m || k in options.vals
      ensures k in m && k in options.vals && m[k] == options.vals[k]
    {
    }
  }

  /** Example: `{groups: ["g1"], version: "2.0", extra: "x"}` sets the groups, the version and one attribute. */
  lemma ConfigureContextExample()
    ensures var g := Arr(PhpArray([Index(0)], map[Index(0) := Str("g1")]));
      var options := PhpArray([GroupsKey, VersionKey, Name("extra")],
                              map[GroupsKey := g, VersionKey := Str("2.0"), Name("extra") := Str("x")]);
      && Valid(options)
      && ConfigureContext(options) == Context(Some(g), Some(Str("2.0")), map[Name("extra") := Str("x")])
  {
    var g := Arr(PhpArray([Index(0)], map[Index(0) := Str("g1")]));
    var options := PhpArray([GroupsKey, VersionKey, Name("extra")],
                            map[GroupsKey := g, VersionKey := Str("2.0"), Name("extra") := Str("x")]);
    assert NoDuplicates([Name("extra")]);
    assert NoDuplicates([VersionKey, Name("extra")]);
    assert Valid(options);
    var ctx := ConfigureContext(options);
    assert ctx.attributes == map[Name("extra") := Str("x")];
  }
}
