/**
 * Hydrating a class model from a request payload: every payload field is
 * set on the model, passed through the entity's converter for that field
 * when there is one. No field is checked for being allowed or mandatory;
 * that is the payload validator's job.
 */
module EntityBuilder {
  import opened Common
  import opened Json
  import opened AJEntityClass

  /** The value stored for one payload field: converted when the registry has a converter for it. */
  function Converted(registry: ConverterRegistry, key: string, v: Value): Throws<Value>
  {
    if key in registry then registry[key](v) else Normal(v)
  }

  /** Some field of the payload has a converter that throws on its value. */
  predicate SomeConversionThrows(input: JsonObject, registry: ConverterRegistry)
  {
    exists k :: k in input && Converted(registry, k, input[k]).Thrown?
  }

  /** The attributes a payload whose conversions all succeed contributes. */
  function ConvertedPayload(input: JsonObject, registry: ConverterRegistry): (r: ClassRow)
    requires !SomeConversionThrows(input, registry)
    ensures r.Keys == input.Keys
    ensures forall k :: k in input && k !in registry ==> r[k] == input[k]
  {
    map k | k in input :: Converted(registry, k, input[k]).value
  }

  lemma OverrideUpdate(base: ClassRow, done: ClassRow, k: string, v: Value)
    ensures (base + done)[k := v] == base + done[k := v]
  {
  }

  /**
   * build: with no registry the payload is ignored; otherwise every field
   * is set, in some order, stopping at the first converter that throws.
   * When no converter throws, the model holds exactly the converted payload
   * over its previous attributes; when one does, only payload fields were
   * touched.
   */
  method Build(m: ClassModel, input: JsonObject, registry: Option<ConverterRegistry>) returns (r: Throws<()>)
    modifies m
    ensures registry.None? ==> r.Normal? && m.attrs == old(m.attrs) && m.dirty == old(m.dirty)
    ensures registry.Some? ==> (r.Thrown? <==> SomeConversionThrows(input, registry.value))
    ensures registry.Some? && r.Normal? ==>
              m.attrs == old(m.attrs) + ConvertedPayload(input, registry.value) && m.dirty == old(m.dirty) + input.Keys
    ensures r.Thrown? ==> m.dirty <= old(m.dirty) + input.Keys
                          && forall k :: k in old(m.attrs) && k !in input ==> k in m.attrs && m.attrs[k] == old(m.attrs)[k]
  {
    // An empty payload sets nothing: the loop below does not run.
    if registry.None? {
      return Normal(());
    }
    var reg := registry.value;
    var todo := input.Keys;
    ghost var done: ClassRow := map[];
    while todo != {}
      invariant todo <= input.Keys
      invariant done.Keys == input.Keys - todo
      invariant forall k :: k in done ==> Converted(reg, k, input[k]) == Normal(done[k])
      invariant m.attrs == old(m.attrs) + done
      invariant m.dirty == old(m.dirty) + done.Keys
      decreases todo
    {
      var k :| k in todo;
      var value := Converted(reg, k, input[k]);
      if value.Thrown? {
        return Thrown(value.message);
      }
      OverrideUpdate(old(m.attrs), done, k, value.value);
      m.Set(k, value.value);
      done := done[k := value.value];
      todo := todo - {k};
    }
    assert done == ConvertedPayload(input, reg);
    return Normal(());
  }
}
