/** `TemplateRenderer._build_context` and the `context_extension` merge of
    `TemplateRenderer.render`: the names a template can use. Both copies of the renderer build
    the same context; only the type of `config` differs, so it is a type parameter here. */
module Context {
  import opened Json
  import opened Schema

  /** Which `mcp_call_tool` / `mcp_read_resource` a template is given. */
  datatype Caller =
    | NotConnectedStub  // the stand-in used when no MCP manager exists
    | ManagerBacked     // the functions that go through the MCP manager

  /** A value bound in the render context. */
  datatype Value<C> =
    | ModuleValue(handle: ModuleHandle)
    | ConfigValue(config: C)
    | DocsValue(docs: map<string, string>)
    | FieldsValue(fields: map<string, seq<(string, FieldInfo)>>)
    | SchemaJsonFilter
    | ClassBinding(cls: ClassObject)
    | StdlibModule(name: string)
    | CatalogValue(catalog: map<string, seq<Json>>)
    | CallToolValue(caller: Caller)
    | ReadResourceValue(caller: Caller)

  /** The keys of the basic context, before the classes are bound. */
  const BasicNames: set<string> := {"module", "config", "pydantic_docs", "pydantic_fields", "get_schema_json"}

  /** The standard library modules bound last, in this order. */
  const StdlibNames: set<string> := {"datetime", "typing", "pydantic", "json"}

  /** `{name: info.doc for name, info in classes.items()}`. */
  function DocsOf(classes: seq<(string, ClassInfo)>): (docs: map<string, string>)
    ensures docs.Keys == NameSet(classes)
    decreases |classes|
  {
    if classes == [] then map[]
    else
      var init := classes[..|classes| - 1];
      var last := classes[|classes| - 1];
      var rest := DocsOf(init);
      assert NameSet(classes) == NameSet(init) + {last.0} by {
        assert forall i :: 0 <= i < |init| ==> init[i] == classes[i];
      }
      rest[last.0 := last.1.doc]
  }

  /** `{name: info.fields for name, info in classes.items()}`. */
  function FieldsOf(classes: seq<(string, ClassInfo)>): (fields: map<string, seq<(string, FieldInfo)>>)
    ensures fields.Keys == NameSet(classes)
    decreases |classes|
  {
    if classes == [] then map[]
    else
      var init := classes[..|classes| - 1];
      var last := classes[|classes| - 1];
      var rest := FieldsOf(init);
      assert NameSet(classes) == NameSet(init) + {last.0} by {
        assert forall i :: 0 <= i < |init| ==> init[i] == classes[i];
      }
      rest[last.0 := last.1.fields]
  }

  /** Each class name maps to the docstring of the last class of that name, which with
      distinct names is its own class. */
  lemma {:induction false} DocsOfValue(classes: seq<(string, ClassInfo)>, i: nat)
    requires i < |classes|
    requires forall j :: i < j < |classes| ==> classes[j].0 != classes[i].0
    ensures DocsOf(classes)[classes[i].0] == classes[i].1.doc
    decreases |classes|
  {
    if i < |classes| - 1 {
      var init := classes[..|classes| - 1];
      assert init[i] == classes[i];
      DocsOfValue(init, i);
    }
  }

  /** Each class name maps to the fields of the last class of that name. */
  lemma {:induction false} FieldsOfValue(classes: seq<(string, ClassInfo)>, i: nat)
    requires i < |classes|
    requires forall j :: i < j < |classes| ==> classes[j].0 != classes[i].0
    ensures FieldsOf(classes)[classes[i].0] == classes[i].1.fields
    decreases |classes|
  {
    if i < |classes| - 1 {
      var init := classes[..|classes| - 1];
      assert init[i] == classes[i];
      FieldsOfValue(init, i);
    }
  }

  /** The context after `context[name] = info.cls` for each class in turn. */
  function BindClasses<C>(context: map<string, Value<C>>, classes: seq<(string, ClassInfo)>): map<string, Value<C>>
    decreases |classes|
  {
    if classes == [] then context
    else
      var last := classes[|classes| - 1];
      BindClasses(context, classes[..|classes| - 1])[last.0 := ClassBinding(last.1.cls)]
  }

  /** The standard library bindings. */
  function Stdlib<C>(): map<string, Value<C>> {
    map n | n in StdlibNames :: StdlibModule(n)
  }

  /** The five entries the context starts with. */
  function Initial<C>(config: C, info: ModuleInfo): map<string, Value<C>> {
    map[
      "module" := ModuleValue(info.handle),
      "config" := ConfigValue(config),
      "pydantic_docs" := DocsValue(DocsOf(info.classes)),
      "pydantic_fields" := FieldsValue(FieldsOf(info.classes)),
      "get_schema_json" := SchemaJsonFilter]
  }

  /** The context `_build_context` returns. */
  function BaseContext<C>(config: C, info: ModuleInfo): map<string, Value<C>> {
    BindClasses(Initial(config, info), info.classes) + Stdlib()
  }

  /** `_build_context`. */
  method BuildContext<C>(config: C, info: ModuleInfo) returns (context: map<string, Value<C>>)
    ensures context == BaseContext(config, info)
  {
    context := map[
      "module" := ModuleValue(info.handle),
      "config" := ConfigValue(config),
      "pydantic_docs" := DocsValue(DocsOf(info.classes)),
      "pydantic_fields" := FieldsValue(FieldsOf(info.classes)),
      "get_schema_json" := SchemaJsonFilter];
    for i := 0 to |info.classes|
      invariant context == BindClasses(Initial(config, info), info.classes[..i])
    {
      assert info.classes[..i + 1][..i] == info.classes[..i];
      var (name, classInfo) := info.classes[i];
      context := context[name := ClassBinding(classInfo.cls)];
    }
    assert info.classes[..|info.classes|] == info.classes;
    ghost var bound := context;
    context := context["datetime" := StdlibModule("datetime")];
    context := context["typing" := StdlibModule("typing")];
    context := context["pydantic" := StdlibModule("pydantic")];
    context := context["json" := StdlibModule("json")];
    StdlibUpdates(bound);
  }

  /** The four assignments of the standard library modules override whatever was bound. */
  lemma StdlibUpdates<C>(m: map<string, Value<C>>)
    ensures m["datetime" := StdlibModule("datetime")]["typing" := StdlibModule("typing")]
      ["pydantic" := StdlibModule("pydantic")]["json" := StdlibModule("json")] == m + Stdlib()
  {
    var u := m["datetime" := StdlibModule("datetime")]["typing" := StdlibModule("typing")]
      ["pydantic" := StdlibModule("pydantic")]["json" := StdlibModule("json")];
    assert u.Keys == m.Keys + Stdlib<C>().Keys;
  }

  /** Binding classes adds exactly their names. */
  lemma {:induction false} BindClassesKeys<C>(context: map<string, Value<C>>, classes: seq<(string, ClassInfo)>)
    ensures BindClasses(context, classes).Keys == context.Keys + NameSet(classes)
    decreases |classes|
  {
    if classes != [] {
      var init := classes[..|classes| - 1];
      BindClassesKeys(context, init);
      assert forall i :: 0 <= i < |init| ==> init[i] == classes[i];
      assert NameSet(classes) == NameSet(init) + {classes[|classes| - 1].0};
    }
  }

  /** A key no class is named after keeps its value. */
  lemma {:induction false} BindClassesKeeps<C>(context: map<string, Value<C>>, classes: seq<(string, ClassInfo)>, k: string)
    requires k in context
    requires forall i :: 0 <= i < |classes| ==> classes[i].0 != k
    ensures k in BindClasses(context, classes) && BindClasses(context, classes)[k] == context[k]
    decreases |classes|
  {
    if classes != [] {
      BindClassesKeeps(context, classes[..|classes| - 1], k);
    }
  }

  /** A class whose name no later class repeats is bound to its class object. */
  lemma {:induction false} BindClassesBinds<C>(context: map<string, Value<C>>, classes: seq<(string, ClassInfo)>, i: nat)
    requires i < |classes|
    requires forall j :: i < j < |classes| ==> classes[j].0 != classes[i].0
    ensures classes[i].0 in BindClasses(context, classes)
    ensures BindClasses(context, classes)[classes[i].0] == ClassBinding(classes[i].1.cls)
    decreases |classes|
  {
    if i < |classes| - 1 {
      var init := classes[..|classes| - 1];
      assert init[i] == classes[i];
      BindClassesBinds(context, init, i);
    }
  }

  /** The keys of the context: the five basic names, the class names and the standard
      library names. */
  lemma ContextKeys<C>(config: C, info: ModuleInfo)
    ensures BaseContext(config, info).Keys == BasicNames + NameSet(info.classes) + StdlibNames
  {
    BindClassesKeys(Initial(config, info), info.classes);
  }

  /** The standard library modules win over any class of the same name. */
  lemma StdlibBound<C>(config: C, info: ModuleInfo, n: string)
    requires n in StdlibNames
    ensures n in BaseContext(config, info) && BaseContext(config, info)[n] == StdlibModule(n)
  {
  }

  /** A class is bound under its name unless a standard library module takes it. */
  lemma ClassBound<C>(config: C, info: ModuleInfo, i: nat)
    requires DistinctNames(info.classes)
    requires i < |info.classes| && info.classes[i].0 !in StdlibNames
    ensures info.classes[i].0 in BaseContext(config, info)
    ensures BaseContext(config, info)[info.classes[i].0] == ClassBinding(info.classes[i].1.cls)
  {
    BindClassesBinds(Initial(config, info), info.classes, i);
  }

  /** A basic entry that no class shadows keeps its value: `pydantic_docs` stays the map
      `DocsOfValue` describes, `pydantic_fields` the one `FieldsOfValue` describes. */
  lemma BasicBound<C>(config: C, info: ModuleInfo, k: string)
    requires k in BasicNames && k !in NameSet(info.classes)
    ensures k in BaseContext(config, info) && BaseContext(config, info)[k] == Initial(config, info)[k]
  {
    var initial := Initial(config, info);
    assert k in initial;
    assert forall i :: 0 <= i < |info.classes| ==> info.classes[i].0 in NameSet(info.classes);
    BindClassesKeeps(initial, info.classes, k);
    NamesDisjoint();
  }

  /** No basic name is a standard library name. */
  lemma NamesDisjoint()
    ensures BasicNames !! StdlibNames
  {
  }

  /** `if context_extension: context.update(context_extension)`. */
  function RenderContext<C>(base: map<string, Value<C>>, extension: map<string, Value<C>>): map<string, Value<C>> {
    if extension != map[] then base + extension else base
  }

  /** The guard changes nothing: the extension's entries always win and the rest are kept. */
  lemma RenderContextMerge<C>(base: map<string, Value<C>>, extension: map<string, Value<C>>)
    ensures RenderContext(base, extension).Keys == base.Keys + extension.Keys
    ensures forall k :: k in extension ==> RenderContext(base, extension)[k] == extension[k]
    ensures forall k :: k in base && k !in extension ==> RenderContext(base, extension)[k] == base[k]
  {
  }
}
