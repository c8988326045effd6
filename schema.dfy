/** `PydanticModuleLoader._extract_pydantic_classes` and `PydanticModuleInfo`: picking the model
    classes out of the members of an executed module. Executing the code
    (`_load_as_module`) is not part of this module: its result is the member list. */
module Schema {
  import opened Wrappers
  import opened Json

  /** How a class relates to pydantic's `BaseModel`. */
  datatype ClassKind =
    | BaseModelItself  // `BaseModel`, as bound by `from pydantic import BaseModel`
    | ModelSubclass    // a class deriving from `BaseModel`
    | OtherClass       // any other class

  /** What `model_fields` records of one field. */
  datatype FieldInfo = FieldInfo(annotation: string, required: bool)

  /** A class object: its kind, its docstring as `inspect.getdoc` returns it, and its
      `model_fields` when it has that attribute. */
  datatype ClassObject = ClassObject(
    qualname: string,
    kind: ClassKind,
    doc: Option<string>,
    modelFields: Option<seq<(string, FieldInfo)>>)

  /** A value bound in a module's namespace. */
  datatype MemberValue = ClassValue(cls: ClassObject) | OtherValue(description: string)

  /** `PydanticClassInfo`. */
  datatype ClassInfo = ClassInfo(cls: ClassObject, doc: string, fields: seq<(string, FieldInfo)>)

  /** An executed module, by identity. */
  type ModuleHandle = nat

  /** `PydanticModuleInfo`: the module and its model classes, in the order found. */
  datatype ModuleInfo = ModuleInfo(handle: ModuleHandle, classes: seq<(string, ClassInfo)>)

  /** `inspect.isclass(obj) and issubclass(obj, BaseModel) and obj != BaseModel`. */
  predicate IsModelClass(v: MemberValue) {
    v.ClassValue? && v.cls.kind == ModelSubclass
  }

  /** `PydanticClassInfo(cls=obj, doc=inspect.getdoc(obj) or "", fields=model_fields or {})`. */
  function InfoOf(c: ClassObject): ClassInfo {
    ClassInfo(c, c.doc.GetOr(""), c.modelFields.GetOr([]))
  }

  /** The model classes among `members`, in member order. */
  function ClassesOf(members: seq<(string, MemberValue)>): (r: seq<(string, ClassInfo)>)
    ensures |r| <= |members|
    ensures forall i :: 0 <= i < |r| ==> r[i].1.cls.kind == ModelSubclass
    ensures forall i :: 0 <= i < |r| ==>
      exists j :: 0 <= j < |members| && members[j] == (r[i].0, ClassValue(r[i].1.cls)) && r[i].1 == InfoOf(r[i].1.cls)
    ensures forall j :: 0 <= j < |members| && IsModelClass(members[j].1) ==>
      (members[j].0, InfoOf(members[j].1.cls)) in r
    ensures |members| == 1 ==>
      r == if IsModelClass(members[0].1) then [(members[0].0, InfoOf(members[0].1.cls))] else []
  {
    if members == [] then []
    else
      var init := members[..|members| - 1];
      var last := members[|members| - 1];
      var rest := ClassesOf(init);
      assert forall j :: 0 <= j < |init| ==> init[j] == members[j];
      if IsModelClass(last.1) then rest + [(last.0, InfoOf(last.1.cls))] else rest
  }

  /** The classes keep the order of the members: those of a first stretch of members come
      before those of the rest. */
  lemma {:induction false} ClassesOfAppend(a: seq<(string, MemberValue)>, b: seq<(string, MemberValue)>)
    ensures ClassesOf(a + b) == ClassesOf(a) + ClassesOf(b)
    decreases |b|
  {
    if b == [] {
      assert a + b == a;
    } else {
      var init := b[..|b| - 1];
      ClassesOfAppend(a, init);
      assert (a + b)[..|a + b| - 1] == a + init;
      assert (a + b)[|a + b| - 1] == b[|b| - 1];
    }
  }

  /** `_extract_pydantic_classes`: the loop over `inspect.getmembers(module)`. Since the member
      names are distinct, assigning `classes[name]` appends. */
  method ExtractPydanticClasses(members: seq<(string, MemberValue)>) returns (classes: seq<(string, ClassInfo)>)
    ensures classes == ClassesOf(members)
  {
    classes := [];
    for i := 0 to |members|
      invariant classes == ClassesOf(members[..i])
    {
      assert members[..i + 1][..i] == members[..i];
      var (name, obj) := members[i];
      if obj.ClassValue? && obj.cls.kind == ModelSubclass {
        var doc := if obj.cls.doc.Some? then obj.cls.doc.value else "";
        var fields := if obj.cls.modelFields.Some? then obj.cls.modelFields.value else [];
        classes := classes + [(name, ClassInfo(obj.cls, doc, fields))];
      }
    }
    assert members[..|members|] == members;
  }

  /** `PydanticModuleLoader.load` once the module has run. */
  function Load(handle: ModuleHandle, members: seq<(string, MemberValue)>): ModuleInfo {
    ModuleInfo(handle, ClassesOf(members))
  }

  /** `has_classes`. */
  predicate HasClasses(info: ModuleInfo) {
    info.classes != []
  }

  /** `get_class_names`: the names in the order the classes were found. */
  function GetClassNames(info: ModuleInfo): (names: seq<string>)
    ensures |names| == |info.classes|
    ensures forall i :: 0 <= i < |names| ==> names[i] == info.classes[i].0
  {
    seq(|info.classes|, i requires 0 <= i < |info.classes| => info.classes[i].0)
  }

  /** A loaded module has classes exactly when one of its members is a model class. */
  lemma HasClassesIff(handle: ModuleHandle, members: seq<(string, MemberValue)>)
    ensures HasClasses(Load(handle, members)) <==> exists j :: 0 <= j < |members| && IsModelClass(members[j].1)
  {
    var r := ClassesOf(members);
    if r != [] {
      assert r[0].1.cls.kind == ModelSubclass;
      var j :| 0 <= j < |members| && members[j] == (r[0].0, ClassValue(r[0].1.cls));
      assert IsModelClass(members[j].1);
    }
  }

  /** The number of model classes, counted from the front. */
  function CountModels(members: seq<(string, MemberValue)>): nat {
    if members == [] then 0
    else (if IsModelClass(members[0].1) then 1 else 0) + CountModels(members[1..])
  }

  lemma {:induction false} CountModelsSnoc(members: seq<(string, MemberValue)>, m: (string, MemberValue))
    ensures CountModels(members + [m]) == CountModels(members) + (if IsModelClass(m.1) then 1 else 0)
  {
    if members != [] {
      assert (members + [m])[1..] == members[1..] + [m];
      CountModelsSnoc(members[1..], m);
    }
  }

  /** A module with N model classes yields exactly N entries, never `BaseModel` itself. */
  lemma {:induction false} ClassesOfCount(members: seq<(string, MemberValue)>)
    ensures |ClassesOf(members)| == CountModels(members)
  {
    if members != [] {
      var init := members[..|members| - 1];
      ClassesOfCount(init);
      assert members == init + [members[|members| - 1]];
      CountModelsSnoc(init, members[|members| - 1]);
    }
  }

  /** The class names come out distinct when the member names are, so the list is a faithful
      dict. */
  lemma {:induction false} ClassesOfDistinct(members: seq<(string, MemberValue)>)
    requires DistinctNames(members)
    ensures DistinctNames(ClassesOf(members))
    ensures NameSet(ClassesOf(members)) <= NameSet(members)
  {
    if members != [] {
      var init := members[..|members| - 1];
      var last := members[|members| - 1];
      assert DistinctNames(init);
      ClassesOfDistinct(init);
      var rest := ClassesOf(init);
      assert last.0 !in NameSet(init);
      if IsModelClass(last.1) {
        var r := rest + [(last.0, InfoOf(last.1.cls))];
        assert forall i :: 0 <= i < |rest| ==> r[i] == rest[i];
        assert last.0 !in NameSet(rest);
      }
    }
  }
}
