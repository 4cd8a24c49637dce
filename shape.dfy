/** The FeatureDesign task (src/shape.rs): its input and output records, the
    schema the model's JSON is validated against, and the record <-> JSON
    correspondence that serde's derived `Serialize`/`Deserialize` provide.
    The Formation task's records are also declared here, reduced to what the
    retry loop looks at. */
module Shape {
  import opened Wrappers
  import opened JsonValue
  import opened Types

  datatype FeatureDesignInput = FeatureDesignInput(repoSummary: string, constraints: seq<string>)

  datatype Component = Component(id: string, responsibility: string, api: string)

  datatype FeatureDesignOutput = FeatureDesignOutput(
    name: string,
    rationale: string,
    components: seq<Component>,
    risks: seq<string>)

  /** The Formation task's input: only the description and the requested
      number of units matter to the prompt and the count check. */
  datatype FormationInput = FormationInput(formationDescription: string, unitCount: nat)

  /** A formation point; its coordinates are never inspected by the loop. */
  datatype Coordinate = Coordinate(x: real, y: real)

  datatype FormationOutput = FormationOutput(coordinates: seq<Coordinate>)

  // ---------------------------------------------------------------------
  // The schema

  function ComponentSchema(): TypeDef {
    Object([
      FieldDef("id", Text),
      FieldDef("responsibility", Text),
      FieldDef("api", Markdown)
    ])
  }

  /** `feature_design_output_typedef`. */
  function FeatureDesignSchema(): TypeDef {
    Object([
      FieldDef("name", Text),
      FieldDef("rationale", Markdown),
      FieldDef("components", List(ComponentSchema())),
      FieldDef("risks", List(Text))
    ])
  }

  function FieldNames(fields: seq<FieldDef>): (names: seq<string>)
    ensures |names| == |fields|
    ensures forall k :: 0 <= k < |fields| ==> names[k] == fields[k].name
  {
    if fields == [] then [] else [fields[0].name] + FieldNames(fields[1..])
  }

  /** Within every object of the schema, field names are pairwise distinct. */
  ghost predicate DistinctFieldNames(ty: TypeDef)
    decreases ty
  {
    match ty
    case List(inner) => DistinctFieldNames(inner)
    case Object(fields) =>
      (forall j, k :: 0 <= j < k < |fields| ==> fields[j].name != fields[k].name) &&
      forall k :: 0 <= k < |fields| ==> DistinctFieldNames(fields[k].ty)
    case _ => true
  }

  /** The schema's fields, kinds and order, and the distinctness of names. */
  lemma {:induction false} FeatureDesignSchemaShape()
    ensures FeatureDesignSchema().Object?
    ensures FieldNames(FeatureDesignSchema().fields) == ["name", "rationale", "components", "risks"]
    ensures FieldNames(ComponentSchema().fields) == ["id", "responsibility", "api"]
    ensures DistinctFieldNames(FeatureDesignSchema())
  {
    var c := ComponentSchema().fields;
    assert DistinctFieldNames(ComponentSchema()) by {
      assert c[0].name != c[1].name && c[0].name != c[2].name && c[1].name != c[2].name;
    }
    var f := FeatureDesignSchema().fields;
    assert f[0].name != f[1].name && f[0].name != f[2].name && f[0].name != f[3].name;
    assert f[1].name != f[2].name && f[1].name != f[3].name && f[2].name != f[3].name;
  }

  /** An empty object is missing all four required fields, and the validator
      reports every one of them, in declared order. */
  lemma EmptyObjectMissesEveryField()
    ensures Errors(FeatureDesignSchema(), JObj([]), "$") ==
            [MissingField("$.name"), MissingField("$.rationale"),
             MissingField("$.components"), MissingField("$.risks")]
  {
    var f := FeatureDesignSchema().fields;
    assert |f| == 4;
    assert f[0].name == "name" && FieldPath("$", "name") == "$.name";
    assert FieldCheck(f[0], [], "$") == [MissingField("$.name")];
    assert f[1].name == "rationale" && FieldPath("$", "rationale") == "$.rationale";
    assert FieldCheck(f[1], [], "$") == [MissingField("$.rationale")];
    assert f[2].name == "components" && FieldPath("$", "components") == "$.components";
    assert FieldCheck(f[2], [], "$") == [MissingField("$.components")];
    assert f[3].name == "risks" && FieldPath("$", "risks") == "$.risks";
    assert FieldCheck(f[3], [], "$") == [MissingField("$.risks")];
    assert FieldErrors(f, [], "$", 1) == [MissingField("$.name")];
    assert FieldErrors(f, [], "$", 2) == [MissingField("$.name"), MissingField("$.rationale")];
    assert FieldErrors(f, [], "$", 3) == [MissingField("$.name"), MissingField("$.rationale"), MissingField("$.components")];
  }

  // ---------------------------------------------------------------------
  // Decoding a validated value into the record (serde `from_value`)

  function StringField(members: seq<(string, Json)>, key: string): Option<string> {
    match Lookup(members, key)
    case Some(JStr(s)) => Some(s)
    case _ => None
  }

  function DecodeComponent(v: Json): Option<Component> {
    if !v.JObj? then None
    else
      match (StringField(v.members, "id"), StringField(v.members, "responsibility"), StringField(v.members, "api"))
      case (Some(id), Some(resp), Some(api)) => Some(Component(id, resp, api))
      case _ => None
  }

  function DecodeComponents(items: seq<Json>): Option<seq<Component>> {
    if items == [] then Some([])
    else
      match (DecodeComponent(items[0]), DecodeComponents(items[1..]))
      case (Some(c), Some(cs)) => Some([c] + cs)
      case _ => None
  }

  function DecodeStrings(items: seq<Json>): Option<seq<string>> {
    if items == [] then Some([])
    else
      match (items[0], DecodeStrings(items[1..]))
      case (JStr(s), Some(ss)) => Some([s] + ss)
      case _ => None
  }

  function ComponentsField(members: seq<(string, Json)>): Option<seq<Component>> {
    match Lookup(members, "components")
    case Some(JArr(items)) => DecodeComponents(items)
    case _ => None
  }

  function StringsField(members: seq<(string, Json)>, key: string): Option<seq<string>> {
    match Lookup(members, key)
    case Some(JArr(items)) => DecodeStrings(items)
    case _ => None
  }

  /** The object form of serde's derived `Deserialize` for
      `FeatureDesignOutput`: every field read from the entry of the same
      name; undeclared keys ignored. The array form is not modelled. */
  function Decode(v: Json): Option<FeatureDesignOutput> {
    if !v.JObj? then None
    else
      match (StringField(v.members, "name"), StringField(v.members, "rationale"),
             ComponentsField(v.members), StringsField(v.members, "risks"))
      case (Some(name), Some(rationale), Some(cs), Some(risks)) =>
        Some(FeatureDesignOutput(name, rationale, cs, risks))
      case _ => None
  }

  // ---------------------------------------------------------------------
  // The record as JSON (serde `Serialize`)

  function ComponentToJson(c: Component): Json {
    JObj([("id", JStr(c.id)), ("responsibility", JStr(c.responsibility)), ("api", JStr(c.api))])
  }

  function ComponentsToJson(cs: seq<Component>): (items: seq<Json>)
    ensures |items| == |cs|
  {
    if cs == [] then [] else [ComponentToJson(cs[0])] + ComponentsToJson(cs[1..])
  }

  function StringsToJson(ss: seq<string>): (items: seq<Json>)
    ensures |items| == |ss|
  {
    if ss == [] then [] else [JStr(ss[0])] + StringsToJson(ss[1..])
  }

  function ToJson(o: FeatureDesignOutput): Json {
    JObj([("name", JStr(o.name)), ("rationale", JStr(o.rationale)),
          ("components", JArr(ComponentsToJson(o.components))), ("risks", JArr(StringsToJson(o.risks)))])
  }

  // ---------------------------------------------------------------------
  // The record and the schema describe the same shape

  /** The JSON value carries each field of the component verbatim. */
  ghost predicate ComponentMirrors(v: Json, c: Component) {
    v.JObj? &&
    Lookup(v.members, "id") == Some(JStr(c.id)) &&
    Lookup(v.members, "responsibility") == Some(JStr(c.responsibility)) &&
    Lookup(v.members, "api") == Some(JStr(c.api))
  }

  /** The JSON value carries each field of the output record verbatim. */
  ghost predicate Mirrors(v: Json, o: FeatureDesignOutput) {
    v.JObj? &&
    Lookup(v.members, "name") == Some(JStr(o.name)) &&
    Lookup(v.members, "rationale") == Some(JStr(o.rationale)) &&
    (match Lookup(v.members, "components")
     case Some(JArr(items)) =>
       |items| == |o.components| && forall i :: 0 <= i < |items| ==> ComponentMirrors(items[i], o.components[i])
     case _ => false) &&
    (match Lookup(v.members, "risks")
     case Some(JArr(items)) => |items| == |o.risks| && forall i :: 0 <= i < |items| ==> items[i] == JStr(o.risks[i])
     case _ => false)
  }

  // Decoding reads each field verbatim ...

  lemma {:induction false} DecodeComponentsMirrors(items: seq<Json>)
    requires DecodeComponents(items).Some?
    ensures |DecodeComponents(items).value| == |items|
    ensures forall i :: 0 <= i < |items| ==> ComponentMirrors(items[i], DecodeComponents(items).value[i])
  {
    if items != [] {
      DecodeComponentsMirrors(items[1..]);
      var cs := DecodeComponents(items).value;
      forall i | 0 <= i < |items| ensures ComponentMirrors(items[i], cs[i]) {
        if i > 0 {
          assert items[i] == items[1..][i - 1];
        }
      }
    }
  }

  lemma {:induction false} DecodeStringsMirrors(items: seq<Json>)
    requires DecodeStrings(items).Some?
    ensures |DecodeStrings(items).value| == |items|
    ensures forall i :: 0 <= i < |items| ==> items[i] == JStr(DecodeStrings(items).value[i])
  {
    if items != [] {
      DecodeStringsMirrors(items[1..]);
      var ss := DecodeStrings(items).value;
      forall i | 0 <= i < |items| ensures items[i] == JStr(ss[i]) {
        if i > 0 {
          assert items[i] == items[1..][i - 1];
        }
      }
    }
  }

  /** A decoded record holds exactly what the JSON said. */
  lemma DecodeIsVerbatim(v: Json)
    requires Decode(v).Some?
    ensures Mirrors(v, Decode(v).value)
  {
    DecodeComponentsMirrors(Lookup(v.members, "components").value.items);
    DecodeStringsMirrors(Lookup(v.members, "risks").value.items);
  }

  // ... and a value carrying a record's fields decodes to that record.

  lemma MirroredComponentDecodes(v: Json, c: Component)
    requires ComponentMirrors(v, c)
    ensures DecodeComponent(v) == Some(c)
  {
  }

  lemma {:induction false} MirroredComponentsDecode(items: seq<Json>, cs: seq<Component>)
    requires |items| == |cs|
    requires forall i :: 0 <= i < |items| ==> ComponentMirrors(items[i], cs[i])
    ensures DecodeComponents(items) == Some(cs)
  {
    if items != [] {
      MirroredComponentDecodes(items[0], cs[0]);
      MirroredComponentsDecode(items[1..], cs[1..]);
      assert [cs[0]] + cs[1..] == cs;
    }
  }

  lemma {:induction false} MirroredStringsDecode(items: seq<Json>, ss: seq<string>)
    requires |items| == |ss|
    requires forall i :: 0 <= i < |items| ==> items[i] == JStr(ss[i])
    ensures DecodeStrings(items) == Some(ss)
  {
    if items != [] {
      MirroredStringsDecode(items[1..], ss[1..]);
      assert [ss[0]] + ss[1..] == ss;
    }
  }

  /** Decoding succeeds with exactly the record whose fields the value
      carries verbatim. */
  lemma DecodeIffMirrors(v: Json, o: FeatureDesignOutput)
    ensures Decode(v) == Some(o) <==> Mirrors(v, o)
  {
    if Decode(v) == Some(o) {
      DecodeIsVerbatim(v);
    }
    if Mirrors(v, o) {
      var cItems := Lookup(v.members, "components").value.items;
      MirroredComponentsDecode(cItems, o.components);
      MirroredStringsDecode(Lookup(v.members, "risks").value.items, o.risks);
    }
  }

  // ---------------------------------------------------------------------
  // Validation and decoding agree

  lemma ConformingComponentDecodes(v: Json)
    requires Conforms(ComponentSchema(), v)
    ensures DecodeComponent(v).Some?
  {
    var f := ComponentSchema().fields;
    assert FieldConforms(f[0], v.members) && FieldConforms(f[1], v.members) && FieldConforms(f[2], v.members);
  }

  lemma {:induction false} ConformingComponentsDecode(items: seq<Json>)
    requires forall i :: 0 <= i < |items| ==> Conforms(ComponentSchema(), items[i])
    ensures DecodeComponents(items).Some?
  {
    if items != [] {
      ConformingComponentDecodes(items[0]);
      ConformingComponentsDecode(items[1..]);
    }
  }

  lemma {:induction false} ConformingStringsDecode(items: seq<Json>)
    requires forall i :: 0 <= i < |items| ==> Conforms(Text, items[i])
    ensures DecodeStrings(items).Some?
  {
    if items != [] {
      assert Conforms(Text, items[0]);
      ConformingStringsDecode(items[1..]);
    }
  }

  /** Decoding after successful validation never fails: every value the
      validator accepts against the FeatureDesign schema decodes into the
      record, field for field. */
  lemma {:induction false} ValidatedValueDecodes(v: Json)
    requires Errors(FeatureDesignSchema(), v, "$") == []
    ensures Decode(v).Some? && Mirrors(v, Decode(v).value)
  {
    ValidIffConforms(FeatureDesignSchema(), v, "$");
    var f := FeatureDesignSchema().fields;
    assert FieldConforms(f[0], v.members) && FieldConforms(f[1], v.members);
    assert FieldConforms(f[2], v.members) && FieldConforms(f[3], v.members);
    ConformingComponentsDecode(Lookup(v.members, "components").value.items);
    ConformingStringsDecode(Lookup(v.members, "risks").value.items);
    DecodeIsVerbatim(v);
  }

  lemma MirroredComponentConforms(v: Json, c: Component)
    requires ComponentMirrors(v, c)
    ensures Conforms(ComponentSchema(), v)
  {
    var f := ComponentSchema().fields;
    assert FieldConforms(f[0], v.members) && FieldConforms(f[1], v.members) && FieldConforms(f[2], v.members);
  }

  lemma MirroredListsConform(v: Json, o: FeatureDesignOutput)
    requires Mirrors(v, o)
    ensures Conforms(List(ComponentSchema()), Lookup(v.members, "components").value)
    ensures Conforms(List(Text), Lookup(v.members, "risks").value)
  {
    var components := Lookup(v.members, "components").value;
    forall i | 0 <= i < |components.items| ensures Conforms(ComponentSchema(), components.items[i]) {
      MirroredComponentConforms(components.items[i], o.components[i]);
    }
    var risks := Lookup(v.members, "risks").value;
    forall i | 0 <= i < |risks.items| ensures Conforms(Text, risks.items[i]) {
      assert risks.items[i] == JStr(o.risks[i]);
    }
  }

  /** A value carrying a record's fields passes the schema. */
  lemma MirroredValueConforms(v: Json, o: FeatureDesignOutput)
    requires Mirrors(v, o)
    ensures Errors(FeatureDesignSchema(), v, "$") == []
  {
    MirroredValueMatchesSchema(v, o);
    ValidIffConforms(FeatureDesignSchema(), v, "$");
  }

  lemma MirroredValueMatchesSchema(v: Json, o: FeatureDesignOutput)
    requires Mirrors(v, o)
    ensures Conforms(FeatureDesignSchema(), v)
  {
    MirroredListsConform(v, o);
    var f := FeatureDesignSchema().fields;
    assert FieldConforms(f[0], v.members) by { assert f[0] == FieldDef("name", Text); }
    assert FieldConforms(f[1], v.members) by { assert f[1] == FieldDef("rationale", Markdown); }
    assert FieldConforms(f[2], v.members) by { assert f[2] == FieldDef("components", List(ComponentSchema())); }
    assert FieldConforms(f[3], v.members) by { assert f[3] == FieldDef("risks", List(Text)); }
  }

  // ---------------------------------------------------------------------
  // The record, written as JSON

  lemma ComponentToJsonMirrors(c: Component)
    ensures ComponentMirrors(ComponentToJson(c), c)
  {
    var m := ComponentToJson(c).members;
    assert Lookup(m, "responsibility") == Lookup(m[1..], "responsibility");
    assert Lookup(m, "api") == Lookup(m[1..], "api") == Lookup(m[1..][1..], "api");
  }

  lemma {:induction false} ComponentsToJsonMirror(cs: seq<Component>)
    ensures forall i :: 0 <= i < |cs| ==> ComponentMirrors(ComponentsToJson(cs)[i], cs[i])
  {
    if cs != [] {
      ComponentsToJsonMirror(cs[1..]);
      var items := ComponentsToJson(cs);
      ComponentToJsonMirrors(cs[0]);
      forall i | 0 <= i < |cs| ensures ComponentMirrors(items[i], cs[i]) {
        if i > 0 {
          assert items[i] == ComponentsToJson(cs[1..])[i - 1];
        }
      }
    }
  }

  lemma {:induction false} StringsToJsonMirror(ss: seq<string>)
    ensures forall i :: 0 <= i < |ss| ==> StringsToJson(ss)[i] == JStr(ss[i])
  {
    if ss != [] {
      StringsToJsonMirror(ss[1..]);
      var items := StringsToJson(ss);
      forall i | 0 <= i < |ss| ensures items[i] == JStr(ss[i]) {
        if i > 0 {
          assert items[i] == StringsToJson(ss[1..])[i - 1];
        }
      }
    }
  }

  lemma ToJsonMirrors(o: FeatureDesignOutput)
    ensures Mirrors(ToJson(o), o)
  {
    ComponentsToJsonMirror(o.components);
    StringsToJsonMirror(o.risks);
    var m := ToJson(o).members;
    assert Lookup(m, "rationale") == Lookup(m[1..], "rationale");
    assert Lookup(m, "components") == Lookup(m[1..], "components") == Lookup(m[1..][1..], "components");
    assert Lookup(m, "risks") == Lookup(m[1..], "risks") == Lookup(m[1..][1..], "risks")
        == Lookup(m[1..][1..][1..], "risks");
  }

  /** The record and the schema agree: every record, written as JSON, passes
      the FeatureDesign schema and decodes back to itself. */
  lemma RecordMatchesSchema(o: FeatureDesignOutput)
    ensures Errors(FeatureDesignSchema(), ToJson(o), "$") == []
    ensures Decode(ToJson(o)) == Some(o)
  {
    ToJsonMirrors(o);
    MirroredValueConforms(ToJson(o), o);
    DecodeIffMirrors(ToJson(o), o);
  }
}
