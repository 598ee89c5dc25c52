/** Resolving a step's inputs by role: each value against the workspace that
    supplied it, action defaults against the owner's own config. */
module Provenance {
  import opened Results
  import opened Json
  import opened Text
  import JsonField
  import opened Connections

  /** One role's config: the workspace it belongs to, the config that answers for it, and which object that is. */
  datatype RoleConfig = RoleConfig(workspace: string, config: WorkspaceConfig, identity: nat)

  datatype RoleScope = RoleScope(
    caller: RoleConfig, actionOwner: Option<RoleConfig>, taskOwner: Option<RoleConfig>, others: WorkspaceLookup)
  {
    function Owner(): (r: RoleConfig)
      ensures actionOwner.Some? ==> r == actionOwner.value
      ensures actionOwner.None? ==> r == caller
    {
      if actionOwner.Some? then actionOwner.value else caller
    }

    function Task(): (r: RoleConfig)
      ensures taskOwner.Some? ==> r == taskOwner.value
      ensures taskOwner.None? ==> r == caller
    {
      if taskOwner.Some? then taskOwner.value else caller
    }
  }

  /** Answers up to two names from explicit configs, the rest from `base`. */
  function RoleLookup(base: WorkspaceLookup, first: (string, WorkspaceConfig),
                      second: Option<(string, WorkspaceConfig)>)
    : WorkspaceLookup
  {
    WorkspaceLookup(
      name =>
        if name == first.0 then Found(first.1)
        else if second.Some? && name == second.value.0 then Found(second.value.1)
        else base.get(name),
      base.offline)
  }

  /** Two commits of one workspace: `value`'s connections and types first, then those only `fallback` has. */
  function MergedSameWorkspace(value: WorkspaceConfig, fallback: WorkspaceConfig): WorkspaceConfig {
    WorkspaceConfig(fallback.connections + value.connections, fallback.connectionTypes + value.connectionTypes, Null)
  }

  function BucketScope(value: RoleConfig, schemaRole: RoleConfig, others: WorkspaceLookup): ResolveScope {
    if value.workspace == schemaRole.workspace then
      var config := if value.identity == schemaRole.identity then value.config
                    else MergedSameWorkspace(value.config, schemaRole.config);
      ResolveScope(RoleLookup(others, (value.workspace, config), None), schemaRole.workspace, value.workspace, None)
    else
      ResolveScope(
        RoleLookup(others, (value.workspace, value.config), Some((schemaRole.workspace, schemaRole.config))),
        schemaRole.workspace, value.workspace, Some(schemaRole.workspace))
  }

  /** Resolve one bucket: bare names in `value`'s config first, then in `schemaRole`'s. */
  method ResolveBucketByRole(input: Json, schema: Schema, value: RoleConfig, schemaRole: RoleConfig,
                             others: WorkspaceLookup)
    returns (r: Result<map<string, Json>, ResolveError>)
    ensures ResolvesTo(FieldsOf(input), schema, BucketScope(value, schemaRole, others), r)
  {
    r := ResolveConnectionInputsScoped(input, schema, BucketScope(value, schemaRole, others));
  }

  /** A bare name is looked up in the supplier's own config, then in the schema role's: freely when both are the same
      workspace at different commits, otherwise only if shared. The live configs in `others` are never consulted. */
  lemma BareNameByRole(name: string, value: RoleConfig, schemaRole: RoleConfig, others: WorkspaceLookup)
    requires QualifiedRef(name).None?
    requires value.identity == schemaRole.identity ==> value.config == schemaRole.config
    ensures ResolveConnectionRef(name, BucketScope(value, schemaRole, others)) ==
      var own, next := value.config.connections, schemaRole.config.connections;
      if name in own then Ok(ResolvedConnection(value.workspace, own[name]))
      else if name !in next then Err(NotFound)
      else if value.workspace == schemaRole.workspace || next[name].shared
      then Ok(ResolvedConnection(schemaRole.workspace, next[name]))
      else Err(NotShared)
  {}

  /** What a lookup shows of a workspace under a name: connections and types. */
  ghost predicate Shows(answer: Lookup, connections: map<string, ConnectionDef>, types: map<string,
                        ConnectionTypeDef>) {
    answer.Found? && answer.config.connections == connections && answer.config.connectionTypes == types
  }

  /** What each name shows while a bucket is resolved. The supplier's workspace shows the supplier's own config, with
      what only the schema role's commit of the same workspace has added to it; the schema role's workspace shows that
      role's config; every other name the live one. */
  lemma BucketView(value: RoleConfig, schemaRole: RoleConfig, others: WorkspaceLookup)
    requires value.identity == schemaRole.identity ==> value.config == schemaRole.config
    ensures var scope := BucketScope(value, schemaRole, others);
      var v, r, same := value.config, schemaRole.config, value.workspace == schemaRole.workspace;
      && scope.valueWs == value.workspace && scope.schemaWs == schemaRole.workspace
      && scope.fallbackWs == (if same then None else Some(schemaRole.workspace))
      && (!same ==> Shows(scope.lookup.get(value.workspace), v.connections, v.connectionTypes))
      && (!same ==> Shows(scope.lookup.get(schemaRole.workspace), r.connections, r.connectionTypes))
      && (same ==> scope.lookup.get(value.workspace).Found?)
      && (same ==> OnTopOf(v.connections, r.connections, scope.lookup.get(value.workspace).config.connections))
      && (same ==> OnTopOf(v.connectionTypes, r.connectionTypes,
        scope.lookup.get(value.workspace).config.connectionTypes))
      && (forall name :: name != value.workspace && name != schemaRole.workspace ==>
            scope.lookup.get(name) == others.get(name))
      && scope.lookup.offline == others.offline
  {}

  /** `all` is `upper`, and under it what only `lower` has. */
  ghost predicate OnTopOf<T(!new)>(upper: map<string, T>, lower: map<string, T>, all: map<string, T>) {
    && (forall k :: k in all <==> k in upper || k in lower)
    && (forall k :: k in upper ==> all[k] == upper[k])
    && (forall k :: k in lower && k !in upper ==> all[k] == lower[k])
  }

  // ---- Role-keyed and name-keyed resolution agree --------------------------------------------

  /** The two lookups show the same connections and types under every name. */
  ghost predicate SameView(a: WorkspaceLookup, b: WorkspaceLookup) {
    a.offline == b.offline && forall name :: SameAnswer(a.get(name), b.get(name))
  }

  ghost predicate SameAnswer(x: Lookup, y: Lookup) {
    match x
    case Found(c) => y.Found? && y.config.connections == c.connections && y.config.connectionTypes == c.connectionTypes
    case Unknown => y.Unknown?
    case Unavailable => y.Unavailable?
  }

  lemma CanonicalTypeReadsTheView(typeRef: string, ws: string, a: WorkspaceLookup, b: WorkspaceLookup)
    requires SameView(a, b)
    ensures CanonicalTypeRef(typeRef, ws, a) == CanonicalTypeRef(typeRef, ws, b)
  {
    assert SameAnswer(a.get(ws), b.get(ws));
    if QualifiedRef(typeRef).Some? {
      var other := QualifiedRef(typeRef).value.0;
      assert SameAnswer(a.get(other), b.get(other));
    }
  }

  lemma ReferenceReadsTheView(name: string, a: ResolveScope, b: ResolveScope)
    requires SameView(a.lookup, b.lookup) && a.valueWs == b.valueWs && a.fallbackWs == b.fallbackWs
    ensures ResolveConnectionRef(name, a) == ResolveConnectionRef(name, b)
  {
    assert SameAnswer(a.lookup.get(a.valueWs), b.lookup.get(a.valueWs));
    if QualifiedRef(name).Some? {
      var other := QualifiedRef(name).value.0;
      assert SameAnswer(a.lookup.get(other), b.lookup.get(other));
    }
    if a.fallbackWs.Some? {
      assert SameAnswer(a.lookup.get(a.fallbackWs.value), b.lookup.get(a.fallbackWs.value));
    }
  }

  lemma ConnectionValuesReadTheView(found: ResolvedConnection, fieldType: CanonicalType, a: WorkspaceLookup,
                                    b: WorkspaceLookup)
    requires SameView(a, b)
    ensures ConnectionValues(found, fieldType, a) == ConnectionValues(found, fieldType, b)
  {
    hide CanonicalTypeRef, ValuesWithTypeDefaults, CheckConnectionValues;
    if found.def.connectionType.Some? {
      CanonicalTypeReadsTheView(found.def.connectionType.value, found.workspace, a, b);
      assert SameAnswer(a.get(fieldType.workspace), b.get(fieldType.workspace));
    }
  }

  /** Resolution reads nothing of a workspace but its connections and connection types. */
  lemma FieldReadsTheView(value: Json, schema: Schema, a: ResolveScope, b: ResolveScope, k: string)
    requires SameView(a.lookup, b.lookup)
    requires a.schemaWs == b.schemaWs && a.valueWs == b.valueWs && a.fallbackWs == b.fallbackWs
    ensures FieldResult(value, schema, a, k) == FieldResult(value, schema, b, k)
  {
    hide SameView, CanonicalTypeRef, ResolveConnectionRef, ConnectionValues, IsPrimitive;
    if IsConnectionField(schema, k) && value.Str? {
      CanonicalTypeReadsTheView(schema[k].fieldType, a.schemaWs, a.lookup, b.lookup);
      ReferenceReadsTheView(value.s, a, b);
      var canonical, found :=
        CanonicalTypeRef(schema[k].fieldType, a.schemaWs, a.lookup), ResolveConnectionRef(value.s, a);
      if canonical.Some? && found.Ok? {
        ConnectionValuesReadTheView(found.value, canonical.value, a.lookup, b.lookup);
      }
    }
  }

  /** The name-keyed form of the same bucket. */
  function NamedScope(value: RoleConfig, schemaRole: RoleConfig, others: WorkspaceLookup): ResolveScope {
    ResolveScope(others, schemaRole.workspace, value.workspace,
                 if value.workspace == schemaRole.workspace then None else Some(schemaRole.workspace))
  }

  /** The role's config is the one `others` would have returned. */
  ghost predicate IsLive(role: RoleConfig, others: WorkspaceLookup) {
    others.get(role.workspace) == Found(role.config)
  }

  lemma LiveRolesShowTheSameView(value: RoleConfig, schemaRole: RoleConfig, others: WorkspaceLookup)
    requires IsLive(value, others) && IsLive(schemaRole, others)
    ensures SameView(BucketScope(value, schemaRole, others).lookup, others)
  {
    assert value.config.connections + value.config.connections == value.config.connections;
    assert value.config.connectionTypes + value.config.connectionTypes == value.config.connectionTypes;
  }

  /** When each role's config is the live one, resolving by role is resolving by name: the same outcomes,
      errors included. */
  lemma RoleKeyedIsNameKeyed(input: map<string, Json>, schema: Schema, value: RoleConfig, schemaRole: RoleConfig,
                             others: WorkspaceLookup, r: Result<map<string, Json>, ResolveError>)
    requires IsLive(value, others) && IsLive(schemaRole, others)
    ensures ResolvesTo(input, schema, BucketScope(value, schemaRole, others), r)
       <==> ResolvesTo(input, schema, NamedScope(value, schemaRole, others), r)
  {
    LiveRolesShowTheSameView(value, schemaRole, others);
    var byRole, byName := BucketScope(value, schemaRole, others), NamedScope(value, schemaRole, others);
    assert byRole.schemaWs == byName.schemaWs && byRole.valueWs == byName.valueWs;
    assert byRole.fallbackWs == byName.fallbackWs;
    hide FieldResult, BucketScope, NamedScope, SameView;
    forall k | k in input ensures FieldResult(input[k], schema, byRole, k) == FieldResult(input[k], schema, byName, k) {
      FieldReadsTheView(input[k], schema, byRole, byName, k);
    }
  }

  // ---- Action defaults -----------------------------------------------------------------------

  /** The template engine, given a context, and the JSON parser. */
  datatype Templates = Templates(render: (string, Json) -> Option<string>, parse: string -> Option<Json>)
  {
    function Within(context: Json): JsonField.Engine {
      JsonField.Engine(template => render(template, context), parse)
    }
  }

  /** Every string with a `{{` rendered, once; everything else as it is. */
  function RenderDeep(templates: Templates, value: Json, context: Json): Option<Json> {
    match value
    case Str(s) =>
      if !Contains(s, "{{") then Some(value)
      else
        var text := templates.render(s, context);
        if text.Some? then Some(Str(text.value)) else None
    case Arr(items) =>
      if forall i | 0 <= i < |items| :: RenderDeep(templates, items[i], context).Some?
      then Some(Arr(seq(|items|, i requires 0 <= i < |items| => RenderDeep(templates, items[i], context).value)))
      else None
    case Obj(fields) =>
      if forall k | k in fields :: RenderDeep(templates, fields[k], context).Some?
      then Some(Obj(map k | k in fields :: RenderDeep(templates, fields[k], context).value))
      else None
    case _ => Some(value)
  }

  /** The string is rendered: it holds a `{{`. */
  ghost predicate IsRendered(s: string) {
    exists i :: 0 <= i && i + 1 < |s| && s[i] == '{' && s[i + 1] == '{'
  }

  lemma RenderedHasBraces(s: string)
    ensures Contains(s, "{{") <==> IsRendered(s)
  {
    if i: int :| 0 <= i && i + 1 < |s| && s[i] == '{' && s[i + 1] == '{' {
      assert s[i..i + 2] == "{{" && OccursAt(s, "{{", i);
    }
    if Contains(s, "{{") {
      var i :| 0 <= i <= |s| && OccursAt(s, "{{", i);
      assert s[i] == s[i..i + 2][0] && s[i + 1] == s[i..i + 2][1];
    }
  }

  ghost predicate RendersAt(value: Json, p: Path) {
    At(value, p).Some? && At(value, p).value.Str? && IsRendered(At(value, p).value.s)
  }

  ghost predicate FailsAt(templates: Templates, value: Json, context: Json, p: Path) {
    RendersAt(value, p) && templates.render(At(value, p).value.s, context).None?
  }

  /** A container fails somewhere exactly when one of its children does. */
  lemma FailsBelow(templates: Templates, value: Json, context: Json)
    requires value.Arr? || value.Obj?
    ensures (exists p :: FailsAt(templates, value, context, p)) <==>
      exists step, p :: Child(value, step).Some? && FailsAt(templates, Child(value, step).value, context, p)
  {
    hide IsRendered, Child;
    if p :| FailsAt(templates, value, context, p) {
      assert p != [] && FailsAt(templates, Child(value, p[0]).value, context, p[1..]);
    }
    if step, p :| Child(value, step).Some? && FailsAt(templates, Child(value, step).value, context, p) {
      var q := [step] + p;
      assert q[0] == step && q[1..] == p;
      assert FailsAt(templates, value, context, q);
    }
  }

  /** Deep rendering fails exactly when some string with a `{{`, at some place, does not render. */
  lemma {:induction false} RendersDeepIff(templates: Templates, value: Json, context: Json)
    ensures RenderDeep(templates, value, context).None? <==> exists p :: FailsAt(templates, value, context, p)
    decreases value
  {
    match value
    case Str(s) =>
      RenderedHasBraces(s);
      hide IsRendered;
      assert FailsAt(templates, value, context, []) <==> IsRendered(s) && templates.render(s, context).None?;
      assert forall p: Path :: p != [] ==> At(value, p).None?;
    case Arr(items) =>
      var none := RenderDeep(templates, value, context).None?;
      assert none <==> exists i :: 0 <= i < |items| && RenderDeep(templates, items[i], context).None?;
      hide FailsAt, RenderDeep;
      forall i | 0 <= i < |items| { RendersDeepIff(templates, items[i], context); }
      assert forall i :: 0 <= i < |items| ==> Child(value, Index(i)) == Some(items[i]);
      FailsBelow(templates, value, context);
      if i :| 0 <= i < |items| && RenderDeep(templates, items[i], context).None? {
        assert Child(value, Index(i)).Some?;
      }
    case Obj(fields) =>
      var none := RenderDeep(templates, value, context).None?;
      assert none <==> exists k :: k in fields && RenderDeep(templates, fields[k], context).None?;
      hide FailsAt, RenderDeep;
      forall k | k in fields { RendersDeepIff(templates, fields[k], context); }
      assert forall k :: k in fields ==> Child(value, Key(k)) == Some(fields[k]);
      FailsBelow(templates, value, context);
      if k :| k in fields && RenderDeep(templates, fields[k], context).None? {
        assert Child(value, Key(k)).Some?;
      }
    case _ =>
  }

  /** Otherwise every such string, at every place, became its own rendering, and everything else stayed. */
  lemma {:induction false} RenderedByPlace(templates: Templates, value: Json, context: Json, p: Path)
    requires RenderDeep(templates, value, context).Some?
    ensures var out := RenderDeep(templates, value, context).value;
      && (At(value, p).None? ==> At(out, p).None?)
      && (At(value, p).Some? ==>
        At(out, p).Some? && SamePlace(templates, context, At(value, p).value, At(out, p).value))
    decreases |p|
  {
    hide IsRendered, Contains;
    if p == [] {
      if value.Str? { RenderedHasBraces(value.s); }
    } else if Child(value, p[0]).Some? {
      RenderedByPlace(templates, Child(value, p[0]).value, context, p[1..]);
    }
  }

  /** A container keeps its keys or its length, a string with a `{{` is its rendering, and any other leaf is itself. */
  ghost predicate SamePlace(templates: Templates, context: Json, before: Json, after: Json) {
    if before.Str? && IsRendered(before.s) then after.Str? && templates.render(before.s, context) == Some(after.s)
    else SameShape(before, after)
  }

  /** A raw default rendered once, by the rule of its field's type. */
  ghost function RenderedDefault(templates: Templates, field: InputFieldDef, context: Json): Option<Json>
    requires field.default.Some?
  {
    if field.fieldType != JSON_TYPE then RenderDeep(templates, field.default.value, context)
    else
      var engine := templates.Within(context);
      if forall p :: !JsonField.OffendsAt(engine, field.default.value, p)
      then Some(JsonField.Subst(engine, field.default.value))
      else None
  }

  /** A `json` default has its single expressions replaced by their values, any other default its strings rendered; it
      fails exactly when one of those does. */
  lemma DefaultByPlace(templates: Templates, field: InputFieldDef, context: Json, p: Path)
    requires field.default.Some?
    ensures var v, r := field.default.value, RenderedDefault(templates, field, context);
      var engine := templates.Within(context);
      && (r.None? <==> if field.fieldType == "json" then exists q :: JsonField.OffendsAt(engine, v, q)
                       else exists q :: FailsAt(templates, v, context, q))
      && (r.Some? && At(v, p).Some? ==> At(r.value, p).Some?)
      && (r.Some? && At(v, p).Some? ==>
            if field.fieldType == "json" then EvaluatedPlace(engine, At(v, p).value, At(r.value, p).value)
            else SamePlace(templates, context, At(v, p).value, At(r.value, p).value))
  {
    var v, engine := field.default.value, templates.Within(context);
    hide JsonField.OffendsAt, FailsAt, JsonField.Classify, JsonField.Subst, RenderDeep, IsRendered;
    if field.fieldType == "json" {
      if RenderedDefault(templates, field, context).Some? && At(v, p).Some? { JsonField.SubstByPlace(engine, v, p); }
    } else {
      RendersDeepIff(templates, v, context);
      if RenderDeep(templates, v, context).Some? { RenderedByPlace(templates, v, context, p); }
    }
  }

  ghost predicate EvaluatedPlace(engine: JsonField.Engine, before: Json, after: Json) {
    if before.Str? && JsonField.Classify(before.s).Single?
    then Some(after) == engine.Eval(JsonField.Classify(before.s).inner)
    else SameShape(before, after)
  }

  /** A container keeps its keys or its length; a leaf is itself. */
  ghost predicate SameShape(before: Json, after: Json) {
    match before
    case Arr(items) => after.Arr? && |after.items| == |items|
    case Obj(fields) => after.Obj? && after.fields.Keys == fields.Keys
    case _ => after == before
  }

  method RenderDefault(templates: Templates, field: InputFieldDef, context: Json) returns (r: Option<Json>)
    requires field.default.Some?
    ensures r == RenderedDefault(templates, field, context)
  {
    var default := field.default.value;
    if field.fieldType == JSON_TYPE {
      var walked, rendered := JsonField.Walk(templates.Within(context), default, []);
      r := if walked.Ok? then Some(walked.value) else None;
    } else if default.Str? && Contains(default.s, "{{") {
      var text := templates.render(default.s, context);
      r := if text.Some? then Some(Str(text.value)) else None;
    } else {
      r := RenderDeep(templates, default, context);
    }
  }

  /** The field is filled from its default: it has one and the input does not supply it. */
  ghost predicate IsDefaulted(input: map<string, Json>, schema: Schema, k: string) {
    k in schema && k !in input && schema[k].default.Some?
  }

  /** Supplied fields untouched, defaulted fields rendered once, nothing else. */
  ghost predicate Merged(templates: Templates, input: map<string, Json>, schema: Schema, context: Json,
                         out: map<string, Json>) {
    && (forall k :: k in out <==> k in input || IsDefaulted(input, schema, k))
    && (forall k :: k in input ==> out[k] == input[k])
    && (forall k :: IsDefaulted(input, schema, k) ==> RenderedDefault(templates, schema[k], context) == Some(out[k]))
  }

  method MergeActionDefaults(templates: Templates, input: map<string, Json>, schema: Schema, context: Json)
    returns (r: Result<map<string, Json>, ResolveError>)
    ensures r.Ok? ==> Merged(templates, input, schema, context, r.value)
    ensures r.Err? ==> exists k :: IsDefaulted(input, schema, k) && RenderedDefault(templates, schema[k], context).None?
  {
    hide RenderedDefault;
    var merged := input;
    var todo := schema.Keys;
    while todo != {}
      invariant todo <= schema.Keys
      invariant forall k :: k in merged <==> k in input || (k !in todo && IsDefaulted(input, schema, k))
      invariant forall k :: k in input ==> merged[k] == input[k]
      invariant forall k :: k !in todo && IsDefaulted(input, schema, k) ==>
        RenderedDefault(templates, schema[k], context) == Some(merged[k])
      decreases todo
    {
      var k :| k in todo;
      if k !in merged && schema[k].default.Some? {
        assert IsDefaulted(input, schema, k);
        var value := RenderDefault(templates, schema[k], context);
        if value.None? {
          return Err(DefaultNotRendered);
        }
        merged := merged[k := value.value];
      }
      todo := todo - {k};
    }
    r := Ok(merged);
  }

  // ---- An action's input -------------------------------------------------------------------------

  /** A default sees the owner's secrets and nothing else. */
  function SecretsContext(owner: RoleConfig): (context: Json)
    ensures context.Obj? && context.fields.Keys == {"secret"} && context.fields["secret"] == owner.config.secrets
  {
    Obj(map["secret" := owner.config.secrets])
  }

  /** What preparation promises: a supplied field ends with its caller-pass value, an absent field with a
      default ends as the owner-resolved value of that default rendered once, and there is nothing else. */
  ghost predicate Prepared(templates: Templates, input: map<string, Json>, schema: Schema, roles: RoleScope,
                           out: map<string, Json>) {
    var owner := roles.Owner();
    && (forall k :: k in out <==> k in input || IsDefaulted(input, schema, k))
    && (forall k :: k in input ==>
          FieldResult(input[k], schema, BucketScope(roles.caller, owner, roles.others), k) == Ok(out[k]))
    && (forall k :: IsDefaulted(input, schema, k) ==>
          && RenderedDefault(templates, schema[k], SecretsContext(owner)).Some?
          && FieldResult(RenderedDefault(templates, schema[k], SecretsContext(owner)).value, schema,
                         BucketScope(owner, owner, roles.others), k) == Ok(out[k]))
  }

  /** A resolved connection field is an object, and an object is never resolved again. */
  lemma ResolvedFieldsStay(value: Json, schema: Schema, scope: ResolveScope, resolved: Json, later: ResolveScope,
                           k: string)
    requires FieldResult(value, schema, scope, k) == Ok(resolved)
    ensures FieldResult(resolved, schema, later, k) == Ok(resolved)
  {
    hide IsPrimitive, CanonicalTypeRef, ResolveConnectionRef, ConnectionValues;
  }

  /** The caller's values by the caller's config, then the owner's defaults by the owner's. */
  method PrepareActionInputRoles(templates: Templates, renderedInput: Json, schema: Schema, roles: RoleScope)
    returns (r: Result<map<string, Json>, ResolveError>)
    ensures r.Ok? ==> Prepared(templates, FieldsOf(renderedInput), schema, roles, r.value)
    ensures r.Err? ==> forall out :: !Prepared(templates, FieldsOf(renderedInput), schema, roles, out)
  {
    hide FieldResult, RenderedDefault, BucketScope;
    var owner := roles.Owner();
    var supplied := ResolveBucketByRole(renderedInput, schema, roles.caller, owner, roles.others);
    if supplied.Err? {
      return supplied;
    }
    var merged := MergeActionDefaults(templates, supplied.value, schema, SecretsContext(owner));
    if merged.Err? {
      return merged;
    }
    r := ResolveBucketByRole(Obj(merged.value), schema, owner, owner, roles.others);
    if r.Ok? {
      PassesCompose(templates, FieldsOf(renderedInput), schema, roles, supplied.value, merged.value, r.value);
    } else {
      OwnerPassBlamesADefault(templates, FieldsOf(renderedInput), schema, roles, supplied.value, merged.value, r.error);
    }
  }

  /** The owner's pass can only fail on a default: what the caller supplied is resolved already. */
  lemma OwnerPassBlamesADefault(templates: Templates, input: map<string, Json>, schema: Schema, roles: RoleScope,
                                supplied: map<string, Json>, merged: map<string, Json>, e: ResolveError)
    requires ResolvesTo(input, schema, BucketScope(roles.caller, roles.Owner(), roles.others), Ok(supplied))
    requires Merged(templates, supplied, schema, SecretsContext(roles.Owner()), merged)
    requires ResolvesTo(merged, schema, BucketScope(roles.Owner(), roles.Owner(), roles.others), Err(e))
    ensures forall out :: !Prepared(templates, input, schema, roles, out)
  {
    hide FieldResult, RenderedDefault, BucketScope, SecretsContext;
    var owner := roles.Owner();
    var callerScope, ownerScope :=
      BucketScope(roles.caller, owner, roles.others), BucketScope(owner, owner, roles.others);
    var k :| k in merged && FieldResult(merged[k], schema, ownerScope, k) == Err(e);
    if k in input {
      ResolvedFieldsStay(input[k], schema, callerScope, supplied[k], ownerScope, k);
    }
    assert IsDefaulted(input, schema, k);
  }

  lemma PassesCompose(templates: Templates, input: map<string, Json>, schema: Schema, roles: RoleScope,
                      supplied: map<string, Json>, merged: map<string, Json>, out: map<string, Json>)
    requires ResolvesTo(input, schema, BucketScope(roles.caller, roles.Owner(), roles.others), Ok(supplied))
    requires Merged(templates, supplied, schema, SecretsContext(roles.Owner()), merged)
    requires ResolvesTo(merged, schema, BucketScope(roles.Owner(), roles.Owner(), roles.others), Ok(out))
    ensures Prepared(templates, input, schema, roles, out)
  {
    hide FieldResult, RenderedDefault, BucketScope, SecretsContext;
    var owner := roles.Owner();
    var callerScope, ownerScope :=
      BucketScope(roles.caller, owner, roles.others), BucketScope(owner, owner, roles.others);
    forall k ensures IsDefaulted(input, schema, k) <==> IsDefaulted(supplied, schema, k) {}
    forall k | k in input ensures FieldResult(input[k], schema, callerScope, k) == Ok(out[k]) {
      ResolvedFieldsStay(input[k], schema, callerScope, supplied[k], ownerScope, k);
      assert FieldResult(merged[k], schema, ownerScope, k) == Ok(out[k]);
    }
    forall k | IsDefaulted(input, schema, k)
      ensures FieldResult(RenderedDefault(templates, schema[k], SecretsContext(owner)).value, schema, ownerScope, k)
           == Ok(out[k])
    {
      assert FieldResult(merged[k], schema, ownerScope, k) == Ok(out[k]);
    }
  }

  // ---- A task's input --------------------------------------------------------------------------------

  /** Nothing but names crosses a workspace boundary into a connection-typed field. */
  ghost predicate RespectsBoundary(input: map<string, Json>, schema: Schema, value: RoleConfig, task: RoleConfig) {
    value.workspace != task.workspace ==>
      forall k :: k in input && IsConnectionField(schema, k) ==> input[k].Str?
  }

  ghost predicate BucketResolves(input: map<string, Json>, schema: Schema, value: RoleConfig, task: RoleConfig,
                                 others: WorkspaceLookup) {
    && RespectsBoundary(input, schema, value, task)
    && forall k :: k in input ==> FieldResult(input[k], schema, BucketScope(value, task, others), k).Ok?
  }

  method ResolveProvenanceBucket(input: Json, schema: Schema, value: RoleConfig, task: RoleConfig,
                                 others: WorkspaceLookup)
    returns (r: Result<map<string, Json>, ResolveError>)
    ensures r.Ok? <==> BucketResolves(FieldsOf(input), schema, value, task, others)
    ensures r.Ok? ==> ResolvesTo(FieldsOf(input), schema, BucketScope(value, task, others), r)
  {
    hide IsPrimitive, BucketScope, FieldResult;
    if value.workspace != task.workspace && input.Obj? {
      var todo := schema.Keys;
      while todo != {}
        invariant todo <= schema.Keys
        invariant forall k :: k in input.fields && k !in todo && IsConnectionField(schema, k) ==> input.fields[k].Str?
        decreases todo
      {
        var k :| k in todo;
        if !IsPrimitive(schema[k].fieldType) && k in input.fields && !input.fields[k].Str? {
          assert IsConnectionField(schema, k);
          return Err(BoundaryCrossed);
        }
        todo := todo - {k};
      }
    }
    r := ResolveBucketByRole(input, schema, value, task, others);
  }

  /** Where a connection-typed output field may come from: an object from inside the task's workspace, or a name and
      the connection it denotes for the supplier. */
  ghost predicate HasProvenance(supplier: RoleConfig, task: RoleConfig, others: WorkspaceLookup, fieldType: string,
                                value: Json, out: Json) {
    && (value.Str? || supplier.workspace == task.workspace)
    && FieldMeans(value, fieldType, BucketScope(supplier, task, others), out)
  }

  lemma BucketFieldHasProvenance(input: map<string, Json>, schema: Schema, supplier: RoleConfig, task: RoleConfig,
                                 others: WorkspaceLookup, out: map<string, Json>, k: string)
    requires ResolvesTo(input, schema, BucketScope(supplier, task, others), Ok(out))
    requires k in input && IsConnectionField(schema, k)
    requires supplier.workspace != task.workspace ==> input[k].Str?
    ensures HasProvenance(supplier, task, others, schema[k].fieldType, input[k], out[k])
  {
    var scope := BucketScope(supplier, task, others);
    hide FieldMeans, ResolveField, BucketScope, IsPrimitive;
    assert FieldResult(input[k], schema, scope, k) == Ok(out[k]);
    FieldResolvesToItsMeaning(input[k], schema[k].fieldType, scope, out[k]);
  }

  /** The caller's values and the action's defaults, each by its own supplier; the caller's win. */
  method ResolveTaskInputByProvenanceRoles(callerInput: Json, actionDefaults: Json, schema: Schema, roles: RoleScope)
    returns (r: Result<map<string, Json>, ResolveError>)
    ensures r.Ok? <==> BucketResolves(FieldsOf(callerInput), schema, roles.caller, roles.Task(), roles.others)
                       && BucketResolves(FieldsOf(actionDefaults), schema, roles.Owner(), roles.Task(), roles.others)
    ensures r.Ok? ==> r.value.Keys == FieldsOf(callerInput).Keys + FieldsOf(actionDefaults).Keys
    ensures r.Ok? ==> forall k :: k in r.value && IsConnectionField(schema, k) ==>
      var (supplier, value) := if k in FieldsOf(callerInput) then (roles.caller, FieldsOf(callerInput)[k])
                               else (roles.Owner(), FieldsOf(actionDefaults)[k]);
      HasProvenance(supplier, roles.Task(), roles.others, schema[k].fieldType, value, r.value[k])
    ensures r.Ok? ==> forall k :: k in r.value && !IsConnectionField(schema, k) ==>
      r.value[k] == if k in FieldsOf(callerInput) then FieldsOf(callerInput)[k] else FieldsOf(actionDefaults)[k]
  {
    hide HasProvenance, IsPrimitive, BucketScope, ResolveField;
    var task, action := roles.Task(), roles.Owner();
    var caller := ResolveProvenanceBucket(callerInput, schema, roles.caller, task, roles.others);
    if caller.Err? {
      return caller;
    }
    var defaults := ResolveProvenanceBucket(actionDefaults, schema, action, task, roles.others);
    if defaults.Err? {
      return defaults;
    }
    var out := defaults.value + caller.value;
    forall k | k in out && IsConnectionField(schema, k)
      ensures k in caller.value ==>
        HasProvenance(roles.caller, task, roles.others, schema[k].fieldType, FieldsOf(callerInput)[k], out[k])
      ensures k !in caller.value ==>
        HasProvenance(action, task, roles.others, schema[k].fieldType, FieldsOf(actionDefaults)[k], out[k])
    {
      if k in caller.value {
        BucketFieldHasProvenance(FieldsOf(callerInput), schema, roles.caller, task, roles.others, caller.value, k);
      } else {
        BucketFieldHasProvenance(FieldsOf(actionDefaults), schema, action, task, roles.others, defaults.value, k);
      }
    }
    r := Ok(out);
  }
}
