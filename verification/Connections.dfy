/** Locating a connection by name across workspaces, and resolving the
    connection-typed fields of an input against a schema. */
module Connections {
  import opened Results
  import opened Json

  datatype PropertyDef = PropertyDef(required: bool, default: Option<Json>)

  datatype ConnectionTypeDef = ConnectionTypeDef(properties: map<string, PropertyDef>)

  datatype ConnectionDef = ConnectionDef(connectionType: Option<string>, shared: bool, values: map<string, Json>)

  datatype WorkspaceConfig = WorkspaceConfig(
    connections: map<string, ConnectionDef>,
    connectionTypes: map<string, ConnectionTypeDef>,
    secrets: Json)

  datatype Lookup = Found(config: WorkspaceConfig) | Unknown | Unavailable

  datatype WorkspaceLookup = WorkspaceLookup(get: string -> Lookup, offline: bool)

  datatype InputFieldDef = InputFieldDef(fieldType: string, default: Option<Json>)

  type Schema = map<string, InputFieldDef>

  const JSON_TYPE := "json"
  const FILE_TYPE := "file"
  const PRIMITIVE_TYPES :=
    ["string", "text", "integer", "number", "boolean", "date", "datetime", JSON_TYPE, FILE_TYPE]

  predicate IsPrimitive(fieldType: string) {
    fieldType in PRIMITIVE_TYPES
  }

  datatype ConnectionRefError = NotFound | UnknownWorkspace | WorkspaceUnavailable | NotShared | OfflineCrossWorkspace

  datatype ResolveError =
    | TypeUnresolved
    | NotAName
    | BadReference(kind: ConnectionRefError)
    | ConnectionTypeUnresolved
    | TypeMismatch
    | TypeVanished
    | MissingRequired
    | EmptyValue
    | BoundaryCrossed
    | DefaultNotRendered

  // ---- Names and types ---------------------------------------------------------------

  function FirstDot(s: string): (n: nat)
    ensures n <= |s| && (forall i :: 0 <= i < n ==> s[i] != '.') && (n < |s| ==> s[n] == '.')
  {
    if s == [] || s[0] == '.' then 0 else 1 + FirstDot(s[1..])
  }

  /** `workspace.item`, split on the first dot; `None` when either part is empty. */
  function QualifiedRef(name: string): Option<(string, string)> {
    var n := FirstDot(name);
    if 0 < n && n + 1 < |name| then Some((name[..n], name[n + 1..])) else None
  }

  ghost predicate IsQualified(name: string, ws: string, item: string) {
    ws != "" && item != "" && '.' !in ws && name == ws + "." + item
  }

  lemma QualifiedRefIff(name: string, ws: string, item: string)
    ensures QualifiedRef(name) == Some((ws, item)) <==> IsQualified(name, ws, item)
  {
    var n := FirstDot(name);
    if QualifiedRef(name) == Some((ws, item)) {
      assert name == ws + "." + item;
    }
    if IsQualified(name, ws, item) {
      assert name[|ws|] == '.' && forall i :: 0 <= i < |ws| ==> name[i] == ws[i];
      assert n == |ws|;
      assert name[..n] == ws && name[n + 1..] == item;
    }
  }

  datatype CanonicalType = CanonicalType(workspace: string, name: string)

  function CanonicalTypeRef(typeRef: string, definingWs: string, lookup: WorkspaceLookup): Option<CanonicalType> {
    match lookup.get(definingWs)
    case Unknown => None
    case Unavailable => None
    case Found(defining) =>
      if typeRef in defining.connectionTypes then Some(CanonicalType(definingWs, typeRef))
      else
        match QualifiedRef(typeRef)
        case None => Some(CanonicalType(definingWs, typeRef))
        case Some((ws, item)) =>
          match lookup.get(ws)
          case Found(config) => if item in config.connectionTypes then Some(CanonicalType(ws, item)) else None
          case Unknown => Some(CanonicalType(definingWs, typeRef))
          case Unavailable => None
  }

  /** A type's own name in its workspace and its qualified name elsewhere are the same type. */
  lemma SpellingsAgree(name: string, ws: string, elsewhere: string, lookup: WorkspaceLookup)
    requires ws != "" && '.' !in ws && name != ""
    requires lookup.get(ws).Found? && name in lookup.get(ws).config.connectionTypes
    requires lookup.get(elsewhere).Found? && ws + "." + name !in lookup.get(elsewhere).config.connectionTypes
    ensures CanonicalTypeRef(name, ws, lookup) == CanonicalTypeRef(ws + "." + name, elsewhere, lookup) ==
      Some(CanonicalType(ws, name))
  {
    QualifiedRefIff(ws + "." + name, ws, name);
  }

  /** `t` is the type that `typeRef`, written in `definingWs`, names: a type of that workspace by its whole name;
      otherwise, for a qualified name, an existing type of the named workspace, or the whole name again if there is no
      such workspace. A bare name is always local. */
  ghost predicate DenotesType(typeRef: string, definingWs: string, lookup: WorkspaceLookup, t: CanonicalType) {
    && lookup.get(definingWs).Found?
    && if typeRef in lookup.get(definingWs).config.connectionTypes || forall ws, item :: !IsQualified(typeRef, ws, item)
       then t == CanonicalType(definingWs, typeRef)
       else exists ws, item ::
         IsQualified(typeRef, ws, item) && NamesTypeIn(lookup.get(ws), ws, item, definingWs, typeRef, t)
  }

  ghost predicate NamesTypeIn(there: Lookup, ws: string, item: string, definingWs: string, typeRef: string,
                              t: CanonicalType) {
    match there
    case Found(config) => item in config.connectionTypes && t == CanonicalType(ws, item)
    case Unknown => t == CanonicalType(definingWs, typeRef)
    case Unavailable => false
  }

  lemma TypeDenotes(typeRef: string, definingWs: string, lookup: WorkspaceLookup, t: CanonicalType)
    ensures CanonicalTypeRef(typeRef, definingWs, lookup) == Some(t) <==> DenotesType(typeRef, definingWs, lookup, t)
  {
    forall ws, item ensures QualifiedRef(typeRef) == Some((ws, item)) <==> IsQualified(typeRef, ws, item) {
      QualifiedRefIff(typeRef, ws, item);
    }
    hide QualifiedRef, IsQualified;
    var q := QualifiedRef(typeRef);
    if q.Some? { assert IsQualified(typeRef, q.value.0, q.value.1); }
  }

  // ---- Locating a connection -----------------------------------------------------------

  /** Where a value is resolved: the schema's workspace, the workspace of bare names, and the
      workspace tried next. */
  datatype ResolveScope = ResolveScope(
    lookup: WorkspaceLookup, schemaWs: string, valueWs: string, fallbackWs: Option<string>)

  datatype ResolvedConnection = ResolvedConnection(workspace: string, def: ConnectionDef)

  function ResolveConnectionRef(name: string, scope: ResolveScope): Result<ResolvedConnection, ConnectionRefError> {
    match scope.lookup.get(scope.valueWs)
    case Unknown => Err(UnknownWorkspace)
    case Unavailable => Err(WorkspaceUnavailable)
    case Found(values) =>
      if name in values.connections then Ok(ResolvedConnection(scope.valueWs, values.connections[name]))
      else if QualifiedRef(name).Some? then
        ResolveQualified(QualifiedRef(name).value.0, QualifiedRef(name).value.1, scope)
      else ResolveFallback(name, scope)
  }

  function ResolveQualified(ws: string, item: string, scope: ResolveScope)
    : Result<ResolvedConnection, ConnectionRefError>
  {
    match scope.lookup.get(ws)
    case Found(config) =>
      if item !in config.connections then Err(NotFound)
      else if ws == scope.valueWs || config.connections[item].shared
      then Ok(ResolvedConnection(ws, config.connections[item]))
      else Err(NotShared)
    case Unknown => Err(if scope.lookup.offline then OfflineCrossWorkspace else UnknownWorkspace)
    case Unavailable => Err(WorkspaceUnavailable)
  }

  function ResolveFallback(name: string, scope: ResolveScope): Result<ResolvedConnection, ConnectionRefError> {
    if scope.fallbackWs.None? || scope.fallbackWs.value == scope.valueWs then Err(NotFound)
    else
      match scope.lookup.get(scope.fallbackWs.value)
      case Found(config) =>
        if name !in config.connections then Err(NotFound)
        else if config.connections[name].shared
        then Ok(ResolvedConnection(scope.fallbackWs.value, config.connections[name]))
        else Err(NotShared)
      case Unknown => Err(NotFound)
      case Unavailable => Err(NotFound)
  }

  /** `def` is the connection `name` of workspace `ws`, as `lookup` sees it. */
  ghost predicate Has(lookup: WorkspaceLookup, ws: string, name: string, def: ConnectionDef) {
    lookup.get(ws).Found? && name in lookup.get(ws).config.connections && lookup.get(ws).config.connections[name] == def
  }

  /** `def` of `ws` is what `name` means to the supplier: its own connection of that very name; otherwise, for a
      qualified name, the named one; otherwise the fallback's. Nothing crosses a workspace boundary unshared. */
  ghost predicate Denotes(name: string, scope: ResolveScope, ws: string, def: ConnectionDef) {
    && scope.lookup.get(scope.valueWs).Found?
    && if name in scope.lookup.get(scope.valueWs).config.connections
       then ws == scope.valueWs && Has(scope.lookup, ws, name, def)
       else
         || (exists item :: IsQualified(name, ws, item) && Has(scope.lookup, ws, item, def)
                            && (ws == scope.valueWs || def.shared))
         || (&& (forall w, item :: !IsQualified(name, w, item)) && Has(scope.lookup, ws, name, def)
             && scope.fallbackWs == Some(ws) && ws != scope.valueWs && def.shared)
  }

  /** A reference resolves to exactly what it denotes. */
  lemma ReferenceDenotes(name: string, scope: ResolveScope, ws: string, def: ConnectionDef)
    ensures ResolveConnectionRef(name, scope) == Ok(ResolvedConnection(ws, def)) <==> Denotes(name, scope, ws, def)
  {
    forall w, item ensures QualifiedRef(name) == Some((w, item)) <==> IsQualified(name, w, item) {
      QualifiedRefIff(name, w, item);
    }
    hide QualifiedRef, IsQualified;
    var q := QualifiedRef(name);
    if q.Some? { assert IsQualified(name, q.value.0, q.value.1); }
  }

  /** Why a reference does not resolve. */
  lemma ReferenceFails(name: string, scope: ResolveScope)
    ensures var r, own, offline :=
      ResolveConnectionRef(name, scope), scope.lookup.get(scope.valueWs), scope.lookup.offline;
      && (own.Unknown? ==> r == Err(UnknownWorkspace))
      && (own.Unavailable? ==> r == Err(WorkspaceUnavailable))
      && (own.Found? && name !in own.config.connections ==>
            && (forall ws, item :: IsQualified(name, ws, item) ==>
                  var there := scope.lookup.get(ws);
                  && (there.Unknown? ==> r == Err(if offline then OfflineCrossWorkspace else UnknownWorkspace))
                  && (there.Unavailable? ==> r == Err(WorkspaceUnavailable))
                  && (there.Found? && item !in there.config.connections ==> r == Err(NotFound))
                  && (forall def :: Has(scope.lookup, ws, item, def) && ws != scope.valueWs && !def.shared ==>
                        r == Err(NotShared)))
            && ((forall ws, item :: !IsQualified(name, ws, item)) && r.Err? ==>
                  r == Err(if exists ws, def :: scope.fallbackWs == Some(ws) && ws != scope.valueWs
                                                && Has(scope.lookup, ws, name, def) && !def.shared
                           then NotShared else NotFound)))
  {
    forall w, item ensures QualifiedRef(name) == Some((w, item)) <==> IsQualified(name, w, item) {
      QualifiedRefIff(name, w, item);
    }
    hide QualifiedRef, IsQualified;
    var q := QualifiedRef(name);
    if q.Some? {
      assert IsQualified(name, q.value.0, q.value.1);
    } else if scope.fallbackWs.Some? {
      var there := scope.lookup.get(scope.fallbackWs.value);
      assert there.Found? && name in there.config.connections ==>
        Has(scope.lookup, scope.fallbackWs.value, name, there.config.connections[name]);
    }
  }

  // ---- One field ---------------------------------------------------------------------------

  /** The connection's values, with the type's defaults for the properties it does not set. */
  function ValuesWithTypeDefaults(def: ConnectionDef, typeDef: ConnectionTypeDef): map<string, Json> {
    (map p | p in typeDef.properties && typeDef.properties[p].default.Some? :: typeDef.properties[p].default.value)
    + def.values
  }

  function CheckConnectionValues(values: map<string, Json>, typeDef: ConnectionTypeDef): Option<ResolveError> {
    if exists p | p in typeDef.properties ::
         typeDef.properties[p].required && typeDef.properties[p].default.None? && p !in values
    then Some(MissingRequired)
    else if exists k | k in values :: values[k] == Str("") then Some(EmptyValue)
    else None
  }

  function ConnectionValues(found: ResolvedConnection, fieldType: CanonicalType, lookup: WorkspaceLookup)
    : Result<map<string, Json>, ResolveError>
  {
    if found.def.connectionType.None? then Ok(found.def.values)
    else
      match CanonicalTypeRef(found.def.connectionType.value, found.workspace, lookup)
      case None => Err(ConnectionTypeUnresolved)
      case Some(actual) =>
        if actual != fieldType then Err(TypeMismatch)
        else if actual.workspace == found.workspace then Ok(found.def.values)
        else if !lookup.get(actual.workspace).Found?
                || actual.name !in lookup.get(actual.workspace).config.connectionTypes
        then Err(TypeVanished)
        else
          var typeDef := lookup.get(actual.workspace).config.connectionTypes[actual.name];
          var values := ValuesWithTypeDefaults(found.def, typeDef);
          var problem := CheckConnectionValues(values, typeDef);
          if problem.Some? then Err(problem.value) else Ok(values)
  }

  /** The value of a connection-typed field: an object passes through, a name becomes its connection's values. */
  function ResolveField(value: Json, fieldType: string, scope: ResolveScope): Result<Json, ResolveError> {
    if value.Obj? then Ok(value)
    else if !value.Str? then Err(NotAName)
    else
      match CanonicalTypeRef(fieldType, scope.schemaWs, scope.lookup)
      case None => Err(TypeUnresolved)
      case Some(canonical) =>
        match ResolveConnectionRef(value.s, scope)
        case Err(kind) => Err(BadReference(kind))
        case Ok(found) =>
          match ConnectionValues(found, canonical, scope.lookup)
          case Err(e) => Err(e)
          case Ok(values) => Ok(Obj(values))
  }

  // ---- What a connection yields -------------------------------------------------------------

  /** Every value the connection sets, the type's default for every property it does not set, and nothing else. */
  ghost predicate FilledIn(def: ConnectionDef, typeDef: ConnectionTypeDef, values: map<string, Json>) {
    && (forall k :: k in def.values ==> k in values && values[k] == def.values[k])
    && (forall k :: k in typeDef.properties && k !in def.values && typeDef.properties[k].default.Some? ==>
          k in values && values[k] == typeDef.properties[k].default.value)
    && (forall k :: k in values ==>
          k in def.values || (k in typeDef.properties && typeDef.properties[k].default.Some?))
  }

  /** Every required property without a default is set, and no value is the empty string. */
  ghost predicate MeetsType(values: map<string, Json>, typeDef: ConnectionTypeDef) {
    && (forall k :: k in typeDef.properties && typeDef.properties[k].required && typeDef.properties[k].default.None? ==>
          k in values)
    && (forall k :: k in values ==> values[k] != Str(""))
  }

  lemma FilledInIff(def: ConnectionDef, typeDef: ConnectionTypeDef, values: map<string, Json>)
    ensures values == ValuesWithTypeDefaults(def, typeDef) <==> FilledIn(def, typeDef, values)
  {
    var filled := ValuesWithTypeDefaults(def, typeDef);
    if FilledIn(def, typeDef, values) {
      assert forall k :: k in values <==> k in filled;
      assert forall k :: k in values ==> values[k] == filled[k];
    }
  }

  /** Its values as they are, or, when the type is another workspace's, filled in and checked against that type. */
  ghost predicate Yields(lookup: WorkspaceLookup, ws: string, def: ConnectionDef, fieldType: CanonicalType, out: Json) {
    && out.Obj?
    && if def.connectionType.None? || fieldType.workspace == ws then out.fields == def.values
       else
         && lookup.get(fieldType.workspace).Found?
         && fieldType.name in lookup.get(fieldType.workspace).config.connectionTypes
         && var typeDef := lookup.get(fieldType.workspace).config.connectionTypes[fieldType.name];
            FilledIn(def, typeDef, out.fields) && MeetsType(out.fields, typeDef)
  }

  /** The connection `def` of `ws` is untyped or of that very type, and yields `out`. */
  ghost predicate Gives(lookup: WorkspaceLookup, ws: string, def: ConnectionDef, fieldType: CanonicalType, out: Json) {
    && (def.connectionType.Some? ==> DenotesType(def.connectionType.value, ws, lookup, fieldType))
    && Yields(lookup, ws, def, fieldType, out)
  }

  lemma ConnectionGives(found: ResolvedConnection, fieldType: CanonicalType, lookup: WorkspaceLookup,
                        values: map<string, Json>)
    ensures ConnectionValues(found, fieldType, lookup) == Ok(values)
       <==> Gives(lookup, found.workspace, found.def, fieldType, Obj(values))
  {
    if found.def.connectionType.Some? {
      TypeDenotes(found.def.connectionType.value, found.workspace, lookup, fieldType);
      hide CanonicalTypeRef, DenotesType;
      if lookup.get(fieldType.workspace).Found?
         && fieldType.name in lookup.get(fieldType.workspace).config.connectionTypes {
        var typeDef := lookup.get(fieldType.workspace).config.connectionTypes[fieldType.name];
        FilledInIff(found.def, typeDef, values);
        FilledInIff(found.def, typeDef, ValuesWithTypeDefaults(found.def, typeDef));
        hide ValuesWithTypeDefaults, FilledIn;
      }
    }
  }

  /** `out` is the content of the connection that `name` denotes for the supplier: one that lives in the
      supplier's workspace or is shared, and is untyped or of that very type. */
  ghost predicate IsConnectionOf(scope: ResolveScope, name: string, fieldType: CanonicalType, out: Json) {
    exists ws, def ::
      && Denotes(name, scope, ws, def) && (ws == scope.valueWs || def.shared)
      && Gives(scope.lookup, ws, def, fieldType, out)
  }

  /** What a connection-typed field may become: an object stays; a name becomes the content of the connection it
      denotes, for the type the schema names. */
  ghost predicate FieldMeans(value: Json, fieldType: string, scope: ResolveScope, out: Json) {
    || (value.Obj? && out == value)
    || (value.Str? && exists t :: DenotesType(fieldType, scope.schemaWs, scope.lookup, t)
                                  && IsConnectionOf(scope, value.s, t, out))
  }

  /** A field resolves to exactly what it means, and fails exactly when it means nothing. */
  lemma FieldResolvesToItsMeaning(value: Json, fieldType: string, scope: ResolveScope, out: Json)
    ensures ResolveField(value, fieldType, scope) == Ok(out) <==> FieldMeans(value, fieldType, scope, out)
  {
    hide CanonicalTypeRef, DenotesType, ResolveConnectionRef, ConnectionValues, Gives;
    if value.Str? {
      forall t ensures CanonicalTypeRef(fieldType, scope.schemaWs, scope.lookup) == Some(t)
                  <==> DenotesType(fieldType, scope.schemaWs, scope.lookup, t) {
        TypeDenotes(fieldType, scope.schemaWs, scope.lookup, t);
      }
      forall t ensures NameGives(value.s, t, scope, out) <==> IsConnectionOf(scope, value.s, t, out) {
        NameGivesIff(value.s, t, scope, out);
      }
      hide IsConnectionOf;
      var t := CanonicalTypeRef(fieldType, scope.schemaWs, scope.lookup);
      if t.Some? { assert NameGives(value.s, t.value, scope, out) <==> IsConnectionOf(scope, value.s, t.value, out); }
    }
  }

  ghost predicate NameGives(name: string, t: CanonicalType, scope: ResolveScope, out: Json) {
    var found := ResolveConnectionRef(name, scope);
    found.Ok? && out.Obj? && ConnectionValues(found.value, t, scope.lookup) == Ok(out.fields)
  }

  lemma NameGivesIff(name: string, t: CanonicalType, scope: ResolveScope, out: Json)
    ensures NameGives(name, t, scope, out) <==> IsConnectionOf(scope, name, t, out)
  {
    hide ResolveConnectionRef, ConnectionValues, Denotes;
    forall ws, def ensures ResolveConnectionRef(name, scope) == Ok(ResolvedConnection(ws, def)) <==>
      Denotes(name, scope, ws, def) {
      ReferenceDenotes(name, scope, ws, def);
    }
    forall ws, def | Denotes(name, scope, ws, def) ensures ws == scope.valueWs || def.shared {
      DenotedIsAllowed(name, scope, ws, def);
    }
    forall ws, def | out.Obj? ensures ConnectionValues(ResolvedConnection(ws, def), t, scope.lookup) == Ok(out.fields)
                                 <==> Gives(scope.lookup, ws, def, t, out) {
      ConnectionGives(ResolvedConnection(ws, def), t, scope.lookup, out.fields);
    }
    hide Gives;
    var found := ResolveConnectionRef(name, scope);
    if found.Ok? { assert Denotes(name, scope, found.value.workspace, found.value.def); }
  }

  lemma DenotedIsAllowed(name: string, scope: ResolveScope, ws: string, def: ConnectionDef)
    requires Denotes(name, scope, ws, def)
    ensures ws == scope.valueWs || def.shared
  {}

  // ---- All fields ---------------------------------------------------------------------------

  function FieldsOf(input: Json): map<string, Json> {
    if input.Obj? then input.fields else map[]
  }

  predicate IsConnectionField(schema: Schema, k: string) {
    k in schema && !IsPrimitive(schema[k].fieldType)
  }

  /** What becomes of the value of one field. */
  function FieldResult(value: Json, schema: Schema, scope: ResolveScope, k: string): Result<Json, ResolveError> {
    if IsConnectionField(schema, k) then ResolveField(value, schema[k].fieldType, scope) else Ok(value)
  }

  /** A field of a primitive type is left alone; any other type names a connection type. */
  lemma OnlyConnectionFieldsResolve(value: Json, schema: Schema, scope: ResolveScope, k: string, out: Json)
    ensures FieldResult(value, schema, scope, k) == Ok(out) <==>
      if k !in schema || schema[k].fieldType in {"string", "text", "integer", "number", "boolean", "date", "datetime",
        "json", "file"}
      then out == value
      else FieldMeans(value, schema[k].fieldType, scope, out)
  {
    if k in schema { FieldResolvesToItsMeaning(value, schema[k].fieldType, scope, out); }
    hide ResolveField, FieldMeans;
  }

  /** The outcome of resolving a whole input: every field's own result, or the error of some field. */
  ghost predicate ResolvesTo(input: map<string, Json>, schema: Schema, scope: ResolveScope,
                             r: Result<map<string, Json>, ResolveError>) {
    match r
    case Ok(out) =>
      && out.Keys == input.Keys
      && forall k :: k in input ==> FieldResult(input[k], schema, scope, k) == Ok(out[k])
    case Err(e) => exists k :: k in input && FieldResult(input[k], schema, scope, k) == Err(e)
  }

  /** Field by field, in whatever order the schema is walked. */
  method ResolveConnectionInputsScoped(input: Json, schema: Schema, scope: ResolveScope)
    returns (r: Result<map<string, Json>, ResolveError>)
    ensures ResolvesTo(FieldsOf(input), schema, scope, r)
  {
    hide IsPrimitive, ResolveField;
    var given := FieldsOf(input);
    var result := given;
    var todo := schema.Keys;
    while todo != {}
      invariant todo <= schema.Keys && result.Keys == given.Keys
      invariant forall k :: k in given && k in todo ==> result[k] == given[k]
      invariant forall k :: k in given && k !in todo ==> FieldResult(given[k], schema, scope, k) == Ok(result[k])
      decreases todo
    {
      var k :| k in todo;
      todo := todo - {k};
      if IsPrimitive(schema[k].fieldType) || k !in result {
        continue;
      }
      var value := ResolveField(result[k], schema[k].fieldType, scope);
      assert FieldResult(given[k], schema, scope, k) == value;
      if value.Err? {
        return Err(value.error);
      }
      result := result[k := value.value];
    }
    r := Ok(result);
  }

  /** Success does not depend on the order either: it is success of every field, with one possible result. */
  lemma OutcomeIsUnique(input: map<string, Json>, schema: Schema, scope: ResolveScope,
                        r: Result<map<string, Json>, ResolveError>, r': Result<map<string, Json>, ResolveError>)
    requires ResolvesTo(input, schema, scope, r) && ResolvesTo(input, schema, scope, r')
    ensures r.Ok? == r'.Ok? && (r.Ok? ==> r.value == r'.value)
  {
    hide FieldResult;
  }
}
