/** JSON values. A number is kept as its text: nothing here computes with it. */
module Json {
  import opened Results

  datatype Json =
    | Null
    | Bool(b: bool)
    | Num(text: string)
    | Str(s: string)
    | Arr(items: seq<Json>)
    | Obj(fields: map<string, Json>)

  function Get(v: Json, key: string): Option<Json> {
    if v.Obj? && key in v.fields then Some(v.fields[key]) else None
  }

  function AsStr(v: Option<Json>): Option<string> {
    if v.Some? && v.value.Str? then Some(v.value.s) else None
  }

  // ---- Places inside a value

  datatype Step = Key(key: string) | Index(index: nat)

  type Path = seq<Step>

  ghost function Child(v: Json, step: Step): Option<Json> {
    if v.Obj? && step.Key? && step.key in v.fields then Some(v.fields[step.key])
    else if v.Arr? && step.Index? && step.index < |v.items| then Some(v.items[step.index])
    else None
  }

  ghost function At(v: Json, p: Path): Option<Json>
    decreases |p|
  {
    if p == [] then Some(v)
    else if Child(v, p[0]).Some? then At(Child(v, p[0]).value, p[1..])
    else None
  }
}
