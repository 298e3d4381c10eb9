/** Paths that lead from a schema to the schemas in it. */
module SchemaPaths {
  import opened Strings
  import opened Json

  /** One turn of a path: to a property, to what a keyword holds, to an entry of a keyword's list, to an entry of
      an array. */
  datatype Turn = Property(name: string) | Under(key: string) | Entry(key: string, i: nat) | Item(i: nat)

  /** The keywords that are followed: those that hold one schema, and those that hold a list. */
  datatype Keywords = Keywords(single: set<string>, lists: set<string>)

  function Take(v: Json, t: Turn, w: Keywords): Option<Json> {
    match t
    case Property(name) =>
      if v.Obj? && "properties" in v.at && v.at["properties"].Obj? && name in v.at["properties"].at then
        Some(v.at["properties"].at[name])
      else None
    case Under(key) => if v.Obj? && key in v.at && key in w.single then Some(v.at[key]) else None
    case Entry(key, i) =>
      if v.Obj? && key in v.at && key in w.lists && v.at[key].Arr? && i < |v.at[key].items| then
        Some(v.at[key].items[i])
      else None
    case Item(i) => if v.Arr? && i < |v.items| then Some(v.items[i]) else None
  }

  function Follow(v: Json, path: seq<Turn>, w: Keywords): Option<Json>
    decreases |path|
  {
    if path == [] then Some(v)
    else
      match Take(v, path[0], w)
      case Some(x) => Follow(x, path[1..], w)
      case None => None
  }

  lemma TakenIsWellFormed(v: Json, t: Turn, w: Keywords)
    requires WellFormed(v) && Take(v, t, w).Some?
    ensures WellFormed(Take(v, t, w).value)
  {
    hide NoDup, Elems;
    match t
    case Property(_) => assert WellFormed(v.at["properties"]);
    case Under(_) =>
    case Entry(key, _) => assert WellFormed(v.at[key]);
    case Item(_) =>
  }
}
