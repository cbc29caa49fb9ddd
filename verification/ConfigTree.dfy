/** A parsed configuration document, and paths into it. */
module ConfigTree {
  import opened Basics

  datatype Node =
    | Null
    | Bool(b: bool)
    | Number(n: real)
    | Text(s: string)
    | List(items: seq<Node>)
    | Mapping(fields: Fields)

  type Fields = map<string, Node>

  type Path = seq<string>

  /** The node at a path. */
  function Lookup(n: Node, p: Path): Option<Node> {
    if p == [] then Some(n)
    else if n.Mapping? && p[0] in n.fields then Lookup(n.fields[p[0]], p[1..])
    else None
  }

  predicate HasMapping(n: Node, p: Path) {
    Lookup(n, p).Some? && Lookup(n, p).value.Mapping?
  }
}
