/**
 * The query-parameter record edited by the schema editor and listed by the
 * parameter list (`QueryParameter`, `ParameterType`). Its declaration is not
 * part of this model; the shape below is the one every handler reads and writes.
 */
module QueryParameters {
  import opened Wrappers
  import Strings

  datatype ParamType = String | Number | Boolean | Integer | Array | Object

  /**
   * One schema node. `objectProperties` holds the children of an object node,
   * `arrayObjectProperties` the element shape of an array of objects; both are
   * absent until an edit creates them, and no edit ever clears them.
   */
  datatype Node = Node(
    name: string,
    kind: ParamType,
    required: bool,
    description: Option<string>,
    arrayType: Option<ParamType>,
    objectProperties: Option<map<string, Node>>,
    arrayObjectProperties: Option<map<string, Node>>)

  /** A new non-required string node, as every "add" button creates it. */
  function NewNode(name: string, description: Option<string>): Node {
    Node(name, String, false, description, None, None, None)
  }

  /** A generated name: a fixed prefix followed by the millisecond timestamp. */
  function GeneratedName(prefix: string, now: nat): string {
    prefix + Strings.DecimalString(now)
  }
}
