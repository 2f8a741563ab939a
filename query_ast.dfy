/**
 * Filter queries as the client and server exchange them: an expression
 * tree produced by the (unmodelled) expression parser, plus the attribute
 * and element type the query is about and the parser's error, if any.
 */
module QueryAst {
  import opened JsValue

  datatype Ast =
    | Identifier(name: JsValue)
    | Literal(value: JsValue)
    | BinaryExpression(operator: string, left: Ast, right: Ast)
    | LogicalExpression(operator: string, left: Ast, right: Ast)
    | Limit(limitValue: Option<Ast>)
    | OtherNode(nodeType: string)  // any other node type; never 'Limit'

  /**
   * A query object. A field the object does not carry is `Undefined` (or
   * None for the tree); `kind` is the query's `type` ('point' or 'edge').
   */
  datatype Query = Query(attribute: JsValue, kind: JsValue, ast: Option<Ast>, error: JsValue)
}
