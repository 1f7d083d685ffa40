/** The syntax tree (internal/cadishfile/ast.go), without source positions. */
module Ast {
  datatype ArgKind = Literal | MatcherRef | Placeholder

  datatype Arg = Arg(raw: string, quoted: bool, kind: ArgKind)

  /** `hasBlock` tells an empty block from none. */
  datatype Node =
    | MatcherDef(name: string, typ: string, args: seq<Arg>)
    | Directive(name: string, args: seq<Arg>, hasBlock: bool, block: seq<Node>)

  /** An opening brace that no backslash escapes. */
  predicate ContainsPlaceholder(t: string) {
    if t == [] then false
    else if t[0] == '\\' then |t| >= 2 && ContainsPlaceholder(t[2..])
    else t[0] == '{' || ContainsPlaceholder(t[1..])
  }

  predicate IsMatcherRef(t: string) {
    |t| > 0 && t[0] == '@'
  }

  function ClassifyArg(t: string, quoted: bool): ArgKind {
    if quoted then Literal
    else if IsMatcherRef(t) && |t| > 1 then MatcherRef
    else if ContainsPlaceholder(t) then Placeholder
    else Literal
  }

  function ArgOf(t: string, quoted: bool): Arg {
    Arg(t, quoted, ClassifyArg(t, quoted))
  }
}
