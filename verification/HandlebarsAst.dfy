/** The Handlebars syntax tree the template compiler walks. */
module HandlebarsAst {
  import opened Outcomes

  /** A path such as `../person.name`: `depth` counts the `..`, `data` marks `@name`. */
  datatype Path = Path(parts: seq<string>, depth: nat, data: bool, original: string)

  /** What a call names: a path, or a literal that the compiler turns into a path. */
  datatype Head = HeadPath(path: Path) | HeadLiteral(original: string)

  datatype Expr =
    | PathExpression(path: Path)
    | StringLiteral(text: string)
    | NumberLiteral(number: real)
    | BooleanLiteral(truth: bool)
    | UndefinedLiteral
    | NullLiteral
    | SubExpression(call: Call)

  datatype Call = Call(head: Head, params: seq<Expr>, hash: Hash)

  datatype Hash = NoHash | Hash(pairs: seq<Pair>)

  datatype Pair = Pair(key: string, value: Expr)

  datatype PartialName = StaticName(original: string) | DynamicName(call: Call)

  datatype Statement =
    | MustacheStatement(call: Call, escaped: bool)
    | BlockStatement(call: Call, program: Option<Program>, inverse: Option<Program>)
    | PartialStatement(name: PartialName, params: seq<Expr>, hash: Hash,
                       partialBlock: Option<Program>, indent: string)
    | Decorator(call: Call, decorated: Option<Program>)
    | ContentStatement(value: string)
    | CommentStatement

  datatype Program = Program(body: seq<Statement>, blockParams: Option<seq<string>>)

  /** A literal in call position becomes the one-part path of its source text. */
  function HeadToPath(head: Head): Path {
    match head
    case HeadPath(path) => path
    case HeadLiteral(original) => Path([original], 0, false, original)
  }

  predicate IsWordChar(c: char) {
    'a' <= c <= 'z' || 'A' <= c <= 'Z' || '0' <= c <= '9' || c == '_'
  }

  predicate ThisWordAt(text: string, i: nat) {
    && i + 4 <= |text|
    && text[i..i + 4] == "this"
    && (i + 4 == |text| || !IsWordChar(text[i + 4]))
  }

  /** The regular expression `^\.|this\b`. */
  predicate ScopedId(path: Path) {
    var o := path.original;
    || (|o| > 0 && o[0] == '.')
    || exists i :: 0 <= i < |o| && ThisWordAt(o, i)
  }

  predicate SimpleId(path: Path) {
    |path.parts| == 1 && !ScopedId(path) && path.depth == 0
  }

  /** The first part of a path as JavaScript prints it. */
  function FirstPart(path: Path): string {
    if path.parts == [] then "undefined" else path.parts[0]
  }
}
