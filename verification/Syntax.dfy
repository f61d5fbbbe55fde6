/** The syntax trees of nb types and expressions, without their source locations. */
module Syntax {

  datatype Option<+T> = None | Some(value: T)

  datatype Type =
    | Primitive(name: string)
    | Enc(inner: Type)
    | Vec(elem: Type, size: Option<Expr>)
    | Mat(elem: Type)
    | SizedMat(elem: Type, rows: Expr, cols: Expr)
    | Fn(params: seq<Type>, ret: Type)
    | Tuple(elements: seq<Type>)
    | Named(name: string, sub: Option<string>)
  {
    /** Whether a float literal occurs in it. */
    predicate HasFloat() {
      match this
      case Primitive(_) => false
      case Enc(inner) => inner.HasFloat()
      case Vec(elem, size) => elem.HasFloat() || (size.Some? && size.value.HasFloat())
      case Mat(elem) => elem.HasFloat()
      case SizedMat(elem, rows, cols) => elem.HasFloat() || rows.HasFloat() || cols.HasFloat()
      case Fn(params, ret) => ret.HasFloat() || exists t | t in params :: t.HasFloat()
      case Tuple(elements) => exists t | t in elements :: t.HasFloat()
      case Named(_, _) => false
    }
  }

  datatype Arg = Positional(value: Expr) | Keyword(name: string, value: Expr)

  datatype Init = Shorthand(name: string) | Init(name: string, value: Expr)

  datatype Param = Param(name: string, ann: Option<Type>)

  datatype Expr =
    | IntLiteral(n: nat)
    | FloatLiteral(digits: string)
    | StringLiteral(s: string)
    | BoolLiteral(b: bool)
    | Ident(name: string)
    | Unary(op: string, operand: Expr)
    | Binary(op: string, left: Expr, right: Expr)
    | Pipe(left: Expr, right: Expr)
    | Range(start: Expr, end: Expr, inclusive: bool)
    | Cast(expr: Expr, target: Type)
    | Field(obj: Expr, field: string)
    | Method(obj: Expr, method_: string, args: seq<Arg>)
    | Call(func: Expr, args: seq<Arg>, typeArgs: seq<Type>)
    | Index(obj: Expr, index: Expr)
    | Slice(obj: Expr, start: Expr, end: Expr)
    | Array(elements: seq<Expr>)
    | Struct(name: string, fields: seq<Init>)
    | Closure(params: seq<Param>, body: Expr)
  {
    predicate HasFloat() {
      match this
      case IntLiteral(_) => false
      case FloatLiteral(_) => true
      case StringLiteral(_) => false
      case BoolLiteral(_) => false
      case Ident(_) => false
      case Unary(_, operand) => operand.HasFloat()
      case Binary(_, left, right) => left.HasFloat() || right.HasFloat()
      case Pipe(left, right) => left.HasFloat() || right.HasFloat()
      case Range(start, end, _) => start.HasFloat() || end.HasFloat()
      case Cast(expr, target) => expr.HasFloat() || target.HasFloat()
      case Field(obj, _) => obj.HasFloat()
      case Method(obj, _, args) => obj.HasFloat() || exists a | a in args :: a.value.HasFloat()
      case Call(func, args, typeArgs) =>
        || func.HasFloat()
        || (exists a | a in args :: a.value.HasFloat())
        || (exists t | t in typeArgs :: t.HasFloat())
      case Index(obj, index) => obj.HasFloat() || index.HasFloat()
      case Slice(obj, start, end) => obj.HasFloat() || start.HasFloat() || end.HasFloat()
      case Array(elements) => exists e | e in elements :: e.HasFloat()
      case Struct(_, fields) => exists f | f in fields :: f.Init? && f.value.HasFloat()
      case Closure(params, body) =>
        body.HasFloat() || exists p | p in params :: p.ann.Some? && p.ann.value.HasFloat()
    }
  }
}
