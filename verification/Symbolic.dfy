/** The symbolic expressions of a stage schedule, and their printed form. */
module Symbolic {
  import opened Lexing

  datatype Op = Add | Sub | Mul | Div | Mod

  /** Where a name's value comes from: a loop, the entry point, or the build. */
  datatype Kind = LoopVar | Argument | BuildParam

  /** A symbolic expression. A name is kept as its parts between `::`. */
  datatype Sym =
    | Flag(b: bool)
    | Str(s: string)
    | Num(n: int)
    | Name(kind: Kind, parts: seq<string>)
    | Member(of: Sym, field: string)
    | Apply(func: seq<string>, args: seq<Sym>)
    | Neg(arg: Sym)
    | Bin(op: Op, left: Sym, right: Sym)

  function Prec(op: Op): nat {
    match op
    case Add => 1
    case Sub => 1
    case Mul => 2
    case Div => 2
    case Mod => 2
  }

  function Spelling(op: Op): string {
    match op
    case Add => "+"
    case Sub => "-"
    case Mul => "*"
    case Div => "/"
    case Mod => "%"
  }

  // ----- printing -----

  function DigitChar(d: nat): (c: char)
    requires d < 10
    ensures IsDigit(c) && DigitOf(c) == d
  {
    ('0' as int + d) as char
  }

  /** repr of a non-negative int. */
  function Decimal(n: nat): (s: string)
    ensures |s| > 0 && forall c :: c in s ==> IsDigit(c)
  {
    if n < 10 then [DigitChar(n)] else Decimal(n / 10) + [DigitChar(n % 10)]
  }

  function Replace(s: string, c: char, new_: string): string {
    if |s| == 0 then "" else (if s[0] == c then new_ else [s[0]]) + Replace(s[1..], c, new_)
  }

  function Join(parts: seq<string>): string {
    if |parts| == 0 then "" else if |parts| == 1 then parts[0] else parts[0] + "::" + Join(parts[1..])
  }

  /** text */
  function Text(e: Sym): string
    decreases e, 0
  {
    match e
    case Flag(b) => if b then "true" else "false"
    case Str(s) => "\"" + Replace(Replace(s, '\\', "\\\\"), '"', "\\\"") + "\""
    case Num(n) => if n < 0 then "-" + Decimal(-n) else Decimal(n)
    case Name(_, parts) => Join(parts)
    case Member(of, field) => Wrap(of, 3) + "." + field
    case Apply(func, args) => Join(func) + "(" + Texts(args) + ")"
    case Neg(arg) => "-" + Wrap(arg, 3)
    case Bin(op, left, right) => Wrap(left, Prec(op)) + " " + Spelling(op) + " " + Wrap(right, Prec(op) + 1)
  }

  /** `", ".join(text(a) for a in args)` */
  function Texts(args: seq<Sym>): string
    decreases args, 0
  {
    if |args| == 0 then "" else if |args| == 1 then Text(args[0]) else Text(args[0]) + ", " + Texts(args[1..])
  }

  /** Whether _wrap parenthesises e at this precedence. */
  predicate Wrapped(e: Sym, prec: nat) {
    e.Bin? && Prec(e.op) < prec
  }

  /** _wrap */
  function Wrap(e: Sym, prec: nat): string
    decreases e, 1
  {
    if Wrapped(e, prec) then "(" + Text(e) + ")" else Text(e)
  }
}
