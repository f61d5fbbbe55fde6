/** The lexer and the parser one after the other, on a text that is one expression. */
module FrontEnd {
  import opened Lexing
  import opened Symbolic
  import opened PrintedTokens
  import opened PrintRoundTrip
  import PrintedTrees
  import G = Grammar
  import L = Lexer
  import P = Parser
  import S = Syntax

  /** A text read as one expression, with nothing left over. */
  method ReadExpr(g: G.Grammar, text: string) returns (tree: S.Option<S.Expr>)
    ensures tree == ParseText(g, text)
  {
    hide Lex, G.Grammar.ParseExpr;
    var lexer := new L.Lexer(text);
    var tokens := lexer.LexAll();
    if tokens.Failure? {
      return S.None;
    }
    LexEndsWithEof(text);
    var parser := new P.Parser(g, tokens.value);
    var e := parser.ParseExpr();
    var end := parser.PeekType();
    ListEnds(parser.tokens[parser.pos..]);
    return if end == EOF then e else S.None;
  }

  lemma ListEnds(ts: seq<Token>)
    ensures G.ListOf(ts).Type() == EOF <==> G.ListOf(ts).End?
  {}

  /** Printing a symbolic expression and reading the text gives its own tree exactly when
      the expression is faithful. */
  method PrintAndRead(g: G.Grammar, e: Sym) returns (same: bool)
    requires WellNamed(e)
    ensures same <==> Faithful(e)
  {
    hide Text, Faithful, WellNamed, ParseText;
    var tree := ReadExpr(g, Text(e));
    same := tree == S.Some(PrintedTrees.Ast(e));
    RoundTrip(g, e);
  }
}
