/**
 * Concrete inputs worked through the model: single scans that show the lexer's edge
 * cases, the tokens of `f()` through the parser, and small modules through the binder —
 * a name with a value and a type, a redeclaration, and a run that stops at a clash.
 */
module Scenarios {
  import opened Wrappers
  import opened Errors
  import opened Lexer
  import opened Parser
  import opened Syntax
  import opened Grammar
  import opened Binder
  import opened Binding
  import opened BindingFacts

  /** `=>` is one token, not `=` followed by `>`; its text is the `>` alone (src/lexer.rs:174-177). */
  lemma ArrowIsOneToken()
    ensures ScanAt("=>", 0) == Scanned(Ok(Token(Arrow, ">", 0, 2)), 2)
  {
  }

  /** A string literal whose closing quote is the last character is still reported unterminated. */
  lemma ClosedStringAtEndIsUnterminated()
    ensures ScanAt("\"ab\"", 0).slot == Err(UnterminatedStringLiteralError)
  {
  }

  /** With input after the closing quote, the literal is a token that keeps its quotes. */
  lemma ClosedStringBeforeMoreInput()
    ensures ScanAt("\"ab\";", 0) == Scanned(Ok(Token(TokenType.StringLiteral, "\"ab\"", 0, 4)), 4)
  {
    var input := "\"ab\";";
    assert input[3] == '"';
    assert input[0..4] == "\"ab\"";
  }

  /** Leading whitespace is skipped and a keyword is recognised by its whole spelling. */
  lemma KeywordVar()
    ensures ScanAt(" var x", 0) == Scanned(Ok(Token(TokenType.Var, "var", 1, 4)), 4)
  {
  }

  /** `f()` parses as a call of `f` with no type arguments and no arguments. */
  lemma CallParses(c: Cursor)
    requires CurrentType(c) == Some(TokenType.Identifier) && CurrentToken(c).value.text == "f"
    requires CurrentType(Next(c)) == Some(OpenParen)
    requires CurrentType(Next(Next(c))) == Some(CloseParen)
    ensures ParseExpression(c) == Parsed(Ok(Call(IdentifierExpression(Identifier.Identifier("f")), [], [])), Next(Next(Next(c))))
  {
    var below := ParseBelowCall(c);
    assert below == Parsed(Ok(IdentifierExpression(Identifier.Identifier("f"))), Next(c));
    assert TypeArgumentsPart(Next(c)) == Parsed(Ok([]), Next(c));
    assert ParseArguments(Next(Next(c))) == Parsed(Ok([]), Next(Next(Next(c))));
  }

  /** Two top-level declarations of one name in different namespaces share one symbol. */
  lemma DualDeclarations(m: Module)
    requires |m.statements| == 2
    requires IsDeclaration(m.statements[0]) && IsDeclaration(m.statements[1])
    requires StatementName(m.statements[0]) == StatementName(m.statements[1])
    requires StatementMeaning(m.statements[0]) != StatementMeaning(m.statements[1])
    requires OutlineStatements(m.statements, Root, 0).accepted
    ensures BindModule(m).error.None?
    ensures Root in BindModule(m).state.tables
    ensures StatementName(m.statements[0]) in BindModule(m).state.tables[Root]
    ensures forall d :: d in BindModule(m).state.tables[Root][StatementName(m.statements[0])] <==>
      d == Declaration(Child(Root, 0), StatementMeaning(m.statements[0]))
      || d == Declaration(Child(Root, 1), StatementMeaning(m.statements[1]))
  {
    var ss := m.statements;
    assert !TopLevelClash(m);
    ModuleFailsIff(m);
    ModuleLocals(m);
    var n := StatementName(ss[0]);
    var symbol := BindModule(m).state.tables[Root][n];
    forall d
      ensures d in symbol <==>
        d == Declaration(Child(Root, 0), StatementMeaning(ss[0])) || d == Declaration(Child(Root, 1), StatementMeaning(ss[1]))
    {
      if d in symbol {
        var i :| 0 <= i < |ss| && IsDeclaration(ss[i]) && StatementName(ss[i]) == n
          && d == Declaration(Child(Root, i), StatementMeaning(ss[i]));
        assert i == 0 || i == 1;
      }
    }
  }

  /** `var x = n; type x = y`: the value `x` and the type `x` coexist in the module's `locals`. */
  lemma DualNamespace(x: string, n: int, y: string)
    ensures var m := Module([Statement.Var(Identifier.Identifier(x), None, Expression.NumericLiteral(n)),
                             TypeAlias(Identifier.Identifier(x), IdentifierType(Identifier.Identifier(y)))]);
      && BindModule(m).error.None?
      && Root in BindModule(m).state.tables && x in BindModule(m).state.tables[Root]
      && forall d :: d in BindModule(m).state.tables[Root][x] <==>
           d == Declaration(Child(Root, 0), Value) || d == Declaration(Child(Root, 1), Meaning.Type)
  {
    var s0 := Statement.Var(Identifier.Identifier(x), None, Expression.NumericLiteral(n));
    var s1 := TypeAlias(Identifier.Identifier(x), IdentifierType(Identifier.Identifier(y)));
    assert OutlineStatement(s0, Child(Root, 0)).accepted;
    assert OutlineStatement(s1, Child(Root, 1)).accepted;
    assert OutlineStatements([s0, s1], Root, 0).accepted by {
      assert [s0, s1][1..][1..] == [];
      assert OutlineStatements([s0, s1][1..], Root, 1).accepted;
    }
    DualDeclarations(Module([s0, s1]));
  }

  /** Two Vars of one name clash in the value namespace: the module's binding fails. */
  lemma RedeclarationRejected(x: string, a: int, b: int)
    ensures BindModule(Module([Statement.Var(Identifier.Identifier(x), None, Expression.NumericLiteral(a)),
                               Statement.Var(Identifier.Identifier(x), None, Expression.NumericLiteral(b))])).error.Some?
  {
    var m := Module([Statement.Var(Identifier.Identifier(x), None, Expression.NumericLiteral(a)),
                     Statement.Var(Identifier.Identifier(x), None, Expression.NumericLiteral(b))]);
    assert TopLevelClash(m) by {
      assert IsDeclaration(m.statements[0]) && IsDeclaration(m.statements[1]);
      assert StatementName(m.statements[0]) == StatementName(m.statements[1]);
    }
    ModuleFailsIff(m);
  }

  /** `var x = n` at `id` binds the statement and its name, and nothing else. */
  lemma LiteralVarBinds(x: string, n: int, id: NodeId)
    requires id.Child?
    ensures BindStatement(Statement.Var(Identifier.Identifier(x), None, Expression.NumericLiteral(n)), id).error.None?
    ensures BindStatement(Statement.Var(Identifier.Identifier(x), None, Expression.NumericLiteral(n)), id).state.parents.Keys
         == {id, Child(id, 0)}
  {
    assert OutlineStatement(Statement.Var(Identifier.Identifier(x), None, Expression.NumericLiteral(n)), id).slots
        == {id, Child(id, 0)};
  }

  /** A second declaration of a name in the namespace of the first is refused. */
  lemma SecondDeclarationRefused(x: string, d0: Declaration, d1: Declaration)
    requires d0.meaning == d1.meaning
    ensures DeclareAll(map[], [Entry(x, d0)]).Ok?
    ensures DeclareAll(DeclareAll(map[], [Entry(x, d0)]).value, [Entry(x, d1)]).Err?
  {
    assert DeclareAll(map[], [Entry(x, d0)]) == Ok(map[x := [d0]]);
    assert HasMeaning([d0], d1.meaning) by {
      assert [d0][0].meaning == d1.meaning;
    }
  }

  /**
   * When the second of three top-level declarations clashes with the first, the run
   * keeps what binding the first two statements wrote and never binds the third.
   */
  lemma ClashingRun(s0: Statement, s1: Statement, s2: Statement)
    requires BindStatement(s0, Child(Root, 0)).error.None? && BindStatement(s1, Child(Root, 1)).error.None?
    requires IsDeclaration(s0) && IsDeclaration(s1)
    requires StatementName(s0) == StatementName(s1) && StatementMeaning(s0) == StatementMeaning(s1)
    ensures BindStatements([s0, s1, s2], Root, 0, map[]).bound.error.Some?
    ensures BindStatements([s0, s1, s2], Root, 0, map[]).bound.state.parents
         == BindStatement(s0, Child(Root, 0)).state.parents + BindStatement(s1, Child(Root, 1)).state.parents
  {
    var ss := [s0, s1, s2];
    var id0 := Child(Root, 0);
    var id1 := Child(Root, 1);
    SecondDeclarationRefused(StatementName(s0), Declaration(id0, StatementMeaning(s0)), Declaration(id1, StatementMeaning(s1)));
    var first := Declare(BindStatement(s0, id0), map[], StatementEntries(s0, id0));
    var second := Declare(BindStatement(s1, id1), first.table, StatementEntries(s1, id1));
    assert second.bound.error.Some?;
    RunStep(ss, Root, 0, map[]);
    assert ss[1..][0] == s1;
    RunStep(ss[1..], Root, 1, first.table);
  }

  /** The module of such a run fails, and `binder::bind` returns what the run wrote. */
  lemma ClashingModule(s0: Statement, s1: Statement, s2: Statement)
    requires BindStatement(s0, Child(Root, 0)).error.None? && BindStatement(s1, Child(Root, 1)).error.None?
    requires IsDeclaration(s0) && IsDeclaration(s1)
    requires StatementName(s0) == StatementName(s1) && StatementMeaning(s0) == StatementMeaning(s1)
    ensures BindModule(Module([s0, s1, s2])).error.Some?
    ensures Bind(Module([s0, s1, s2])).parents
         == BindStatement(s0, Child(Root, 0)).state.parents + BindStatement(s1, Child(Root, 1)).state.parents
  {
    ClashingRun(s0, s1, s2);
  }
}
