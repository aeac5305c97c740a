# mini-ts-typechecker front end, in Dafny

A model of the tree-building and binding front end of a small TypeScript-like checker, with
the properties it promises proved. There are three layers:

- **Scanner** (`Lexer`). It models `Lexer::scan` of src/lexer.rs as one pure step
  `ScanAt(input, pos)`. The step returns the slot the lexer stores (a token or a lexing error)
  and the position it moves to. Scanning from the start until EOF or an error gives the
  token stream (`Tokenize`).
- **Recursive-descent parser** (`Parser`, `Grammar`). The lexer seen by the parser is a
  `Cursor`: the token stream plus the number of `next` calls made so far. Every production of
  src/types/*.rs is a pure function from a cursor to a `Parsed` value. That value holds the
  outcome and the cursor left behind, on failure as well, because `try_parse_prefixed`
  keeps what a failed element consumed. The combinators of src/parser.rs are generic
  functions over an element parser.
- **Binder** (`Binder`, `Binding`, `BindingFacts`). Node identity is the node's position
  in the tree: `Root` is the module, and `Child(up, slot)` is a child position of `up`. The
  binding state is an arena holding two maps:
  - the parent slot of every node that has one (`map<NodeId, NodeId>`);
  - the scope table of every scope owner: a name maps to the declarations of that name, in
    order, each tagged with its meaning `Value` or `Type`.

  Binding a subtree yields its slots and tables together with the first error, if any. State
  that was written before an error is kept, as in the source.
- **Binding order** (`BindingOrder`). The source binds by writing into one arena in place.
  The model states that reading as a plan for each node: the parent slots, table openings
  and `declare_symbol` calls of its `bind`, in source order. `Run` applies a plan's steps
  one by one and stops at the first refused declaration. For every kind of node, a lemma
  shows that the compositional binding is exactly the run of its plan, from any arena. This
  fixes the order of the child binds and the arena left behind by a failure.

The parser's partner is a printer (`Printer`), which is not part of the source. It turns a
syntax tree into the token stream that spells it, and `RoundTrip` proves that every
production reads such a stream back into the same tree and stops right after it. A printable
tree is one the grammar can spell:
- numeric literals are not negative;
- a call's callee is neither a call nor an assignment, because the grammar has no chained
  calls, and an assignment would take the call into its value.

`Syntax` holds the syntax tree and the `get_name`/`get_meaning` answers of its nodes.
`Scenarios` works through concrete inputs: single-token scans, `f()`, a value and a type of
one name, and a redeclaration.

## Decisions about the source

The binder sources are in the middle of a refactor. The model settles each gap as follows:

- `declare_symbol` is called, but src/binder.rs does not define it. `Binder.DeclareSymbol`
  is an assumed contract:
  - it looks the name up;
  - it refuses (`CannotRedeclareError`) a second declaration with the same meaning;
  - it appends a declaration with the other meaning;
  - it inserts a new symbol for a new name.
- `Expression::bind` returns `()`, yet `Statement::bind` applies `?` to its result
  (src/types/statement.rs:90). The model follows the callers: expression binding reports the
  first error of its children, and that error aborts the caller. The source's own loops
  over the name and return type, properties, type parameters, parameters, body statements,
  callee, type arguments and arguments (src/types/expression.rs:110-112, 125-143, 153-161)
  discard each child's result and go on to the next sibling. The model instead stops at the
  first child that fails; "## Left out" names every member this affects.
- Inside `Expression::bind` (src/types/expression.rs:110-112, 133-139), properties, type
  parameters and parameters are bound without the table argument that their own `bind`
  requires. The model supplies the evident tables:
  - the properties of an object literal go into a table of the object's own;
  - the type parameters, parameters and body statements of a function go into its `locals`
    (src/types/expression.rs:42).
- `PropertyDeclaration` has no `bind`, no `get_meaning` and no parent slot, yet
  src/types/type_node.rs:128 binds and declares it. The model declares it into the object
  type's `members` under its name, with meaning `Type`. It binds only its annotation, and it
  gives it no parent slot of its own.
- Some behaviour of the code is easy to misread. The model follows the code:
  - A string literal whose closing quote is the last character of the input is reported as
    unterminated (src/lexer.rs:114-115).
  - An unrecognised character anywhere is an `UnexpectedEndOfFileError` lexing error, and the
    scan moves past it (src/lexer.rs:187-193).
  - `=>` is one Arrow token whose text is only `>` (src/lexer.rs:171-177, 197).
  - `binder::bind` drops the binding error and returns the module as far as it was bound
    (src/binder.rs:26-32).
  - Identifier expressions, identifier types and literals have no parent slot of their own.
    Only the wrapped identifier of an identifier expression or type gets one.

## Model

| member | source | states |
|---|---|---|
| Lexer.ScanAt | src/lexer.rs:61-75 | When only whitespace is left, the slot is an EOF token with empty text, starting and ending at the end of the input. Otherwise the position strictly advances, and a token starts right after the skipped whitespace. |
| Lexer.EofRepeats | src/lexer.rs:61-72 | Scanning again from where an EOF was produced produces the same EOF at the same position. |
| Lexer.ScanToken | src/lexer.rs:91-101 | A lexeme never scans as EOF. A token spans from its start to the new position, which lies inside the input. |
| Lexer.ScanStringLiteral | src/lexer.rs:103-124 | A literal is a token exactly when a closing quote appears before the last character. Its text then runs from the opening quote through the first closing quote, quotes included. Otherwise it fails with `UnterminatedStringLiteralError` at the end of the input. |
| Lexer.ScanNumericLiteral | src/lexer.rs:126-144 | The token is the maximal run of decimal digits, and its text is exactly that run. |
| Lexer.ScanIdentifier | src/lexer.rs:146-166 | The token is the maximal run of identifier characters. Its type is the keyword's when the text is `function`, `var`, `type` or `return`, and `Identifier` otherwise. |
| Lexer.ScanOperator | src/lexer.rs:168-202 | `=>` is one Arrow token spanning two characters with text `>`. A punctuation character is a one-character token whose text is that character. Any other character is `UnexpectedEndOfFileError`, and the position still advances by one. |
| Lexer.Scan | src/lexer.rs:61-75 | `scan`/`next` always leaves a current slot, and the input is unchanged. |
| Lexer.Get | src/lexer.rs:77-82 | A token is returned exactly when the current slot holds one, and it is that token. |
| Lexer.GetType | src/lexer.rs:84-89 | A type is returned exactly when the current slot holds a token, and it is that token's type. |
| Lexer.TokensFrom | src/lexer.rs:222-227 | The successive scans form a stream in which every slot but the last is a real token, and the last is EOF or a lexing error. |
| Lexer.Tokenize | src/lexer.rs:222-227 | The whole stream of an input is well formed in the same sense. |
| Lexer.ScansFollowStream | src/lexer.rs:222-227 | After k calls of `next`, the lexer's current slot is the k-th slot of the stream. |
| Lexer.StreamEndIsFixedPoint | src/lexer.rs:61-72 | Once a stream has produced its EOF, another scan leaves the lexer unchanged. |
| Lexer.EofForever | src/lexer.rs:61-72 | Every `next` after the EOF of a stream yields that same EOF, so the parser can always peek. |
| Parser.TryConsumeToken | src/parser.rs:38-49 | It advances exactly one token when the current type is the expected one. Otherwise it answers false and does not move. |
| Parser.ParseExpected | src/parser.rs:66-73 | It succeeds exactly on the expected type and consumes that token. Otherwise it fails without consuming. |
| Parser.ParseIdentifier | src/parser.rs:9-17 | It succeeds exactly on an Identifier token, returns its text and consumes it. Otherwise it fails without consuming. |
| Parser.ParseSequence | src/parser.rs:19-36 | A terminator in first position gives the empty list. A first element that fails is returned unchanged, at the cursor it left. Success consumes through the terminator, and the first element is the one the element parser gives. |
| Parser.SequenceMore | src/parser.rs:19-36 | An element followed by the separator is put in front of the list that the rest of the input gives, and the whole list ends where that rest ends. |
| Parser.SequenceWithoutSeparator | src/parser.rs:19-36 | A missing separator is not diagnosed: an element followed by neither the separator nor the terminator is still followed by the next element, and the list continues. |
| Parser.SequenceLast | src/parser.rs:19-36 | An element followed directly by the terminator is a one-element list, and the terminator is consumed. |
| Parser.TryParsePrefixed | src/parser.rs:51-64 | Without the prefix the result is None and nothing moves. With the prefix, the prefix is consumed and an element failure becomes None, keeping what the element consumed. |
| Parser.NoTokenFailsEveryTest | src/parser.rs:38-49 | With a lexing error in the current slot, every token test, expected token and identifier fails without consuming. |
| Parser.CursorFollowsLexer | src/parser.rs:4-7 | The cursor over the stream reads, at each index, the lexer's current slot after that many `next` calls. |
| Grammar.ParseIdentifierNode | src/types/identifier.rs:25-36 | It succeeds exactly on an Identifier token, copies its text and advances exactly one token. Otherwise it consumes nothing. |
| Grammar.ParseTypeParameter | src/types/type_parameter.rs:26-33 | A type parameter is exactly one identifier. |
| Grammar.ParseLiteral | src/types/expression.rs:258-272 | A numeric literal's value is the decimal value of its text. A string literal's value is its raw text. Both consume one token. Anything else fails without consuming. |
| Grammar.ParseStatement | src/types/statement.rs:60-70 | A Var, TypeAlias or Return comes exactly from a leading `var`, `type` or `return`. |
| Grammar.ParseVar | src/types/statement.rs:124-138 | A Var needs an identifier, an optional `:` annotation, and a mandatory `=` followed by its initializer. Without the `=`, it fails where the annotation left the cursor. |
| Grammar.ParseTypeAlias | src/types/statement.rs:140-152 | A type alias is an identifier, `=` and a type, with no annotation. |
| Grammar.ParseReturn | src/types/statement.rs:154-161 | `return` succeeds exactly when one expression follows, and holds that expression. |
| Grammar.ParseExpressionStatement | src/types/statement.rs:163-170 | It succeeds exactly when an expression parses, and wraps it. |
| Grammar.ParseExpression | src/types/expression.rs:54-85 | A Call is built exactly when `(` follows the below-call expression and its optional type arguments. Its callee, type arguments and arguments are those parts. Otherwise type arguments are parsed and dropped, and the result is the bare expression. |
| Grammar.ParseCallSuffix | src/types/expression.rs:57-84 | The same statement, after the callee. |
| Grammar.ParseBelowCall | src/types/expression.rs:173-242 | It is never a Call. It is an Object, Function, identifier/assignment or literal exactly when the first token is `{`, `function`, an identifier or a literal. |
| Grammar.ParseFunction | src/types/expression.rs:186-232 | The name is taken only when an identifier follows `function`. Absent type parameters give an empty list. |
| Grammar.ParseFunctionRest | src/types/expression.rs:204-232 | `(`, the parameters, an optional return type, and a mandatory `{` that opens the body. Without `(` it fails without consuming. Without `{` it fails where the return type left the cursor. |
| Grammar.ParseIdentifierOrAssignment | src/types/expression.rs:244-256 | An identifier followed by `=` and a parsed expression is an Assignment. Otherwise it is an identifier expression, and the `=` and what the failed value consumed stay consumed. |
| Grammar.ParseTypeNode | src/types/type_node.rs:47-113 | `{` gives an object type. `<` or `(` gives a signature, with no type parameters after `(`. Anything else must be an identifier type. |
| Grammar.ParseSignatureRest | src/types/type_node.rs:69-107 | Parameters up to `)`, a mandatory `=>`, then the return type. Without `=>` it fails where the parameters left the cursor. |
| Grammar.ParseParameter | src/types/parameter.rs:29-38 | A name and an optional `:` type. A malformed type is dropped, not reported. |
| Grammar.ParsePropertyDeclaration | src/types/property_declaration.rs:15-23 | It fails without consuming on a non-identifier. The name is the identifier's text, and the type is present only after `:`. |
| Grammar.ParsePropertyAssignment | src/types/property_assignment.rs:28-39 | The name, a mandatory `:` and a value. A missing colon is an error. |
| Grammar.ParseAnnotation | src/types/statement.rs:126 | Without `:` nothing is consumed. After `:` a type that fails is dropped, with its consumption kept. |
| Grammar.ParseModule | src/types/module.rs:26-40 | On success the statements are consumed up to and including EOF. |
| Grammar.Parse | src/parser.rs:4-7 | A module is accepted only from a token stream that contains an EOF token. `RoundTrip.ParseRoundTrip` shows that it returns every printable module from its printed tokens. |
| RoundTrip.ParseRoundTrip | src/types/module.rs:26-40 | `parse` of the printed tokens of any printable module returns that module, and `Module::parse` stops right after the final EOF. |
| RoundTrip.StatementsRoundTrip | src/types/module.rs:27-32 | Printed statements separated by `;` are read back in order up to `}` or EOF, and the terminator is consumed. |
| RoundTrip.StatementRoundTrip | src/types/statement.rs:60-70 | A printed statement is read back as itself when the next token cannot continue an expression. |
| RoundTrip.VarRoundTrip | src/types/statement.rs:124-138 | `var`, a name, an optional `:` type, `=` and an initializer are read back as that Var. |
| RoundTrip.TypeAliasRoundTrip | src/types/statement.rs:140-152 | `type`, a name, `=` and a type are read back as that alias. |
| RoundTrip.ReturnRoundTrip | src/types/statement.rs:154-161 | `return` and an expression are read back as that return. |
| RoundTrip.ExpressionStatementRoundTrip | src/types/statement.rs:163-170 | An expression at the start of a statement is read back as an expression statement. |
| RoundTrip.ExpressionRoundTrip | src/types/expression.rs:54-85 | A printed expression is read back as itself when no `<`, `(` or `=` follows it. |
| RoundTrip.CallRoundTrip | src/types/expression.rs:54-85 | A callee, optional `<...>` type arguments, and arguments in parentheses are read back as that call, whatever follows. |
| RoundTrip.BelowCallRoundTrip | src/types/expression.rs:173-242 | Every printed expression that is not a call is read back by `parse_below_call`, provided no `=` follows it. |
| RoundTrip.AssignmentRoundTrip | src/types/expression.rs:244-256 | A name, `=` and a value are read back as that assignment. |
| RoundTrip.ObjectRoundTrip | src/types/expression.rs:174-185 | `{`, the properties and `}` are read back as that object literal. |
| RoundTrip.FunctionRoundTrip | src/types/expression.rs:186-202 | After `function`, the optional name and type parameters are read back, followed by the rest of the function. |
| RoundTrip.FunctionRestRoundTrip | src/types/expression.rs:204-232 | `(`, the parameters, `)`, an optional return type and a `{}`-enclosed body are read back as that function. |
| RoundTrip.PropertyAssignmentRoundTrip | src/types/property_assignment.rs:28-39 | A name, `:` and a value are read back as that property. |
| RoundTrip.ExpressionsRoundTrip | src/types/expression.rs:69-74 | Call arguments separated by `,` are read back in order, and the `)` is consumed. |
| RoundTrip.PropertyAssignmentsRoundTrip | src/types/expression.rs:175-180 | Object properties separated by `,` are read back in order, and the `}` is consumed. |
| RoundTrip.TypeNodeRoundTrip | src/types/type_node.rs:47-113 | Every printed type is read back as itself, whatever follows it. |
| RoundTrip.ObjectTypeRoundTrip | src/types/type_node.rs:48-60 | `{`, the property declarations and `}` are read back as that object type. |
| RoundTrip.SignatureTypeRoundTrip | src/types/type_node.rs:61-106 | A signature is read back whether or not it has a `<...>` list. Without one, it starts at `(`. |
| RoundTrip.SignatureRestRoundTrip | src/types/type_node.rs:71-80 | The parameters, `)`, `=>` and the return type are read back as the rest of that signature. |
| RoundTrip.AnnotationRoundTrip | src/types/statement.rs:126 | An optional `: Type` is read back. An absent one consumes nothing, provided no `:` follows. |
| RoundTrip.ParameterRoundTrip | src/types/parameter.rs:29-38 | A name and an optional type are read back as that parameter, provided no `:` follows. |
| RoundTrip.PropertyDeclarationRoundTrip | src/types/property_declaration.rs:15-23 | A name and an optional type are read back as that property declaration, provided no `:` follows. |
| RoundTrip.TypeParameterRoundTrip | src/types/type_parameter.rs:26-33 | One identifier is read back as that type parameter. |
| RoundTrip.TypeNodesRoundTrip | src/types/expression.rs:57-63 | Types separated by `,` are read back in order, and the `>` is consumed. |
| RoundTrip.ParametersRoundTrip | src/types/type_node.rs:71-76 | Parameters separated by `,` are read back in order, and the `)` is consumed. |
| RoundTrip.PropertyDeclarationsRoundTrip | src/types/type_node.rs:49-54 | Property declarations separated by `,` are read back in order, and the `}` is consumed. |
| RoundTrip.TypeParametersRoundTrip | src/types/type_node.rs:62-67 | Type parameters separated by `,` are read back in order, and the `>` is consumed. |
| RoundTrip.TypeArgumentsRoundTrip | src/types/expression.rs:57-66 | An optional `<...>` list of types is read back. An absent one is the empty list and consumes nothing, provided no `<` follows. |
| Syntax.DecimalText | src/types/expression.rs:261 | The decimal spelling of a number is a non-empty run of digits. |
| Syntax.DecimalRoundTrip | src/types/expression.rs:261 | Reading back the decimal spelling of a number gives the number. |
| Binder.DeclareSymbol | src/binder.rs:14-19 | The assumed `declare_symbol` refuses a name exactly when it already holds a declaration of the same meaning. Otherwise it puts the declaration at the end of that name's symbol and changes no other name. |
| Binder.DeclarePreservesWellFormed | src/binder.rs:9-19 | Declaring keeps every symbol non-empty with at most one declaration per meaning. |
| Binder.AtMostTwoDeclarations | src/binder.rs:9-12 | With two meanings, a well-formed symbol holds at most two declarations. |
| Binder.DeclareAllConcat | src/types/module.rs:42-49 | Declaring two runs in turn is declaring their concatenation, and a refusal in the first run stops everything. |
| Binder.DeclareAllRefusesDuplicates | src/types/module.rs:42-49 | A run of declarations into a fresh table is refused exactly when two of its entries share a name and a meaning. |
| Binder.DeclareAllInEntryOrder | src/types/module.rs:42-49 | After an accepted run, each name's symbol is its earlier declarations followed by the run's declarations of that name, in entry order. |
| Binder.DeclaredTableContents | src/types/module.rs:42-49 | After an accepted run, each name's symbol holds exactly the declarations of the entries with that name. |
| Binding.BindIdentifier | src/types/identifier.rs:38-43 | An identifier only records its parent, and never fails. |
| Binding.BindExpression | src/types/expression.rs:87-164 | Binding an expression fails exactly when one of the scopes inside it refuses a declaration. It then writes exactly the outlined parent slots and tables, and every slot holds the syntactic parent. The model stops at the first failing child where the source goes on (see Left out). |
| Binding.BindAssignment | src/types/expression.rs:97-106 | Binding an assignment fails exactly when its value does. On success it writes exactly the slots of the assignment, its name and its value's outline, each holding the syntactic parent. |
| Binding.BindObject | src/types/expression.rs:107-113 | An object literal's properties are declared into its own table, never into the caller's. The model stops at the first failing child where the source goes on (see Left out). |
| Binding.BindFunction | src/types/expression.rs:114-144 | Binding a function fails exactly when its return type or its scope does. On success it writes exactly its slot, its name's, its return type's and its scope's outlined slots and tables. The model stops at the first failing child where the source goes on (see Left out). |
| Binding.BindFunctionScope | src/types/expression.rs:133-143 | Type parameters, then parameters, then body statements, all declared into the function's own `locals`. The model stops at the first failing child where the source goes on (see Left out). |
| Binding.FunctionScopeAgrees | src/types/expression.rs:133-143 | The declared header followed by the body, recorded at the function, is its outlined scope. The model stops at the first failing child where the source goes on (see Left out). |
| Binding.BindFunctionHeader | src/types/expression.rs:133-139 | Type parameters are declared before parameters, into one table. The model stops at the first failing child where the source goes on (see Left out). |
| Binding.BindCall | src/types/expression.rs:145-162 | Binding a call fails exactly when its callee, a type argument or an argument does. On success it writes exactly the outlined slots and tables of the call and those parts. The model stops at the first failing child where the source goes on (see Left out). |
| Binding.BindTypeNode | src/types/type_node.rs:115-160 | Binding a type node agrees with its outline. |
| Binding.BindObjectLiteralType | src/types/type_node.rs:120-132 | An object type's property declarations are declared into its own `members`, never into the caller's table. |
| Binding.BindSignature | src/types/type_node.rs:138-158 | Binding a signature fails exactly when its scope or its return type does. On success it writes exactly its slot and the outlined slots and tables of those parts. |
| Binding.BindSignatureScope | src/types/type_node.rs:147-153 | Type parameters, then parameters, declared into the signature's own `locals`. |
| Binding.BindStatement | src/types/statement.rs:72-122 | Binding a statement, before its own declaration, fails exactly when a scope inside it refuses a declaration. On success it writes exactly the statement's outlined slots and tables: its own slot, its name's for a Var or TypeAlias, and its children's. |
| Binding.BindParameter | src/types/parameter.rs:40-56 | Binding a parameter agrees with its outline: its slot, its name's slot and its optional type's, with failure exactly when the type fails. |
| Binding.BindTypeParameter | src/types/type_parameter.rs:35-49 | A type parameter binds its name, and binding it never fails. |
| Binding.BindPropertyAssignment | src/types/property_assignment.rs:41-56 | Binding a property assignment agrees with its outline: its slot, its name's slot and its value's, with failure exactly when the value fails. |
| Binding.BindStatements | src/types/module.rs:44-46 | A run of statements succeeds exactly when every statement binds and the owner's table accepts all their declarations. Its final table is then those declarations added to the starting table. |
| Binding.BindParameters | src/types/type_node.rs:151-153 | A run of parameters succeeds exactly when every parameter binds and the table accepts all their declarations, and its final table then holds them. |
| Binding.BindTypeParameters | src/types/type_node.rs:147-149 | A run of type parameters succeeds exactly when the table accepts all their declarations, and its final table then holds them. |
| Binding.BindPropertyAssignments | src/types/expression.rs:110-112 | A run of properties succeeds exactly when every property binds and the table accepts all their declarations, and its final table then holds them. The model stops at the first failing child where the source goes on (see Left out). |
| Binding.BindPropertyDeclarations | src/types/type_node.rs:127-129 | A run of property declarations succeeds exactly when every annotation binds and the table accepts all their declarations, and its final table then holds them. |
| Binding.BindExpressions | src/types/expression.rs:159-161 | Binding the arguments fails exactly when one of them does. On success it writes exactly their outlined slots and tables. The model stops at the first failing child where the source goes on (see Left out). |
| Binding.BindTypeNodes | src/types/expression.rs:155-157 | Binding the type arguments fails exactly when one of them does. On success it writes exactly their outlined slots and tables. The model stops at the first failing child where the source goes on (see Left out). |
| Binding.BindModule | src/types/module.rs:42-49 | The module binds its statements in order against its own `locals`. It fails exactly when some scope refuses a declaration, and otherwise writes exactly the outlined slots and tables. |
| Binding.Bind | src/binder.rs:26-32 | `binder::bind` returns the bound module whatever happened. Every written slot holds the syntactic parent, and an accepting module gets exactly its outlined slots and tables. |
| Binding.Declare | src/types/statement.rs:96 | A declaring node is declared only after its children bound without error. When they failed, the table is left as it was and their failure is passed on. Otherwise the result fails exactly when the table refuses the declarations. |
| Binding.Then | src/types/statement.rs:88-90 | After a failure nothing more runs, and the combination succeeds exactly when both parts do. |
| BindingFacts.StatementSlots | src/types/module.rs:44-46 | Every statement of a run is outlined with a parent slot. |
| BindingFacts.StatementsEntriesMembers | src/types/statement.rs:96 | The entries of a run are exactly the declarations of its Var and TypeAlias statements. |
| BindingFacts.StatementsEntriesOrdered | src/types/module.rs:44-46 | The entries of a run come in statement order. |
| BindingFacts.ClashIsRefused | src/types/module.rs:42-49 | Two top-level declarations with one name and one meaning make the module's declarations refused. |
| BindingFacts.RefusalIsClash | src/types/module.rs:42-49 | The module's declarations are refused only over such a clash. |
| BindingFacts.ModuleFailsIff | src/types/module.rs:42-49 | Binding a module fails exactly when two top-level declarations clash, or a nested scope refuses a declaration. |
| BindingFacts.TopLevelStatementsBound | src/types/module.rs:42-49 | After a successful bind, every top-level statement has the module as its parent. |
| BindingFacts.ModuleLocals | src/types/module.rs:42-49 | After a successful bind, the module's `locals` holds exactly its top-level declarations, each under its name with its meaning. |
| BindingFacts.TablesWellFormed | src/binder.rs:9-19 | After a successful bind, every symbol of every table has one or two declarations of different meanings. |
| BindingFacts.FailureStopsRun | src/types/module.rs:44-46 | Once a prefix of a run has failed, the later statements change nothing. |
| BindingFacts.ModuleStopsAtFirstError | src/types/module.rs:42-49 | A module whose first k statements fail binds exactly as those k statements alone. The later statements are left unbound. |
| BindingOrder.RefusalStopsRun | src/types/statement.rs:88-96 | A refused run stops at one refused `declare_symbol`. The arena is then exactly what the steps before it wrote, and no later step writes anything. |
| BindingOrder.ExpressionInOrder | src/types/expression.rs:87-164 | From any arena, binding an expression performs exactly the writes of its plan, in source order, up to the first refused declaration, and leaves the arena those writes produce. The model stops at the first failing child where the source goes on (see Left out). |
| BindingOrder.AssignmentInOrder | src/types/expression.rs:97-106 | An assignment writes its slot, then its name's slot, then binds its value. A failure in the value keeps both slots. |
| BindingOrder.ObjectInOrder | src/types/expression.rs:107-113 | An object literal writes its slot, opens its own table, then binds and declares each property in order, stopping at the first failure. The model stops at the first failing child where the source goes on (see Left out). |
| BindingOrder.FunctionInOrder | src/types/expression.rs:114-144 | A function writes its slot, then its name's, then binds its return type, then its scope. A failure at any point leaves everything after it unwritten. The model stops at the first failing child where the source goes on (see Left out). |
| BindingOrder.FunctionScopeInOrder | src/types/expression.rs:133-143 | A function opens its `locals`, then binds and declares its type parameters, parameters and body statements, in that order, stopping at the first failure. The model stops at the first failing child where the source goes on (see Left out). |
| BindingOrder.FunctionHeaderInOrder | src/types/expression.rs:133-139 | Type parameters, then parameters, each bound and then declared into the function's fresh `locals`. The model stops at the first failing child where the source goes on (see Left out). |
| BindingOrder.CallInOrder | src/types/expression.rs:145-162 | A call writes its slot, then binds its callee, its type arguments and its arguments, in that order, stopping at the first failure. The model stops at the first failing child where the source goes on (see Left out). |
| BindingOrder.TypeNodeInOrder | src/types/type_node.rs:115-160 | From any arena, binding a type node performs exactly the writes of its plan, in source order, up to the first refused declaration. |
| BindingOrder.ObjectLiteralTypeInOrder | src/types/type_node.rs:120-132 | An object type writes its slot, opens its `members`, then declares each property declaration in order, after binding its annotation. |
| BindingOrder.SignatureInOrder | src/types/type_node.rs:138-158 | A signature writes its slot, then binds its scope, then its return type. A failure in the scope leaves the return type unbound. |
| BindingOrder.SignatureScopeInOrder | src/types/type_node.rs:147-153 | A signature opens its `locals`, then binds and declares its type parameters, then its parameters, stopping at the first failure. |
| BindingOrder.StatementInOrder | src/types/statement.rs:72-122 | A Var writes its slot and its name's slot, binds its initializer, and only then its annotation. A type alias writes its slot and name, then binds its type. Expression statements and returns write their slot, then bind their expression. |
| BindingOrder.ParameterInOrder | src/types/parameter.rs:40-56 | A parameter writes its slot and its name's slot, then binds its type. |
| BindingOrder.TypeParameterInOrder | src/types/type_parameter.rs:35-49 | A type parameter writes its slot, then its name's slot. |
| BindingOrder.PropertyAssignmentInOrder | src/types/property_assignment.rs:41-56 | A property assignment writes its slot and its name's slot, then binds its value. |
| BindingOrder.ExpressionsInOrder | src/types/expression.rs:159-161 | The arguments are bound one after another. After the first failure, the later ones write nothing. The model stops at the first failing child where the source goes on (see Left out). |
| BindingOrder.TypeNodesInOrder | src/types/expression.rs:155-157 | The type arguments are bound one after another. After the first failure, the later ones write nothing. The model stops at the first failing child where the source goes on (see Left out). |
| BindingOrder.StatementsInOrder | src/types/module.rs:44-46 | Each statement is bound and then declared into the owner's table as it stands, in order. A statement whose children fail is not declared, and nothing after it runs. |
| BindingOrder.ParametersInOrder | src/types/type_node.rs:151-153 | Each parameter is bound and then declared, in order, stopping at the first failure or refusal. |
| BindingOrder.TypeParametersInOrder | src/types/type_node.rs:147-149 | Each type parameter is bound and then declared, in order, stopping at the first refusal. |
| BindingOrder.PropertyAssignmentsInOrder | src/types/expression.rs:110-112 | Each property is bound and then declared, in order, stopping at the first failure or refusal. The model stops at the first failing child where the source goes on (see Left out). |
| BindingOrder.PropertyDeclarationsInOrder | src/types/type_node.rs:127-129 | Each property declaration has its annotation bound and is then declared, in order, stopping at the first failure or refusal. |
| BindingOrder.ModuleInOrder | src/types/module.rs:42-49 | `Module::bind` and `binder::bind` are the module's plan run on an empty arena. The module's `locals` is opened, then each statement is bound and declared in order, up to the first refusal. Everything written before it is kept. |
| Scenarios.ArrowIsOneToken | src/lexer.rs:171-177 | `=>` scans as one Arrow token with text `>`, spanning two characters. |
| Scenarios.ClosedStringAtEndIsUnterminated | src/lexer.rs:114-115 | A closed string literal that ends the input is reported unterminated. |
| Scenarios.ClosedStringBeforeMoreInput | src/lexer.rs:117-122 | A closed literal with input after it is one token, quotes included. |
| Scenarios.KeywordVar | src/lexer.rs:157-158 | After leading whitespace, `var` scans as the Var keyword. |
| Scenarios.CallParses | src/types/expression.rs:68-81 | `f()` parses as a call of `f` with no type arguments and no arguments. |
| Scenarios.DualDeclarations | src/types/module.rs:42-49 | Two top-level declarations of one name with different meanings bind, and share one symbol. |
| Scenarios.DualNamespace | src/types/statement.rs:36-42 | `var x = n; type x = y` binds. `x` then holds one Value declaration and one Type declaration. |
| Scenarios.RedeclarationRejected | src/types/statement.rs:96 | `var x = a; var x = b` fails to bind. |
| Scenarios.LiteralVarBinds | src/types/statement.rs:80-97 | A Var with a literal initializer binds, and gives slots to itself and its name only. |
| Scenarios.SecondDeclarationRefused | src/types/statement.rs:96 | A second declaration of a name in the same namespace is refused. |
| Scenarios.ClashingRun | src/types/module.rs:44-46 | When the second of three declarations clashes with the first, the run fails. The slots of the first two statements are kept, and the third statement is not bound. |
| Scenarios.ClashingModule | src/binder.rs:26-32 | `binder::bind` of such a module returns exactly the slots of the first two statements. |

## Left out

- Unicode: character classes are ASCII. Positions count characters, so the source's mix of
  character indices and byte slices (src/lexer.rs:157, 205) does not arise.
- The i64 range of numeric literals. `parse::<i64>().unwrap()` panics on overflow, but the
  model reads the value as an unbounded integer.
- `Rc`, `Weak` and `RefCell` are not modelled. `create_child`, `create_optional_child` and
  `create_children` wrap nodes without changing them, so in the model they are the identity.
  `create_empty_parent` is the absence of a node from the parent map.
- The `members`/`locals` tables of freshly parsed nodes are not stored in the tree. An owner
  with no table in the binding state has an empty table.
- `get_name` of an expression statement, a return or a non-object expression panics. The
  model makes it a precondition (`IsDeclaration`, `e.Object?`).
- src/main.rs (argument reading, file I/O, printing) and src/lex.rs, which is not a module of
  the crate.
- The node types duplicated inside src/parser.rs. They are an older copy of the grammar; the
  model follows src/types.
- The body of `declare_symbol`, which is not in the source. Its contract is assumed, as
  described above.
- Binding.BindAssignment, Binding.BindFunction, Binding.BindCall, Binding.BindSignature,
  Binding.BindStatement, Binding.BindParameter, Binding.BindPropertyAssignment,
  Binding.BindStatements, Binding.BindParameters, Binding.BindTypeParameters,
  Binding.BindPropertyAssignments, Binding.BindPropertyDeclarations, Binding.BindExpressions,
  Binding.BindTypeNodes: their own contracts state the outcome and, on success, the slots and
  tables written. The order of the writes and the arena left after a failure are stated by
  the matching lemma of `BindingOrder`, such as `BindingOrder.AssignmentInOrder`.
- The loops of `Expression::bind` (src/types/expression.rs:110-112, 125-143, 153-161) have no
  `?`: in the source they discard each child's result and go on binding the later siblings.
  The model stops at the first child that fails, as the `?`-using binds do, so the slots and
  declarations that the source would still write after a failed child are not modelled by
  the members below.
- Binding.BindExpression: stops at the first failing child of an object, function or call.
- Binding.BindObject: stops at the first property that fails (expression.rs:110-112 goes on).
- Binding.BindFunction: stops at a failing return type or scope (expression.rs:125-143 goes on).
- Binding.BindFunctionScope: stops at the first refused type parameter, parameter or body
  statement (expression.rs:133-143 goes on).
- Binding.FunctionScopeAgrees: its agreement fails the scope at the first refusal, which
  expression.rs:133-143 swallows.
- Binding.BindFunctionHeader: stops at the first refused type parameter or parameter
  (expression.rs:133-139 goes on).
- Binding.BindCall: stops at the first failing callee, type argument or argument
  (expression.rs:153-161 goes on).
- Binding.BindPropertyAssignments: stops at the first failing property (expression.rs:110-112
  goes on).
- Binding.BindExpressions: stops at the first failing argument (expression.rs:159-161 goes on).
- Binding.BindTypeNodes: stops at the first failing type argument (expression.rs:155-157 goes
  on).
- BindingOrder.ExpressionInOrder: its plan run stops at the first refusal inside an object,
  function or call, where `Expression::bind` goes on.
- BindingOrder.ObjectInOrder: stops at the first failing property (expression.rs:110-112 goes
  on).
- BindingOrder.FunctionInOrder: leaves everything after a failure unwritten
  (expression.rs:125-143 goes on).
- BindingOrder.FunctionScopeInOrder: stops at the first refusal (expression.rs:133-143 goes on).
- BindingOrder.FunctionHeaderInOrder: stops at the first refusal (expression.rs:133-139 goes
  on).
- BindingOrder.CallInOrder: stops at the first failure (expression.rs:153-161 goes on).
- BindingOrder.ExpressionsInOrder: later arguments write nothing after the first failure
  (expression.rs:159-161 binds them all).
- BindingOrder.TypeNodesInOrder: later type arguments write nothing after the first failure
  (expression.rs:155-157 binds them all).
- BindingOrder.PropertyAssignmentsInOrder: stops at the first failure (expression.rs:110-112
  goes on).
- Binding.BindPropertyDeclaration: the source has no `bind` for property declarations, so
  this member follows the assumption described above, not source lines.
- Grammar.ParseTypeParameters, Grammar.ParseArguments, Grammar.ParseTypeArguments,
  Grammar.ParseParameters, Grammar.ParsePropertyAssignments, Grammar.ParsePropertyDeclarations,
  Grammar.ParseBody: each only states that it consumes. What they return is stated by
  Parser.ParseSequence.
- The printer is a reference for the parser, not a model of source code. It emits tokens
  whose positions are zero and does not produce source text, so the round trip is stated on
  token streams; that the lexer spells them is not proved. Trees the grammar cannot spell
  (negative numbers, chained calls, a call of an assignment) are not printable.
