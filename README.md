# A verified model of a TypeScript-subset compiler to Jasmin

The compiler reads a small TypeScript-like language: `let`/`const` declarations,
interfaces, functions, `if`/`while`/`for`, arrays with the `array`/`push`/`pop`/`size`
intrinsics, and `print`/`read`. It checks the program with a semantic analyzer and, when
there are no errors, translates it to Jasmin assembly for the JVM. This project models
five parts of it:

- **Types and assignability** (modules `Types`, `Resolution`, `Assignability`). The type
  kinds are primitives, arrays and interfaces with insertion-ordered properties.
  Annotations become types through `_parse_type` and `type_from_ctx`. `is_assignable`
  checks shapes exactly and reports field diagnostics as it goes. `types_equal` compares
  interfaces by id only.
- **The semantic analyzer** (modules `Diagnostics`, `Semantic`, `Analyzer`). `Semantic`
  states each visitor as a function from the analyzer's state (symbol table, error list,
  call graph, function context) to the next state. `Analyzer.SemanticAnalyzer` is the
  class: it updates its fields visit by visit and is proved to end in the state those
  functions give. Diagnostics are kinds with arguments; the message text is not modelled.
  `SemanticProps` and `SemanticScenarios` hold the properties proved about the walk and
  about small programs. `SemanticChecks` states, for all inputs, what each check reports:
  operators, `return`, indexing, member access, names, `print`/`read`, assignments and
  initializers. `SemanticIndependence` proves that an expression's type and reports depend
  only on the symbol table and the function context, and uses this for array literals of
  any elements. An initializer is checked even when its type is unknown, and is then
  always reported as a mismatch (`SemanticChecks.InitializerChecks`). An assignment is
  checked only when both sides have a known type.
- **The Jasmin generator** (modules `Jasmin`, `Generator`). `Jasmin` states the code
  generated for each construct as a function of the generator state (lines emitted, label
  counter, next free slot, locals). `Generator.JasminGenerator` is the class that appends
  to its `code` field and is proved to produce the same lines. Three modules prove
  properties of the output:
  - `JasminLabels`: every label is defined exactly once.
  - `JasminSlots`: no two live names ever share a slot.
  - `JasminProps`: class layout, call descriptors, `print`, comparisons, `for` and number
    literals.
  - `JasminLayout`: the order of the lines of function methods, `while` loops, operator
    chains and the class as a whole.
- **The class name** derived from the input path (module `ClassName`).
- **The test helper that reads diagnostics back** from the compiler's output (module
  `ErrorBlock`). It is proved to return exactly the error list that the compiler's report
  prints.

`Wrappers`, `Ast` and `Strings` hold the option type, the syntax tree the two passes walk,
and string helpers (decimal rendering of naturals, prefix, suffix and substring tests).

Where the generator's own comments or the language description promise one thing and the
code does another, the model follows the code:

- **`for` without a test:** the test is the first of the statement's expressions. When the
  test is left out and an update is present, the update is evaluated and tested before the
  body, and is not evaluated after it (`JasminProps.ForUpdate`).
- **Unary operators:** neither pass has a visitor for the unary operators. The analyzer
  gives a unary expression its operand's type, and the generator emits only the operand's
  code. So `-5` is loaded as `5`.
- **Comparisons:** a relational or equality expression evaluates its first two operands
  only, and a chain such as `a < b < c` ignores the rest (`JasminProps.CompareShape`).
- **Logical operators:** `&&` and `||` go through the default walk of the generator. Both
  operands are emitted and no operator instruction is.
- **Variable scope:** variables live in one flat map. A block does not open a scope, and a
  function body sees, and may rebind, every variable of its caller; the caller's map is
  restored afterwards (`SemanticScenarios.NoBlockScope`).
- **Calls:** the analyzer does not detect recursion and does not check arity. Calls only
  record call-graph edges.
- **Nested array annotations:** `type_from_ctx` wraps the base in one array level whatever
  the number of bracket pairs, so `number[][]` resolves to `number[]`
  (`Resolution.NestedArrayAnnotation`).
- **Globals:** the generator reads the global variables from an attribute of the symbol
  table that the analyzer never sets. The model takes the list of globals as an explicit
  input of the generator.

## Model

| member | source | states |
|---|---|---|
| Types.FindField | TypeScriptSemantic.py:34-40 | the position of a property name among an interface's ordered properties: the first with that name, and `None` exactly when no property has it |
| Types.SetField | TypeScriptSemantic.py:402-415 | assigning a property of an insertion-ordered dictionary: the name maps to the new type, every other name keeps its presence and type, and an existing name keeps its place |
| Types.TypeNameOfArray | TypeScriptSemantic.py:31-32 | the name of an array type is its element type's name followed by `[]` |
| Resolution.ParseTypeName | TypeScriptSemantic.py:126-140 | parsing the name of a keyword type, an array of such types or a registered interface gives that type back, with no diagnostic |
| Resolution.TypeFromCtxAgreesWithParseType | TypeScriptSemantic.py:142-180 | resolving an annotation from its parse tree and from its text agree when it has at most one bracket pair and an ordinary base |
| Resolution.NestedArrayAnnotation | TypeScriptSemantic.py:142-180 | with two bracket pairs the two resolvers disagree: `number[][]` becomes `number[]` from the tree but `number[][]` from the text |
| Assignability.AcceptedReportsNothing | TypeScriptSemantic.py:182-228 | an assignment that is accepted appends no diagnostic |
| Assignability.ExtraFieldsReport | TypeScriptSemantic.py:219-222 | the extra-field loop succeeds exactly when it reports nothing, and exactly when every remaining source property is a property of the target |
| Assignability.RejectedInterfaceReports | TypeScriptSemantic.py:206-224 | a rejected interface assignment reports, and its last diagnostic is about a missing, mismatched or extra field |
| Assignability.ExtraFieldsLast | TypeScriptSemantic.py:219-222 | a failed extra-field check reports exactly one diagnostic, about the extra field |
| Assignability.AssignReportsFieldDiags | TypeScriptSemantic.py:182-228 | the only diagnostics an assignability check appends are about interface fields |
| Assignability.ExactShape | TypeScriptSemantic.py:206-226 | an interface accepts another exactly when each of its fields is present in the source with an assignable type and the source has no field it lacks |
| Assignability.PrimitiveAssignable | TypeScriptSemantic.py:187-192 | primitives are assignable exactly when their names match or `unknown` goes into `string` or `number`, and they never report |
| Assignability.UnknownOneWay | TypeScriptSemantic.py:187-192 | `unknown` goes into `string` and `number` but not into `boolean`, and `string` does not go into `unknown` |
| Assignability.EmptyArrayAssignable | TypeScriptSemantic.py:195-198 | the type of an empty array literal is accepted by every array type, silently |
| Assignability.MixedKindsRejected | TypeScriptSemantic.py:184-228 | an absent type, or types of different kinds, are rejected without a diagnostic |
| Assignability.AssignReflexive | TypeScriptSemantic.py:182-228 | every complete type accepts itself |
| Assignability.EqualReflexive | TypeScriptSemantic.py:114-124 | `types_equal` is reflexive on complete types |
| Assignability.EqualSymmetric | TypeScriptSemantic.py:114-124 | `types_equal` is symmetric |
| Assignability.InterfacesEqualById | TypeScriptSemantic.py:114-124 | two interfaces are equal exactly when their ids are, whatever their fields |
| Semantic.ResolveParams | TypeScriptSemantic.py:275-281 | one resolved type per parameter |
| Analyzer.SemanticAnalyzer.constructor | TypeScriptSemantic.py:81-104 | a new analyzer has an empty table with `print` and `read` registered, no errors and no function context |
| Analyzer.SemanticAnalyzer.Report | TypeScriptSemantic.py:106-112 | appends one diagnostic and changes nothing else |
| Analyzer.SemanticAnalyzer.ResolveAnnotation | TypeScriptSemantic.py:142-180 | returns the annotation's type and appends its resolution diagnostics |
| Analyzer.SemanticAnalyzer.IsAssignable | TypeScriptSemantic.py:182-228 | returns the verdict of `Assign` and appends exactly its diagnostics |
| Analyzer.SemanticAnalyzer.InterfaceAssignable | TypeScriptSemantic.py:206-226 | the interface case: loops over the target's fields, then the source's, and stops at the first failure, with the verdict and diagnostics of `AssignFields` |
| Analyzer.SemanticAnalyzer.NoExtraField | TypeScriptSemantic.py:219-222 | the loop over the source's fields reports the first one the target lacks |
| Analyzer.SemanticAnalyzer.VisitExpr | TypeScriptSemantic.py:347-605 | visiting an expression returns its type and leaves the analyzer in the state `AnalyzeExpr` gives |
| Analyzer.SemanticAnalyzer.VisitAssignment | TypeScriptSemantic.py:573-605 | returns the type and leaves the state `AnalyzeAssign` gives; what that is, is stated by `SemanticChecks.AssignmentType`, `SemanticChecks.AssignValueChecks` and `SemanticChecks.AssignmentMismatchLast` |
| Analyzer.SemanticAnalyzer.VisitBinary | TypeScriptSemantic.py:484-500 | returns the type and leaves the state `AnalyzeBinary` gives; its steps are stated by `SemanticChecks.ChainStep` and its type by `SemanticProps.BinaryResultType` |
| Analyzer.SemanticAnalyzer.CheckOperands | TypeScriptSemantic.py:502-571 | leaves the state `Validate` gives, whose operand rules per level are stated by `SemanticChecks.ValidateReports` |
| Analyzer.SemanticAnalyzer.VisitPostfix | TypeScriptSemantic.py:417-482 | returns the type and leaves the state `AnalyzePostfix` gives; its steps are stated by `SemanticChecks.IndexStep`, `SemanticChecks.MemberStep` and `SemanticChecks.CallStep` |
| Analyzer.SemanticAnalyzer.VisitCall | TypeScriptSemantic.py:455-480 | leaves the state `AnalyzeCall` gives, whose argument checks are stated by `SemanticChecks.CallChecks` and whose call-graph edge by `SemanticProps.CallFrame` |
| Analyzer.SemanticAnalyzer.VisitPrimary | TypeScriptSemantic.py:357-415 | returns the type and leaves the state `AnalyzePrimary` gives; names are stated by `SemanticChecks.NameResolution`, array literals by `SemanticIndependence.ArrayLiteral` |
| Analyzer.SemanticAnalyzer.VisitStmt | TypeScriptSemantic.py:607-616 | each statement goes to its visitor; the others visit their children in order |
| Analyzer.SemanticAnalyzer.VisitBlock | TypeScriptSemantic.py:607-616 | the statements of a block, in order |
| Analyzer.SemanticAnalyzer.VisitVariableDecl | TypeScriptSemantic.py:248-267 | resolves the annotation, reports a name already bound (and rebinds it), then checks the initializer |
| Analyzer.SemanticAnalyzer.VisitInitializer | TypeScriptSemantic.py:259-265 | leaves the state `CheckInitializer` gives, stated by `SemanticChecks.InitializerChecks` and `SemanticChecks.InitializerMismatchExactlyWhen` |
| Analyzer.SemanticAnalyzer.VisitFunctionDecl | TypeScriptSemantic.py:269-317 | signature, registration, body with the parameters bound and the function context set, then the caller's state restored and a missing return reported |
| Analyzer.SemanticAnalyzer.RegisterFunction | TypeScriptSemantic.py:272-288 | resolves the parameter and return annotations, reports a redeclaration and registers the function with a call-graph entry |
| Analyzer.SemanticAnalyzer.LeaveFunction | TypeScriptSemantic.py:307-315 | restores the caller's variables and context, reports a missing return and restores the caller's return flag |
| Analyzer.SemanticAnalyzer.ResolveParameters | TypeScriptSemantic.py:275-281 | resolves each parameter annotation in order |
| Analyzer.SemanticAnalyzer.BindParameters | TypeScriptSemantic.py:300-302 | binds each parameter as a non-const variable, in order |
| Analyzer.SemanticAnalyzer.VisitInterfaceDecl | TypeScriptSemantic.py:232-246 | a redeclared interface is reported and ignored; otherwise its properties are resolved in order and it is registered |
| Analyzer.SemanticAnalyzer.VisitReturnStmt | TypeScriptSemantic.py:319-341 | leaves the state `AnalyzeReturn` gives, stated by `SemanticChecks.ReturnWithoutValueChecks`, `SemanticChecks.ReturnValueChecked` and `SemanticChecks.ReturnMismatchExactlyWhen` |
| Analyzer.SemanticAnalyzer.Analyze | TypeScriptSemantic.py:622-625 | returns the collected errors; on a fresh analyzer these are the program's diagnostics |
| SemanticProps.ExprFrame | TypeScriptSemantic.py:347-605 | analyzing an expression leaves the symbol table and function context as they were, appends only expression diagnostics and adds call edges from the current function only |
| SemanticProps.AssignFrame | TypeScriptSemantic.py:573-605 | the same for an assignment |
| SemanticProps.BinaryFrame | TypeScriptSemantic.py:484-571 | the same for a binary expression |
| SemanticProps.PostfixFrame | TypeScriptSemantic.py:417-482 | the same for a postfix expression |
| SemanticProps.PrimaryFrame | TypeScriptSemantic.py:347-415 | the same for a primary |
| SemanticProps.CallFrame | TypeScriptSemantic.py:455-480 | the same for a call, which also records the edge from the current function to the callee |
| SemanticProps.StmtFrame | TypeScriptSemantic.py:232-341 | statements only append errors and never change the function context; without nested functions they never report a missing return |
| SemanticProps.StmtsFrame | TypeScriptSemantic.py:607-616 | the same for a sequence of statements |
| SemanticProps.InitializerStep | TypeScriptSemantic.py:259-265 | checking an initializer changes nothing but the errors and the call graph |
| SemanticProps.VarDeclFrame | TypeScriptSemantic.py:248-267 | a declaration keeps the function context and the return flag |
| SemanticProps.InterfaceFrame | TypeScriptSemantic.py:232-246 | an interface declaration keeps the function context |
| SemanticProps.ReturnFrame | TypeScriptSemantic.py:319-341 | a return statement keeps the function context |
| SemanticProps.RegisteredStep | TypeScriptSemantic.py:272-288 | registering a function reports only undeclared interfaces and a redeclaration, and adds the function and its call-graph entry |
| SemanticProps.LeftErrors | TypeScriptSemantic.py:307-315 | leaving a function keeps the body's errors and appends at most a missing return |
| SemanticProps.FunctionFrame | TypeScriptSemantic.py:269-317 | a function declaration only appends errors, keeps the context and registers the function |
| SemanticProps.ReturnSeenStmt | TypeScriptSemantic.py:319-322 | after a statement the return flag is set exactly when it was set before or the statement holds a `return` outside nested functions |
| SemanticProps.ReturnSeenStmts | TypeScriptSemantic.py:319-322 | the same for a sequence of statements |
| SemanticProps.FunctionRestores | TypeScriptSemantic.py:290-315 | a function declaration restores the caller's variables, context and return flag, and registers the function with a call-graph entry |
| SemanticProps.CallGraphKeysKept | TypeScriptSemantic.py:288 | a name with a call-graph entry keeps it through any statements |
| SemanticProps.MissingReturnExactlyWhen | TypeScriptSemantic.py:311-314 | a function without nested functions gets exactly one missing-return report when its return type is a non-void primitive and its body has no `return`, and none otherwise |
| SemanticProps.ResolutionDiags | TypeScriptSemantic.py:142-180 | resolving an annotation only ever reports undeclared interfaces |
| SemanticProps.VarDeclBindsAndReports | TypeScriptSemantic.py:250-257 | a declaration binds its name in the flat map, replacing any earlier binding, and reports a redeclaration exactly when the name was bound |
| SemanticProps.ConstWithoutInitializerReported | TypeScriptSemantic.py:264-265 | a `const` without an initializer ends with exactly one new report of it |
| SemanticProps.ConstReassignmentReported | TypeScriptSemantic.py:588-592 | assigning to a name bound to a `const` is reported right after the target's own diagnostics, and only then |
| SemanticProps.ChainResultType | TypeScriptSemantic.py:484-571 | a chain with at least one operator is `number` for arithmetic and `boolean` otherwise, whatever its operands; with none it is its operand's type |
| SemanticProps.BinaryResultType | TypeScriptSemantic.py:484-571 | the same for the whole binary expression |
| SemanticChecks.ValidateReports | TypeScriptSemantic.py:502-571 | equality wants two equal types, `&&` and `\|\|` two booleans, comparisons and arithmetic two numbers; a failure appends exactly one report naming the operator and nothing else changes |
| SemanticChecks.ValidateSameForLevel | TypeScriptSemantic.py:502-536 | the operators of one level are checked alike |
| SemanticChecks.ChainStep | TypeScriptSemantic.py:491-498 | each operator analyzes its right operand, validates the pair only when both types are known, and passes the level's result type on as the next left type |
| SemanticChecks.UnknownOperandNotValidated | TypeScriptSemantic.py:489-498 | a binary expression with an operand of unknown type reports only what its operands report |
| SemanticChecks.ArithmeticChainContinues | TypeScriptSemantic.py:502-524 | after the first operator the left operand of arithmetic is a number, so each further operator is reported exactly when its right operand is known and not a number |
| SemanticChecks.ReturnWithoutValueChecks | TypeScriptSemantic.py:319-333 | in a `void` function a returned value is reported and a bare `return` is not; elsewhere a bare `return` is reported with the function's name and expected type; the return is marked as seen |
| SemanticChecks.ReturnValueChecked | TypeScriptSemantic.py:335-340 | a returned value is analyzed and, when a type is expected, its assignability diagnostics are appended, then a mismatch exactly when it is rejected; at the top level it is only analyzed |
| SemanticChecks.ReturnMismatchExactlyWhen | TypeScriptSemantic.py:337-339 | a return mismatch is among the new reports exactly when the expected type rejects the value's type |
| SemanticChecks.IndexStep | TypeScriptSemantic.py:434-440 | indexing an array gives its element type; indexing anything else reports and ends the expression with no type |
| SemanticChecks.MemberStep | TypeScriptSemantic.py:442-453 | a member of an interface gives the field's type; a missing field, or a member of anything else, reports and ends the expression with no type |
| SemanticChecks.CallStep | TypeScriptSemantic.py:455-480 | a call is checked only as the first suffix of a registered function's name and then has its return type; any other call is skipped |
| SemanticChecks.NameResolution | TypeScriptSemantic.py:363-370 | a name is a variable first, then a function's return type; it has no type and is reported exactly when it is neither |
| SemanticChecks.IndexedVariable | TypeScriptSemantic.py:434-440 | `a[i]` on a variable: its element type silently when it is an array, otherwise one report and no type |
| SemanticChecks.MemberOfVariable | TypeScriptSemantic.py:442-453 | `o.f` on a variable: the field's type when it is an interface with that field, otherwise the matching report and no type |
| SemanticChecks.CallChecks | TypeScriptSemantic.py:472-477 | `print` with one argument reports it exactly when it is not printable; `read` reports exactly when it has arguments; nothing else is checked |
| SemanticChecks.PrintableTypes | TypeScriptSemantic.py:474 | exactly `string`, `number` and `boolean` can be printed |
| SemanticChecks.AssignmentType | TypeScriptSemantic.py:573-601 | an assignment has its target's type, whatever is assigned |
| SemanticChecks.AssignValueChecks | TypeScriptSemantic.py:594-598 | the value is analyzed; only when both types are known are the assignability diagnostics appended, then a mismatch naming both types exactly when it is rejected |
| SemanticChecks.AssignmentMismatchLast | TypeScriptSemantic.py:594-598 | the last new report is the mismatch exactly when both types are known and the target rejects the value; otherwise nothing is added to the value's reports |
| SemanticChecks.InitializerChecks | TypeScriptSemantic.py:259-265 | an initializer is analyzed and checked against the declared type, with a mismatch exactly when it is rejected (always, for an unknown type); a `const` without one is reported and a `let` is not |
| SemanticChecks.InitializerMismatchExactlyWhen | TypeScriptSemantic.py:260-263 | an initializer mismatch is among the new reports exactly when the declared type rejects the initializer's type |
| SemanticIndependence.ExprSame | TypeScriptSemantic.py:347-605 | analyzing an expression from two states with the same symbol table and function context gives the same type and appends the same diagnostics |
| SemanticIndependence.ArrayLiteral | TypeScriptSemantic.py:387-400 | an empty array literal is `unknown[]`; otherwise its element type is the first element's type, and it reports each element's own diagnostics in order, each later one followed by a heterogeneity report exactly when its type differs from the first's |
| SemanticIndependence.QuietElementsReports | TypeScriptSemantic.py:395-398 | when no element reports anything itself, the literal reports one heterogeneity report per later element of another type, and nothing else |
| SemanticScenarios.ArrayOfLiterals | TypeScriptSemantic.py:387-400 | an instance of `SemanticIndependence.ArrayLiteral`: an array literal of literals has the first element's type as element type and one heterogeneity report per later element of another type; an empty one is `unknown[]` |
| SemanticScenarios.ConstWithoutInitializerProgram | TypeScriptSemantic.py:264-265 | `const x: number;` reports exactly the missing initializer |
| SemanticScenarios.HeterogeneousArrayProgram | TypeScriptSemantic.py:387-400 | `let a: number[] = [1, "x", 3];` reports one heterogeneous element, string against number, and nothing else |
| SemanticScenarios.ReadProgram | TypeScriptSemantic.py:91-104 | `read()` yields `unknown`, which a number accepts and a boolean rejects |
| SemanticScenarios.NoBlockScope | TypeScriptSemantic.py:60-65 | a variable declared in a block is still known after it |
| SemanticScenarios.ConstReassignmentProgram | TypeScriptSemantic.py:588-592 | reassigning a const is reported even when the types agree |
| SemanticScenarios.MissingReturnProgram | TypeScriptSemantic.py:311-314 | `function f(): number {}` reports a missing return; with `return 1;` it does not |
| SemanticScenarios.VoidReturnProgram | TypeScriptSemantic.py:325-327 | a void function returning a value is reported |
| SemanticScenarios.SelfCallProgram | TypeScriptSemantic.py:479-480 | a direct self-call is recorded in the call graph and reported nowhere |
| SemanticScenarios.InterfaceParameterProgram | TypeScriptSemantic.py:269-317 | a function returning a field of an interface-typed parameter is accepted |
| Jasmin.JvmType | TypeScriptJasminGenerate.py:35-50 | the descriptor is `V` exactly for void, `Ljava/lang/String;` exactly for string, `Ljava/util/ArrayList;` exactly for arrays, and `I` otherwise |
| Jasmin.GenExpr | TypeScriptJasminGenerate.py:331-661 | an expression only appends lines and advances the label counter; slots and locals are untouched |
| Jasmin.GenAssign | TypeScriptJasminGenerate.py:331-357 | the same for an assignment |
| Jasmin.GenBinary | TypeScriptJasminGenerate.py:359-432 | a binary expression only appends lines and advances the label counter; its order is stated by `JasminLayout.BinaryPassThrough`, `JasminLayout.ChainOrder`, `JasminLayout.ArithmeticLayout` and `JasminLayout.LogicalChain` |
| Jasmin.GenCompare | TypeScriptJasminGenerate.py:383-432 | the same for a comparison |
| Jasmin.GenPostfix | TypeScriptJasminGenerate.py:466-661 | the same for a postfix expression |
| Jasmin.GenCall | TypeScriptJasminGenerate.py:540-661 | the same for a call |
| Jasmin.GenPrint | TypeScriptJasminGenerate.py:546-588 | the same for `print` |
| Jasmin.GenPrimary | TypeScriptJasminGenerate.py:434-464 | the same for a primary |
| Jasmin.GenStmt | TypeScriptJasminGenerate.py:174-329 | a statement only appends lines and never moves the label counter back |
| Jasmin.GenVarDecl | TypeScriptJasminGenerate.py:188-221 | the same for a declaration |
| Jasmin.GenExprStmt | TypeScriptJasminGenerate.py:223-243 | the same for an expression statement |
| Jasmin.GenIf | TypeScriptJasminGenerate.py:245-268 | the same for `if` |
| Jasmin.GenWhile | TypeScriptJasminGenerate.py:270-284 | a loop only appends lines; its layout is stated by `JasminLayout.WhileLayout` and `JasminLayout.WhileEnds` |
| Jasmin.GenFor | TypeScriptJasminGenerate.py:286-318 | the same for `for` |
| Jasmin.BindSlots | TypeScriptJasminGenerate.py:153-158 | binding parameters emits nothing and advances the next free slot by the number of parameters |
| Jasmin.GenFunction | TypeScriptJasminGenerate.py:127-170 | a function declaration only appends lines; its layout is stated by `JasminLayout.FunctionLayout` and `JasminLayout.FunctionEnds` |
| Jasmin.FunctionEntry | TypeScriptJasminGenerate.py:127-158 | the method header and parameter slots only append lines |
| Jasmin.FunctionExit | TypeScriptJasminGenerate.py:160-168 | the closing lines of a method: `return` exactly when its descriptor returns `V`, then `.end method` and an empty line |
| Jasmin.FieldLines | TypeScriptJasminGenerate.py:68-70 | one field line per global |
| Jasmin.GenFunctions | TypeScriptJasminGenerate.py:101-105 | the function declarations only append lines |
| Jasmin.GenMain | TypeScriptJasminGenerate.py:117-121 | the top-level statements only append lines |
| Jasmin.GenProgram | TypeScriptJasminGenerate.py:60-125 | generating a program only appends lines; its layout is stated by `JasminLayout.ProgramLayout` and `JasminLayout.ClassOrder` |
| Generator.JasminGenerator.constructor | TypeScriptJasminGenerate.py:8-20 | a new generator has the class name, globals and function table, no code, label counter 0, slot 0 and no locals |
| Generator.JasminGenerator.Emit | TypeScriptJasminGenerate.py:22-24 | appends one indented instruction |
| Generator.JasminGenerator.EmitAll | TypeScriptJasminGenerate.py:22-24 | appends indented instructions in order |
| Generator.JasminGenerator.EmitLabel | TypeScriptJasminGenerate.py:26-28 | appends the label line |
| Generator.JasminGenerator.GetNewLabel | TypeScriptJasminGenerate.py:30-33 | advances the counter and returns `L` followed by its new value |
| Generator.JasminGenerator.VisitExpr | TypeScriptJasminGenerate.py:331-661 | emits the lines `GenExpr` gives |
| Generator.JasminGenerator.VisitAssignment | TypeScriptJasminGenerate.py:331-357 | emits the lines `GenAssign` gives |
| Generator.JasminGenerator.VisitBinary | TypeScriptJasminGenerate.py:359-432 | emits the lines `GenBinary` gives |
| Generator.JasminGenerator.VisitComparison | TypeScriptJasminGenerate.py:383-432 | emits the lines `GenCompare` gives |
| Generator.JasminGenerator.VisitPostfix | TypeScriptJasminGenerate.py:466-661 | emits the lines `GenPostfix` gives |
| Generator.JasminGenerator.VisitCall | TypeScriptJasminGenerate.py:540-661 | emits the lines `GenCall` gives |
| Generator.JasminGenerator.VisitPrint | TypeScriptJasminGenerate.py:546-588 | emits the lines `GenPrint` gives |
| Generator.JasminGenerator.VisitPrimary | TypeScriptJasminGenerate.py:434-464 | emits the lines `GenPrimary` gives |
| Generator.JasminGenerator.VisitStmt | TypeScriptJasminGenerate.py:174-329 | emits the lines `GenStmt` gives |
| Generator.JasminGenerator.VisitBlock | TypeScriptJasminGenerate.py:174-329 | emits the lines `GenStmts` gives |
| Generator.JasminGenerator.VisitVarDecl | TypeScriptJasminGenerate.py:188-221 | emits the lines `GenVarDecl` gives and takes a new slot as it does |
| Generator.JasminGenerator.VisitExpressionStmt | TypeScriptJasminGenerate.py:223-243 | emits the lines `GenExprStmt` gives |
| Generator.JasminGenerator.VisitReturnStmt | TypeScriptJasminGenerate.py:320-325 | `ireturn` after the value, or `return` without one |
| Generator.JasminGenerator.VisitIf | TypeScriptJasminGenerate.py:245-268 | emits the lines `GenIf` gives |
| Generator.JasminGenerator.VisitWhile | TypeScriptJasminGenerate.py:270-284 | emits the lines `GenWhile` gives |
| Generator.JasminGenerator.VisitFor | TypeScriptJasminGenerate.py:286-318 | emits the lines `GenFor` gives |
| Generator.JasminGenerator.VisitFunctionDecl | TypeScriptJasminGenerate.py:127-170 | emits the lines `GenFunction` gives |
| Generator.JasminGenerator.EnterFunction | TypeScriptJasminGenerate.py:135-158 | the method header from the function symbol's types, then the parameters in slots 0, 1, ... |
| Generator.JasminGenerator.VisitProgram | TypeScriptJasminGenerate.py:60-125 | emits the lines `GenProgram` gives |
| Generator.JasminGenerator.EmitPrologue | TypeScriptJasminGenerate.py:61-97 | appends the class prologue: header, fields, the static initializer when there are globals, and the constructor |
| Generator.JasminGenerator.EmitFields | TypeScriptJasminGenerate.py:68-70 | appends one `.field` line per global, in order |
| Generator.JasminGenerator.VisitFunctions | TypeScriptJasminGenerate.py:101-105 | emits the methods of the top-level function declarations |
| Generator.JasminGenerator.VisitMain | TypeScriptJasminGenerate.py:117-121 | emits the top-level statements other than function and interface declarations |
| JasminLabels.LabelLineDefines | TypeScriptJasminGenerate.py:26-28 | a label line defines the label it was made from |
| JasminLabels.LabelNamesDistinct | TypeScriptJasminGenerate.py:30-33 | distinct counter values give distinct label names |
| JasminLabels.ExprFresh | TypeScriptJasminGenerate.py:331-661 | the lines of an expression define exactly the labels it took from the counter, each once |
| JasminLabels.AssignFresh | TypeScriptJasminGenerate.py:331-357 | the same for an assignment |
| JasminLabels.BinaryFresh | TypeScriptJasminGenerate.py:359-432 | the same for a binary expression |
| JasminLabels.CompareFresh | TypeScriptJasminGenerate.py:383-432 | a comparison takes its two labels after its operands and defines both |
| JasminLabels.PostfixFresh | TypeScriptJasminGenerate.py:466-661 | the same for a postfix expression |
| JasminLabels.CallFresh | TypeScriptJasminGenerate.py:540-661 | the same for a call |
| JasminLabels.PrintFresh | TypeScriptJasminGenerate.py:546-588 | the same for `print` |
| JasminLabels.PrimaryFresh | TypeScriptJasminGenerate.py:434-464 | the same for a primary |
| JasminLabels.StmtFresh | TypeScriptJasminGenerate.py:174-329 | the same for a statement |
| JasminLabels.VarDeclFresh | TypeScriptJasminGenerate.py:188-221 | the same for a declaration |
| JasminLabels.IfFresh | TypeScriptJasminGenerate.py:245-268 | the same for `if` |
| JasminLabels.WhileFresh | TypeScriptJasminGenerate.py:270-284 | the same for `while` |
| JasminLabels.ForFresh | TypeScriptJasminGenerate.py:286-318 | the same for `for` |
| JasminLabels.FunctionFresh | TypeScriptJasminGenerate.py:127-170 | the same for a function method |
| JasminLabels.FunctionsFresh | TypeScriptJasminGenerate.py:101-105 | the same for the function methods |
| JasminLabels.MainFresh | TypeScriptJasminGenerate.py:117-121 | the same for the statements of `main` |
| JasminLabels.PrologueNoLabels | TypeScriptJasminGenerate.py:61-97 | the class prologue defines no label |
| JasminLabels.ProgramFresh | TypeScriptJasminGenerate.py:60-125 | the same for a whole program |
| JasminLabels.GeneratedLabelsOnce | TypeScriptJasminGenerate.py:30-33 | the label lines of a generated class define `L1` .. `Ln` for the final counter `n`, each exactly once |
| JasminSlots.BindSlotsOthers | TypeScriptJasminGenerate.py:153-158 | binding parameters adds their names and leaves every other local as it was |
| JasminSlots.BindSlotsLast | TypeScriptJasminGenerate.py:153-158 | each parameter name gets the slot of its last occurrence, counted from the first free slot |
| JasminSlots.BindSlotsOk | TypeScriptJasminGenerate.py:153-158 | binding parameters keeps slots distinct and below the next free one |
| JasminSlots.FunctionParamSlots | TypeScriptJasminGenerate.py:149-158 | a method's parameters occupy slots 0 .. n-1 in order, nothing else is local at the start of the body, and the next free slot is n |
| JasminSlots.VarDeclSlot | TypeScriptJasminGenerate.py:188-221 | a declaration stores into the name's slot, else its static field, else a new slot that no other name holds; `astore` exactly for an `array(` initializer; nothing without an initializer |
| JasminSlots.StmtSlots | TypeScriptJasminGenerate.py:174-329 | statements keep every slot below the next free one and no two names on one slot |
| JasminSlots.IfSlots | TypeScriptJasminGenerate.py:245-268 | the same for `if` |
| JasminSlots.WhileSlots | TypeScriptJasminGenerate.py:270-284 | the same for `while` |
| JasminSlots.ForSlots | TypeScriptJasminGenerate.py:286-318 | the same for `for` |
| JasminSlots.FunctionSlots | TypeScriptJasminGenerate.py:127-170 | the same for a function declaration |
| JasminSlots.MainSlots | TypeScriptJasminGenerate.py:114-121 | the same for the statements of `main` |
| JasminLayout.FunctionLayout | TypeScriptJasminGenerate.py:127-170 | a function method is its header, its body from slot 0 with the parameters bound, then `return` exactly for a `void` function, `.end method` and an empty line; a function missing from the table emits nothing |
| JasminLayout.FunctionEnds | TypeScriptJasminGenerate.py:160-168 | every function method ends with `.end method` and an empty line, right after `return` when it is `void` |
| JasminLayout.WhileLayout | TypeScriptJasminGenerate.py:270-284 | a loop takes two distinct labels: the start label line, the condition, `ifeq` to the end, the body, `goto` the start and the end label line, in that order |
| JasminLayout.WhileEnds | TypeScriptJasminGenerate.py:270-284 | a loop's first line is its start label, its second-to-last jumps back to it and its last is the end label |
| JasminLayout.BinaryPassThrough | TypeScriptJasminGenerate.py:359-381 | an expression with no operator is generated as its operand alone |
| JasminLayout.ArithOpcodes | TypeScriptJasminGenerate.py:365-381 | `+` `-` `*` `/` `%` map to `iadd` `isub` `imul` `idiv` `irem`, and no other operator has an opcode |
| JasminLayout.ChainOrder | TypeScriptJasminGenerate.py:359-381 | each further operand is generated after all before it and is directly followed by its operator's opcode |
| JasminLayout.ArithmeticLayout | TypeScriptJasminGenerate.py:359-381 | an arithmetic expression starts with its left operand's code and ends with its last operator's opcode |
| JasminLayout.ChainLast | TypeScriptJasminGenerate.py:359-381 | the last line of a chain is its last operator's opcode |
| JasminLayout.LogicalChain | TypeScriptJasminGenerate.py:359-432 | `&&` and `\|\|` chains emit only their operands, in order |
| JasminLayout.PrologueEnds | TypeScriptJasminGenerate.py:74-96 | the prologue ends with the constructor, preceded by the static initializer exactly when there are globals |
| JasminLayout.ProgramLayout | TypeScriptJasminGenerate.py:99-125 | the prologue, the function methods, then `main` entered with no locals and slot 1 as the next free one, then its `return` and end |
| JasminLayout.FunctionsBeforeMain | TypeScriptJasminGenerate.py:99-109 | every declared function's method header lies between the prologue and `main`'s header |
| JasminLayout.HeaderIn | TypeScriptJasminGenerate.py:101-105 | the header of each declared function is among the lines the function declarations add |
| JasminLayout.MainFirstLocal | TypeScriptJasminGenerate.py:114-121 | the first top-level `let` of a new non-global name stores into slot 1 |
| JasminLayout.ClassOrder | TypeScriptJasminGenerate.py:60-125 | a generated class is the prologue ending with the constructor, then every declared function's method, then `main`'s header |
| JasminProps.PrologueLayout | TypeScriptJasminGenerate.py:61-97 | the class header, one field per global, an empty line, then the static initializer exactly when there are globals |
| JasminProps.ProgramEnds | TypeScriptJasminGenerate.py:60-125 | the generated lines start with the prologue and end with the end of `main` |
| JasminProps.ClassLayout | TypeScriptJasminGenerate.py:60-125 | a generated class starts with its header and its fields in order, has the static initializer exactly when there are globals, then the constructor, then every declared function's method, then `main`'s header, and ends with `return` and the end of `main` |
| JasminProps.CallMatchesMethod | TypeScriptJasminGenerate.py:649-659 | a call of a user function evaluates the arguments left to right, then invokes the method by the name and descriptor its declaration uses |
| JasminProps.ParamDescriptorsCons | TypeScriptJasminGenerate.py:136-143 | a method descriptor lists the parameter descriptors in order inside parentheses, then the return descriptor |
| JasminProps.PrintSeparators | TypeScriptJasminGenerate.py:559-586 | `print` with several arguments has at least one space separator per argument after the first, and exactly that many when no argument's own code holds one (so for simple arguments) |
| JasminProps.PrintArgSeparators | TypeScriptJasminGenerate.py:565-581 | each argument is preceded by the separator and its `append` exactly when it is not the first, followed by the `append` its quoting selects; it adds one separator more than its own code when it is not the first |
| JasminProps.PrintArgsSeparators | TypeScriptJasminGenerate.py:565-581 | the arguments from the `k`-th on add at least one separator per argument after the first, and exactly that many when their own code holds none |
| JasminProps.SimpleArgNoSeparator | TypeScriptJasminGenerate.py:434-464 | the code of a literal or a name holds no separator |
| JasminProps.PrintShape | TypeScriptJasminGenerate.py:546-588 | `print` fetches `System.out`; no argument prints an empty line, one prints a string when its text is quoted and an int otherwise, several print a built string |
| JasminProps.CompareShape | TypeScriptJasminGenerate.py:383-432 | a comparison evaluates its first two operands only, then leaves 1 when its jump is taken and 0 otherwise; an operator without a jump always gives 0 |
| JasminProps.CompareJumps | TypeScriptJasminGenerate.py:383-432 | only relational and equality operators have a jump, each its own |
| JasminProps.ExprStmtPop | TypeScriptJasminGenerate.py:223-243 | an expression statement pops its value unless its text marks it as a call that leaves nothing |
| JasminProps.VoidCallTexts | TypeScriptJasminGenerate.py:235-237 | the texts that leave nothing: those starting with `print(` or `push(`, or containing `.push(` |
| JasminProps.ValueTexts | TypeScriptJasminGenerate.py:223-243 | an assignment and a call of `read` leave a value, which is popped |
| JasminProps.ForUpdate | TypeScriptJasminGenerate.py:301-312 | with a test, the update is evaluated after the body and popped; without a test, the update is the test and is not evaluated after the body |
| JasminProps.NumberWithDot | TypeScriptJasminGenerate.py:455-459 | a number token `d.f` is loaded as the integer `d`, without leading zeros |
| JasminProps.NumberWithoutDot | TypeScriptJasminGenerate.py:455-459 | a number token without a dot is loaded as written |
| ClassName.Basename | main.py:21 | the text after the last `/`, which contains no `/` |
| ClassName.LastDot | main.py:21 | the index of the last `.`, or none when there is no `.` |
| ClassName.Stem | main.py:21 | the name without its last extension: a prefix of the name, and the name itself when it has no `.` |
| ClassName.Sanitize | main.py:23 | same length, word characters kept, every other character replaced by `_` |
| ClassName.Lettered | main.py:24-28 | `Output` for an empty stem, a `C` in front of one that does not start with a letter, and the stem itself otherwise |
| ClassName.Capitalize | main.py:29 | the first letter upper-cased, the rest unchanged |
| ClassName.DeriveClassName | main.py:20-29 | the class name is non-empty, made of word characters, and starts with an upper-case letter |
| ClassName.DeriveFromStem | main.py:20-29 | `Output` for an empty sanitised stem; the stem with its first letter upper-cased when it starts with a letter; `C` and the stem otherwise |
| ClassName.SanitizeKeeps | main.py:23 | a name of word characters comes back from the sanitiser unchanged |
| ClassName.StemOfFile | main.py:21 | a file name loses its last extension |
| ClassName.StemOfPath | main.py:21 | the stem survives a directory part and a last extension |
| ClassName.DeriveIdempotent | main.py:20-29 | deriving again from a derived name gives the same name |
| ClassName.StockExampleName | tests/test_estoque_example.py:47 | `exemplo_estoque.txt` gives the class `Exemplo_estoque` |
| ClassName.TestExampleName | tests/test_unary_operators.py:46-69 | `test_negative_int.txt` in a directory gives the class `Test_negative_int` |
| ErrorBlock.StripShape | tests/compiler_utils.py:65-66 | a stripped string neither starts nor ends with whitespace and is the input without runs of whitespace at either end |
| ErrorBlock.SplitLines | tests/compiler_utils.py:55 | splitting on newlines gives at least one piece and no piece holds a newline |
| ErrorBlock.StderrLines | tests/compiler_utils.py:73-74 | the standard error lines are empty exactly when the stream is blank |
| ErrorBlock.ScanLinesStep | tests/compiler_utils.py:58-70 | one step of the scan: a marker line opens the section, a closing line ends it after its own entry, any other line gives its entry when in the section and is a dash line |
| ErrorBlock.ScanErrorSection | tests/compiler_utils.py:55-70 | the loop over the lines collects the entries `ScanLines` gives |
| ErrorBlock.ExtractErrors | tests/compiler_utils.py:49-76 | the section's entries when the standard output holds the marker, then the standard error lines |
| ErrorBlock.ScanLinesBound | tests/compiler_utils.py:58-70 | at most one entry per line |
| ErrorBlock.ScanOutside | tests/compiler_utils.py:58-70 | outside the section and without a marker line nothing is collected |
| ErrorBlock.NoMarkerOnlyStderr | tests/compiler_utils.py:54-74 | without the marker only the standard error lines are returned, and nothing when that stream is blank |
| ErrorBlock.BeforeMarker | tests/compiler_utils.py:58-62 | lines before the first marker line, and the marker line, give nothing |
| ErrorBlock.InSectionLine | tests/compiler_utils.py:65-66 | in the section, a line that neither opens nor closes it gives its entry when it is a dash line, and the scan goes on |
| ErrorBlock.StopLineEndsScan | tests/compiler_utils.py:69-70 | the line that closes the section ends the scan and is still collected when it is a dash line |
| ErrorBlock.ScanAppend | tests/compiler_utils.py:58-70 | over lines that neither open nor close the section, the entries of a prefix come before those of the rest |
| ErrorBlock.ScanEntriesFromDashLines | tests/compiler_utils.py:65-66 | every entry collected comes from a dash line that is not a marker line |
| ErrorBlock.ReportRoundTrip | main.py:36-55 | reading back the report the compiler prints for a list of plain error messages gives exactly that list |

## Left out

- Lexing and parsing are not modelled: both passes walk one syntax tree (`Ast`), whose expressions keep their source text where the code inspects `getText()`.
- The message text and source positions of diagnostics are not modelled: a diagnostic is a kind with the names and types it mentions. Formatting a message can fail for a type with an absent part, which only happens after an earlier diagnostic; the model records the diagnostic instead.
- The `.limit stack` and `.limit locals` lines use the constants the generator is built with; the stack and local limits themselves are not computed or checked.
- `get_result` (joining the lines into one text) is not modelled: the generator's output is its list of lines.
- `compile_file`, `main` and `compile_code` (file reading, process execution, temporary files and printing) are I/O and are left out, except the printed error report, which is modelled as text (`ErrorBlock.Report`).
- `_derive_class_name` paths use `/` as the only directory separator, and `isalpha`/`upper` are modelled for ASCII; the class name only ever holds ASCII word characters when they are applied.
- `str.strip` uses a fixed set of Unicode whitespace characters, listed explicitly.
- `str(int(float(val)))` on a number token with a dot is modelled as the token's integer part without leading zeros; exponent notation and precision loss on very long tokens are not modelled.
- Runtime behaviour of the generated Jasmin (what the JVM computes) is not modelled; the properties are about the lines emitted.
- The generator's globals are an explicit input, because the attribute the source reads them from is never set by the analyzer.
- Semantic.ResolveParams: its contract states only that there is one type per parameter; the types and diagnostics are tied to the annotations through `Analyzer.SemanticAnalyzer.ResolveParameters` and `SemanticProps.ResolutionDiags`.
