/** The diagnostics the analyzer appends to its error list, one constructor per message
    the source formats, with the values the message mentions. */
module Diagnostics {
  import opened Wrappers
  import opened Types
  import opened Ast

  datatype Diag =
      /** A type text that names no primitive and no declared interface. */
    | TypeNotFound(text: string)
      /** A type annotation naming an undeclared interface. */
    | InterfaceNotDeclared(name: string)
    | FieldMissing(field: string, iface: string)
    | FieldTypeMismatch(field: string, expected: Option<Type>, found: Option<Type>)
    | FieldExtra(field: string, iface: string)
    | InterfaceRedeclared(name: string)
    | VarRedeclared(name: string)
    | InitializerMismatch(declared: Type, found: Option<Type>)
    | ConstWithoutInitializer(name: string)
    | FunctionRedeclared(name: string)
      /** A non-void function whose body has no `return`. */
    | MissingReturn(funcName: string, returnType: Type)
    | VoidReturnsValue
      /** A bare `return` where a value is expected. */
    | ReturnWithoutValue(inFunction: Option<string>, expected: Option<Type>)
    | ReturnMismatch(returnType: Type, found: Option<Type>)
    | Undeclared(name: string)
    | HeterogeneousArray(first: Option<Type>, other: Option<Type>)
    | IndexOnNonArray
    | FieldNotFound(field: string, iface: string)
    | MemberOnNonInterface
    | InvalidPrintArgument
    | ReadTakesNoArguments
    | OperandsNotNumber(op: BinOp)
    | OperandsNotSameType(op: BinOp)
    | OperandsNotBoolean(op: BinOp)
    | ConstReassignment(name: string)
    | AssignmentMismatch(target: Type, source: Type)
}
