/**
 * The failure kinds of the interpreter.  In the source each one is a Python
 * exception whose constructor prints a message and exits (Ermis/exceptions.py);
 * here each is a value carried by `Result.Err`.
 */
module Errors {
  import opened Tokens

  datatype Error =
    | UnexpectedToken(ch: char)                     // lexer: unrecognised character
    | WrongToken(expected: TokenType, found: TokenType)  // parser: `eat` mismatch
    | ParserLoops                                   // a statement loop that makes no progress forever
    | UndefinedVariable(name: string)
    | AlreadyDefined(name: string)
    | WrongType(name: string)                       // assignment changes a binding's type
    | MissingFunctionParameter(name: string)        // call arity mismatch
    | NotCallable(name: string)                     // Python AttributeError on `.parameters`
    | NoNameAttribute                               // Python AttributeError on a parameter's `.name`
    | NoHandler                                     // the visitor was handed Python's None
    | OperandTypes(op: TokenType)                   // Python TypeError from an operator
    | DivisionByZero
    | FloatResult                                   // a float would be produced (not modelled)
    | UncaughtReturn                                // FoundReturn escaped the program
    | OutOfFuel                                     // the evaluator's step bound was reached
    | NameNotDefined(name: string)                  // Python NameError (code as written only)

  datatype Result<+T> = Ok(value: T) | Err(error: Error)
}
