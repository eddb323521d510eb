/** The exceptions the modelled code raises, with the data its messages interpolate. */
module Errors {

  datatype Error =
    /** CompileError "unknown tokens '<peek>'": the scanner matched nothing; `peek` is up to 40 characters of lookahead. */
    | UnknownTokens(peek: string)
    /** CompileError "Cannot open <path> for inclusion!": a static include target that is not readable. */
    | CannotOpen(path: string)
    /** CompileError "state directories were empty": pop_workdir on an empty directory stack. */
    | DirectoriesEmpty
    /** Errno::ENOENT from reading or stat-ing a missing path. */
    | NoEntry(path: string)
    /** Errno::EISDIR from reading a directory as a file. */
    | IsDirectory(path: string)
    /** SystemStackError: static includes nested deeper than the model's include bound. */
    | StackTooDeep
    /** TypeError from subtracting a nil modification time from the current time. */
    | NilTime
    /** ArgumentError from calling a method with the wrong number of arguments. */
    | WrongArgumentCount
    /** NameError from an instance variable name Ruby does not accept. */
    | BadVariableName(name: string)

  /** The errors the parser raises as Flott::CompileError. */
  predicate IsCompileError(e: Error) {
    e.UnknownTokens? || e.CannotOpen? || e.DirectoriesEmpty?
  }

  /** The errors both caches' `get` rescue and turn into nil. */
  predicate IsRescued(e: Error) {
    e.NoEntry? || e.IsDirectory?
  }
}
