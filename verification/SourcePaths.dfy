/** Validation of the `source_path` a client sends. */
module SourcePaths {
  import opened Wrappers
  import opened Backups

  const SLASH: byte := 47
  const DOT: byte := 46

  datatype PathError = EmptyPath | RelativePath | Traversal

  /** The path contains `..` somewhere. */
  predicate HasDotDot(path: seq<byte>) {
    exists i :: 0 <= i < |path| - 1 && path[i] == DOT && path[i + 1] == DOT
  }

  /** The three checks, in order; the first that fails names the error. */
  function ValidateSourcePath(path: seq<byte>): (r: Result<(), PathError>)
    ensures r.Ok? <==> path != [] && path[0] == SLASH && !HasDotDot(path)
    ensures r == Err(EmptyPath) <==> path == []
    ensures r == Err(RelativePath) <==> path != [] && path[0] != SLASH
    ensures r == Err(Traversal) <==> path != [] && path[0] == SLASH && HasDotDot(path)
  {
    if path == [] then Err(EmptyPath)
    else if path[0] != SLASH then Err(RelativePath)
    else if HasDotDot(path) then Err(Traversal)
    else Ok(())
  }
}
