/** How a command of the archive manager ends, with the project tree it leaves. */
module Runs {
  import opened Outcome
  import opened Tree

  /** The exit code a command returns, or the exception it raises. `main` turns a
      raised `RuntimeError` or `ValueError` into exit code 1; any other exception
      escapes it. */
  datatype Status = Exited(code: int) | Raised(error: Error)

  /** A command's end and the tree as it leaves it: a raised exception leaves the
      files that were already moved or written where they are. */
  datatype Run = Run(status: Status, tree: FileTree)

  /** A loop part way: the tree so far, and what it has built or why it stopped. */
  datatype Progress<T> = Progress(tree: FileTree, out: Result<T>)
}
