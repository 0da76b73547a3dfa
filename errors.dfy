/** The exceptions the streaming core can raise, one constructor per cause. */
module Errors {

  datatype Error =
    | CannotOpen(path: string)                    // uproot.open fails on a path
    | NoTree(path: string)                        // find_tree: no tree-like object anywhere
    | MissingTree(path: string, treepath: string) // f[treepath] fails on a later file
    | NoEntryCount                                // numentries of a batch without columns is None
    | IndexOutOfRange                             // get_event on a column shorter than the first
    | LengthMismatch                              // weights and groups differ in length
    | ZeroDivision                                // the weights sum to zero
}
