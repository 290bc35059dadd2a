/** The data that both halves of argp work on: option vectors and the tree of argps. */
module ArgpTypes {
  import opened Maybes

  /** One element of an option vector.  The end marker is not an element: a vector is
      the sequence of the elements before it. */
  datatype ArgpOption = ArgpOption(
    name: Maybe<string>,   // long name
    key: int,
    takesArg: bool,        // the ARG field is not NULL
    argOptional: bool,     // OPTION_ARG_OPTIONAL
    hidden: bool,          // OPTION_HIDDEN
    alias: bool,           // OPTION_ALIAS
    isDoc: bool,           // OPTION_DOC
    group: int)

  /** An argp: options (None models the NULL vector), whether it has a parsing function,
      its args_doc, and the vector of children. */
  datatype Argp = Argp(options: Maybe<seq<ArgpOption>>, parser: bool, argsDoc: Maybe<string>, children: Children)

  /** The child vector up to its terminator; GROUPED says that the child has a header or
      a group, so that help puts it in a cluster of its own. */
  datatype Children = Nil | Child(argp: Argp, grouped: bool, rest: Children)

  function Options(argp: Argp): seq<ArgpOption> {
    if argp.options.Some? then argp.options.value else []
  }

  /** An argp needs a group of its own when it has options or a parsing function. */
  predicate NeedsGroup(argp: Argp) {
    argp.options.Some? || argp.parser
  }

  /** The key of a short option, in the C locale: printable and not documentation. */
  predicate IsShort(o: ArgpOption) {
    !o.isDoc && 32 <= o.key <= 126
  }

  /** All options of the tree, parents before children, children in order. */
  function Preorder(argp: Argp): seq<ArgpOption>
    decreases argp, 0
  {
    Options(argp) + PreorderAll(argp.children)
  }

  function PreorderAll(cs: Children): seq<ArgpOption>
    decreases cs, 1
  {
    if cs.Nil? then [] else Preorder(cs.argp) + PreorderAll(cs.rest)
  }
}
