/** The placeholder `echo` mutation. */
module PlaceholderMutation {
  import opened Wrappers

  /** The reply when no text is given. */
  const NoTextProvided: string := "No text provided."

  /**
   * The `text` argument, or "No text provided." when it is absent or null.
   * The arguments map a name to a value that may be an explicit null
   * (`None`); any string, the empty one included, is returned as it is.
   */
  function Echo(args: map<string, Option<string>>): (reply: string)
    ensures "text" in args && args["text"].Some? ==> reply == args["text"].value
    ensures "text" !in args ==> reply == NoTextProvided
    ensures "text" in args && args["text"].None? ==> reply == NoTextProvided
  {
    if "text" in args && args["text"].Some? then args["text"].value else NoTextProvided
  }

  /** The empty string is a value, not a missing one: it is echoed, not replaced. */
  lemma EchoKeepsEmptyText(args: map<string, Option<string>>)
    requires "text" in args && args["text"] == Some("")
    ensures Echo(args) == "" && Echo(args) != NoTextProvided
  {
  }
}
