/** What the body of one function shares with its surroundings: the calls it makes and the values
    it cannot compute itself. */
module Environment {
  import opened Words

  /** A call as the outside sees it. */
  datatype Event = Event(callee: nat, arguments: seq<Word>)

  /** What a function body cannot know: the results of the calls made so far, what those calls
      leave in the caller-saved registers, what the multiplication at some position leaves in the
      register of remainders (its operands' type decides whether that is the high half of the product
      or what was there), the contents of fresh locals and the values of the parameters passed on the
      stack. */
  datatype World = World(
    result: seq<Event> -> Word,
    clobber: (seq<Event>, nat) -> Word,
    product: (nat, nat, Word) -> Word,
    garbage: nat -> Word,
    incoming: seq<Word>)

  function ReadLocal(w: World, locals: map<nat, Word>, uid: nat): Word {
    if uid in locals then locals[uid] else w.garbage(uid)
  }
}
