/** What the modelled components share. */
module Common {
  /** A value, or the source's `None`. */
  datatype Option<+T> = None | Some(value: T)

  /** How many durable writes a process still makes before it is killed. */
  datatype Lease = Unlimited | Writes(n: nat)
  {
    predicate Spent() { Writes? && n == 0 }

    function Next(): Lease
      requires !Spent()
    {
      if Unlimited? then Unlimited else Writes(n - 1)
    }
  }
}
