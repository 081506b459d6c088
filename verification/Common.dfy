/** Shared helpers. */
module Common {
  datatype Option<+T> = None | Some(value: T)

  /** `Rejected` stands for every way a command can end without saving: `sys.exit` and exceptions. */
  datatype Result<+T> = Ok(value: T) | Rejected

  /** 1 for true: what a condition adds to a count. */
  function Bit(b: bool): nat { if b then 1 else 0 }

  lemma {:induction false} SubsetSize<T>(a: set<T>, b: set<T>)
    requires a <= b
    ensures |a| <= |b|
  {
    if a != {} {
      var x :| x in a;
      SubsetSize(a - {x}, b - {x});
    }
  }
}
