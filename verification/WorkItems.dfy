/** Work items and the status predicates that every part of the run engine shares.

    The engine asks "does this failure block the run?" about whole rows, but asks "is this
    dependency satisfied?" about a namespace holding only the parent's status, payload and
    result. `DependencyView` is that namespace; `SplitView` is exactly where the two differ. */
module WorkItems {

  datatype Status = Queued | Claimed | Running | Done | Skipped | Failed | Canceled

  datatype Kind = WriteTests | OtherKind

  /** The value of a payload flag: missing, the two booleans, or anything else. */
  datatype Setting = Absent | Yes | No | OtherValue

  /** The columns no pass of the loop changes. */
  datatype Profile = Profile(
    kind: Kind,
    blocking: Setting,       // payload["blocking"]
    priority: int,
    maxAttempts: nat
  )

  /** What the failure predicates read from the result and the error text of a row. */
  datatype Flags = Flags(
    superseded: bool,        // result["superseded"] is True
    budgetInResult: bool,    // failure_class or stop_reason names an exhausted budget
    budgetInError: bool      // last_error names an exhausted budget
  )

  const NO_FLAGS := Flags(false, false, false)

  datatype Item = Item(status: Status, profile: Profile, flags: Flags, attempt: nat)

  predicate Active(i: Item) {
    i.status == Claimed || i.status == Running
  }

  predicate Terminal(i: Item) {
    i.status != Queued && !Active(i)
  }

  predicate SupersededFailure(i: Item) {
    i.status == Failed && i.flags.superseded
  }

  predicate BudgetFailure(i: Item) {
    i.status == Failed && (i.flags.budgetInResult || i.flags.budgetInError)
  }

  predicate NonBlockingFailure(i: Item) {
    if BudgetFailure(i) then
      true
    else if i.profile.kind == WriteTests && i.profile.blocking != Yes then
      i.status == Failed && !SupersededFailure(i)
    else
      i.status == Failed && !SupersededFailure(i) && i.profile.blocking == No
  }

  predicate BlockingFailure(i: Item) {
    i.status == Failed && !SupersededFailure(i) && !NonBlockingFailure(i)
  }

  predicate DependencySatisfied(i: Item) {
    if i.status == Done || i.status == Skipped then
      true
    else if i.status == Failed then
      !BlockingFailure(i)
    else
      false
  }

  /** What a dependency query keeps of a parent row: neither its type nor its last error. */
  function DependencyView(i: Item): Item {
    i.(profile := i.profile.(kind := OtherKind), flags := i.flags.(budgetInError := false))
  }

  /** A child of `i` may start. */
  predicate Releases(i: Item) {
    DependencySatisfied(DependencyView(i))
  }

  /** A failure the run tolerates but the dependency query does not: its leniency comes only
      from the row's type or from its error text. */
  predicate SplitView(i: Item) {
    && i.status == Failed
    && !i.flags.superseded
    && !i.flags.budgetInResult
    && i.profile.blocking != No
    && (i.flags.budgetInError || (i.profile.kind == WriteTests && i.profile.blocking != Yes))
  }

  /** Not released, and no longer going to change by itself. */
  predicate DeadEnd(i: Item) {
    Terminal(i) && !Releases(i)
  }

  /** Which failures block, by the columns: not superseded, no exhausted budget named anywhere, and not marked as
      not blocking; WRITE_TESTS blocks only when marked so. */
  lemma BlockingIff(i: Item)
    ensures BlockingFailure(i) <==>
            && i.status == Failed && !i.flags.superseded && !i.flags.budgetInResult && !i.flags.budgetInError
            && (if i.profile.kind == WriteTests then i.profile.blocking == Yes else i.profile.blocking != No)
  {
  }

  /** Which rows release their children, by the columns. */
  lemma ReleasesIff(i: Item)
    ensures Releases(i) <==>
            || i.status == Done || i.status == Skipped
            || (i.status == Failed && (i.flags.superseded || i.flags.budgetInResult || i.profile.blocking == No))
  {
  }

  /** The dependency query agrees with the row exactly when the row is not split, and where they
      differ the query is the stricter one. */
  lemma DependencyViewAgrees(i: Item)
    ensures Releases(i) == DependencySatisfied(i) <==> !SplitView(i)
    ensures Releases(i) ==> DependencySatisfied(i)
    ensures SplitView(i) ==> !BlockingFailure(i) && !Releases(i)
  {
  }

  /** What can stop a child for good: a blocking failure, a split one, or a canceled parent. */
  lemma DeadEndCauses(i: Item)
    ensures DeadEnd(i) <==> BlockingFailure(i) || SplitView(i) || i.status == Canceled
  {
  }
}
