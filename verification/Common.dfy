/** Shared by both halves of the project. */
module Common {
  datatype Option<+T> = None | Some(value: T)

  /** How a statement ends for its caller: well, or with an error, its effect being committed
      nevertheless (`Lost(true)`: the reply does not arrive) or not. */
  datatype Outcome = Fine | Lost(applied: bool)
  {
    predicate Commits() { Fine? || applied }
  }

  /** Math.ceil. */
  function Ceil(x: real): int { -((-x).Floor) }

  ghost predicate Distinct<T>(s: seq<T>) {
    forall i, j :: 0 <= i < j < |s| ==> s[i] != s[j]
  }
}
