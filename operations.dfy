/** `BallDrawOperation`: one step of a scenario. */
module Operations {

  /** A value, or nothing where the source raises (`KeyError`, `ValueError`). */
  datatype Option<T> = None | Some(value: T)

  /** `BallDrawOperation(bag_id, draw_count, operation_type)`; the type is
      kept as the string the record carries, since the engines do nothing for
      a type other than "draw", "discard" and "return". */
  datatype BallDrawOperation = BallDrawOperation(bagId: int, drawCount: int, operationType: string)

  const DrawKind: string := "draw"
  const DiscardKind: string := "discard"
  const ReturnKind: string := "return"

  /** One of the three kinds the engines act on. */
  predicate KnownKind(kind: string)
  {
    kind == DrawKind || kind == DiscardKind || kind == ReturnKind
  }
}
