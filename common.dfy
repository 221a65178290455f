/** Shared vocabulary of the model: optional values, record identifiers and
    the status-plus-body replies that every controller sends. */
module Common {

  datatype Option<+T> = None | Some(value: T) {
    function GetOr(default: T): T {
      match this
      case Some(v) => v
      case None => default
    }
  }

  /** Document ids (MongoDB ObjectIds) are opaque; the model only compares them. */
  type Id = nat

  /** `Model.findById(id)` over a collection in storage order: the position
      of the first document whose id (read by `idOf`) is `id`, or None when
      no document has it. */
  function FindById<T>(docs: seq<T>, idOf: T -> Id, id: Id): (r: Option<nat>)
    ensures r.Some? ==> r.value < |docs| && idOf(docs[r.value]) == id
    ensures r.Some? ==> forall k :: 0 <= k < r.value ==> idOf(docs[k]) != id
    ensures r.None? <==> forall k :: 0 <= k < |docs| ==> idOf(docs[k]) != id
  {
    if docs == [] then None
    else if idOf(docs[0]) == id then Some(0)
    else match FindById(docs[1..], idOf, id)
      case None => None
      case Some(k) => Some(k + 1)
  }

  /** What a controller writes with `res.status(code).json(...)`: either a
      success body, or an error body `{ message }`. */
  datatype Reply<+T> = Success(status: int, value: T) | Failure(status: int, message: string)
}
