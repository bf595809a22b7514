/**
 * Vocabulary shared by the two state containers: optional values, callback
 * identities, the log of callback invocations, and the mutator a commit runs.
 */
module Common {

  datatype Option<+T> = None | Some(value: T)

  datatype Result<+T> = Ok(value: T) | Err(message: string)

  /** A callback (a watcher function) is known only by its identity. */
  type CallbackId = nat

  /**
   * One invocation of a callback, together with the intercepted record as
   * the callback could read it through the handle at the moment it was
   * called (plain properties of the handle are not recorded).
   */
  datatype Call<V> = Call(callback: CallbackId, seen: map<string, V>)

  /**
   * What a commit's mutator does: a finite sequence of assignments through
   * the handle, nested calls of the same container's commit, and Raise, an
   * exception the mutator's own code throws.
   */
  datatype Step<V> = Write(key: string, value: V) | Commit(body: seq<Step<V>>) | Raise

  /** A mutator that throws nothing of its own, nested commits included. */
  predicate NoRaise<V>(body: seq<Step<V>>)
    decreases body
  {
    if body == [] then true
    else
      (match body[0]
        case Write(_, _) => true
        case Commit(b) => NoRaise(b)
        case Raise => false)
      && NoRaise(body[1..])
  }

  /** A mutator that only assigns fields and never commits again. */
  predicate Flat<V>(body: seq<Step<V>>)
  {
    forall i :: 0 <= i < |body| ==> body[i].Write?
  }

  /** The record after the assignments of a flat mutator, in order. */
  function Assign<V>(record: map<string, V>, plain: map<string, V>, body: seq<Step<V>>): (r: (map<string, V>, map<string, V>))
    requires Flat(body)
    ensures r.0.Keys == record.Keys
    ensures forall k :: k in record && (forall i :: 0 <= i < |body| ==> body[i].key != k) ==> r.0[k] == record[k]
    decreases |body|
  {
    if body == [] then (record, plain)
    else
      var k, v := body[0].key, body[0].value;
      if k in record then Assign(record[k := v], plain, body[1..])
      else Assign(record, plain[k := v], body[1..])
  }
}
