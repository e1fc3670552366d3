/**
 * Deleting objects (`_delete_objects` behind the `delete_*` wrappers): a chain of
 * guards, then one delete per object found. The type's getter and the session's
 * delete are the parameters `get` and `delete`.
 */
module Deletion {
  import opened Errors

  /** The wrappers that set `NO_DELETE`: the SOAP API cannot delete these types. */
  const NoDeleteTypes: set<string> := {"actions", "clients", "questions", "settings", "user_roles"}

  /** `really_delete` and `export_before_delete`, both False when absent. */
  datatype DeleteOptions = DeleteOptions(reallyDelete: bool, exportBeforeDelete: bool)

  /** `_delete_objects` as reached through the wrapper for `getType`. */
  function DeleteObjects<T, R>(getType: string, search: seq<string>, opts: DeleteOptions,
                               get: seq<string> -> Result<seq<T>>, delete: T -> R): (r: Result<seq<R>>)
    ensures getType in NoDeleteTypes ==> r == Err(PytanError(DeleteNotSupported(getType)))
    ensures getType !in NoDeleteTypes && search == [] ==> r == Err(PytanError(EmptySearch))
    ensures getType !in NoDeleteTypes && search != [] && get(search).Err? ==> r == Err(get(search).error)
    ensures getType !in NoDeleteTypes && search != [] && get(search) == Ok([]) ==>
      r == Err(PytanError(NothingFound(getType)))
    ensures r.Ok? <==>
      && getType !in NoDeleteTypes && search != []
      && get(search).Ok? && get(search).value != []
      && !opts.exportBeforeDelete && opts.reallyDelete
    ensures r.Ok? ==>
      && |r.value| == |get(search).value|
      && forall i :: 0 <= i < |r.value| ==> r.value[i] == delete(get(search).value[i])
  {
    if getType in NoDeleteTypes then Err(PytanError(DeleteNotSupported(getType)))
    else if search == [] then Err(PytanError(EmptySearch))
    else match get(search)
      case Err(e) => Err(e)
      case Ok(objs) =>
        if objs == [] then Err(PytanError(NothingFound(getType)))
        else if opts.exportBeforeDelete then Err(PytanError(ExportBeforeDeleteUnsupported))
        else if !opts.reallyDelete then Err(PytanError(ReallyDeleteUnset))
        else Ok(seq(|objs|, i requires 0 <= i < |objs| => delete(objs[i])))
  }

  /** A type the API cannot delete is refused before any lookup: the getter's answer does not matter. */
  lemma RefusedBeforeLookup<T, R>(getType: string, search: seq<string>, opts: DeleteOptions,
                                  get1: seq<string> -> Result<seq<T>>, get2: seq<string> -> Result<seq<T>>,
                                  delete: T -> R)
    requires getType in NoDeleteTypes
    ensures DeleteObjects(getType, search, opts, get1, delete) == DeleteObjects(getType, search, opts, get2, delete)
  {
  }

  /** Nothing is deleted unless `really_delete` is set, whatever was found. */
  lemma NoDeletionWithoutConsent<T, R>(getType: string, search: seq<string>, opts: DeleteOptions,
                                       get: seq<string> -> Result<seq<T>>, delete: T -> R)
    requires !opts.reallyDelete
    ensures DeleteObjects(getType, search, opts, get, delete).Err?
    ensures getType !in NoDeleteTypes && search != [] && get(search).Ok? && get(search).value != []
            && !opts.exportBeforeDelete ==>
      DeleteObjects(getType, search, opts, get, delete) == Err(PytanError(ReallyDeleteUnset))
  {
  }
}
