/** Optional values and results with the failures the engine can raise. */
module Wrappers {

  datatype Option<T> = None | Some(value: T)

  /** The ways a call into the engine ends in an exception. */
  datatype Error =
    | EmptyWordList     // IndexError: `word_list[0]` on an empty list
    | NoDataScore       // TypeError: `round` applied to the string '---' * 4
    | NoTemporalCache   // TypeError: a cached temporal series that is None is subscripted
    | BadTimestamp      // ValueError: `strptime` rejects a `created_at` string
    | MissingMovie      // TypeError: the movie id is not in the store, so the record is None

  datatype Result<T> = Ok(value: T) | Err(error: Error)
}
