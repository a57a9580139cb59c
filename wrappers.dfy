/** Optional values and the failures that end a dashboard run. */
module Wrappers {

  /** A value that may be absent: pandas' NaN / NaT / None. */
  datatype Option<+T> = None | Some(value: T)

  /** Why a load or a report did not produce a result. */
  datatype Failure =
    | Stopped(reason: string)                  // st.stop() after an error message
    | MissingColumn(key: string, source: string) // ValueError naming the missing column
    | MissingKey(key: string)                  // KeyError on a dict or a frame
    | EmptyIndex                               // IndexError: iloc[0] / columns[0] of nothing
    | NoAttribute(name: string)                // AttributeError
    | NothingToConcatenate                     // ValueError from pd.concat([])
    | NotNumeric(column: string)               // TypeError: the mean of a column holding text

  datatype Result<+T> = Ok(value: T) | Err(failure: Failure)
}
