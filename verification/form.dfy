/** `safe_index` (app.py lines 104-108): the position of a value in a list
    of options, or a default when the value is not among them. */
module Form {
  import opened Wrappers

  /** `options.index(value)`: the first position holding `value`, or None
      where Python raises ValueError. */
  function IndexOf<T(==)>(options: seq<T>, value: T): (r: Option<nat>)
    ensures r.None? <==> value !in options
    ensures r.Some? ==> r.value < |options| && options[r.value] == value &&
                        forall j :: 0 <= j < r.value ==> options[j] != value
    decreases |options|
  {
    if |options| == 0 then None
    else if options[0] == value then Some(0)
    else
      match IndexOf(options[1..], value)
      case None => None
      case Some(k) => Some(k + 1)
  }

  /** `safe_index(options, value, default)`. */
  function SafeIndex<T(==)>(options: seq<T>, value: T, default: int): (r: int)
    ensures value in options ==> 0 <= r < |options| && options[r] == value &&
                                 forall j :: 0 <= j < r ==> options[j] != value
    ensures value !in options ==> r == default
  {
    match IndexOf(options, value)
    case None => default
    case Some(k) => k
  }
}
