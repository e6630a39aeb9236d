/** Values shared by the three scripts: optional fields, the exceptions the
    scripts can raise, and the label/value rows of a summary table. */
module Common {

  /** A field of a daily record that may be null ("na", None or NaN upstream). */
  datatype Option<+T> = None | Some(value: T) {
    function GetOr(default: T): T {
      match this
      case Some(v) => v
      case None => default
    }
  }

  /** The Python exceptions the modelled code can raise (and does not catch). */
  datatype PyError =
    | IndexError        // indexing an empty or too short sequence
    | TypeError         // arithmetic or sum() over a null field
    | ValueError        // explicit raise, or int() of a NaN
    | KeyError          // a dictionary lookup of a missing key
    | ZeroDivisionError // dividing by a zero population

  /** The outcome of a computation that either returns a value or raises. */
  datatype Result<+T> = Ok(value: T) | Err(error: PyError)

  /** The value column of one table row. Percentages keep their exact value;
      their two-decimal text rendering is not modelled. */
  datatype Cell =
    | Blank             // the "" of a section header row
    | Count(n: int)     // rendered with format(n, ",d")
    | Percent(x: real)  // rendered with "{:.2f}"
    | NaNPercent        // "{:.2f}" of a NaN, the text "nan"

  /** One (label, value) row of a PrettyTable. */
  type Row = (string, Cell)

  function Abs(x: int): nat {
    if x < 0 then -x else x
  }

  lemma DivOfNat(x: nat, y: nat)
    requires y > 0
    ensures x / y >= 0 && (x == 0 ==> x / y == 0)
  {
  }

  /** Python's int(a / b) on integers, in exact arithmetic: the quotient
      truncated toward zero. */
  function TruncDiv(a: int, b: int): (q: int)
    requires b != 0
    ensures Abs(q) == Abs(a) / Abs(b)
    ensures q > 0 ==> (a > 0) == (b > 0)
    ensures q < 0 ==> (a > 0) != (b > 0)
  {
    DivOfNat(Abs(a), Abs(b));
    var m := Abs(a) / Abs(b);
    if a == 0 then 0 else if (a > 0) == (b > 0) then m else -m
  }

  /** Index of the last element satisfying p, if any (searching from the end). */
  function LastWhere<T>(s: seq<T>, p: T -> bool): (r: Option<nat>)
    ensures r.Some? ==> r.value < |s| && p(s[r.value])
    ensures r.Some? ==> forall q :: r.value < q < |s| ==> !p(s[q])
    ensures r.None? ==> forall q :: 0 <= q < |s| ==> !p(s[q])
  {
    if s == [] then None
    else if p(s[|s| - 1]) then Some(|s| - 1)
    else LastWhere(s[..|s| - 1], p)
  }
}
