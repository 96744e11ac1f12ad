/** `Coord4D`: four components `x, y, z, w` addressed by index 0..3. */
module Coords {
  import opened Exceptions
  import opened Options

  function DigitChar(d: nat): char
    requires d < 10
  {
    "0123456789"[d]
  }

  function NatToString(n: nat): (s: string)
    ensures s != []
    decreases n
  {
    if n < 10 then [DigitChar(n)] else NatToString(n / 10) + [DigitChar(n % 10)]
  }

  /** How an integer index prints in a JavaScript string concatenation, for magnitudes below
      10^21; JavaScript prints larger numbers in exponent form. */
  function IntToString(n: int): string {
    if n < 0 then "-" + NatToString(-n) else NatToString(n)
  }

  /** The message of the `RangeError` thrown for an index outside 0..3. */
  function RangeMessage(idx: int): string {
    "The index '" + IntToString(idx) + "' is out of the range [0,3]."
  }

  predicate InRange(idx: int) {
    0 <= idx <= 3
  }

  class Coord4D {
    var x: real
    var y: real
    var z: real
    var w: real

    /** Every omitted argument defaults to 0. */
    constructor (x: Option<real>, y: Option<real>, z: Option<real>, w: Option<real>)
      ensures this.x == x.GetOrElse(() => 0.0) && this.y == y.GetOrElse(() => 0.0)
      ensures this.z == z.GetOrElse(() => 0.0) && this.w == w.GetOrElse(() => 0.0)
      ensures x.None? && y.None? && z.None? && w.None? ==> this.x == this.y == this.z == this.w == 0.0
    {
      this.x := x.GetOrElse(() => 0.0);
      this.y := y.GetOrElse(() => 0.0);
      this.z := z.GetOrElse(() => 0.0);
      this.w := w.GetOrElse(() => 0.0);
    }

    /** `getter`: index 0, 1, 2, 3 selects x, y, z, w; any other index throws `RangeError`. */
    function Getter(idx: int): (r: Completion<real>)
      reads this
      ensures r.Returned? <==> InRange(idx)
      ensures !InRange(idx) ==> r.error == RangeError(RangeMessage(idx))
      ensures idx == 0 ==> r.value == x
      ensures idx == 1 ==> r.value == y
      ensures idx == 2 ==> r.value == z
      ensures idx == 3 ==> r.value == w
    {
      match idx
      case 0 => Returned(x)
      case 1 => Returned(y)
      case 2 => Returned(z)
      case 3 => Returned(w)
      case _ => Threw(RangeError(RangeMessage(idx)))
    }

    /** `setter`: writes the selected component only; out of range it throws and writes nothing. */
    method Setter(idx: int, value: real) returns (r: Completion<()>)
      modifies this
      ensures InRange(idx) ==> r == Returned(()) && Getter(idx) == Returned(value)
      ensures forall j :: InRange(j) && j != idx ==> Getter(j) == old(Getter(j))
      ensures !InRange(idx) ==> r == Threw(RangeError(RangeMessage(idx))) && unchanged(this)
    {
      match idx {
        case 0 => x := value;
        case 1 => y := value;
        case 2 => z := value;
        case 3 => w := value;
        case _ => return Threw(RangeError(RangeMessage(idx)));
      }
      r := Returned(());
    }
  }
}
