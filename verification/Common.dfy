/** What several modules share. */
module Common {

  datatype Option<+T> = None | Some(value: T)

  type byte = x: int | 0 <= x < 256

  /** A slice that is cut short at the end of the data, as in data[lo:hi]. */
  function Slice(d: seq<byte>, lo: nat, hi: nat): seq<byte>
    requires lo <= hi
  {
    if |d| <= lo then [] else if |d| <= hi then d[lo..] else d[lo..hi]
  }

  function Zeros(n: nat): seq<byte> {
    seq(n, _ => 0)
  }

  /** A run with one step more. */
  function AndThen<T>(steps: seq<T>, last: T): (r: seq<T>)
    ensures |r| > 0 && r[|r| - 1] == last && r[..|r| - 1] == steps
  {
    steps + [last]
  }
}
