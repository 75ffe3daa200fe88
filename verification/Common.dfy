/** Small types shared by every component. */
module Common {
  datatype Option<+T> = None | Some(value: T)

  datatype Direction = Long | Short

  /** Five minutes and a day, in microseconds. */
  const BAR: int := 300_000_000
  const DAY: int := 86_400_000_000

  /** +1 for a long trade, -1 for a short one. */
  function Sign(d: Direction): real {
    if d.Long? then 1.0 else -1.0
  }

  function MinReal(a: real, b: real): real { if b < a then b else a }

  function MaxReal(a: real, b: real): real { if b > a then b else a }

  function Abs(a: real): real { if a < 0.0 then -a else a }

  /** Python's `s[-n:]` for a positive n. */
  function LastN<T>(s: seq<T>, n: nat): (r: seq<T>) {
    if |s| <= n then s else s[|s| - n..]
  }

  function MinOf(s: seq<real>): real
    requires |s| > 0
  {
    if |s| == 1 then s[0] else MinReal(s[0], MinOf(s[1..]))
  }

  function MaxOf(s: seq<real>): real
    requires |s| > 0
  {
    if |s| == 1 then s[0] else MaxReal(s[0], MaxOf(s[1..]))
  }
}
