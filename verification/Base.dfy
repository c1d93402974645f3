/** Types shared by every part of the model. */
module Base {

  datatype Option<+T> = None | Some(value: T)

  /** A byte of a request line, a reply or an arena, written as the character of that code. */
  type byte = c: char | c as int < 256 witness '0'

  const MAX_U64: int := 0xFFFF_FFFF_FFFF_FFFF

  /** Unsigned 64-bit wrap-around. */
  function Wrap(x: int): (r: nat)
    ensures 0 <= x <= MAX_U64 ==> r == x
    ensures r <= MAX_U64
  {
    x % (MAX_U64 + 1)
  }

  ghost function Largest(s: set<nat>): (m: nat)
    ensures forall x <- s :: x <= m
  {
    if s == {} then 0
    else
      var x :| x in s;
      var rest := Largest(s - {x});
      assert forall y <- s :: y == x || y in s - {x};
      if x > rest then x else rest
  }

  /** A finite set of identifiers leaves others to give out. */
  lemma Unused(s: set<nat>)
    ensures exists n: nat :: n !in s
  {
    var n := Largest(s) + 1;
    assert n !in s;
  }
}
