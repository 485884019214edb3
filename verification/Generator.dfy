/** The xorshift generator that spreads the first timeouts. */
module Generator {
  function Left(x: bv32): bv32 {
    x ^ (x << 13)
  }

  function Right(x: bv32): bv32 {
    x ^ (x >> 17)
  }

  function Last(x: bv32): bv32 {
    x ^ (x << 5)
  }

  function Xorshift(seed: bv32): bv32 {
    Last(Right(Left(seed)))
  }

  lemma UndoLeft(y: bv32)
    ensures var x := y ^ (y << 13) ^ (y << 26); x ^ (x << 13) == y
  {
  }

  lemma UndoRight(y: bv32)
    ensures var x := y ^ (y >> 17); x ^ (x >> 17) == y
  {
  }

  lemma UndoLast(y: bv32)
    ensures var x := y ^ (y << 5) ^ (y << 10) ^ (y << 15) ^ (y << 20) ^ (y << 25) ^ (y << 30); x ^ (x << 5) == y
  {
  }

  lemma LeftOnto(y: bv32) returns (x: bv32)
    ensures Left(x) == y
  {
    x := y ^ (y << 13) ^ (y << 26);
    UndoLeft(y);
  }

  lemma RightOnto(y: bv32) returns (x: bv32)
    ensures Right(x) == y
  {
    x := y ^ (y >> 17);
    UndoRight(y);
  }

  lemma LastOnto(y: bv32) returns (x: bv32)
    ensures Last(x) == y
  {
    x := y ^ (y << 5) ^ (y << 10) ^ (y << 15) ^ (y << 20) ^ (y << 25) ^ (y << 30);
    UndoLast(y);
  }

  lemma ZeroStays()
    ensures Xorshift(0) == 0
  {
  }

  /** The generator reaches every number, and all but zero from a seed other than zero. */
  lemma Onto(y: bv32) returns (x: bv32)
    ensures Xorshift(x) == y && (y != 0 ==> x != 0)
  {
    hide Left, Right, Last;
    var b := LastOnto(y);
    var a := RightOnto(b);
    x := LeftOnto(a);
    ZeroStays();
  }
}
