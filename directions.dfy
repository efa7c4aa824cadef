/** The `Direction` bit flags and their reverse (include/Constants.h).
    A `Direction` is held as the 32-bit pattern of its underlying int. */
module Directions {

  type Bits = bv32

  const DirNone: Bits := 0
  const DirUp: Bits := 1
  const DirDown: Bits := 2
  const DirLeft: Bits := 4
  const DirRight: Bits := 8

  /** A combination of the four direction flags and nothing else. */
  predicate IsMask(v: Bits) {
    v & 0xFFFF_FFF0 == 0
  }

  /** Exactly one of the four flags. */
  predicate IsSingle(v: Bits) {
    v == DirUp || v == DirDown || v == DirLeft || v == DirRight
  }

  /** `reverse`: UP and DOWN trade places, LEFT and RIGHT trade places. */
  function Reverse(v: Bits): (r: Bits)
    ensures IsMask(r)
    ensures (r & DirUp != 0) == (v & DirDown != 0)
    ensures (r & DirDown != 0) == (v & DirUp != 0)
    ensures (r & DirLeft != 0) == (v & DirRight != 0)
    ensures (r & DirRight != 0) == (v & DirLeft != 0)
  {
    ((v & (DirUp | DirLeft)) << 1) | ((v & (DirDown | DirRight)) >> 1)
  }

  lemma ReverseSingles()
    ensures Reverse(DirNone) == DirNone
    ensures Reverse(DirUp) == DirDown && Reverse(DirDown) == DirUp
    ensures Reverse(DirLeft) == DirRight && Reverse(DirRight) == DirLeft
  {
  }

  lemma ReverseInvolution(v: Bits)
    requires IsMask(v)
    ensures Reverse(Reverse(v)) == v
  {
  }

  lemma ReverseDistributesOverOr(a: Bits, b: Bits)
    ensures Reverse(a | b) == Reverse(a) | Reverse(b)
  {
  }

  /** Bits above `DirRight` play no part in the result. */
  lemma ReverseDiscardsHighBits(v: Bits)
    ensures Reverse(v) == Reverse(v & 0xF)
  {
  }

  /** The number of direction flags set in v. */
  function PopCount(v: Bits): (n: nat)
    ensures n <= 4
    ensures n == 0 <==> v & 0xF == 0
  {
    (if v & DirUp != 0 then 1 else 0) + (if v & DirDown != 0 then 1 else 0)
    + (if v & DirLeft != 0 then 1 else 0) + (if v & DirRight != 0 then 1 else 0)
  }

  lemma ReverseSingleBit(v: Bits)
    ensures IsSingle(v) <==> IsSingle(Reverse(v)) && IsMask(v)
    ensures PopCount(Reverse(v)) == PopCount(v)
  {
  }

  lemma DirectionsDistinct()
    ensures DirNone == 0
    ensures DirUp & DirDown == 0 && DirUp & DirLeft == 0 && DirUp & DirRight == 0
    ensures DirDown & DirLeft == 0 && DirDown & DirRight == 0 && DirLeft & DirRight == 0
    ensures PopCount(DirUp) == 1 && PopCount(DirDown) == 1
    ensures PopCount(DirLeft) == 1 && PopCount(DirRight) == 1
  {
  }

  /** The flags as a set, the reference view of a mask. */
  datatype Dir = Up | Down | Left | Right

  function Bit(d: Dir): (b: Bits)
    ensures IsSingle(b)
  {
    match d
    case Up => DirUp
    case Down => DirDown
    case Left => DirLeft
    case Right => DirRight
  }

  function Opposite(d: Dir): (o: Dir)
    ensures o != d
  {
    match d
    case Up => Down
    case Down => Up
    case Left => Right
    case Right => Left
  }

  function Flags(v: Bits): (s: set<Dir>)
    ensures forall d: Dir :: d in s <==> v & Bit(d) != 0
  {
    (if v & DirUp != 0 then {Up} else {}) + (if v & DirDown != 0 then {Down} else {})
    + (if v & DirLeft != 0 then {Left} else {}) + (if v & DirRight != 0 then {Right} else {})
  }

  function Mask(s: set<Dir>): (v: Bits)
    ensures IsMask(v)
  {
    (if Up in s then DirUp else 0) | (if Down in s then DirDown else 0)
    | (if Left in s then DirLeft else 0) | (if Right in s then DirRight else 0)
  }

  /** Every mask is the encoding of its set of flags. */
  lemma {:induction false} MaskFlagsRoundTrip(v: Bits)
    requires IsMask(v)
    ensures Mask(Flags(v)) == v
  {
    var s := Flags(v);
    assert (Up in s) == (v & 1 != 0);
    assert (Down in s) == (v & 2 != 0);
    assert (Left in s) == (v & 4 != 0);
    assert (Right in s) == (v & 8 != 0);
  }

  /** A direction's bit is set in the encoding exactly when the direction is
      in the set. */
  lemma MaskBit(s: set<Dir>, d: Dir)
    ensures (Mask(s) & Bit(d) != 0) == (d in s)
  {
    match d
    case Up =>
    case Down =>
    case Left =>
    case Right =>
  }

  /** Every set of directions is the set view of its encoding: together with
      MaskFlagsRoundTrip, masks and sets of directions are in one-to-one
      correspondence. */
  lemma FlagsMaskRoundTrip(s: set<Dir>)
    ensures Flags(Mask(s)) == s
  {
    forall d: Dir ensures d in Flags(Mask(s)) <==> d in s {
      MaskBit(s, d);
    }
  }

  /** On the set view, reverse replaces every direction by its opposite. */
  lemma ReverseIsOpposite(v: Bits)
    ensures forall d: Dir :: d in Flags(Reverse(v)) <==> Opposite(d) in Flags(v)
  {
    forall d: Dir ensures d in Flags(Reverse(v)) <==> Opposite(d) in Flags(v) {
      ReverseFlag(v, d);
    }
  }

  /** Reverse sets the flag of a direction exactly when its argument has the
      flag of the opposite direction. */
  lemma ReverseFlag(v: Bits, d: Dir)
    ensures (Reverse(v) & Bit(d) != 0) == (v & Bit(Opposite(d)) != 0)
  {
    match d
    case Up =>
    case Down =>
    case Left =>
    case Right =>
  }
}
