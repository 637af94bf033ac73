/**
 * The 64-bit hash of lists of ids (`HashUpdate`, `CountHash`): each update is a
 * bijection of the state, so one changed value always changes the hash.
 */
module ApiHash {

  type U64 = bv64

  /** Shift distances: those the mixing uses, and the doubled ones that undo them. */
  datatype By = R4 | R8 | R16 | R32 | R21 | R42 | L35 | Out

  function Shift(x: U64, k: By): U64 {
    match k
    case R4 => x >> 4
    case R8 => x >> 8
    case R16 => x >> 16
    case R32 => x >> 32
    case R21 => x >> 21
    case R42 => x >> 42
    case L35 => x << 35
    case Out => 0
  }

  function Xor(a: U64, b: U64): U64 { a ^ b }

  /** One mixing step. */
  function Shake(x: U64, k: By): U64 { Xor(x, Shift(x, k)) }

  function Mix(x: U64): U64 { Shake(Shake(Shake(x, R21), L35), R4) }

  function Plus(a: U64, b: U64): U64 { a + b }

  function Update(already: U64, value: U64): U64 { Plus(Mix(already), value) }

  /** `Xor`, `Shift` and `Plus` are the machine's operators under names the proofs below can keep folded. */
  method HashUpdate(already: U64, value: U64) returns (updated: U64)
    ensures updated == Update(already, value)
  {
    hide Xor, Shift, Plus;
    updated := already;
    updated := Xor(updated, Shift(updated, R21));
    updated := Xor(updated, Shift(updated, L35));
    updated := Xor(updated, Shift(updated, R4));
    updated := Plus(updated, value);
  }

  // ---------- the algebra of xor and shifts ----------

  lemma XorAssoc(a: U64, b: U64, c: U64)
    ensures Xor(Xor(a, b), c) == Xor(a, Xor(b, c))
  {
    calc {
      Xor(Xor(a, b), c);
      Xor(a ^ b, c);
      (a ^ b) ^ c;
      a ^ (b ^ c);
      Xor(a, b ^ c);
      Xor(a, Xor(b, c));
    }
  }

  lemma XorSelf(a: U64)
    ensures Xor(a, a) == 0 && Xor(a, 0) == a && Xor(0, a) == a
  {
  }

  lemma XorMiddle(a: U64, b: U64, c: U64)
    ensures Xor(Xor(a, b), Xor(b, c)) == Xor(a, c)
  {
    XorAssoc(Xor(a, b), b, c);
    XorAssoc(a, b, b);
    XorSelf(b);
    XorSelf(a);
    hide *;
  }

  lemma XorSwap(a: U64, b: U64, c: U64, d: U64)
    ensures Xor(Xor(a, b), Xor(c, d)) == Xor(Xor(a, c), Xor(b, d))
  {
    assert Xor(b, c) == Xor(c, b);
    XorAssoc(a, b, Xor(c, d));
    XorAssoc(b, c, d);
    XorAssoc(c, b, d);
    XorAssoc(a, c, Xor(b, d));
    hide *;
  }

  lemma Linear4(a: U64, b: U64)
    ensures Shift(Xor(a, b), R4) == Xor(Shift(a, R4), Shift(b, R4))
  {
    assert (a ^ b) >> 4 == (a >> 4) ^ (b >> 4);
  }

  lemma Linear8(a: U64, b: U64)
    ensures Shift(Xor(a, b), R8) == Xor(Shift(a, R8), Shift(b, R8))
  {
    assert (a ^ b) >> 8 == (a >> 8) ^ (b >> 8);
  }

  lemma Linear16(a: U64, b: U64)
    ensures Shift(Xor(a, b), R16) == Xor(Shift(a, R16), Shift(b, R16))
  {
    assert (a ^ b) >> 16 == (a >> 16) ^ (b >> 16);
  }

  lemma Linear32(a: U64, b: U64)
    ensures Shift(Xor(a, b), R32) == Xor(Shift(a, R32), Shift(b, R32))
  {
    assert (a ^ b) >> 32 == (a >> 32) ^ (b >> 32);
  }

  lemma Linear21(a: U64, b: U64)
    ensures Shift(Xor(a, b), R21) == Xor(Shift(a, R21), Shift(b, R21))
  {
    assert (a ^ b) >> 21 == (a >> 21) ^ (b >> 21);
  }

  lemma Linear42(a: U64, b: U64)
    ensures Shift(Xor(a, b), R42) == Xor(Shift(a, R42), Shift(b, R42))
  {
    assert (a ^ b) >> 42 == (a >> 42) ^ (b >> 42);
  }

  lemma Linear35(a: U64, b: U64)
    ensures Shift(Xor(a, b), L35) == Xor(Shift(a, L35), Shift(b, L35))
  {
    assert (a ^ b) << 35 == (a << 35) ^ (b << 35);
  }

  lemma ShiftLinear(a: U64, b: U64, k: By)
    ensures Shift(Xor(a, b), k) == Xor(Shift(a, k), Shift(b, k))
  {
    hide Xor;
    match k
    case R4 => hide *; Linear4(a, b);
    case R8 => hide *; Linear8(a, b);
    case R16 => hide *; Linear16(a, b);
    case R32 => hide *; Linear32(a, b);
    case R21 => hide *; Linear21(a, b);
    case R42 => hide *; Linear42(a, b);
    case L35 => hide *; Linear35(a, b);
    case Out => XorSelf(0);
  }

  function Doubled(k: By): By {
    match k
    case R4 => R8
    case R8 => R16
    case R16 => R32
    case R21 => R42
    case _ => Out
  }

  lemma Twice4(x: U64)
    ensures Shift(Shift(x, R4), R4) == Shift(x, R8)
  {
    calc {
      Shift(Shift(x, R4), R4);
      Shift(x >> 4, R4);
      (x >> 4) >> 4;
      x >> 8;
      Shift(x, R8);
    }
  }

  lemma Twice8(x: U64)
    ensures Shift(Shift(x, R8), R8) == Shift(x, R16)
  {
    calc {
      Shift(Shift(x, R8), R8);
      Shift(x >> 8, R8);
      (x >> 8) >> 8;
      x >> 16;
      Shift(x, R16);
    }
  }

  lemma Twice16(x: U64)
    ensures Shift(Shift(x, R16), R16) == Shift(x, R32)
  {
    calc {
      Shift(Shift(x, R16), R16);
      Shift(x >> 16, R16);
      (x >> 16) >> 16;
      x >> 32;
      Shift(x, R32);
    }
  }

  lemma Twice32(x: U64)
    ensures Shift(Shift(x, R32), R32) == Shift(x, Out)
  {
    calc {
      Shift(Shift(x, R32), R32);
      Shift(x >> 32, R32);
      (x >> 32) >> 32;
      0;
      Shift(x, Out);
    }
  }

  lemma Twice21(x: U64)
    ensures Shift(Shift(x, R21), R21) == Shift(x, R42)
  {
    calc {
      Shift(Shift(x, R21), R21);
      Shift(x >> 21, R21);
      (x >> 21) >> 21;
      x >> 42;
      Shift(x, R42);
    }
  }

  lemma Twice42(x: U64)
    ensures Shift(Shift(x, R42), R42) == Shift(x, Out)
  {
    calc {
      Shift(Shift(x, R42), R42);
      Shift(x >> 42, R42);
      (x >> 42) >> 42;
      0;
      Shift(x, Out);
    }
  }

  lemma Twice35(x: U64)
    ensures Shift(Shift(x, L35), L35) == Shift(x, Out)
  {
    calc {
      Shift(Shift(x, L35), L35);
      Shift(x << 35, L35);
      (x << 35) << 35;
      0;
      Shift(x, Out);
    }
  }

  lemma ShiftTwice(x: U64, k: By)
    ensures Shift(Shift(x, k), k) == Shift(x, Doubled(k))
  {
    hide Shift;
    match k
    case R4 => Twice4(x);
    case R8 => Twice8(x);
    case R16 => Twice16(x);
    case R32 => Twice32(x);
    case R21 => Twice21(x);
    case R42 => Twice42(x);
    case L35 => Twice35(x);
    case Out => ShiftOut(x);
  }

  lemma ShiftOut(x: U64)
    ensures Shift(Shift(x, Out), Out) == Shift(x, Out)
  {
  }

  lemma ShiftsCommute8(x: U64)
    ensures Shift(Shift(x, R4), R8) == Shift(Shift(x, R8), R4)
  {
    calc {
      Shift(Shift(x, R4), R8);
      Shift(x >> 4, R8);
      (x >> 4) >> 8;
      (x >> 8) >> 4;
      Shift(x >> 8, R4);
      Shift(Shift(x, R8), R4);
    }
  }

  lemma ShiftsCommute16(x: U64)
    ensures Shift(Shift(x, R4), R16) == Shift(Shift(x, R16), R4)
  {
    calc {
      Shift(Shift(x, R4), R16);
      Shift(x >> 4, R16);
      (x >> 4) >> 16;
      (x >> 16) >> 4;
      Shift(x >> 16, R4);
      Shift(Shift(x, R16), R4);
    }
  }

  lemma ShiftsCommute32(x: U64)
    ensures Shift(Shift(x, R4), R32) == Shift(Shift(x, R32), R4)
  {
    calc {
      Shift(Shift(x, R4), R32);
      Shift(x >> 4, R32);
      (x >> 4) >> 32;
      (x >> 32) >> 4;
      Shift(x >> 32, R4);
      Shift(Shift(x, R32), R4);
    }
  }

  lemma ShiftsCommute42(x: U64)
    ensures Shift(Shift(x, R21), R42) == Shift(Shift(x, R42), R21)
  {
    calc {
      Shift(Shift(x, R21), R42);
      Shift(x >> 21, R42);
      (x >> 21) >> 42;
      (x >> 42) >> 21;
      Shift(x >> 42, R21);
      Shift(Shift(x, R42), R21);
    }
  }

  /** Pairs of shifts in the same direction, which commute. */
  predicate Together(j: By, k: By) {
    (j == R4 && k in {R8, R16, R32}) || (j == R21 && k == R42)
  }

  // ---------- every mixing step can be undone ----------

  /** Shaking twice by one distance is shaking once by the double of it. */
  lemma ShakeTwice(x: U64, k: By)
    ensures Shake(Shake(x, k), k) == Shake(x, Doubled(k))
  {
    var s := Shift(x, k);
    ShiftLinear(x, s, k);
    ShiftTwice(x, k);
    XorMiddle(x, s, Shift(s, k));
    hide Shift, Xor;
  }

  lemma ShakesCommute(x: U64, j: By, k: By)
    requires Together(j, k)
    ensures Shake(Shake(x, j), k) == Shake(Shake(x, k), j)
  {
    hide Shift, Xor;
    var a, b := Shift(x, j), Shift(x, k);
    ShiftLinear(x, a, k);
    ShiftLinear(x, b, j);
    match k {
      case R8 => ShiftsCommute8(x);
      case R16 => ShiftsCommute16(x);
      case R32 => ShiftsCommute32(x);
      case R42 => ShiftsCommute42(x);
    }
    XorSwap(x, a, b, Shift(a, k));
  }

  lemma ShakeOut(x: U64)
    ensures Shake(x, Out) == x
  {
    XorSelf(x);
    hide Xor;
  }

  function Undo4(y: U64): U64 { Shake(Shake(Shake(Shake(y, R4), R8), R16), R32) }
  function Undo21(y: U64): U64 { Shake(Shake(y, R21), R42) }

  lemma Undoes4(x: U64)
    ensures Undo4(Shake(x, R4)) == x && Shake(Undo4(x), R4) == x
  {
    var a := Shake(x, R4);
    var b := Shake(a, R8);
    var c := Shake(b, R16);
    ShakeTwice(x, R4);
    ShakeTwice(x, R8);
    ShakeTwice(x, R16);
    ShakeTwice(x, R32);
    ShakeOut(x);
    ShakesCommute(c, R4, R32);
    ShakesCommute(b, R4, R16);
    ShakesCommute(a, R4, R8);
    hide Shake;
  }

  lemma Undoes21(x: U64)
    ensures Undo21(Shake(x, R21)) == x && Shake(Undo21(x), R21) == x
  {
    ShakeTwice(x, R21);
    ShakeTwice(x, R42);
    ShakeOut(x);
    ShakesCommute(Shake(x, R21), R21, R42);
    hide Shake;
  }

  lemma Undoes35(x: U64)
    ensures Shake(Shake(x, L35), L35) == x
  {
    ShakeTwice(x, L35);
    ShakeOut(x);
    hide Shake;
  }

  function Minus(a: U64, b: U64): U64 { a - b }

  lemma MinusPlus(a: U64, b: U64)
    ensures Minus(Plus(a, b), b) == a && Plus(Minus(a, b), b) == a
    ensures Plus(a, b) == Plus(b, a)
  {
    assert (a + b) - b == a && (a - b) + b == a && a + b == b + a;
  }

  /** The state before an update, from the state after it and the value. */
  function Undo(after: U64, value: U64): U64 { Undo21(Shake(Undo4(Minus(after, value)), L35)) }

  /** For each value the update is a bijection of the 64-bit state: `Undo` inverts it both ways. */
  lemma UpdateIsBijection(state: U64, value: U64)
    ensures Undo(Update(state, value), value) == state
    ensures Update(Undo(state, value), value) == state
  {
    hide Shake, Undo4, Undo21, Plus, Minus;
    MinusPlus(Mix(state), value);
    Undoes4(Shake(Shake(state, R21), L35));
    Undoes35(Shake(state, R21));
    Undoes21(state);
    var down := Minus(state, value);
    MinusPlus(state, value);
    Undoes4(down);
    Undoes35(Undo4(down));
    Undoes21(Shake(Undo4(down), L35));
  }

  lemma UpdateInjective(a: U64, b: U64, v: U64, w: U64)
    ensures Update(a, v) == Update(b, v) <==> a == b
    ensures Update(a, v) == Update(a, w) <==> v == w
  {
    hide Mix, Undo, Plus, Minus;
    UpdateIsBijection(a, v);
    UpdateIsBijection(b, v);
    MinusPlus(v, Mix(a));
    MinusPlus(w, Mix(a));
  }

  // ---------- hashes of whole lists ----------

  function UpdateAll(already: U64, values: seq<U64>): U64
    decreases |values|
  {
    if values == [] then already else UpdateAll(Update(already, values[0]), values[1..])
  }

  function Count(values: seq<U64>): U64 { UpdateAll(0, values) }

  method CountHash(values: seq<U64>) returns (result: U64)
    ensures result == Count(values)
  {
    result := 0;
    for i := 0 to |values|
      invariant UpdateAll(result, values[i..]) == Count(values)
    {
      hide Update;
      assert values[i..][1..] == values[i + 1..];
      result := HashUpdate(result, values[i]);
    }
  }

  lemma {:induction false} UpdateAllSplits(already: U64, p: seq<U64>, s: seq<U64>)
    ensures UpdateAll(already, p + s) == UpdateAll(UpdateAll(already, p), s)
    decreases |p|
  {
    hide Update;
    if p == [] {
      assert p + s == s;
    } else {
      assert (p + s)[1..] == p[1..] + s;
      UpdateAllSplits(Update(already, p[0]), p[1..], s);
    }
  }

  /** Updating with a whole list keeps different states different. */
  lemma {:induction false} UpdateAllInjective(a: U64, b: U64, s: seq<U64>)
    ensures UpdateAll(a, s) == UpdateAll(b, s) <==> a == b
    decreases |s|
  {
    hide Update;
    if s != [] {
      UpdateInjective(a, b, s[0], s[0]);
      UpdateAllInjective(Update(a, s[0]), Update(b, s[0]), s[1..]);
    }
  }

  /** Two lists that differ in one place have the same hash only if they do not differ there either. */
  lemma OneChangeShows(p: seq<U64>, x: U64, y: U64, s: seq<U64>)
    ensures Count(p + [x] + s) == Count(p + [y] + s) <==> x == y
  {
    hide Update;
    var h := UpdateAll(0, p);
    UpdateAllSplits(0, p + [x], s);
    UpdateAllSplits(0, p, [x]);
    UpdateAllSplits(0, p + [y], s);
    UpdateAllSplits(0, p, [y]);
    LastUpdate(h, x);
    LastUpdate(h, y);
    UpdateInjective(h, h, x, y);
    UpdateAllInjective(Update(h, x), Update(h, y), s);
  }

  lemma LastUpdate(h: U64, x: U64)
    ensures UpdateAll(h, [x]) == Update(h, x)
  {
    hide Update;
    assert [x][1..] == [];
  }

  /** The same for lists given by position. */
  lemma EqualHashesAgree(v: seq<U64>, w: seq<U64>, i: nat)
    requires |v| == |w| && i < |v|
    requires forall j :: 0 <= j < |v| && j != i ==> v[j] == w[j]
    ensures Count(v) == Count(w) <==> v == w
  {
    assert v == v[..i] + [v[i]] + v[i + 1..];
    assert w == v[..i] + [w[i]] + v[i + 1..];
    OneChangeShows(v[..i], v[i], w[i], v[i + 1..]);
    hide Count;
  }

  function UndoAll(after: U64, values: seq<U64>): U64
    decreases |values|
  {
    if values == [] then after else UndoAll(Undo(after, values[|values| - 1]), values[..|values| - 1])
  }

  /** A whole list's update is a bijection too: the state before it is recovered from the last value back. */
  lemma {:induction false} ListUpdateIsBijection(state: U64, values: seq<U64>)
    ensures UndoAll(UpdateAll(state, values), values) == state
    ensures UpdateAll(UndoAll(state, values), values) == state
    decreases |values|
  {
    hide Update, Undo;
    if values != [] {
      var n := |values| - 1;
      var p, x := values[..n], values[n];
      assert values == p + [x];
      UpdateAllSplits(state, p, [x]);
      LastUpdate(UpdateAll(state, p), x);
      UpdateIsBijection(UpdateAll(state, p), x);
      ListUpdateIsBijection(state, p);
      var earlier := Undo(state, x);
      ListUpdateIsBijection(earlier, p);
      UpdateAllSplits(UndoAll(state, values), p, [x]);
      LastUpdate(earlier, x);
      UpdateIsBijection(state, x);
    }
  }

  // ---------- the distances, in numbers ----------

  /** Each shift divides or multiplies by its power of two, on 64 bits. */
  lemma ShiftsArePowers(x: U64)
    ensures Shift(x, R4) == x / 0x10
    ensures Shift(x, R21) == x / 0x20_0000
    ensures Shift(x, L35) == x * 0x8_0000_0000
  {
    assert x >> 4 == x / 0x10;
    assert x >> 21 == x / 0x20_0000;
    assert x << 35 == x * 0x8_0000_0000;
  }

  /** One bit at place 21 reaches each of the three distances. */
  lemma HashOfOneBit(v: seq<U64>)
    requires v == [0x20_0000, 0]
    ensures Count(v) == 0x110_0008_8022_0001
  {
    assert v[1..] == [0] && v[1..][1..] == [];
    assert Update(0, 0x20_0000) == 0x20_0000 && Update(0x20_0000, 0) == 0x110_0008_8022_0001;
    hide Update;
    assert UpdateAll(0x20_0000, v[1..]) == UpdateAll(Update(0x20_0000, 0), v[1..][1..]);
  }
}
