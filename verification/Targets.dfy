/** The order of proof-of-work targets: a byte loop from the most significant end decides numeric order. */
module Targets {
  import opened Common
  import opened Words256

  type Bytes32 = s: seq<byte> | |s| == 32 witness seq(32, (i: nat) => 1)

  lemma {:induction false} TopDecides(low: nat, x: nat, y: nat, p: nat)
    requires low < p && x < y
    ensures low + x * p < y * p
  {
    assert y * p == x * p + (y - x) * p;
    TimesAtLeast(y - x, p);
  }

  lemma {:induction false} LessAtTop(a: seq<byte>, b: seq<byte>)
    requires |a| == |b| > 0 && a[|a| - 1] < b[|b| - 1]
    ensures LittleValue(a) < LittleValue(b)
  {
    var n := |a| - 1;
    LittleLast(a[..n], a[n]);
    LittleLast(b[..n], b[n]);
    assert a[..n] + [a[n]] == a && b[..n] + [b[n]] == b;
    LittleBound(a[..n]);
    TopDecides(LittleValue(a[..n]), a[n], b[n], Pow256(n));
  }

  lemma {:induction false} SameSuffix(a: seq<byte>, b: seq<byte>, i: nat)
    requires |a| == |b| && i <= |a| && a[i..] == b[i..]
    ensures LittleValue(a) - LittleValue(a[..i]) == LittleValue(b) - LittleValue(b[..i])
    decreases |a| - i
  {
    if i == |a| {
      assert a[..i] == a && b[..i] == b;
    } else {
      assert a[i] == a[i..][0] == b[i];
      assert a[i + 1..] == a[i..][1..] == b[i + 1..];
      SameSuffix(a, b, i + 1);
      LittleLast(a[..i], a[i]);
      LittleLast(b[..i], b[i]);
      assert a[..i + 1] == a[..i] + [a[i]] && b[..i + 1] == b[..i] + [b[i]];
    }
  }

  lemma {:induction false} DecidedAt(a: seq<byte>, b: seq<byte>, i: nat)
    requires |a| == |b| && i < |a| && a[i + 1..] == b[i + 1..] && a[i] < b[i]
    ensures LittleValue(a) < LittleValue(b)
  {
    SameSuffix(a, b, i + 1);
    LessAtTop(a[..i + 1], b[..i + 1]);
  }

  /** A hash meets a target exactly when it is numerically less than or equal to it. */
  method IsMetByLeHash(target: Bytes32, hash: Bytes32) returns (met: bool)
    ensures met <==> LittleValue(hash) <= LittleValue(target)
  {
    var i := 32;
    while i > 0
      invariant 0 <= i <= 32 && hash[i..] == target[i..]
    {
      i := i - 1;
      if hash[i] < target[i] {
        DecidedAt(hash, target, i);
        return true;
      }
      if hash[i] > target[i] {
        DecidedAt(target, hash, i);
        return false;
      }
      assert hash[i..] == [hash[i]] + hash[i + 1..] == target[i..];
    }
    assert hash[0..] == hash && target[0..] == target;
    return true;
  }

  /** One target includes another exactly when every hash that meets the other meets it too. */
  method Includes(a: Bytes32, b: Bytes32) returns (included: bool)
    ensures included <==>
              forall hash: Bytes32 :: LittleValue(hash) <= LittleValue(b) ==> LittleValue(hash) <= LittleValue(a)
  {
    included := IsMetByLeHash(a, b);
  }
}
