/** Optional values, shared by the component models. */
module Wrappers {

  datatype Option<+T> = None | Some(value: T)
}

/** Vectors, as the models of the policy and its data use them. */
module Vectors {

  type Vec = seq<real>

  /** The same element `n` times. */
  function Same<T>(n: nat, v: T): (r: seq<T>)
    ensures |r| == n
  {
    seq(n, _ => v)
  }
}

/** Bytes, and searching them. */
module Bytes {

  type byte = b: int | 0 <= b < 256

  const NEWLINE: byte := 10
  const CR: byte := 13

  /** The first position of `b` in `s`, or `|s|`. */
  function IndexOf(s: seq<byte>, b: byte): (i: nat)
    ensures i <= |s| && forall j :: 0 <= j < i ==> s[j] != b
    ensures i < |s| ==> s[i] == b
  {
    if s == [] || s[0] == b then 0
    else
      var i := IndexOf(s[1..], b);
      assert forall j :: 1 <= j < i + 1 ==> s[j] == s[1..][j - 1];
      1 + i
  }

  lemma NotFound(s: seq<byte>, b: byte)
    requires b !in s
    ensures IndexOf(s, b) == |s|
  {
  }

  lemma FoundAt(s: seq<byte>, b: byte, n: nat)
    requires n < |s| && s[n] == b && b !in s[..n]
    ensures IndexOf(s, b) == n
  {
    assert forall i :: 0 <= i < n ==> s[i] == s[..n][i];
  }

  function Sum(s: seq<byte>): nat {
    if s == [] then 0 else Sum(s[..|s| - 1]) + s[|s| - 1]
  }

  lemma WrappingAdd(a: nat, b: nat)
    ensures (a % 256 + b) % 256 == (a + b) % 256
  {
  }

  lemma {:induction false} SumAppend(a: seq<byte>, b: seq<byte>)
    ensures Sum(a + b) == Sum(a) + Sum(b)
  {
    if b == [] {
      assert a + b == a;
    } else {
      assert (a + b)[..|a + b| - 1] == a + b[..|b| - 1];
      SumAppend(a, b[..|b| - 1]);
    }
  }
}
