/**
 * The post-pass that drops trailing fill bytes from an image buffer before it
 * is written out (`FLASH_ENDING_SIZE`, `FLASH_WRITES_ENDING_SIZE`).
 */
module Trim {
  import opened Bytes

  /** The length of `s` without its trailing run of fill bytes. */
  function TrimLength(s: seq<Byte>): (n: nat)
    ensures n <= |s|
  {
    if |s| > 0 && s[|s| - 1] == FILL then TrimLength(s[..|s| - 1]) else |s|
  }

  /** `n` cuts `s` just after its last byte that is not the fill byte. */
  predicate IsTrimPoint(s: seq<Byte>, n: nat)
  {
    n <= |s| &&
    (forall i :: n <= i < |s| ==> s[i] == FILL) &&
    (n == 0 || s[n - 1] != FILL)
  }

  /** `TrimLength` is the one and only trim point of `s`. */
  lemma {:induction false} TrimLengthIsTrimPoint(s: seq<Byte>, n: nat)
    ensures IsTrimPoint(s, TrimLength(s))
    ensures IsTrimPoint(s, n) ==> n == TrimLength(s)
    decreases |s|
  {
    if |s| > 0 && s[|s| - 1] == FILL {
      var p := s[..|s| - 1];
      TrimLengthIsTrimPoint(p, n);
      if IsTrimPoint(s, n) {
        assert n < |s|;
        assert IsTrimPoint(p, n);
      }
    }
  }

  /** A buffer of fill bytes only trims to nothing. */
  lemma AllFillTrimsToZero(s: seq<Byte>)
    requires forall i :: 0 <= i < |s| ==> s[i] == FILL
    ensures TrimLength(s) == 0
  {
    TrimLengthIsTrimPoint(s, 0);
  }

  /** A buffer whose only content byte is at `k` trims to `k + 1` bytes. */
  lemma SingleContentByte(s: seq<Byte>, k: nat)
    requires k < |s| && s[k] != FILL
    requires forall i :: 0 <= i < |s| && i != k ==> s[i] == FILL
    ensures TrimLength(s) == k + 1
  {
    TrimLengthIsTrimPoint(s, k + 1);
  }

  /**
   * The trimming loop: move the end back while the byte before it is the fill
   * byte. The script tests the byte before it tests the end (reading the last
   * byte through a negative index when the end is 0, harmlessly, as the
   * conjunction is false then); the model tests the end first.
   */
  method TrimmedLength(a: array<Byte>) returns (n: nat)
    ensures n == TrimLength(a[..])
    ensures IsTrimPoint(a[..], n)
  {
    n := a.Length;
    assert a[..n] == a[..];
    while n > 0 && a[n - 1] == FILL
      invariant n <= a.Length
      invariant TrimLength(a[..n]) == TrimLength(a[..])
    {
      assert a[..n][..n - 1] == a[..n - 1];
      n := n - 1;
    }
    assert a[..n] == a[..][..n];
    TrimLengthIsTrimPoint(a[..], n);
    TrimLengthIsTrimPoint(a[..n], n);
  }
}
