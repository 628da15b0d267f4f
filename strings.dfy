/**
 * The few Python string operations the search wrappers rely on: the
 * substring test `sub in s`, the prefix slice `s[:n]` and `sep.join(parts)`.
 * Strings are sequences of Unicode scalar values, as Python's `str` is a
 * sequence of code points, so lengths agree with Python's `len` for strings
 * without lone surrogates (which a Python `str` can hold and a `char` cannot).
 */
module Strings {

  /** `sub` occurs in `s` starting at position `i`. */
  predicate OccursAt(s: string, sub: string, i: nat) {
    i + |sub| <= |s| && s[i..i + |sub|] == sub
  }

  /** Python's `sub in s`. */
  predicate Contains(s: string, sub: string) {
    exists i: nat :: i <= |s| && OccursAt(s, sub, i)
  }

  /** A non-empty string never occurs in the empty string. */
  lemma EmptyContainsNothing(sub: string)
    requires sub != []
    ensures !Contains("", sub)
  {
  }

  /** Python's `s[:n]` for a non-negative `n`: the first `n` characters, or all of `s`. */
  function Truncate(s: string, n: nat): (p: string)
    ensures |p| == if |s| <= n then |s| else n
    ensures p <= s
    ensures |s| <= n ==> p == s
  {
    if |s| <= n then s else s[..n]
  }

  /** Python's `sep.join(parts)`. */
  function Join(parts: seq<string>, sep: string): string
  {
    if |parts| == 0 then ""
    else if |parts| == 1 then parts[0]
    else parts[0] + sep + Join(parts[1..], sep)
  }

  /** Total number of characters in `parts`. */
  function TotalLength(parts: seq<string>): nat
  {
    if |parts| == 0 then 0 else |parts[0]| + TotalLength(parts[1..])
  }

  /**
   * Joining one more part appends the separator and that part, except on an
   * empty list, where the part stands alone: parts keep their order.
   */
  lemma {:induction false} JoinSnoc(parts: seq<string>, last: string, sep: string)
    ensures Join(parts + [last], sep) == if parts == [] then last else Join(parts, sep) + sep + last
  {
    if |parts| == 0 {
      assert parts + [last] == [last];
    } else if |parts| == 1 {
      assert parts + [last] == [parts[0], last];
      assert (parts + [last])[1..] == [last];
    } else {
      var tail := parts[1..];
      assert (parts + [last])[0] == parts[0];
      assert (parts + [last])[1..] == tail + [last];
      JoinSnoc(tail, last, sep);
      calc {
        Join(parts + [last], sep);
        parts[0] + sep + Join(tail + [last], sep);
        parts[0] + sep + (Join(tail, sep) + sep + last);
        (parts[0] + sep + Join(tail, sep)) + sep + last;
        Join(parts, sep) + sep + last;
      }
    }
  }

  /** The joined text holds every character of the parts and one separator between each neighbouring pair. */
  lemma {:induction false} JoinLength(parts: seq<string>, sep: string)
    ensures |Join(parts, sep)| == if parts == [] then 0 else TotalLength(parts) + |sep| * (|parts| - 1)
  {
    if |parts| > 1 {
      JoinLength(parts[1..], sep);
      assert TotalLength(parts) == |parts[0]| + TotalLength(parts[1..]);
    } else if |parts| == 1 {
      assert TotalLength(parts) == |parts[0]| + TotalLength(parts[1..]);
    }
  }

  /** Parts no longer than `bound` give a total length of at most `bound` per part. */
  lemma {:induction false} TotalLengthBound(parts: seq<string>, bound: nat)
    requires forall k :: 0 <= k < |parts| ==> |parts[k]| <= bound
    ensures TotalLength(parts) <= bound * |parts|
  {
    if |parts| > 0 {
      TotalLengthBound(parts[1..], bound);
    }
  }
}
