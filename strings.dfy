/** String helpers shared by the crawler and the chatbot: Python's `sep.join(xs)` and `s.startswith(p)`. */
module Strings {

  /** Python's `sep.join(xs)`: the elements in order with `sep` between neighbours. */
  function Join(sep: string, xs: seq<string>): (r: string)
    ensures xs == [] ==> r == ""
    ensures xs != [] ==> StartsWith(r, xs[0]) && EndsWith(r, xs[|xs| - 1])
  {
    if xs == [] then ""
    else if |xs| == 1 then xs[0]
    else xs[0] + sep + Join(sep, xs[1..])
  }

  /** The position in `Join(sep, xs)` at which element `k` starts. */
  function Offset(sep: string, xs: seq<string>, k: nat): nat
    requires k <= |xs|
  {
    if k == 0 then 0 else |xs[0]| + |sep| + Offset(sep, xs[1..], k - 1)
  }

  /** Python's `s.startswith(prefix)`. */
  predicate StartsWith(s: string, prefix: string): (b: bool)
    ensures b <==> prefix <= s
  {
    |prefix| <= |s| && s[..|prefix|] == prefix
  }

  /** Python's `s.endswith(suffix)`. */
  predicate EndsWith(s: string, suffix: string)
  {
    |suffix| <= |s| && s[|s| - |suffix|..] == suffix
  }

  /** `part` stands in `s` starting at position `i`. */
  predicate OccursAt(s: string, part: string, i: int)
  {
    0 <= i <= |s| - |part| && s[i..i + |part|] == part
  }

  /** `part` occurs in `s` as a contiguous substring (Python's `part in s`). */
  predicate Contains(s: string, part: string)
  {
    exists i :: 0 <= i <= |s| && OccursAt(s, part, i)
  }

  /** Element `k` of `xs` sits verbatim in `Join(sep, xs)`, starting at `Offset(sep, xs, k)`. */
  lemma {:induction false} JoinElementAt(sep: string, xs: seq<string>, k: nat)
    requires k < |xs|
    ensures Offset(sep, xs, k) + |xs[k]| <= |Join(sep, xs)|
    ensures Join(sep, xs)[Offset(sep, xs, k)..Offset(sep, xs, k) + |xs[k]|] == xs[k]
  {
    if k > 0 {
      JoinElementAt(sep, xs[1..], k - 1);
      var head := xs[0] + sep;
      var tail := Join(sep, xs[1..]);
      assert Join(sep, xs) == head + tail;
      var o := Offset(sep, xs[1..], k - 1);
      assert (head + tail)[|head| + o..|head| + o + |xs[k]|] == tail[o..o + |xs[k]|];
    }
  }

  /** Between element `k` and element `k + 1` of `Join(sep, xs)` stands exactly one `sep`. */
  lemma {:induction false} JoinSeparatorAt(sep: string, xs: seq<string>, k: nat)
    requires k + 1 < |xs|
    ensures Offset(sep, xs, k) + |xs[k]| + |sep| == Offset(sep, xs, k + 1) <= |Join(sep, xs)|
    ensures Join(sep, xs)[Offset(sep, xs, k) + |xs[k]|..Offset(sep, xs, k + 1)] == sep
  {
    if k == 0 {
      JoinLength(sep, xs[1..]);
    } else {
      JoinSeparatorAt(sep, xs[1..], k - 1);
      var head := xs[0] + sep;
      var tail := Join(sep, xs[1..]);
      assert Join(sep, xs) == head + tail;
      var o := Offset(sep, xs[1..], k - 1) + |xs[k]|;
      assert (head + tail)[|head| + o..|head| + o + |sep|] == tail[o..o + |sep|];
    }
  }

  /** `Join(sep, xs)` ends exactly where its last element ends; joining nothing gives "". */
  lemma {:induction false} JoinLength(sep: string, xs: seq<string>)
    ensures xs == [] ==> Join(sep, xs) == ""
    ensures xs != [] ==> |Join(sep, xs)| == Offset(sep, xs, |xs| - 1) + |xs[|xs| - 1]|
  {
    if |xs| > 1 {
      JoinLength(sep, xs[1..]);
    }
  }

  /** Every element of `xs` occurs verbatim in `Join(sep, xs)`. */
  lemma JoinContainsElements(sep: string, xs: seq<string>)
    ensures forall k :: 0 <= k < |xs| ==> Contains(Join(sep, xs), xs[k])
  {
    forall k | 0 <= k < |xs|
      ensures Contains(Join(sep, xs), xs[k])
    {
      JoinElementAt(sep, xs, k);
      assert OccursAt(Join(sep, xs), xs[k], Offset(sep, xs, k));
    }
  }

  /** A substring of a substring is a substring of the whole. */
  lemma ContainsInSlice(s: string, i: nat, j: nat, part: string)
    requires i <= j <= |s|
    requires Contains(s[i..j], part)
    ensures Contains(s, part)
  {
    var p :| 0 <= p <= j - i && OccursAt(s[i..j], part, p);
    assert 0 <= p && p + |part| <= j - i;
    forall t | 0 <= t < |part|
      ensures s[i + p..i + p + |part|][t] == part[t]
    {
      assert s[i..j][p..p + |part|][t] == part[t];
    }
    assert OccursAt(s, part, i + p);
  }
}
