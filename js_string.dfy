/**
 * The ECMAScript string operations the core uses: `toLowerCase`,
 * `indexOf`/`includes`, `split` (with `join` to state what it does) on a string separator,
 * `replace` of a first occurrence, a global one-character `replace`,
 * and the `a || b` fallback on possibly absent strings.
 */
module JsString {
  import opened Wrappers

  /** `toLowerCase` on one character: ASCII and Latin-1 capitals (see README for the rest of Unicode). */
  function LowerChar(c: char): (l: char)
    ensures 'a' <= c <= 'z' || '0' <= c <= '9' || c == ' ' || c == '.' || c == '-' ==> l == c
  {
    if 'A' <= c <= 'Z' || ('\U{00C0}' <= c <= '\U{00DE}' && c != '\U{00D7}') then (c as int + 32) as char
    else c
  }

  function Lower(s: string): (l: string)
    ensures |l| == |s| && forall i :: 0 <= i < |s| ==> l[i] == LowerChar(s[i])
  {
    seq(|s|, i requires 0 <= i < |s| => LowerChar(s[i]))
  }

  /** Lower-casing twice is lower-casing once. */
  lemma LowerIdempotent(s: string)
    ensures Lower(Lower(s)) == Lower(s)
  {
    forall i | 0 <= i < |s| ensures LowerChar(LowerChar(s[i])) == LowerChar(s[i]) {
      var c := s[i];
      if 'A' <= c <= 'Z' {
        assert 'a' <= LowerChar(c) <= 'z';
      }
    }
  }

  /** A string whose characters `toLowerCase` leaves alone is its own lower case. */
  lemma LowerIdentity(s: string)
    requires forall i :: 0 <= i < |s| ==> LowerChar(s[i]) == s[i]
    ensures Lower(s) == s
  {
  }

  predicate OccursAt(s: string, p: string, i: int)
  {
    0 <= i && i + |p| <= |s| && s[i..i + |p|] == p
  }

  /** `s.indexOf(p, from)`: the first position at or after `from` where `p` occurs. */
  function IndexOfFrom(s: string, p: string, from: nat): (r: Option<nat>)
    ensures r.Some? ==> from <= r.value && OccursAt(s, p, r.value)
    ensures r.Some? ==> forall j :: from <= j < r.value ==> !OccursAt(s, p, j)
    ensures r.None? ==> forall j :: from <= j ==> !OccursAt(s, p, j)
    decreases |s| - from
  {
    if from + |p| > |s| then None
    else if s[from..from + |p|] == p then Some(from)
    else IndexOfFrom(s, p, from + 1)
  }

  function IndexOf(s: string, p: string): Option<nat>
  {
    IndexOfFrom(s, p, 0)
  }

  /** `s.includes(p)`: p occurs somewhere in s. */
  function Includes(s: string, p: string): (b: bool)
    ensures b <==> exists i :: OccursAt(s, p, i)
  {
    IndexOf(s, p).Some?
  }

  /** A string none of whose characters is the first character of p does not contain p. */
  lemma NotIncludes(s: string, p: string)
    requires p != [] && forall i :: 0 <= i < |s| ==> s[i] != p[0]
    ensures !Includes(s, p)
  {
    forall i | 0 <= i
      ensures !OccursAt(s, p, i)
    {
      if i + |p| <= |s| {
        assert s[i..i + |p|][0] == s[i];
      }
    }
  }

  /** `parts.join(sep)`. */
  function Join(parts: seq<string>, sep: string): string
  {
    if parts == [] then ""
    else if |parts| == 1 then parts[0]
    else parts[0] + sep + Join(parts[1..], sep)
  }

  lemma NoOccurrenceBefore(s: string, p: string, i: nat)
    requires p != [] && i <= |s|
    requires forall j :: 0 <= j < i ==> !OccursAt(s, p, j)
    ensures !Includes(s[..i], p)
  {
    forall j | 0 <= j
      ensures !OccursAt(s[..i], p, j)
    {
      if j + |p| <= i {
        assert s[..i][j..j + |p|] == s[j..j + |p|];
        assert j < i;
        assert !OccursAt(s, p, j);
      }
    }
  }

  /**
   * `s.split(sep)` for a non-empty separator: the pieces between the
   * occurrences of sep found from left to right. Joining them with sep gives
   * back s, and no piece contains sep.
   */
  function Split(s: string, sep: string): (parts: seq<string>)
    requires sep != []
    ensures |parts| >= 1 && Join(parts, sep) == s
    ensures forall k :: 0 <= k < |parts| ==> !Includes(parts[k], sep)
    ensures |parts| > 1 ==> IndexOf(s, sep) == Some(|parts[0]|)
    decreases |s|
  {
    match IndexOf(s, sep)
    case None => [s]
    case Some(i) =>
      NoOccurrenceBefore(s, sep, i);
      var rest := Split(s[i + |sep|..], sep);
      assert s == s[..i] + sep + s[i + |sep|..];
      [s[..i]] + rest
  }

  /** A first piece free of the separator's first character is split off at the first separator. */
  lemma SplitAfterFirst(a: string, sep: string, rest: string)
    requires sep != [] && forall i :: 0 <= i < |a| ==> a[i] != sep[0]
    ensures Split(a + sep + rest, sep) == [a] + Split(rest, sep)
  {
    var s := a + sep + rest;
    assert OccursAt(s, sep, |a|);
    forall j | 0 <= j < |a|
      ensures !OccursAt(s, sep, j)
    {
      if j + |sep| <= |s| {
        assert s[j..j + |sep|][0] == s[j];
      }
    }
    assert IndexOf(s, sep) == Some(|a|);
    assert s[|a| + |sep|..] == rest;
    assert s[..|a|] == a;
  }

  /** A string that does not contain the separator splits into itself alone. */
  lemma SplitNone(s: string, sep: string)
    requires sep != [] && !Includes(s, sep)
    ensures Split(s, sep) == [s]
  {
  }

  /** `s.replace(p, r)` with a string pattern: only the first occurrence is replaced. */
  function ReplaceFirst(s: string, p: string, r: string): (t: string)
    ensures !Includes(s, p) ==> t == s
    ensures Includes(s, p) ==> var i := IndexOf(s, p).value;
      OccursAt(s, p, i) && (forall j :: 0 <= j < i ==> !OccursAt(s, p, j)) && t == s[..i] + r + s[i + |p|..]
  {
    match IndexOf(s, p)
    case None => s
    case Some(i) => s[..i] + r + s[i + |p|..]
  }

  /** `s.replace(/c/g, d)` for a single character c. */
  function ReplaceAllChar(s: string, c: char, d: char): (t: string)
    ensures |t| == |s|
    ensures forall i :: 0 <= i < |s| ==> t[i] == if s[i] == c then d else s[i]
  {
    if s == [] then [] else [if s[0] == c then d else s[0]] + ReplaceAllChar(s[1..], c, d)
  }

  /** `v || fallback` for a field that is a string or absent: an empty string is falsy too. */
  function Or(v: Option<string>, fallback: string): (r: string)
    ensures r == fallback || (v.Some? && r == v.value && r != "")
    ensures v.Some? && v.value != "" ==> r == v.value
  {
    if v.Some? && v.value != "" then v.value else fallback
  }
}
