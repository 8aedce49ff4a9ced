/**
  The three `java.lang.String` operations the merger relies on, on `seq<char>`:
  `trim()`, `startsWith(prefix)` and `replace(target, replacement)`, the last
  one through `indexOf` exactly as the JDK implements it (find the leftmost
  occurrence, emit the replacement, continue after the occurrence).
 */
module JavaStrings {
  import opened Outcomes

  /** `String.trim()` removes every leading and trailing char up to U+0020. */
  predicate IsTrimmable(c: char) {
    c <= ' '
  }

  predicate AllTrimmable(s: string) {
    forall k :: 0 <= k < |s| ==> IsTrimmable(s[k])
  }

  /** Neither end of `s` can be trimmed any further. */
  predicate IsTrimmed(s: string) {
    s == [] || (!IsTrimmable(s[0]) && !IsTrimmable(s[|s| - 1]))
  }

  /** `r` is `s` with some trimmable prefix and some trimmable suffix removed. */
  predicate IsPaddedBy(s: string, r: string, lead: nat) {
    && lead + |r| <= |s|
    && s[lead..lead + |r|] == r
    && AllTrimmable(s[..lead])
    && AllTrimmable(s[lead + |r|..])
  }

  /** Java `String.trim()`. */
  function Trim(s: string): (r: string)
    ensures IsTrimmed(r)
    ensures exists lead: nat :: IsPaddedBy(s, r, lead)
    ensures IsTrimmed(s) ==> r == s
    decreases |s|
  {
    if |s| > 0 && IsTrimmable(s[0]) then
      var r := Trim(s[1..]);
      ghost var lead: nat :| IsPaddedBy(s[1..], r, lead);
      PaddedByMore(s, r, lead);
      r
    else if |s| > 0 && IsTrimmable(s[|s| - 1]) then
      var r := Trim(s[..|s| - 1]);
      ghost var lead: nat :| IsPaddedBy(s[..|s| - 1], r, lead);
      PaddedByMoreAtEnd(s, r, lead);
      r
    else
      assert IsPaddedBy(s, s, 0) by {
        assert s[..0] == [];
        assert s[|s|..] == [];
      }
      s
  }

  lemma PaddedByMore(s: string, r: string, lead: nat)
    requires |s| > 0 && IsTrimmable(s[0])
    requires IsPaddedBy(s[1..], r, lead)
    ensures IsPaddedBy(s, r, lead + 1)
  {
    assert s[lead + 1..lead + 1 + |r|] == s[1..][lead..lead + |r|];
    assert s[..lead + 1] == [s[0]] + s[1..][..lead];
    assert s[lead + 1 + |r|..] == s[1..][lead + |r|..];
  }

  lemma PaddedByMoreAtEnd(s: string, r: string, lead: nat)
    requires |s| > 0 && IsTrimmable(s[|s| - 1])
    requires IsPaddedBy(s[..|s| - 1], r, lead)
    ensures IsPaddedBy(s, r, lead)
  {
    assert s[lead..lead + |r|] == s[..|s| - 1][lead..lead + |r|];
    assert s[..lead] == s[..|s| - 1][..lead];
    assert s[lead + |r|..] == s[..|s| - 1][lead + |r|..] + [s[|s| - 1]];
  }

  /** Java `String.startsWith(prefix)`. */
  predicate StartsWith(s: string, prefix: string) {
    |prefix| <= |s| && s[..|prefix|] == prefix
  }

  /** `t` occurs in `s` at index `i`. */
  predicate OccursAt(s: string, t: string, i: nat) {
    i + |t| <= |s| && s[i..i + |t|] == t
  }

  predicate Contains(s: string, t: string) {
    exists i: nat | i <= |s| :: OccursAt(s, t, i)
  }

  lemma OccursAtTail(s: string, t: string, i: nat)
    requires |s| > 0
    ensures OccursAt(s, t, i + 1) <==> OccursAt(s[1..], t, i)
  {
    if i + 1 + |t| <= |s| {
      assert s[i + 1..i + 1 + |t|] == s[1..][i..i + |t|];
    }
  }

  /** An occurrence inside a prefix of `s` is an occurrence in `s`. */
  lemma OccursInPrefix(s: string, n: nat, t: string, j: nat)
    requires n <= |s|
    requires OccursAt(s[..n], t, j)
    ensures OccursAt(s, t, j)
  {
    assert s[j..j + |t|] == s[..n][j..j + |t|];
  }

  /** Java `String.indexOf(t)`: the leftmost occurrence of `t` in `s`, if any. */
  function IndexOf(s: string, t: string): (r: Option<nat>)
    ensures r.Some? ==> OccursAt(s, t, r.value)
    ensures r.Some? ==> forall j: nat :: j < r.value ==> !OccursAt(s, t, j)
    ensures r.None? <==> !Contains(s, t)
    decreases |s|
  {
    if |s| < |t| then
      None
    else if s[..|t|] == t then
      assert OccursAt(s, t, 0);
      Some(0)
    else
      assert !OccursAt(s, t, 0);
      match IndexOf(s[1..], t)
      case None =>
        assert forall j: nat :: !OccursAt(s, t, j) by {
          forall j: nat ensures !OccursAt(s, t, j) {
            if j > 0 {
              OccursAtTail(s, t, j - 1);
            }
          }
        }
        None
      case Some(i) =>
        OccursAtTail(s, t, i);
        assert forall j: nat :: j < i + 1 ==> !OccursAt(s, t, j) by {
          forall j: nat | j < i + 1 ensures !OccursAt(s, t, j) {
            if j > 0 {
              OccursAtTail(s, t, j - 1);
            }
          }
        }
        Some(i + 1)
  }

  /** Java `String.replace(t, r)` for a non-empty target: every non-overlapping
      occurrence of `t`, scanned left to right, becomes `r`. */
  function Replace(s: string, t: string, r: string): string
    requires |t| > 0
    decreases |s|
  {
    match IndexOf(s, t)
    case None => s
    case Some(i) => s[..i] + r + Replace(s[i + |t|..], t, r)
  }

  /** The pieces joined back together with `sep` between neighbours. */
  function Join(pieces: seq<string>, sep: string): string
    decreases |pieces|
  {
    if |pieces| == 0 then []
    else if |pieces| == 1 then pieces[0]
    else pieces[0] + sep + Join(pieces[1..], sep)
  }

  /** The first occurrence of `t` in `piece + t` is the appended one: `piece`
      is a stretch the left-to-right scan crosses without a match. */
  predicate EndsAtFirstMatch(piece: string, t: string) {
    IndexOf(piece + t, t) == Some(|piece|)
  }

  /**
    The cut of `s` at the occurrences of `t` that the left-to-right scan of
    `replace` matches: joining the pieces with `t` gives back `s`, every piece
    but the last ends at the first match, and the last holds no match at all.
   */
  function Split(s: string, t: string): (pieces: seq<string>)
    requires |t| > 0
    ensures |pieces| > 0
    ensures Join(pieces, t) == s
    ensures forall k :: 0 <= k < |pieces| - 1 ==> EndsAtFirstMatch(pieces[k], t)
    ensures !Contains(pieces[|pieces| - 1], t)
    decreases |s|
  {
    match IndexOf(s, t)
    case None => [s]
    case Some(i) =>
      var rest := Split(s[i + |t|..], t);
      assert s == s[..i] + t + s[i + |t|..];
      FirstMatchOfPrefix(s, t, i);
      [s[..i]] + rest
  }

  lemma FirstMatchOfPrefix(s: string, t: string, i: nat)
    requires OccursAt(s, t, i)
    requires forall j: nat :: j < i ==> !OccursAt(s, t, j)
    ensures EndsAtFirstMatch(s[..i], t)
  {
    var p := s[..i] + t;
    assert p == s[..i + |t|] by {
      assert s[..i + |t|] == s[..i] + s[i..i + |t|];
    }
    assert OccursAt(p, t, i) by {
      assert p[i..i + |t|] == t;
    }
    forall j: nat | j < i
      ensures !OccursAt(p, t, j)
    {
      OccursInPrefixContra(s, i + |t|, t, j);
    }
    LeftmostIsIndexOf(p, t, i);
  }

  lemma OccursInPrefixContra(s: string, n: nat, t: string, j: nat)
    requires n <= |s|
    requires !OccursAt(s, t, j)
    ensures !OccursAt(s[..n], t, j)
  {
    if OccursAt(s[..n], t, j) {
      OccursInPrefix(s, n, t, j);
    }
  }

  /** An occurrence with none before it is the one `indexOf` finds. */
  lemma LeftmostIsIndexOf(s: string, t: string, i: nat)
    requires OccursAt(s, t, i)
    requires forall j: nat :: j < i ==> !OccursAt(s, t, j)
    ensures IndexOf(s, t) == Some(i)
  {
    assert Contains(s, t);
    var r := IndexOf(s, t);
    assert r.Some?;
    assert !(r.value < i);
    assert !(r.value > i);
  }

  /** `replace` is the split at the scanned matches, re-joined with the
      replacement: every matched occurrence, and only those, is replaced. */
  lemma {:induction false} ReplaceJoinsSplit(s: string, t: string, r: string)
    requires |t| > 0
    ensures Replace(s, t, r) == Join(Split(s, t), r)
    decreases |s|
  {
    match IndexOf(s, t)
    case None =>
    case Some(i) =>
      var rest := s[i + |t|..];
      ReplaceJoinsSplit(rest, t, r);
      var tail := Split(rest, t);
      assert Split(s, t) == [s[..i]] + tail;
      assert ([s[..i]] + tail)[1..] == tail;
  }
}
