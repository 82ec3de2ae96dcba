/** The PHP string built-ins the plugin relies on: trim(), explode() with a
    one-character separator, strpos(...) !== false and str_replace(..., '', ...). */
module PhpStrings {

  /** The characters trim() strips by default: " \t\n\r\0\x0B". */
  predicate IsTrimChar(c: char) {
    c == ' ' || c == '\t' || c == '\n' || c == '\r' || c == '\0' || c as int == 11
  }

  function TrimLeft(s: string): (r: string)
    ensures |r| <= |s| && r == s[|s| - |r|..]
    ensures r == [] || !IsTrimChar(r[0])
    ensures forall i :: 0 <= i < |s| - |r| ==> IsTrimChar(s[i])
  {
    if s != [] && IsTrimChar(s[0]) then TrimLeft(s[1..]) else s
  }

  function TrimRight(s: string): (r: string)
    ensures |r| <= |s| && r == s[..|r|]
    ensures r == [] || !IsTrimChar(r[|r| - 1])
    ensures forall i :: |r| <= i < |s| ==> IsTrimChar(s[i])
  {
    if s != [] && IsTrimChar(s[|s| - 1]) then TrimRight(s[..|s| - 1]) else s
  }

  /** `r` is the infix of `s` starting at `a`, and every character of `s`
      before or after it is a trim character. */
  ghost predicate TrimmedAt(s: string, a: int, r: string) {
    0 <= a <= |s| - |r| && r == s[a..a + |r|] &&
    forall i :: 0 <= i < |s| && (i < a || a + |r| <= i) ==> IsTrimChar(s[i])
  }

  /** Cutting trim characters off the left end (leaving `l`) and then off the
      right end (leaving `r`) leaves an infix of `s` with only trim characters
      around it. */
  lemma TrimCut(s: string, l: string, r: string)
    requires |l| <= |s| && l == s[|s| - |l|..]
    requires forall i :: 0 <= i < |s| - |l| ==> IsTrimChar(s[i])
    requires |r| <= |l| && r == l[..|r|]
    requires forall i :: |r| <= i < |l| ==> IsTrimChar(l[i])
    ensures TrimmedAt(s, |s| - |l|, r)
  {
    var a := |s| - |l|;
    assert r == s[a..a + |r|];
    forall i | 0 <= i < |s| && (i < a || a + |r| <= i) ensures IsTrimChar(s[i]) {
      if a + |r| <= i {
        assert s[i] == l[i - a];
      }
    }
  }

  /** trim($s): an infix of `s` that neither starts nor ends with a trim
      character (TrimCutsOnlyTrimChars states which infix). */
  function Trim(s: string): (r: string)
    ensures r == [] || (!IsTrimChar(r[0]) && !IsTrimChar(r[|r| - 1]))
    ensures |r| <= |s|
    ensures (forall i :: 0 <= i < |s| ==> !IsTrimChar(s[i])) ==> r == s
  {
    TrimRight(TrimLeft(s))
  }

  /** trim($s) is the infix of `s` left after cutting trim characters, and
      nothing else, from both ends. */
  lemma TrimCutsOnlyTrimChars(s: string)
    ensures exists a :: TrimmedAt(s, a, Trim(s))
  {
    var l := TrimLeft(s);
    TrimCut(s, l, TrimRight(l));
    assert TrimmedAt(s, |s| - |l|, Trim(s));
  }

  /** A string that already neither starts nor ends with a trim character is its own trim. */
  lemma TrimOfTrimmed(s: string)
    requires s == [] || (!IsTrimChar(s[0]) && !IsTrimChar(s[|s| - 1]))
    ensures Trim(s) == s
  {
  }

  /** Every character of an infix occurs in the whole. */
  lemma InfixChars(s: string, a: nat, r: string)
    requires a + |r| <= |s| && r == s[a..a + |r|]
    ensures forall c :: c in r ==> c in s
  {
    forall c | c in r ensures c in s {
      var i :| 0 <= i < |r| && r[i] == c;
      assert s[a + i] == c;
    }
  }

  /** trim() only removes characters: it adds none. */
  lemma TrimAddsNoChar(s: string)
    ensures forall c :: c in Trim(s) ==> c in s
  {
    var r := Trim(s);
    TrimCutsOnlyTrimChars(s);
    var a :| TrimmedAt(s, a, r);
    InfixChars(s, a, r);
  }

  /** trim() is idempotent. */
  lemma TrimIdempotent(s: string)
    ensures Trim(Trim(s)) == Trim(s)
  {
    TrimOfTrimmed(Trim(s));
  }

  /** explode($sep, $s): split at every occurrence of `sep`, keeping empty pieces
      (a leading, doubled or trailing separator yields ""). */
  function Explode(sep: char, s: string): (parts: seq<string>)
    ensures |parts| >= 1
  {
    if s == [] then [""]
    else
      var rest := Explode(sep, s[1..]);
      if s[0] == sep then [""] + rest
      else [[s[0]] + rest[0]] + rest[1..]
  }

  /** implode($sep, $parts), the inverse of Explode. */
  function Join(sep: char, parts: seq<string>): string
    requires |parts| >= 1
  {
    if |parts| == 1 then parts[0] else parts[0] + [sep] + Join(sep, parts[1..])
  }

  /** No piece of explode() contains the separator. */
  lemma {:induction false} ExplodePiecesAreSeparatorFree(sep: char, s: string)
    ensures forall i :: 0 <= i < |Explode(sep, s)| ==> sep !in Explode(sep, s)[i]
  {
    if s != [] {
      ExplodePiecesAreSeparatorFree(sep, s[1..]);
    }
  }

  /** explode() yields one piece more than there are separators in `s`. */
  lemma {:induction false} ExplodeCount(sep: char, s: string)
    ensures |Explode(sep, s)| == multiset(s)[sep] + 1
  {
    if s != [] {
      ExplodeCount(sep, s[1..]);
      assert s == [s[0]] + s[1..];
      assert multiset(s) == multiset{s[0]} + multiset(s[1..]);
    }
  }

  /** Joining the pieces back with the separator gives the original string. */
  lemma {:induction false} JoinExplode(sep: char, s: string)
    ensures Join(sep, Explode(sep, s)) == s
  {
    if s != [] {
      var rest := Explode(sep, s[1..]);
      JoinExplode(sep, s[1..]);
      if s[0] == sep {
        assert ([""] + rest)[1..] == rest;
      } else {
        var parts := [[s[0]] + rest[0]] + rest[1..];
        if |rest| > 1 {
          assert parts[1..] == rest[1..];
          assert Join(sep, rest) == rest[0] + [sep] + Join(sep, rest[1..]);
        }
      }
    }
  }

  lemma {:induction false} ExplodeSeparatorFree(sep: char, p: string)
    requires sep !in p
    ensures Explode(sep, p) == [p]
  {
    if p != [] {
      ExplodeSeparatorFree(sep, p[1..]);
      assert p == [p[0]] + p[1..];
    }
  }

  lemma {:induction false} ExplodeAfterPiece(sep: char, p: string, t: string)
    requires sep !in p
    ensures Explode(sep, p + [sep] + t) == [p] + Explode(sep, t)
  {
    if p == [] {
      assert p + [sep] + t == [sep] + t;
      assert ([sep] + t)[1..] == t;
    } else {
      assert (p + [sep] + t)[1..] == p[1..] + [sep] + t;
      ExplodeAfterPiece(sep, p[1..], t);
      assert p == [p[0]] + p[1..];
    }
  }

  /** Exploding a join of separator-free pieces gives the pieces back. */
  lemma {:induction false} ExplodeJoin(sep: char, parts: seq<string>)
    requires |parts| >= 1
    requires forall i :: 0 <= i < |parts| ==> sep !in parts[i]
    ensures Explode(sep, Join(sep, parts)) == parts
  {
    if |parts| == 1 {
      ExplodeSeparatorFree(sep, parts[0]);
    } else {
      ExplodeJoin(sep, parts[1..]);
      ExplodeAfterPiece(sep, parts[0], Join(sep, parts[1..]));
    }
  }

  /** strpos($s, $p) !== false: `p` occurs somewhere in `s`. */
  predicate Contains(s: string, p: string)
    decreases |s|
  {
    |p| <= |s| && (s[..|p|] == p || Contains(s[1..], p))
  }

  /** str_replace($p, '', $s): one left-to-right scan removing every
      non-overlapping occurrence of `p`; an empty `p` leaves `s` as it is. */
  function RemoveAll(s: string, p: string): (r: string)
    ensures |r| <= |s|
    decreases |s|
  {
    if p == [] || |s| < |p| then s
    else if s[..|p|] == p then RemoveAll(s[|p|..], p)
    else [s[0]] + RemoveAll(s[1..], p)
  }

  /** str_replace() changes the string exactly when the pattern occurs in it. */
  lemma {:induction false} RemoveAllChangesIffContains(s: string, p: string)
    requires p != []
    ensures RemoveAll(s, p) == s <==> !Contains(s, p)
    decreases |s|
  {
    if |s| >= |p| {
      RemoveAllChangesIffContains(s[1..], p);
      if s[..|p|] == p {
        assert |RemoveAll(s, p)| < |s|;
      } else if Contains(s[1..], p) {
        assert RemoveAll(s, p)[1..] == RemoveAll(s[1..], p);
      } else {
        assert s == [s[0]] + s[1..];
      }
    }
  }

  /** A string that starts with `p` loses that prefix and is then scanned on. */
  lemma RemoveAllAfterPrefix(p: string, s: string)
    requires p != []
    ensures RemoveAll(p + s, p) == RemoveAll(s, p)
  {
    assert (p + s)[..|p|] == p;
    assert (p + s)[|p|..] == s;
  }

  /** A string that does not start with `p` keeps its first character. */
  lemma RemoveAllKeepsHead(t: string, p: string)
    requires p != [] && |p| <= |t| && t[..|p|] != p
    ensures RemoveAll(t, p) == [t[0]] + RemoveAll(t[1..], p)
  {
  }

  /** If `p` does not occur in `a + p[..|p| - 1]` (with `a` non-empty), then
      `a + p + b` does not start with `p`, and neither does any later start
      inside `a`. */
  lemma NoEarlierOccurrence(a: string, p: string, b: string)
    requires p != [] && a != [] && !Contains(a + p[..|p| - 1], p)
    ensures (a + p + b)[..|p|] != p
    ensures !Contains(a[1..] + p[..|p| - 1], p)
  {
    var s, t := a + p[..|p| - 1], a + p + b;
    assert s[..|p|] != p && !Contains(s[1..], p);
    forall i | 0 <= i < |p|
      ensures t[i] == s[i]
    {
      if i >= |a| {
        assert t[i] == p[i - |a|] == s[i];
      }
    }
    assert t[..|p|] == s[..|p|];
    assert s[1..] == a[1..] + p[..|p| - 1];
  }

  /** The first occurrence of `p` is cut where it stands: the text before it,
      in which `p` does not start, is kept, and the scan goes on after it. */
  lemma {:induction false} RemoveAllCutsFirstOccurrence(a: string, p: string, b: string)
    requires p != [] && !Contains(a + p[..|p| - 1], p)
    ensures RemoveAll(a + p + b, p) == a + RemoveAll(b, p)
    decreases |a|
  {
    if a == [] {
      assert a + p + b == p + b;
      RemoveAllAfterPrefix(p, b);
    } else {
      var t, rest := a + p + b, a[1..] + p + b;
      assert t[1..] == rest && t[0] == a[0];
      assert RemoveAll(t, p) == [a[0]] + RemoveAll(rest, p) by {
        NoEarlierOccurrence(a, p, b);
        RemoveAllKeepsHead(t, p);
      }
      assert RemoveAll(rest, p) == a[1..] + RemoveAll(b, p) by {
        NoEarlierOccurrence(a, p, b);
        RemoveAllCutsFirstOccurrence(a[1..], p, b);
      }
      assert a == [a[0]] + a[1..];
    }
  }

  /** A string that starts with `p` contains it. */
  lemma ContainsPrefix(p: string, s: string)
    ensures Contains(p + s, p)
  {
    assert (p + s)[..|p|] == p;
  }
}
