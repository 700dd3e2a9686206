/**
 * Java string operations used by the résumé pipeline, modelled on `seq<char>`.
 * Case mapping and character classes are ASCII-only; `\s`, `\d` and `\w` are
 * Java's default (non-Unicode) classes.
 */
module Strings {

  datatype Option<T> = None | Some(value: T)

  // ---------------------------------------------------------------------
  // Character classes
  // ---------------------------------------------------------------------

  predicate IsUpper(c: char) { 'A' <= c <= 'Z' }
  predicate IsLowerLetter(c: char) { 'a' <= c <= 'z' }
  predicate IsLetter(c: char) { IsUpper(c) || IsLowerLetter(c) }
  /** Java's `\d`. */
  predicate IsDigit(c: char) { '0' <= c <= '9' }
  /** Java's `\w`, which also decides where `\b` lies. */
  predicate IsWordChar(c: char) { IsLetter(c) || IsDigit(c) || c == '_' }
  /** Java's `\s`: space, tab, line feed, vertical tab, form feed, carriage return. */
  predicate IsSpace(c: char)
  {
    c == ' ' || c == '\t' || c == '\n' || c == '\U{0B}' || c == '\U{0C}' || c == '\r'
  }
  /** What `String.trim()` strips: every character up to U+0020. */
  predicate IsTrimmable(c: char) { c <= ' ' }

  lemma SpaceIsTrimmable(c: char)
    ensures IsSpace(c) ==> IsTrimmable(c)
  {
  }

  function Min(a: nat, b: nat): nat { if a <= b then a else b }

  function LowerChar(c: char): (r: char)
  {
    if IsUpper(c) then (c as int + 32) as char else c
  }

  /** `String.toLowerCase()`, restricted to ASCII letters. */
  function Lower(s: string): (r: string)
    ensures |r| == |s|
    ensures forall i :: 0 <= i < |s| ==> r[i] == LowerChar(s[i])
  {
    if s == [] then [] else [LowerChar(s[0])] + Lower(s[1..])
  }

  predicate NoUpper(s: string)
  {
    forall i :: 0 <= i < |s| ==> !IsUpper(s[i])
  }

  lemma LowerOfNoUpper(s: string)
    requires NoUpper(s)
    ensures Lower(s) == s
  {
  }

  lemma LowerIdempotent(s: string)
    ensures Lower(Lower(s)) == Lower(s)
  {
  }

  lemma LowerConcat(a: string, b: string)
    ensures Lower(a + b) == Lower(a) + Lower(b)
  {
  }

  lemma LowerSlice(s: string, i: nat, j: nat)
    requires i <= j <= |s|
    ensures Lower(s[i..j]) == Lower(s)[i..j]
  {
  }

  // ---------------------------------------------------------------------
  // Containment (`String.contains`, `startsWith`, `endsWith`)
  // ---------------------------------------------------------------------

  predicate OccursAt(s: string, p: string, i: nat)
  {
    i + |p| <= |s| && s[i..i + |p|] == p
  }

  predicate Contains(s: string, p: string)
  {
    exists i: nat :: i <= |s| && OccursAt(s, p, i)
  }

  predicate StartsWith(s: string, p: string)
  {
    |p| <= |s| && s[..|p|] == p
  }

  predicate EndsWith(s: string, p: string)
  {
    |p| <= |s| && s[|s| - |p|..] == p
  }

  /** The pieces of `a + b + c` sit where the concatenation puts them. */
  lemma ConcatPieces(a: string, b: string, c: string)
    ensures StartsWith(a + b + c, a) && Contains(a + b + c, b) && EndsWith(a + b + c, c)
  {
    var s := a + b + c;
    assert s[..|a|] == a;
    assert s[|a|..|a| + |b|] == b;
    assert OccursAt(s, b, |a|);
    assert s[|s| - |c|..] == c;
  }

  /** The last two pieces of a concatenation end it, however it is grouped. */
  lemma EndsWithLastTwo(x: string, y: string, b: string, c: string)
    ensures EndsWith(x + (y + b) + c, b + c) && EndsWith(x + (y + (b + c)), b + c)
  {
    var s := x + (y + b) + c;
    assert s[|s| - |b + c|..] == b + c;
    var t := x + (y + (b + c));
    assert t[|t| - |b + c|..] == b + c;
  }

  /** Two endings of one string agree in the positions both have. */
  lemma EndingsAgree(s: string, a: string, b: string, k: nat)
    requires EndsWith(s, a) && EndsWith(s, b) && 1 <= k <= |a| && k <= |b|
    ensures a[|a| - k] == b[|b| - k]
  {
    assert a[|a| - k] == s[|s| - k];
    assert b[|b| - k] == s[|s| - k];
  }

  /** Text put in front keeps every occurrence. */
  lemma ContainsAfter(a: string, b: string, p: string)
    requires Contains(b, p)
    ensures Contains(a + b, p)
  {
    var i: nat :| i <= |b| && OccursAt(b, p, i);
    assert (a + b)[|a| + i..|a| + i + |p|] == b[i..i + |p|];
    assert OccursAt(a + b, p, |a| + i);
  }

  lemma ContainsTransitive(s: string, a: string, b: string)
    requires Contains(s, a) && Contains(a, b)
    ensures Contains(s, b)
  {
    var i: nat :| i <= |s| && OccursAt(s, a, i);
    var j: nat :| j <= |a| && OccursAt(a, b, j);
    forall t | 0 <= t < |b| ensures s[i + j + t] == b[t] {
      assert b[t] == a[j..j + |b|][t] == a[j + t];
      assert a[j + t] == s[i..i + |a|][j + t];
    }
    assert s[i + j..i + j + |b|] == b;
    assert OccursAt(s, b, i + j);
  }

  lemma ContainsSelf(s: string)
    ensures Contains(s, s)
  {
    assert OccursAt(s, s, 0);
  }

  lemma ContainsInSlice(s: string, i: nat, j: nat, p: string)
    requires i <= j <= |s| && Contains(s[i..j], p)
    ensures Contains(s, p)
  {
    var k: nat :| k <= j - i && OccursAt(s[i..j], p, k);
    forall t | 0 <= t < |p| ensures s[i + k + t] == p[t] {
      assert p[t] == s[i..j][k..k + |p|][t];
    }
    assert s[i + k..i + k + |p|] == p;
    assert OccursAt(s, p, i + k);
  }

  /** A pattern that occurs in a string leaves every character it contains in that string. */
  lemma ContainsChar(s: string, p: string, c: char)
    requires Contains(s, p) && c in p
    ensures c in s
  {
    var i: nat :| i <= |s| && OccursAt(s, p, i);
    var k :| 0 <= k < |p| && p[k] == c;
    assert s[i + k] == s[i..i + |p|][k];
  }

  /** Lower-casing the text never hides a lower-case pattern that occurs in it. */
  lemma ContainsLower(s: string, p: string)
    requires Contains(s, p)
    ensures Contains(Lower(s), Lower(p))
  {
    var i: nat :| i <= |s| && OccursAt(s, p, i);
    LowerSlice(s, i, i + |p|);
    assert OccursAt(Lower(s), Lower(p), i);
  }

  // ---------------------------------------------------------------------
  // Deleting characters (`replaceAll("[...]", "")`)
  // ---------------------------------------------------------------------

  /** Every character of `s` satisfies `p`. */
  predicate All(s: string, p: char -> bool)
  {
    forall i :: 0 <= i < |s| ==> p(s[i])
  }

  lemma AllConcat(a: string, b: string, p: char -> bool)
    requires All(a, p) && All(b, p)
    ensures All(a + b, p)
  {
    forall i | 0 <= i < |a + b| ensures p((a + b)[i]) {
      if i < |a| { assert (a + b)[i] == a[i]; } else { assert (a + b)[i] == b[i - |a|]; }
    }
  }

  /** Deletes every character that `drop` selects. */
  function RemoveChars(s: string, drop: char -> bool): (r: string)
    ensures |r| <= |s|
    ensures forall i :: 0 <= i < |r| ==> !drop(r[i])
  {
    if s == [] then []
    else (if drop(s[0]) then [] else [s[0]]) + RemoveChars(s[1..], drop)
  }

  /** Deleting characters keeps every property all characters share. */
  lemma {:induction false} RemoveCharsKeeps(s: string, drop: char -> bool, p: char -> bool)
    requires All(s, p)
    ensures All(RemoveChars(s, drop), p)
    decreases |s|
  {
    if s != [] {
      RemoveCharsKeeps(s[1..], drop, p);
      var r := RemoveChars(s, drop);
      var t := RemoveChars(s[1..], drop);
      assert r == (if drop(s[0]) then [] else [s[0]]) + t;
      forall i | 0 <= i < |r| ensures p(r[i]) {
        if !drop(s[0]) && i == 0 { assert r[0] == s[0]; }
        else if !drop(s[0]) { assert r[i] == t[i - 1]; }
        else { assert r[i] == t[i]; }
      }
    }
  }

  /** Nothing to delete leaves the string as it is. */
  lemma {:induction false} RemoveCharsNoop(s: string, drop: char -> bool)
    requires All(s, c => !drop(c))
    ensures RemoveChars(s, drop) == s
    decreases |s|
  {
    if s != [] {
      assert !drop(s[0]);
      RemoveCharsNoop(s[1..], drop);
    }
  }

  // ---------------------------------------------------------------------
  // Runs (`replaceAll("\\s+", " ")`, `replaceAll("\\n+", "\n")`)
  // ---------------------------------------------------------------------

  /** The end of the maximal run of characters satisfying `p` from position `i`. */
  function RunEnd(t: string, i: nat, p: char -> bool): (j: nat)
    requires i <= |t|
    ensures i <= j <= |t| && (j < |t| ==> !p(t[j]))
    decreases |t| - i
  {
    if i < |t| && p(t[i]) then RunEnd(t, i + 1, p) else i
  }

  /** Every character of the run satisfies `p`. */
  lemma {:induction false} RunEndRun(t: string, i: nat, p: char -> bool)
    requires i <= |t|
    ensures forall k :: i <= k < RunEnd(t, i, p) ==> p(t[k])
    decreases |t| - i
  {
    if i < |t| && p(t[i]) { RunEndRun(t, i + 1, p); }
  }

  /** The start of the maximal run of characters satisfying `p` that ends just before position `j`. */
  function RunStart(t: string, j: nat, p: char -> bool): (i: nat)
    requires j <= |t|
    ensures i <= j && (i > 0 ==> !p(t[i - 1]))
  {
    if j > 0 && p(t[j - 1]) then RunStart(t, j - 1, p) else j
  }

  lemma {:induction false} RunStartRun(t: string, j: nat, p: char -> bool)
    requires j <= |t|
    ensures forall k :: RunStart(t, j, p) <= k < j ==> p(t[k])
  {
    if j > 0 && p(t[j - 1]) { RunStartRun(t, j - 1, p); }
  }

  /** The suffix left after the maximal leading run of characters satisfying `p`. */
  function DropWhile(s: string, p: char -> bool): (r: string)
    ensures |r| <= |s| && r == s[|s| - |r|..]
    ensures r == [] || !p(r[0])
  {
    s[RunEnd(s, 0, p)..]
  }

  /** Everything `DropWhile` drops satisfies `p`. */
  lemma DropWhileDrops(s: string, p: char -> bool)
    ensures forall i :: 0 <= i < |s| - |DropWhile(s, p)| ==> p(s[i])
  {
    RunEndRun(s, 0, p);
  }

  /** Replaces every maximal run of characters satisfying `p` by the single character `rep`. */
  function CollapseRuns(s: string, p: char -> bool, rep: char): (r: string)
    requires p(rep)
    ensures |r| <= |s|
    ensures forall i :: 0 <= i < |r| - 1 ==> !(p(r[i]) && p(r[i + 1]))
    ensures s != [] ==> r != [] && (p(s[0]) ==> r[0] == rep) && (!p(s[0]) ==> r[0] == s[0])
    ensures s != [] && !p(s[|s| - 1]) ==> r != [] && r[|r| - 1] == s[|s| - 1]
  {
    if s == [] then []
    else if p(s[0]) then
      var rest := DropWhile(s[1..], p);
      DropWhileDrops(s[1..], p);
      assert rest == [] ==> forall i :: 0 <= i < |s| - 1 ==> p(s[1..][i]);
      [rep] + CollapseRuns(rest, p, rep)
    else [s[0]] + CollapseRuns(s[1..], p, rep)
  }

  lemma DropWhileKeeps(s: string, p: char -> bool, q: char -> bool)
    requires All(s, q)
    ensures All(DropWhile(s, p), q)
  {
    var r := DropWhile(s, p);
    forall i | 0 <= i < |r| ensures q(r[i]) {
      assert r[i] == s[|s| - |r| + i];
    }
  }

  /** Collapsing runs keeps a property that `rep` and every character outside the runs have. */
  lemma {:induction false} CollapseRunsKeeps(s: string, p: char -> bool, rep: char, q: char -> bool)
    requires p(rep) && q(rep)
    requires All(s, c => p(c) || q(c))
    ensures All(CollapseRuns(s, p, rep), q)
    decreases |s|
  {
    if s != [] {
      var r := CollapseRuns(s, p, rep);
      if p(s[0]) {
        var rest := DropWhile(s[1..], p);
        assert All(s[1..], c => p(c) || q(c));
        DropWhileKeeps(s[1..], p, c => p(c) || q(c));
        CollapseRunsKeeps(rest, p, rep, q);
        var t := CollapseRuns(rest, p, rep);
        assert r == [rep] + t;
        forall i | 0 <= i < |r| ensures q(r[i]) {
          if i > 0 { assert r[i] == t[i - 1]; }
        }
      } else {
        assert All(s[1..], c => p(c) || q(c));
        CollapseRunsKeeps(s[1..], p, rep, q);
        var t := CollapseRuns(s[1..], p, rep);
        assert r == [s[0]] + t;
        forall i | 0 <= i < |r| ensures q(r[i]) {
          if i > 0 { assert r[i] == t[i - 1]; }
        }
      }
    }
  }

  /** A string whose `p`-characters are all `rep` and never adjacent is left as it is. */
  lemma {:induction false} CollapseRunsNoop(s: string, p: char -> bool, rep: char)
    requires p(rep)
    requires forall i :: 0 <= i < |s| ==> p(s[i]) ==> s[i] == rep
    requires forall i :: 0 <= i < |s| - 1 ==> !(p(s[i]) && p(s[i + 1]))
    ensures CollapseRuns(s, p, rep) == s
    decreases |s|
  {
    if s == [] {
    } else if p(s[0]) {
      assert DropWhile(s[1..], p) == s[1..];
      CollapseRunsNoop(s[1..], p, rep);
    } else {
      CollapseRunsNoop(s[1..], p, rep);
    }
  }

  lemma CollapseRunsAbsent(s: string, p: char -> bool, rep: char)
    requires p(rep)
    requires All(s, c => !p(c))
    ensures CollapseRuns(s, p, rep) == s
  {
    CollapseRunsNoop(s, p, rep);
  }

  /** A prefix without `p`-characters passes through unchanged. */
  lemma {:induction false} CollapseRunsPrefix(u: string, w: string, p: char -> bool, rep: char)
    requires p(rep) && All(u, c => !p(c))
    ensures CollapseRuns(u + w, p, rep) == u + CollapseRuns(w, p, rep)
    decreases |u|
  {
    if u != [] {
      assert (u + w)[0] == u[0] && (u + w)[1..] == u[1..] + w;
      CollapseRunsPrefix(u[1..], w, p, rep);
      assert [u[0]] + (u[1..] + CollapseRuns(w, p, rep)) == u + CollapseRuns(w, p, rep);
    } else {
      assert u + w == w;
    }
  }

  // ---------------------------------------------------------------------
  // `String.trim()`
  // ---------------------------------------------------------------------

  function TrimStart(s: string): (r: string)
    ensures |r| <= |s| && r == s[|s| - |r|..]
    ensures r == [] || !IsTrimmable(r[0])
  {
    s[RunEnd(s, 0, IsTrimmable)..]
  }

  /** Everything `TrimStart` strips is strippable. */
  lemma TrimStartStrips(s: string)
    ensures forall i :: 0 <= i < |s| - |TrimStart(s)| ==> IsTrimmable(s[i])
  {
    RunEndRun(s, 0, IsTrimmable);
  }

  function TrimEnd(s: string): (r: string)
    ensures |r| <= |s| && r == s[..|r|]
    ensures r == [] || !IsTrimmable(r[|r| - 1])
  {
    s[..RunStart(s, |s|, IsTrimmable)]
  }

  /** Everything `TrimEnd` strips is strippable. */
  lemma TrimEndStrips(s: string)
    ensures forall i :: |TrimEnd(s)| <= i < |s| ==> IsTrimmable(s[i])
  {
    RunStartRun(s, |s|, IsTrimmable);
  }

  lemma TrimStartOfBlank(s: string)
    requires forall i :: 0 <= i < |s| ==> IsTrimmable(s[i])
    ensures TrimStart(s) == []
  {
  }

  lemma TrimEndKeeps(t: string, w: nat)
    requires w < |t| && !IsTrimmable(t[w])
    ensures |TrimEnd(t)| > w
  {
    TrimEndStrips(t);
  }

  /** `trim()` leaves nothing exactly when every character is stripped. */
  lemma TrimBlankIff(s: string)
    ensures Trim(s) == [] <==> All(s, IsTrimmable)
  {
    var t := TrimStart(s);
    TrimStartStrips(s);
    if All(s, IsTrimmable) {
      TrimStartOfBlank(s);
    } else {
      var w :| 0 <= w < |s| && !IsTrimmable(s[w]);
      var k := |s| - |t|;
      assert w >= k;
      assert t[w - k] == s[w];
      TrimEndKeeps(t, w - k);
    }
  }

  /** Stripping both ends leaves the characters of `s` from the first kept one on. */
  lemma TrimBothShape(s: string, k: nat)
    requires k == |s| - |TrimStart(s)|
    ensures var r := TrimEnd(TrimStart(s)); k + |r| <= |s| && forall i :: 0 <= i < |r| ==> r[i] == s[k + i]
  {
    var t := TrimStart(s);
    var r := TrimEnd(t);
    forall i | 0 <= i < |r| ensures r[i] == s[k + i] {
      assert r[i] == t[i];
    }
  }

  /** `String.trim()`: the slice left after stripping characters up to U+0020 on both ends. */
  function Trim(s: string): (r: string)
    ensures |r| <= |s|
    ensures r == [] || (!IsTrimmable(r[0]) && !IsTrimmable(r[|r| - 1]))
  {
    TrimEnd(TrimStart(s))
  }

  /** The trimmed text is the run of `s` that starts at the first kept character. */
  lemma TrimIsSlice(s: string)
    ensures var k := |s| - |TrimStart(s)|; k + |Trim(s)| <= |s| && forall i :: 0 <= i < |Trim(s)| ==> Trim(s)[i] == s[k + i]
  {
    TrimBothShape(s, |s| - |TrimStart(s)|);
  }

  /** Trimming a string already free of leading and trailing blanks gives it back. */
  lemma TrimNoop(s: string)
    requires s == [] || (!IsTrimmable(s[0]) && !IsTrimmable(s[|s| - 1]))
    ensures Trim(s) == s
  {
  }

  /** Trimming keeps every property all characters share. */
  lemma TrimKeeps(s: string, p: char -> bool)
    requires All(s, p)
    ensures All(Trim(s), p)
  {
    var k := |s| - |TrimStart(s)|;
    forall i | 0 <= i < |Trim(s)| ensures p(Trim(s)[i]) {
      assert Trim(s)[i] == s[k + i];
    }
  }

  /** Stripping the front keeps an occurrence that starts with a character it does not strip. */
  lemma TrimStartKeepsOccurrence(s: string, w: string, i: nat)
    requires OccursAt(s, w, i) && w != [] && !IsTrimmable(w[0])
    ensures var k := |s| - |TrimStart(s)|; k <= i && OccursAt(TrimStart(s), w, i - k)
  {
    TrimStartStrips(s);
    assert s[i] == w[0];
  }

  /** Stripping the back keeps an occurrence that ends with a character it does not strip. */
  lemma TrimEndKeepsOccurrence(t: string, w: string, j: nat)
    requires OccursAt(t, w, j) && w != [] && !IsTrimmable(w[|w| - 1])
    ensures OccursAt(TrimEnd(t), w, j)
  {
    assert t[j + |w| - 1] == w[|w| - 1];
    TrimEndKeeps(t, j + |w| - 1);
  }

  /** An occurrence of `w` whose first and last characters are not stripped survives trimming. */
  lemma TrimKeepsInner(s: string, w: string, i: nat)
    requires OccursAt(s, w, i) && w != [] && !IsTrimmable(w[0]) && !IsTrimmable(w[|w| - 1])
    ensures Contains(Trim(s), w)
  {
    TrimStartKeepsOccurrence(s, w, i);
    var k := |s| - |TrimStart(s)|;
    TrimEndKeepsOccurrence(TrimStart(s), w, i - k);
    assert OccursAt(Trim(s), w, i - k);
  }

  /** A prefix whose first and last characters are not stripped is still a prefix after trimming. */
  lemma TrimKeepsPrefix(s: string, w: string)
    requires StartsWith(s, w) && w != [] && !IsTrimmable(w[0]) && !IsTrimmable(w[|w| - 1])
    ensures StartsWith(Trim(s), w)
  {
    assert OccursAt(s, w, 0);
    TrimStartKeepsOccurrence(s, w, 0);
    TrimEndKeepsOccurrence(TrimStart(s), w, 0);
    assert OccursAt(Trim(s), w, 0);
  }

  /** Stripping the back removes exactly a tail of strippable characters. */
  lemma TrimEndOfTail(u: string, tail: string)
    requires u != [] && !IsTrimmable(u[|u| - 1]) && All(tail, IsTrimmable)
    ensures TrimEnd(u + tail) == u
  {
    var t := u + tail;
    var j := RunStart(t, |t|, IsTrimmable);
    RunStartRun(t, |t|, IsTrimmable);
    assert t[|u| - 1] == u[|u| - 1];
    assert forall k :: |u| <= k < |t| ==> IsTrimmable(t[k]) by {
      forall k | |u| <= k < |t| ensures IsTrimmable(t[k]) {
        assert t[k] == tail[k - |u|];
      }
    }
    assert j == |u|;
    assert t[..|u|] == u;
  }

  /** A part followed only by strippable characters ends the trimmed string. */
  lemma TrimKeepsSuffix(x: string, w: string, tail: string)
    requires w != [] && !IsTrimmable(w[0]) && !IsTrimmable(w[|w| - 1]) && All(tail, IsTrimmable)
    ensures EndsWith(Trim(x + w + tail), w)
  {
    var s := x + w + tail;
    assert s[|x|] == w[0];
    var k := |s| - |TrimStart(s)|;
    TrimStartStrips(s);
    assert k <= |x|;
    assert TrimStart(s) == x[k..] + w + tail;
    TrimEndOfTail(x[k..] + w, tail);
  }

  predicate IsBlank(s: string)
  {
    Trim(s) == []
  }

  // ---------------------------------------------------------------------
  // `String.replace(CharSequence, CharSequence)`
  // ---------------------------------------------------------------------

  /** Java's literal replace: left to right, non-overlapping; an empty target matches between every character. */
  function ReplaceLiteral(s: string, target: string, rep: string): (r: string)
    decreases |s|
  {
    if target == [] then
      (if s == [] then rep else rep + [s[0]] + ReplaceLiteral(s[1..], target, rep))
    else if |s| < |target| then s
    else if s[..|target|] == target then rep + ReplaceLiteral(s[|target|..], target, rep)
    else [s[0]] + ReplaceLiteral(s[1..], target, rep)
  }

  /** Deleting a literal never lengthens the string. */
  lemma {:induction false} DeleteLiteralShrinks(s: string, target: string)
    ensures |ReplaceLiteral(s, target, [])| <= |s|
    decreases |s|
  {
    if target == [] {
      if s != [] { DeleteLiteralShrinks(s[1..], target); }
    } else if |s| < |target| {
    } else if s[..|target|] == target {
      DeleteLiteralShrinks(s[|target|..], target);
    } else {
      DeleteLiteralShrinks(s[1..], target);
    }
  }

  /** `replace("", "")` changes nothing. */
  lemma {:induction false} ReplaceEmptyByEmpty(s: string)
    ensures ReplaceLiteral(s, [], []) == s
    decreases |s|
  {
    if s != [] {
      ReplaceEmptyByEmpty(s[1..]);
      assert [] + [s[0]] + s[1..] == s;
    }
  }

  /** A target whose first character does not occur is never replaced. */
  lemma {:induction false} ReplaceAbsent(s: string, target: string, rep: string)
    requires target != [] && target[0] !in s
    ensures ReplaceLiteral(s, target, rep) == s
    decreases |s|
  {
    if |s| >= |target| {
      assert s[..|target|][0] == s[0];
      assert s[..|target|] != target;
      assert ReplaceLiteral(s, target, rep) == [s[0]] + ReplaceLiteral(s[1..], target, rep);
      ReplaceAbsent(s[1..], target, rep);
      assert [s[0]] + s[1..] == s;
    }
  }

  /** A prefix that cannot start the target passes through unchanged. */
  lemma {:induction false} DeleteLiteralPrefix(u: string, w: string, target: string)
    requires target != [] && target[0] !in u
    ensures ReplaceLiteral(u + w, target, []) == u + ReplaceLiteral(w, target, [])
    decreases |u|
  {
    if u == [] {
      assert u + w == w;
    } else if |u + w| < |target| {
      assert ReplaceLiteral(w, target, []) == w;
    } else {
      var s := u + w;
      assert s[..|target|][0] == u[0];
      assert s[..|target|] != target;
      assert ReplaceLiteral(s, target, []) == [s[0]] + ReplaceLiteral(s[1..], target, []);
      assert s[1..] == u[1..] + w;
      DeleteLiteralPrefix(u[1..], w, target);
      assert [u[0]] + (u[1..] + ReplaceLiteral(w, target, [])) == u + ReplaceLiteral(w, target, []);
    }
  }

  /** Deleting every occurrence of a literal keeps every property all characters share. */
  lemma {:induction false} DeleteLiteralKeeps(s: string, target: string, p: char -> bool)
    requires All(s, p)
    ensures All(ReplaceLiteral(s, target, []), p)
    decreases |s|
  {
    var r := ReplaceLiteral(s, target, []);
    if target == [] {
      ReplaceEmptyByEmpty(s);
    } else if |s| < |target| {
    } else if s[..|target|] == target {
      assert All(s[|target|..], p) by {
        forall i | 0 <= i < |s| - |target| ensures p(s[|target|..][i]) { assert s[|target|..][i] == s[|target| + i]; }
      }
      DeleteLiteralKeeps(s[|target|..], target, p);
    } else {
      assert All(s[1..], p);
      DeleteLiteralKeeps(s[1..], target, p);
      var t := ReplaceLiteral(s[1..], target, []);
      forall i | 0 <= i < |r| ensures p(r[i]) {
        if i > 0 { assert r[i] == t[i - 1]; }
      }
    }
  }

  // ---------------------------------------------------------------------
  // `String.split(regex)` for the two separators the pipeline uses
  // ---------------------------------------------------------------------

  /** Drops the trailing empty strings, as `split` with limit 0 does. */
  function DropTrailingEmpty(ps: seq<string>): (r: seq<string>)
    ensures |r| <= |ps| && r == ps[..|r|]
    ensures r == [] || r[|r| - 1] != []
    ensures forall j :: |r| <= j < |ps| ==> ps[j] == []
  {
    if ps != [] && ps[|ps| - 1] == [] then DropTrailingEmpty(ps[..|ps| - 1]) else ps
  }

  function IndexOfChar(s: string, c: char): (k: nat)
    ensures k <= |s| && (k < |s| ==> s[k] == c)
    ensures forall i :: 0 <= i < k ==> s[i] != c
  {
    if s == [] then 0 else if s[0] == c then 0 else 1 + IndexOfChar(s[1..], c)
  }

  /** The pieces between the `c` characters of `s`, empty pieces included. */
  function SplitRaw(s: string, c: char): (r: seq<string>)
    ensures |r| >= 1
    ensures forall j :: 0 <= j < |r| ==> c !in r[j]
    ensures c !in s ==> r == [s]
    decreases |s|
  {
    var k := IndexOfChar(s, c);
    if k == |s| then [s] else [s[..k]] + SplitRaw(s[k + 1..], c)
  }

  /** `s.split("\\n")`. */
  function SplitLines(s: string): (r: seq<string>)
    ensures forall j :: 0 <= j < |r| ==> '\n' !in r[j]
    ensures '\n' !in s ==> r == [s]
  {
    if '\n' !in s then [s] else DropTrailingEmpty(SplitRaw(s, '\n'))
  }

  /** `n` copies of the character `c`. */
  function Repeat(c: char, n: nat): (r: string)
    ensures |r| == n && forall i :: 0 <= i < n ==> r[i] == c
  {
    if n == 0 then [] else Repeat(c, n - 1) + [c]
  }

  /** Joining the raw pieces with the separator gives back the text: the split cuts at every `c` and nowhere else. */
  lemma {:induction false} SplitRawJoin(s: string, c: char)
    ensures Join(SplitRaw(s, c), [c]) == s
    decreases |s|
  {
    var k := IndexOfChar(s, c);
    if k < |s| {
      var rest := s[k + 1..];
      var tail := SplitRaw(rest, c);
      var ps := [s[..k]] + tail;
      SplitRawCons(s, c);
      SplitRawJoin(rest, c);
      assert ps[0] == s[..k] && ps[1..] == tail && |ps| >= 2;
      assert Join(ps, [c]) == s[..k] + [c] + rest;
      CutAt(s, k);
    }
  }

  /** A sequence is its prefix before `k`, its element at `k` and its suffix after `k`. */
  lemma CutAt<T>(s: seq<T>, k: nat)
    requires k < |s|
    ensures s == s[..k] + [s[k]] + s[k + 1..]
  {
  }

  /** Joining ends in empty pieces adds one separator per empty piece. */
  lemma {:induction false} JoinEmptyTail(ps: seq<string>, n: nat, c: char)
    ensures Join(ps + seq(n, _ => []), [c]) ==
      if ps == [] then (if n == 0 then [] else Repeat(c, n - 1)) else Join(ps, [c]) + Repeat(c, n)
    decreases n
  {
    if n > 0 {
      var e: seq<string> := seq(n - 1, _ => []);
      assert ps + seq(n, _ => []) == (ps + e) + [[]];
      JoinSnoc(ps + e, [], [c]);
      JoinEmptyTail(ps, n - 1, c);
    } else {
      assert ps + seq(n, _ => []) == ps;
    }
  }

  /**
   * `split("\\n")` loses only trailing empty lines: the lines found are the leading raw pieces and
   * every piece dropped is empty; with a line feed present, the last line kept is not empty.
   */
  lemma SplitLinesDropsTrailingEmpty(s: string)
    ensures var raw := SplitRaw(s, '\n'); var r := SplitLines(s);
      && r == raw[..|r|]
      && (forall j :: |r| <= j < |raw| ==> raw[j] == [])
      && ('\n' in s ==> r == [] || r[|r| - 1] != [])
  {
  }

  /** The raw pieces are the lines followed by the empty pieces `split` drops. */
  lemma SplitLinesPadded(s: string)
    ensures var raw := SplitRaw(s, '\n'); var r := SplitLines(s);
      |r| <= |raw| && raw == r + seq(|raw| - |r|, _ => [])
  {
    var raw := SplitRaw(s, '\n');
    var r := SplitLines(s);
    SplitLinesDropsTrailingEmpty(s);
    var e: seq<string> := seq(|raw| - |r|, _ => []);
    forall j | 0 <= j < |raw| ensures raw[j] == (r + e)[j] {
      if j >= |r| {
        assert raw[j] == [];
      }
    }
  }

  /** Joining the lines with line feeds and adding one line feed per dropped piece gives back the text. */
  lemma SplitLinesRoundTrip(s: string)
    ensures var r := SplitLines(s); var d := |SplitRaw(s, '\n')| - |r|;
      s == if r == [] then Repeat('\n', d - 1) else Join(r, "\n") + Repeat('\n', d)
  {
    var r := SplitLines(s);
    var d := |SplitRaw(s, '\n')| - |r|;
    SplitLinesPadded(s);
    SplitRawJoin(s, '\n');
    JoinEmptyTail(r, d, '\n');
  }

  /**
   * `lines` are the line-feed-separated segments of `text` as `split("\\n")` returns them: the leading
   * segments, every segment dropped being empty, the last line kept not empty when a line feed is
   * present, and the text given back by joining the lines with line feeds and putting back one line
   * feed per dropped segment.
   */
  predicate IsLineSplit(text: string, lines: seq<string>)
  {
    var segments := SplitRaw(text, '\n');
    && |lines| <= |segments| && lines == segments[..|lines|]
    && (forall j :: |lines| <= j < |segments| ==> segments[j] == [])
    && ('\n' in text ==> lines == [] || lines[|lines| - 1] != [])
    && var d := |segments| - |lines|;
    text == if lines == [] then Repeat('\n', d - 1) else Join(lines, "\n") + Repeat('\n', d)
  }

  lemma SplitLinesIsLineSplit(s: string)
    ensures IsLineSplit(s, SplitLines(s))
  {
    SplitLinesDropsTrailingEmpty(s);
    SplitLinesRoundTrip(s);
  }

  /** Any occurrence of a pattern without the separator lies inside one raw piece. */
  lemma {:induction false} SplitRawKeepsOccurrence(s: string, c: char, p: string)
    requires Contains(s, p) && c !in p
    ensures exists j :: 0 <= j < |SplitRaw(s, c)| && Contains(SplitRaw(s, c)[j], p)
    decreases |s|
  {
    var k := IndexOfChar(s, c);
    var i: nat :| i <= |s| && OccursAt(s, p, i);
    if k == |s| {
      assert SplitRaw(s, c)[0] == s;
    } else {
      OccurrenceAvoids(s, p, i, k);
      if i + |p| <= k {
        OccursInPrefix(s, p, i, k);
        assert SplitRaw(s, c)[0] == s[..k];
      } else {
        var rest := s[k + 1..];
        OccursInSuffix(s, p, i, k + 1);
        SplitRawKeepsOccurrence(rest, c, p);
        var j :| 0 <= j < |SplitRaw(rest, c)| && Contains(SplitRaw(rest, c)[j], p);
        SplitRawCons(s, c);
        ConsIndex(s[..k], SplitRaw(rest, c), j);
      }
    }
  }

  /** Past the first separator, the raw pieces are the piece before it followed by the pieces of the rest. */
  lemma SplitRawCons(s: string, c: char)
    requires IndexOfChar(s, c) < |s|
    ensures SplitRaw(s, c) == [s[..IndexOfChar(s, c)]] + SplitRaw(s[IndexOfChar(s, c) + 1..], c)
  {
  }

  lemma ConsIndex<T>(x: T, xs: seq<T>, j: nat)
    requires j < |xs|
    ensures |[x] + xs| == |xs| + 1 && ([x] + xs)[j + 1] == xs[j]
  {
  }

  /** An occurrence of a pattern does not cover a position holding a character the pattern lacks. */
  lemma OccurrenceAvoids(s: string, p: string, i: nat, k: nat)
    requires OccursAt(s, p, i) && k < |s| && s[k] !in p
    ensures i + |p| <= k || k < i
  {
    assert forall t :: i <= t < i + |p| ==> s[t] == p[t - i];
  }

  /** An occurrence that ends by `k` is an occurrence in `s[..k]`. */
  lemma OccursInPrefix(s: string, p: string, i: nat, k: nat)
    requires OccursAt(s, p, i) && i + |p| <= k <= |s|
    ensures OccursAt(s[..k], p, i) && Contains(s[..k], p)
  {
    assert s[..k][i..i + |p|] == s[i..i + |p|];
    assert i <= |s[..k]| && OccursAt(s[..k], p, i);
  }

  /** An occurrence that starts at or after `k` is an occurrence in `s[k..]`. */
  lemma OccursInSuffix(s: string, p: string, i: nat, k: nat)
    requires OccursAt(s, p, i) && k <= i
    ensures OccursAt(s[k..], p, i - k) && Contains(s[k..], p)
  {
    assert s[k..][i - k..i - k + |p|] == s[i..i + |p|];
    assert i - k <= |s[k..]| && OccursAt(s[k..], p, i - k);
  }

  lemma ContainsNonEmpty(s: string, p: string)
    requires Contains(s, p) && p != []
    ensures s != []
  {
    var i: nat :| i <= |s| && OccursAt(s, p, i);
  }

  /** A non-empty pattern without a line feed that occurs in a text occurs in one of its lines. */
  lemma SplitLinesKeepsOccurrence(s: string, p: string)
    requires Contains(s, p) && p != [] && '\n' !in p
    ensures exists j :: 0 <= j < |SplitLines(s)| && Contains(SplitLines(s)[j], p)
  {
    if '\n' in s {
      SplitRawKeepsOccurrence(s, '\n', p);
      var raw := SplitRaw(s, '\n');
      var j :| 0 <= j < |raw| && Contains(raw[j], p);
      ContainsNonEmpty(raw[j], p);
      var kept := DropTrailingEmpty(raw);
      assert j < |kept|;
      assert kept[j] == raw[j];
      assert SplitLines(s) == kept;
      assert Contains(SplitLines(s)[j], p);
    } else {
      assert SplitLines(s)[0] == s;
    }
  }

  /** The index of the first `\s` character, or `|s|`. */
  function IndexOfSpace(s: string): (k: nat)
    ensures k <= |s| && (k < |s| ==> IsSpace(s[k]))
    ensures forall i :: 0 <= i < k ==> !IsSpace(s[i])
  {
    if s == [] then 0 else if IsSpace(s[0]) then 0 else 1 + IndexOfSpace(s[1..])
  }

  /** The pieces between the maximal `\s` runs of `s`, empty pieces included. */
  function SpacePieces(s: string): (r: seq<string>)
    ensures |r| >= 1
    ensures forall j :: 0 <= j < |r| ==> forall i :: 0 <= i < |r[j]| ==> !IsSpace(r[j][i])
    decreases |s|
  {
    var k := IndexOfSpace(s);
    if k == |s| then [s] else [s[..k]] + SpacePieces(DropWhile(s[k..], IsSpace))
  }

  /** Past the first blank, the pieces are the piece before it followed by the pieces of what follows the blank run. */
  lemma SpacePiecesCons(s: string)
    requires IndexOfSpace(s) < |s|
    ensures SpacePieces(s) == [s[..IndexOfSpace(s)]] + SpacePieces(DropWhile(s[IndexOfSpace(s)..], IsSpace))
  {
  }

  predicate HasSpace(s: string)
  {
    exists i :: 0 <= i < |s| && IsSpace(s[i])
  }

  /** `s.split("\\s+")`. */
  function SplitOnSpaces(s: string): (r: seq<string>)
    ensures forall j :: 0 <= j < |r| ==> forall i :: 0 <= i < |r[j]| ==> !IsSpace(r[j][i])
  {
    if !HasSpace(s) then [s] else DropTrailingEmpty(SpacePieces(s))
  }

  /** Every raw piece is a substring of the text it was cut from. */
  lemma {:induction false} SplitRawPieceOccurs(s: string, c: char, j: nat)
    requires j < |SplitRaw(s, c)|
    ensures Contains(s, SplitRaw(s, c)[j])
    decreases |s|
  {
    var k := IndexOfChar(s, c);
    if k == |s| {
      assert OccursAt(s, s, 0);
    } else if j == 0 {
      assert OccursAt(s, s[..k], 0);
    } else {
      var rest := s[k + 1..];
      SplitRawCons(s, c);
      ConsIndex(s[..k], SplitRaw(rest, c), j - 1);
      SplitRawPieceOccurs(rest, c, j - 1);
      assert s[k + 1..|s|] == rest;
      ContainsInSlice(s, k + 1, |s|, SplitRaw(rest, c)[j - 1]);
    }
  }

  /** Every line `split("\\n")` returns is a substring of the text. */
  lemma SplitLinesPieceOccurs(s: string, j: nat)
    requires j < |SplitLines(s)|
    ensures Contains(s, SplitLines(s)[j])
  {
    if '\n' in s {
      SplitRawPieceOccurs(s, '\n', j);
    } else {
      assert OccursAt(s, s, 0);
    }
  }

  /** The trimmed form of a string is a substring of it. */
  lemma TrimOccurs(s: string)
    ensures Contains(s, Trim(s))
  {
    assert OccursAt(s, Trim(s), |s| - |TrimStart(s)|);
  }

  /** Every line of a text, trimmed, in order. */
  function TrimLines(lines: seq<string>): (r: seq<string>)
    ensures |r| == |lines| && forall j :: 0 <= j < |r| ==> r[j] == Trim(lines[j])
  {
    seq(|lines|, j requires 0 <= j < |lines| => Trim(lines[j]))
  }

  /** Raw pieces keep every property all characters of the text share. */
  lemma {:induction false} SpacePiecesKeep(s: string, p: char -> bool)
    requires All(s, p)
    ensures forall j :: 0 <= j < |SpacePieces(s)| ==> All(SpacePieces(s)[j], p)
    decreases |s|
  {
    var k := IndexOfSpace(s);
    if k < |s| {
      var rest := DropWhile(s[k..], IsSpace);
      assert All(s[k..], p);
      DropWhileKeeps(s[k..], IsSpace, p);
      SpacePiecesKeep(rest, p);
      assert All(s[..k], p);
      SpacePiecesCons(s);
    }
  }

  /** The words of `split("\\s+")` keep every property all characters of the text share. */
  lemma SplitOnSpacesKeeps(s: string, p: char -> bool)
    requires All(s, p)
    ensures forall j :: 0 <= j < |SplitOnSpaces(s)| ==> All(SplitOnSpaces(s)[j], p)
  {
    if HasSpace(s) {
      SpacePiecesKeep(s, p);
      var raw := SpacePieces(s);
      var kept := DropTrailingEmpty(raw);
      forall j | 0 <= j < |kept| ensures All(kept[j], p) {
        assert kept[j] == raw[j];
      }
    }
  }

  /** Every character of `s` that is not `\s` belongs to one of its raw pieces. */
  lemma {:induction false} SpacePiecesCover(s: string, i: nat)
    requires i < |s| && !IsSpace(s[i])
    ensures exists j :: 0 <= j < |SpacePieces(s)| && s[i] in SpacePieces(s)[j]
    decreases |s|
  {
    var k := IndexOfSpace(s);
    if k == |s| {
      assert s[i] in SpacePieces(s)[0];
    } else if i < k {
      assert s[..k][i] == s[i];
      assert s[i] in SpacePieces(s)[0];
    } else {
      var rest := DropWhile(s[k..], IsSpace);
      var off := k + (|s| - k - |rest|);
      assert rest == s[off..];
      DropWhileDrops(s[k..], IsSpace);
      assert i >= off;
      assert rest[i - off] == s[i];
      SpacePiecesCover(rest, i - off);
      var j :| 0 <= j < |SpacePieces(rest)| && s[i] in SpacePieces(rest)[j];
      SpacePiecesCons(s);
      ConsIndex(s[..k], SpacePieces(rest), j);
    }
  }

  /** Every character of `s` that is not `\s` belongs to one of the words `split("\\s+")` returns. */
  lemma SplitOnSpacesCovers(s: string, i: nat)
    requires i < |s| && !IsSpace(s[i])
    ensures exists j :: 0 <= j < |SplitOnSpaces(s)| && s[i] in SplitOnSpaces(s)[j]
  {
    if HasSpace(s) {
      SpacePiecesCover(s, i);
      var raw := SpacePieces(s);
      var j :| 0 <= j < |raw| && s[i] in raw[j];
      var kept := DropTrailingEmpty(raw);
      assert j < |kept|;
      assert kept[j] == raw[j];
    } else {
      assert s[i] in SplitOnSpaces(s)[0];
    }
  }

  // ---------------------------------------------------------------------
  // `String.format("%d", n)` and `String.join(", ", ...)`
  // ---------------------------------------------------------------------

  function DigitChar(d: nat): (c: char)
    requires d < 10
    ensures IsDigit(c)
  {
    ('0' as int + d) as char
  }

  /** Decimal digits of a natural number, as `%d` prints it. */
  function NatToString(n: nat): (r: string)
    ensures r != [] && forall i :: 0 <= i < |r| ==> IsDigit(r[i])
  {
    if n < 10 then [DigitChar(n)] else NatToString(n / 10) + [DigitChar(n % 10)]
  }

  function Join(parts: seq<string>, sep: string): string
  {
    if parts == [] then [] else if |parts| == 1 then parts[0] else parts[0] + sep + Join(parts[1..], sep)
  }

  /** Appending one part adds it after a separator, except to an empty join. */
  lemma {:induction false} JoinSnoc(parts: seq<string>, x: string, sep: string)
    ensures Join(parts + [x], sep) == if parts == [] then x else Join(parts, sep) + sep + x
    decreases |parts|
  {
    if |parts| >= 2 {
      assert (parts + [x])[1..] == parts[1..] + [x];
      JoinSnoc(parts[1..], x, sep);
    } else if |parts| == 1 {
      assert (parts + [x])[1..] == [x];
    }
  }

  // ---------------------------------------------------------------------
  // Java's `\b`
  // ---------------------------------------------------------------------

  predicate IsWordAt(t: string, p: int) { 0 <= p < |t| && IsWordChar(t[p]) }

  /** Java's `\b` at position `p`: a word character on exactly one side. */
  predicate IsBoundary(t: string, p: nat) { IsWordAt(t, p - 1) != IsWordAt(t, p) }

  // ---------------------------------------------------------------------
  // First matches (`Matcher.find()`)
  // ---------------------------------------------------------------------

  /** The half-open range `[start, end)` of a match in the text. */
  datatype Span = Span(start: nat, end: nat)

  predicate WithinText(m: Option<Span>, s: string)
  {
    m.Some? ==> m.value.start <= m.value.end <= |s|
  }

  /** A matcher that reports, for every start position up to `n`, where a match from there ends. */
  predicate MatcherWithin(n: nat, at: nat -> Option<nat>)
  {
    forall j :: 0 <= j <= n && at(j).Some? ==> j <= at(j).value <= n
  }

  /** The leftmost match at or after `i`, as `find()` reports it. */
  function Leftmost(n: nat, at: nat -> Option<nat>, i: nat): (r: Option<Span>)
    requires i <= n && MatcherWithin(n, at)
    ensures r.Some? ==> i <= r.value.start <= r.value.end <= n
    decreases n - i
  {
    match at(i)
    case Some(e) => Some(Span(i, e))
    case None => if i == n then None else Leftmost(n, at, i + 1)
  }

  /** `find()` reports the leftmost position where the pattern matches, and nothing only when it matches nowhere. */
  lemma {:induction false} LeftmostIsLeftmost(n: nat, at: nat -> Option<nat>, i: nat)
    requires i <= n && MatcherWithin(n, at)
    ensures var r := Leftmost(n, at, i);
      && (r.Some? ==> at(r.value.start) == Some(r.value.end))
      && (r.Some? ==> forall j :: i <= j < r.value.start ==> at(j).None?)
      && (r.None? ==> forall j :: i <= j <= n ==> at(j).None?)
    decreases n - i
  {
    if at(i).None? && i < n {
      LeftmostIsLeftmost(n, at, i + 1);
    }
  }

  // ---------------------------------------------------------------------
  // Order-preserving selection from a vocabulary
  // ---------------------------------------------------------------------

  /** The position of the first element of `xs` satisfying `p`, or `|xs|` when there is none. */
  function FirstIndex<T>(xs: seq<T>, p: T -> bool): (k: nat)
    ensures k <= |xs| && (k < |xs| ==> p(xs[k]))
    ensures forall j :: 0 <= j < k ==> !p(xs[j])
  {
    if xs == [] then 0 else if p(xs[0]) then 0 else 1 + FirstIndex(xs[1..], p)
  }

  /** A scan that stops at the first element satisfying `p` (or runs off the end) stops at `FirstIndex`. */
  lemma FirstIndexIs<T>(xs: seq<T>, p: T -> bool, i: nat)
    requires i <= |xs| && (i < |xs| ==> p(xs[i]))
    requires forall j :: 0 <= j < i ==> !p(xs[j])
    ensures FirstIndex(xs, p) == i
  {
  }

  /** The elements of `xs` that satisfy `p`, in their order in `xs`. */
  function Filter<T(!new)>(xs: seq<T>, p: T -> bool): (r: seq<T>)
    ensures |r| <= |xs|
    ensures forall x :: x in r <==> x in xs && p(x)
  {
    if xs == [] then [] else (if p(xs[0]) then [xs[0]] else []) + Filter(xs[1..], p)
  }

  /** Filtering by `p` and by its negation splits `xs` into two parts that add up to it. */
  lemma {:induction false} FilterPartition<T(!new)>(xs: seq<T>, p: T -> bool)
    ensures |Filter(xs, p)| + |Filter(xs, x => !p(x))| == |xs|
    decreases |xs|
  {
    if xs != [] {
      FilterPartition(xs[1..], p);
      assert Filter(xs, x => !p(x)) == (if !p(xs[0]) then [xs[0]] else []) + Filter(xs[1..], x => !p(x));
    }
  }

  /** The number of elements of `xs` that satisfy `p`, counted one by one. */
  function CountWhere<T>(xs: seq<T>, p: T -> bool): (n: nat)
    ensures n <= |xs|
  {
    if xs == [] then 0 else (if p(xs[0]) then 1 else 0) + CountWhere(xs[1..], p)
  }

  lemma {:induction false} CountWhereIsFilterLength<T(!new)>(xs: seq<T>, p: T -> bool)
    ensures CountWhere(xs, p) == |Filter(xs, p)|
    decreases |xs|
  {
    if xs != [] { CountWhereIsFilterLength(xs[1..], p); }
  }

  predicate NoDuplicates<T(==)>(xs: seq<T>)
  {
    forall i, j :: 0 <= i < j < |xs| ==> xs[i] != xs[j]
  }

  /** Two duplicate-free sequences with nothing in common concatenate to a duplicate-free one. */
  lemma NoDuplicatesConcat<T>(a: seq<T>, b: seq<T>)
    requires NoDuplicates(a) && NoDuplicates(b)
    requires forall x :: x in a ==> x !in b
    ensures NoDuplicates(a + b)
  {
    forall i, j | 0 <= i < j < |a + b| ensures (a + b)[i] != (a + b)[j] {
      if i < |a| && j >= |a| {
        assert (a + b)[i] == a[i] && a[i] in a;
        assert (a + b)[j] == b[j - |a|];
      }
    }
  }

  /** `a` is `b` with some elements left out. */
  predicate IsSubsequence<T(==)>(a: seq<T>, b: seq<T>)
    decreases |b|
  {
    a == [] ||
    (b != [] &&
     ((a[|a| - 1] == b[|b| - 1] && IsSubsequence(a[..|a| - 1], b[..|b| - 1])) || IsSubsequence(a, b[..|b| - 1])))
  }


  /** A subsequence stays one when the longer sequence grows by an element, kept or not. */
  lemma SubsequenceSnoc<T>(a: seq<T>, b: seq<T>, x: T)
    requires IsSubsequence(a, b)
    ensures IsSubsequence(a + [x], b + [x]) && IsSubsequence(a, b + [x])
  {
    assert (a + [x])[..|a|] == a;
    assert (b + [x])[..|b|] == b;
  }

  // ---------------------------------------------------------------------
  // Vocabulary phrases found in a text (`lowerText.contains(term.toLowerCase())` in a loop)
  // ---------------------------------------------------------------------

  /** The phrases of `vocabulary` that occur, lower-cased, in `lowerText`, in vocabulary order. */
  function ContainedPhrases(lowerText: string, vocabulary: seq<string>): seq<string>
  {
    if vocabulary == [] then []
    else
      var phrase := vocabulary[|vocabulary| - 1];
      ContainedPhrases(lowerText, vocabulary[..|vocabulary| - 1]) + (if Contains(lowerText, Lower(phrase)) then [phrase] else [])
  }

  /** A phrase is listed iff it is in the vocabulary and occurs in the text; the list keeps vocabulary order. */
  lemma {:induction false} ContainedPhrasesExactly(lowerText: string, vocabulary: seq<string>)
    ensures forall s :: s in ContainedPhrases(lowerText, vocabulary) <==> s in vocabulary && Contains(lowerText, Lower(s))
    ensures IsSubsequence(ContainedPhrases(lowerText, vocabulary), vocabulary)
    decreases |vocabulary|
  {
    if vocabulary != [] {
      var init := vocabulary[..|vocabulary| - 1];
      var phrase := vocabulary[|vocabulary| - 1];
      ContainedPhrasesExactly(lowerText, init);
      assert vocabulary == init + [phrase];
      var prev := ContainedPhrases(lowerText, init);
      var r := ContainedPhrases(lowerText, vocabulary);
      assert vocabulary[..|vocabulary| - 1] == init;
      if Contains(lowerText, Lower(phrase)) {
        assert r == prev + [phrase];
        assert r[..|r| - 1] == prev;
        assert IsSubsequence(r, vocabulary);
      } else {
        assert r == prev;
        assert IsSubsequence(r, vocabulary);
      }
    }
  }

  /** The loop that appends every phrase found, in vocabulary order. */
  method CollectContained(lowerText: string, vocabulary: seq<string>) returns (found: seq<string>)
    ensures found == ContainedPhrases(lowerText, vocabulary)
  {
    found := [];
    for i := 0 to |vocabulary|
      invariant found == ContainedPhrases(lowerText, vocabulary[..i])
    {
      assert vocabulary[..i + 1][..i] == vocabulary[..i];
      if Contains(lowerText, Lower(vocabulary[i])) {
        found := found + [vocabulary[i]];
      }
    }
    assert vocabulary[..|vocabulary|] == vocabulary;
  }

  /** A phrase whose text contains another phrase of the vocabulary brings that one along. */
  lemma ContainedBringsInner(lowerText: string, vocabulary: seq<string>, outer: string, inner: string)
    requires outer in vocabulary && inner in vocabulary && Contains(Lower(outer), Lower(inner))
    requires Contains(lowerText, Lower(outer))
    ensures outer in ContainedPhrases(lowerText, vocabulary) && inner in ContainedPhrases(lowerText, vocabulary)
  {
    ContainsTransitive(lowerText, Lower(outer), Lower(inner));
    ContainedPhrasesExactly(lowerText, vocabulary);
  }

  /** Some phrase of `phrases` occurs in `s`. */
  predicate ContainsAny(s: string, phrases: seq<string>)
  {
    exists k :: 0 <= k < |phrases| && Contains(s, phrases[k])
  }

  /** A string containing another contains every phrase the other contains. */
  lemma ContainsAnyGrows(small: string, big: string, phrases: seq<string>)
    requires Contains(big, small) && ContainsAny(small, phrases)
    ensures ContainsAny(big, phrases)
  {
    var k :| 0 <= k < |phrases| && Contains(small, phrases[k]);
    ContainsTransitive(big, small, phrases[k]);
  }
}
