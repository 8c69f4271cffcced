/**
  Python's `str.replace(old, new)` on strings, as the view callback uses it
  both to take the category out of the callback data and to strip a group
  prefix from the category for display. Python scans left to right, replaces
  every non-overlapping occurrence of `old`, and resumes after each one.
 */
module Text {

  /** `pat` occurs in `s` starting at index `i`. */
  predicate OccursAt(s: string, pat: string, i: nat)
  {
    i + |pat| <= |s| && s[i..i + |pat|] == pat
  }

  /** `pat` occurs somewhere in `s`. */
  ghost predicate Occurs(s: string, pat: string)
  {
    exists i: nat :: OccursAt(s, pat, i)
  }

  /**
    `s.replace(pat, rep)` for a non-empty `pat`: every occurrence, leftmost
    first and without overlap, is replaced by `rep`. Only the empty-string
    case of Python's replace is excluded, and no caller in the model uses it.
   */
  function ReplaceAll(s: string, pat: string, rep: string): (r: string)
    requires pat != []
    ensures rep == [] ==> |r| <= |s|
    ensures rep == [] && pat <= s ==> |r| + |pat| <= |s|
    decreases |s|
  {
    if s == [] then []
    else if pat <= s then rep + ReplaceAll(s[|pat|..], pat, rep)
    else [s[0]] + ReplaceAll(s[1..], pat, rep)
  }

  /** A string in which the pattern does not occur is left as it is. */
  lemma {:induction false} ReplaceAllAbsent(s: string, pat: string, rep: string)
    requires pat != []
    requires !Occurs(s, pat)
    ensures ReplaceAll(s, pat, rep) == s
    decreases |s|
  {
    if s == [] {
    } else if pat <= s {
      assert OccursAt(s, pat, 0);
    } else {
      forall i: nat | OccursAt(s[1..], pat, i)
        ensures false
      {
        assert s[1..][i..i + |pat|] == s[i + 1..i + 1 + |pat|];
        assert OccursAt(s, pat, i + 1);
      }
      ReplaceAllAbsent(s[1..], pat, rep);
      assert s == [s[0]] + s[1..];
    }
  }

  /** Deleting an occurring pattern makes the string strictly shorter. */
  lemma {:induction false} ReplaceAllShrinks(s: string, pat: string, i: nat)
    requires pat != []
    requires OccursAt(s, pat, i)
    ensures |ReplaceAll(s, pat, [])| < |s|
    decreases |s|
  {
    if pat <= s {
    } else {
      assert s[1..][i - 1..i - 1 + |pat|] == s[i..i + |pat|];
      ReplaceAllShrinks(s[1..], pat, i - 1);
    }
  }

  /** Deleting a pattern changes the string exactly when the pattern occurs in it. */
  lemma StripChangesIffOccurs(s: string, pat: string)
    requires pat != []
    ensures ReplaceAll(s, pat, []) != s <==> Occurs(s, pat)
  {
    if Occurs(s, pat) {
      var i: nat :| OccursAt(s, pat, i);
      ReplaceAllShrinks(s, pat, i);
    } else {
      ReplaceAllAbsent(s, pat, []);
    }
  }
}
