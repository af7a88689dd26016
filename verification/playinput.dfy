/** The text handling of the `play` command: the query clean-up, the
    SoundCloud refusal test and the cut of over-long upstream error text. */
module PlayInput {

  /** The characters the query clean-up removes. */
  predicate Stripped(c: char) {
    c == '<' || c == '>' || c == '[' || c == ']'
  }

  predicate Clean(q: string) {
    forall i :: 0 <= i < |q| ==> !Stripped(q[i])
  }

  /** `a` can be obtained from `b` by deleting characters, keeping the order. */
  predicate IsSubsequence(a: string, b: string)
    decreases |b|
  {
    a == [] || (b != [] && ((a[0] == b[0] && IsSubsequence(a[1..], b[1..])) || IsSubsequence(a, b[1..])))
  }

  /** The query with every `<`, `>`, `[` and `]` removed. */
  function Sanitize(q: string): (r: string)
    ensures Clean(r)
    ensures forall c :: !Stripped(c) ==> multiset(r)[c] == multiset(q)[c]
    ensures |r| <= |q|
    decreases |q|
  {
    if q == [] then []
    else
      assert q == [q[0]] + q[1..];
      if Stripped(q[0]) then Sanitize(q[1..]) else [q[0]] + Sanitize(q[1..])
  }

  /** The cleaned query keeps the order of what it keeps. */
  lemma {:induction false} SanitizeIsSubsequence(q: string)
    ensures IsSubsequence(Sanitize(q), q)
    decreases |q|
  {
    if q != [] {
      SanitizeIsSubsequence(q[1..]);
      if !Stripped(q[0]) {
        var r := [q[0]] + Sanitize(q[1..]);
        assert r[1..] == Sanitize(q[1..]);
      } else {
        SubsequenceOfTail(Sanitize(q[1..]), q);
      }
    }
  }

  lemma SubsequenceOfTail(a: string, b: string)
    requires b != [] && IsSubsequence(a, b[1..])
    ensures IsSubsequence(a, b)
  {
  }

  /** A query with nothing to strip is left as it is. */
  lemma {:induction false} SanitizeKeepsCleanQuery(q: string)
    requires Clean(q)
    ensures Sanitize(q) == q
    decreases |q|
  {
    if q != [] {
      assert Clean(q[1..]) by {
        forall i | 0 <= i < |q[1..]| ensures !Stripped(q[1..][i]) {
          assert q[1..][i] == q[i + 1];
        }
      }
      SanitizeKeepsCleanQuery(q[1..]);
      assert !Stripped(q[0]);
      assert q == [q[0]] + q[1..];
    }
  }

  /** Cleaning twice is cleaning once. */
  lemma SanitizeIdempotent(q: string)
    ensures Sanitize(Sanitize(q)) == Sanitize(q)
  {
    SanitizeKeepsCleanQuery(Sanitize(q));
  }

  /** `p` occurs in `s` as a contiguous run starting at position `i`. */
  predicate OccursAt(p: string, s: string, i: int) {
    0 <= i && i + |p| <= |s| && s[i..i + |p|] == p
  }

  /** `p` occurs in `s` as a contiguous run. */
  ghost predicate Occurs(p: string, s: string) {
    exists i :: OccursAt(p, s, i)
  }

  /** Python's `p in s` for strings, scanning `s` left to right. */
  function Contains(s: string, p: string): (b: bool)
    ensures b <==> Occurs(p, s)
    decreases |s|
  {
    if |s| < |p| then false
    else if s[..|p|] == p then
      assert OccursAt(p, s, 0);
      true
    else
      var b := Contains(s[1..], p);
      assert b ==> Occurs(p, s) by {
        if b {
          var i :| OccursAt(p, s[1..], i);
          assert s[i + 1..i + 1 + |p|] == s[1..][i..i + |p|];
          assert OccursAt(p, s, i + 1);
        }
      }
      assert Occurs(p, s) ==> b by {
        if Occurs(p, s) {
          var i :| OccursAt(p, s, i);
          assert i != 0;
          assert s[1..][i - 1..i - 1 + |p|] == s[i..i + |p|];
          assert OccursAt(p, s[1..], i - 1);
        }
      }
      b
  }

  const SoundCloud := "soundcloud.com"

  /** Requests naming SoundCloud are refused before anything else is done. */
  predicate RefusedSource(song: string) {
    Contains(song, SoundCloud)
  }

  /** The message length limit of the chat platform. */
  const MessageLimit := 2000

  /** Upstream error text of 2000 characters or more is cut to its first 1996
      characters followed by "..."; shorter text is passed on unchanged. */
  function TruncateError(e: string): (r: string)
    ensures |r| < MessageLimit
    ensures |e| < MessageLimit ==> r == e
    ensures |e| >= MessageLimit ==> |r| == 1999 && r[..1996] == e[..1996] && r[1996..] == "..."
  {
    if |e| >= MessageLimit then e[..1996] + "..." else e
  }

  /** A cut message is never cut again. */
  lemma TruncateErrorIdempotent(e: string)
    ensures TruncateError(TruncateError(e)) == TruncateError(e)
  {
  }
}
