/** Method identifiers of the form `Domain.Name` and ParseMethodName
    (lib/proto/utils.go:65-69), which splits one on `.` with Go's
    `strings.Split` and returns the first two parts. */
module MethodNames {

  /** The separator between the domain and the name. */
  const Dot: char := '.'

  /** Go's `strings.Split(s, ".")`: the pieces of `s` between the dots, in
      order; a string without a dot is one piece, the empty string included. */
  function Split(s: string): (parts: seq<string>)
    ensures |parts| > 0
    ensures forall i :: 0 <= i < |parts| ==> Dot !in parts[i]
    decreases |s|
  {
    if s == [] then [[]]
    else
      var rest := Split(s[1..]);
      if s[0] == Dot then [[]] + rest
      else [[s[0]] + rest[0]] + rest[1..]
  }

  /** There is one more piece than there are dots. */
  lemma {:induction false} SplitCount(s: string)
    ensures |Split(s)| == multiset(s)[Dot] + 1
    decreases |s|
  {
    if s != [] {
      SplitCount(s[1..]);
      assert s == [s[0]] + s[1..];
      assert multiset(s)[Dot] == multiset(s[1..])[Dot] + (if s[0] == Dot then 1 else 0);
    }
  }

  /** The first piece is the text before the first dot; when there is a dot,
      the other pieces are the pieces of the text after it. */
  lemma {:induction false} SplitFirst(s: string)
    ensures var parts := Split(s);
            && |parts[0]| <= |s| && s[..|parts[0]|] == parts[0]
            && (|parts[0]| < |s| ==> s[|parts[0]|] == Dot && parts[1..] == Split(s[|parts[0]| + 1..]))
    decreases |s|
  {
    if s != [] {
      var rest := Split(s[1..]);
      if s[0] == Dot {
        assert Split(s)[1..] == rest;
      } else {
        SplitFirst(s[1..]);
        var p0 := rest[0];
        assert Split(s)[0] == [s[0]] + p0 && Split(s)[1..] == rest[1..];
        assert s[..|p0| + 1] == [s[0]] + s[1..][..|p0|];
        if |p0| < |s[1..]| {
          assert s[1..][|p0| + 1..] == s[|p0| + 2..];
        }
      }
    }
  }

  /** Go's `strings.Join(parts, ".")`. */
  function Join(parts: seq<string>): string
    requires |parts| > 0
    decreases |parts|
  {
    if |parts| == 1 then parts[0] else parts[0] + [Dot] + Join(parts[1..])
  }

  /** Joining the pieces with dots gives back the string that was split. */
  lemma {:induction false} JoinSplit(s: string)
    ensures Join(Split(s)) == s
    decreases |s|
  {
    if s != [] {
      var rest := Split(s[1..]);
      JoinSplit(s[1..]);
      if s[0] == Dot {
        assert Split(s)[1..] == rest;
      } else {
        var parts := Split(s);
        assert parts[0] == [s[0]] + rest[0] && parts[1..] == rest[1..];
        if |rest| > 1 {
          assert Join(rest) == rest[0] + [Dot] + Join(rest[1..]);
        }
      }
    }
  }

  /** For a string with a dot, the first two pieces are the text before the
      first dot and the text between it and the next dot (or the end). */
  lemma FirstTwoPieces(s: string)
    requires Dot in s
    ensures var parts := Split(s);
            && |parts| >= 2
            && |parts[0]| + 1 + |parts[1]| <= |s|
            && s[..|parts[0]| + 1 + |parts[1]|] == parts[0] + [Dot] + parts[1]
            && (|parts[0]| + 1 + |parts[1]| < |s| ==> s[|parts[0]| + 1 + |parts[1]|] == Dot)
  {
    var parts := Split(s);
    SplitFirst(s);
    var d := parts[0];
    DotAfterDotFree(s, d);
    var rest := s[|d| + 1..];
    SplitFirst(rest);
    var n := Split(rest)[0];
    assert parts[1] == n;
    PrefixThroughDot(s, d, n);
  }

  /** A dot-free prefix of a string with a dot stops before the end. */
  lemma DotAfterDotFree(s: string, d: string)
    requires Dot in s && |d| <= |s| && s[..|d|] == d && Dot !in d
    ensures |d| < |s|
  {
    var i :| 0 <= i < |s| && s[i] == Dot;
    assert forall j :: 0 <= j < |d| ==> s[j] == d[j];
  }

  /** A prefix `d`, the dot after it, and a prefix `n` of the rest make up a
      prefix of `s`. */
  lemma PrefixThroughDot(s: string, d: string, n: string)
    requires |d| < |s| && s[..|d|] == d && s[|d|] == Dot
    requires |n| <= |s| - |d| - 1 && s[|d| + 1..][..|n|] == n
    ensures s[..|d| + 1 + |n|] == d + [Dot] + n
  {
    assert s[..|d| + 1 + |n|] == s[..|d|] + [s[|d|]] + s[|d| + 1..][..|n|];
  }

  /** Splits a method identifier into its domain and its name. The source
      indexes the second piece unconditionally, so a caller must pass a
      string with at least one dot. The domain is everything before the
      first dot and the name everything between it and the next dot (or the
      end). */
  function ParseMethodName(methodName: string): (r: (string, string))
    requires Dot in methodName
    ensures var (domain, name) := r;
            && Dot !in domain && Dot !in name
            && |domain| + 1 + |name| <= |methodName|
            && methodName[..|domain| + 1 + |name|] == domain + [Dot] + name
            && (|domain| + 1 + |name| < |methodName| ==> methodName[|domain| + 1 + |name|] == Dot)
  {
    FirstTwoPieces(methodName);
    var parts := Split(methodName);
    (parts[0], parts[1])
  }

  /** For a well-formed identifier, with exactly one dot, the domain and the
      name put back together with a dot are the identifier. */
  lemma ParseWellFormed(methodName: string)
    requires multiset(methodName)[Dot] == 1
    ensures var (domain, name) := ParseMethodName(methodName);
            domain + [Dot] + name == methodName
  {
    SplitCount(methodName);
    var parts := Split(methodName);
    JoinSplit(methodName);
    assert Join(parts) == parts[0] + [Dot] + Join(parts[1..]);
  }
}
