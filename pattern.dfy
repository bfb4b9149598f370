/** PatternToReg: the translation of a FetchRequestPattern URL glob into an
    anchored regular expression (lib/proto/utils.go:190-201).

    The source runs two `regexp.ReplaceAllString` passes over the pattern with
    a space prepended, trims white space and wraps the result in `\A` ... `\z`.
    Each pass is modelled by the scan Go's replacement performs (left to
    right, non-overlapping matches of a two-character regular expression) and
    proved equal to a declarative, per-position description of its output. */
module Pattern {

  /** Go's `unicode.IsSpace`: the Latin-1 spaces and Unicode's White_Space set. */
  predicate IsSpace(c: char) {
    || ('\t' <= c <= '\r')
    || c == ' '
    || c == '\U{0085}'
    || c == '\U{00A0}'
    || c == '\U{1680}'
    || ('\U{2000}' <= c <= '\U{200A}')
    || c == '\U{2028}'
    || c == '\U{2029}'
    || c == '\U{202F}'
    || c == '\U{205F}'
    || c == '\U{3000}'
  }

  /** Removes the leading white space of `s`. */
  function TrimLeft(s: string): (r: string)
    ensures |r| <= |s| && r == s[|s| - |r|..]
    ensures forall i :: 0 <= i < |s| - |r| ==> IsSpace(s[i])
    ensures r == [] || !IsSpace(r[0])
    decreases |s|
  {
    if |s| > 0 && IsSpace(s[0]) then TrimLeft(s[1..]) else s
  }

  /** Removes the trailing white space of `s`. */
  function TrimRight(s: string): (r: string)
    ensures |r| <= |s| && r == s[..|r|]
    ensures forall i :: |r| <= i < |s| ==> IsSpace(s[i])
    ensures r == [] || !IsSpace(r[|r| - 1])
    decreases |s|
  {
    if |s| > 0 && IsSpace(s[|s| - 1]) then TrimRight(s[..|s| - 1]) else s
  }

  /** `r` is `s` with a run of white space removed at each end, and no more:
      `r` neither starts nor ends with white space. */
  ghost predicate TrimmedOf(s: string, r: string) {
    && (exists lo :: TrimmedAt(s, r, lo))
    && (r == [] || (!IsSpace(r[0]) && !IsSpace(r[|r| - 1])))
  }

  /** `r` occurs in `s` at offset `lo`, with only white space around it. */
  ghost predicate TrimmedAt(s: string, r: string, lo: int) {
    && 0 <= lo <= lo + |r| <= |s| && s[lo..lo + |r|] == r
    && (forall i :: 0 <= i < lo ==> IsSpace(s[i]))
    && (forall i :: lo + |r| <= i < |s| ==> IsSpace(s[i]))
  }

  /** Go's `strings.TrimSpace`. */
  function TrimSpace(s: string): (r: string)
    ensures TrimmedOf(s, r)
  {
    TrimBothEnds(s);
    TrimRight(TrimLeft(s))
  }

  /** Trimming the front and then the back removes white space only. */
  lemma TrimBothEnds(s: string)
    ensures TrimmedAt(s, TrimRight(TrimLeft(s)), |s| - |TrimLeft(s)|)
  {
    TrimmedAtSuffixPrefix(s, TrimLeft(s), TrimRight(TrimLeft(s)));
  }

  /** A prefix `r` of a suffix `left` of `s`, with only white space cut off
      on either side, occurs in `s` where `left` starts. */
  lemma TrimmedAtSuffixPrefix(s: string, left: string, r: string)
    requires |left| <= |s| && left == s[|s| - |left|..]
    requires forall i :: 0 <= i < |s| - |left| ==> IsSpace(s[i])
    requires |r| <= |left| && r == left[..|r|]
    requires forall i :: |r| <= i < |left| ==> IsSpace(left[i])
    ensures TrimmedAt(s, r, |s| - |left|)
  {
    var lo := |s| - |left|;
    assert s[lo..lo + |r|] == r;
    forall i | lo + |r| <= i < |s|
      ensures IsSpace(s[i])
    {
      assert s[i] == left[i - lo];
    }
  }

  /** One `ReplaceAllString` pass of the regular expression `([^\\])op` with
      the template `$1` + `repl`: scanning left to right, a character other
      than a backslash followed by `op` is kept and the `op` is replaced by
      `repl`; the scan resumes after the match, so matches never overlap.
      The first character is always kept, since a match writes its captured
      character back; a one-character replacement keeps the length, and a
      longer one never shortens the string. What the pass computes at each
      position is `ReplaceIsExpand`. */
  function ReplaceUnescaped(s: string, op: char, repl: string): (r: string)
    ensures |s| > 0 ==> |r| > 0 && r[0] == s[0]
    ensures |repl| == 1 ==> |r| == |s|
    ensures |repl| >= 1 ==> |r| >= |s|
    decreases |s|
  {
    if |s| < 2 then s
    else if s[0] != '\\' && s[1] == op then [s[0]] + repl + ReplaceUnescaped(s[2..], op, repl)
    else [s[0]] + ReplaceUnescaped(s[1..], op, repl)
  }

  /** Position `j` of `s` holds an `op` that a left-to-right, non-overlapping
      search for `([^\\])op` matches: the character before it is not a
      backslash, and that character was not itself consumed by a match. */
  predicate MatchEndsAt(s: string, op: char, j: nat)
    requires j < |s|
    decreases j
  {
    0 < j && s[j] == op && s[j - 1] != '\\' && !MatchEndsAt(s, op, j - 1)
  }

  /** What position `i` of `s` contributes to the output of the pass. */
  function Piece(s: string, op: char, repl: string, i: nat): string
    requires i < |s|
  {
    if MatchEndsAt(s, op, i) then repl else [s[i]]
  }

  /** The output of the pass described position by position, from `k` on. */
  function ExpandFrom(s: string, op: char, repl: string, k: nat): string
    requires k <= |s|
    decreases |s| - k
  {
    if k == |s| then [] else Piece(s, op, repl, k) + ExpandFrom(s, op, repl, k + 1)
  }

  /** The scan, started at a position no earlier match has consumed, produces
      exactly the per-position description of the rest of the input. */
  lemma {:induction false} ReplaceFromIsExpand(s: string, op: char, repl: string, k: nat)
    requires k <= |s|
    requires k < |s| ==> !MatchEndsAt(s, op, k)
    ensures ReplaceUnescaped(s[k..], op, repl) == ExpandFrom(s, op, repl, k)
    decreases |s| - k
  {
    if k + 2 > |s| {
      if k < |s| {
        ExpandStep(s, op, repl, k);
        assert s[k..] == [s[k]];
      }
    } else if s[k] != '\\' && s[k + 1] == op {
      assert MatchEndsAt(s, op, k + 1);
      ReplaceFromIsExpand(s, op, repl, k + 2);
      ReplaceStepAt(s, op, repl, k);
      ExpandStep(s, op, repl, k);
      ExpandStep(s, op, repl, k + 1);
    } else {
      assert !MatchEndsAt(s, op, k + 1);
      ReplaceFromIsExpand(s, op, repl, k + 1);
      ReplaceStepAt(s, op, repl, k);
      ExpandStep(s, op, repl, k);
    }
  }

  /** One step of the scan at position `k` of `s`. */
  lemma ReplaceStepAt(s: string, op: char, repl: string, k: nat)
    requires k + 2 <= |s|
    ensures ReplaceUnescaped(s[k..], op, repl)
         == if s[k] != '\\' && s[k + 1] == op then [s[k]] + repl + ReplaceUnescaped(s[k + 2..], op, repl)
            else [s[k]] + ReplaceUnescaped(s[k + 1..], op, repl)
  {
    var t := s[k..];
    assert t[0] == s[k] && t[1] == s[k + 1];
    assert t[1..] == s[k + 1..] && t[2..] == s[k + 2..];
  }

  /** One step of the per-position description. */
  lemma ExpandStep(s: string, op: char, repl: string, k: nat)
    requires k < |s|
    ensures ExpandFrom(s, op, repl, k) == Piece(s, op, repl, k) + ExpandFrom(s, op, repl, k + 1)
  {
  }

  /** A whole pass equals its per-position description. */
  lemma ReplaceIsExpand(s: string, op: char, repl: string)
    ensures ReplaceUnescaped(s, op, repl) == ExpandFrom(s, op, repl, 0)
  {
    assert s[0..] == s;
    ReplaceFromIsExpand(s, op, repl, 0);
  }

  /** A pass changes nothing in a string that does not contain its operator. */
  lemma {:induction false} ReplaceWithoutOperator(s: string, op: char, repl: string)
    requires op !in s
    ensures ReplaceUnescaped(s, op, repl) == s
    decreases |s|
  {
    if |s| >= 2 {
      assert s[1] != op;
      ReplaceWithoutOperator(s[1..], op, repl);
    }
  }

  /** `ReplaceStepAt` at the start of a character `c` followed by `s`. */
  lemma ReplaceStep(c: char, s: string, op: char, repl: string)
    requires |s| > 0
    ensures ReplaceUnescaped([c] + s, op, repl)
         == if c != '\\' && s[0] == op then [c] + repl + ReplaceUnescaped(s[1..], op, repl)
            else [c] + ReplaceUnescaped(s, op, repl)
  {
    var t := [c] + s;
    assert t[0..] == t && t[1..] == s && t[2..] == s[1..];
    ReplaceStepAt(t, op, repl, 0);
  }

  /** Trimming a space followed by a non-space character keeps that
      character: only the trailing white space goes. */
  lemma TrimAfterSpace(x: string)
    requires |x| > 0 && !IsSpace(x[0])
    ensures TrimSpace(" " + x) == TrimRight(x)
  {
    assert (" " + x)[1..] == x;
  }

  /** Trailing trimming keeps every character up to a non-space one. */
  lemma TrimRightKeeps(x: string, i: nat)
    requires i < |x| && !IsSpace(x[i])
    ensures |TrimRight(x)| > i && TrimRight(x)[..i + 1] == x[..i + 1]
  {
  }

  /** The glob operator `*`: any run of characters. */
  const Star: char := '*'
  /** The glob operator `?`: exactly one character. */
  const Question: char := '?'

  /** The glob with a space in front and the two passes applied, before
      trimming. The space survives both passes at the front, and the result
      is at least as long as the spaced glob. */
  function Expanded(pattern: string): (r: string)
    ensures |r| >= |pattern| + 1 && r[0] == ' '
  {
    ReplaceUnescaped(ReplaceUnescaped(" " + pattern, Star, ".*"), Question, ".")
  }

  /** Translates a URL glob into an anchored regular expression; the empty
      glob translates to the empty expression, which callers read as
      "match anything". */
  function PatternToReg(pattern: string): (r: string)
    ensures pattern == [] <==> r == []
    ensures pattern != [] ==> |r| >= 4 && r[..2] == "\\A" && r[|r| - 2..] == "\\z"
  {
    if pattern == [] then "" else "\\A" + TrimSpace(Expanded(pattern)) + "\\z"
  }

  /** Between its anchors, the regular expression is the expanded glob with
      the white space at both ends removed, and nothing else. */
  lemma PatternToRegTrimmed(pattern: string)
    requires pattern != []
    ensures var r := PatternToReg(pattern);
            TrimmedOf(Expanded(pattern), r[2..|r| - 2])
  {
    var body := TrimSpace(Expanded(pattern));
    var r := "\\A" + body + "\\z";
    assert r[2..|r| - 2] == body;
  }

  /** When the expansion is a space followed by a `body` that neither starts
      nor ends with white space, the regular expression is `body`, anchored. */
  lemma PatternToRegOf(pattern: string, body: string)
    requires pattern != [] && Expanded(pattern) == " " + body
    requires body != [] && !IsSpace(body[0]) && !IsSpace(body[|body| - 1])
    ensures PatternToReg(pattern) == "\\A" + body + "\\z"
  {
    TrimAfterSpace(body);
  }

  /** PatternToReg stated through the declarative description of each pass:
      the glob (with a space in front) has every unescaped, not already
      consumed `*` turned into `.*`, then every such `?` turned into `.`;
      every other character, including a backslash and regular-expression
      metacharacters, is copied unchanged. */
  lemma PatternToRegExpands(pattern: string)
    requires pattern != []
    ensures var stars := ExpandFrom(" " + pattern, Star, ".*", 0);
            PatternToReg(pattern) == "\\A" + TrimSpace(ExpandFrom(stars, Question, ".", 0)) + "\\z"
  {
    ReplaceIsExpand(" " + pattern, Star, ".*");
    ReplaceIsExpand(ReplaceUnescaped(" " + pattern, Star, ".*"), Question, ".");
  }

  /** A glob without `*` and `?` is used as a regular expression verbatim,
      trimmed and anchored: no other character is escaped. */
  lemma PatternWithoutOperators(pattern: string)
    requires pattern != [] && Star !in pattern && Question !in pattern
    ensures PatternToReg(pattern) == "\\A" + TrimSpace(pattern) + "\\z"
  {
    var s := " " + pattern;
    ReplaceWithoutOperator(s, Star, ".*");
    ReplaceWithoutOperator(s, Question, ".");
    assert s[1..] == pattern;
    assert TrimLeft(s) == TrimLeft(pattern);
  }

  /** When the expansion is a space followed by a non-space character, the
      regular expression is the rest of the expansion without its trailing
      white space, anchored. */
  lemma PatternToRegAfterSpace(pattern: string, x: string)
    requires pattern != [] && Expanded(pattern) == " " + x
    requires |x| > 0 && !IsSpace(x[0])
    ensures PatternToReg(pattern) == "\\A" + TrimRight(x) + "\\z"
  {
    TrimAfterSpace(x);
  }

  /** The expansion of a glob that starts with `*` starts with ` .*`. */
  lemma ExpandedLeadingStar(pattern: string)
    requires |pattern| > 0 && pattern[0] == Star
    ensures |Expanded(pattern)| >= 3 && Expanded(pattern)[..3] == " .*"
  {
    var u := ReplaceUnescaped(pattern[1..], Star, ".*");
    ReplaceStep(' ', pattern, Star, ".*");
    assert ReplaceUnescaped(" " + pattern, Star, ".*") == [' '] + ("." + ("*" + u));
    ReplaceStep(' ', "." + ("*" + u), Question, ".");
    ReplaceStep('.', "*" + u, Question, ".");
  }

  /** When the expansion is a space followed by `x`, which starts with a
      non-space character, the regular expression holds `x` right after
      `\\A` up to any of its non-space characters. */
  lemma AfterSpaceKeeps(pattern: string, x: string, i: nat)
    requires pattern != [] && Expanded(pattern) == " " + x
    requires i < |x| && !IsSpace(x[0]) && !IsSpace(x[i])
    ensures |PatternToReg(pattern)| >= i + 3 && PatternToReg(pattern)[2..i + 3] == x[..i + 1]
  {
    PatternToRegAfterSpace(pattern, x);
    TrimRightKeeps(x, i);
    MiddleSlice("\\A", TrimRight(x), "\\z", i + 1);
  }

  /** The part of `a + t + b` right after `a` starts with `t`. */
  lemma MiddleSlice(a: string, t: string, b: string, k: nat)
    requires k <= |t|
    ensures (a + t + b)[|a|..|a| + k] == t[..k]
  {
    var r := a + t + b;
    assert forall j :: 0 <= j < k ==> r[|a|..|a| + k][j] == t[j];
  }

  /** A `*` at the very start of the glob is expanded: the prepended space is
      the character that precedes it. */
  lemma LeadingStarExpands(pattern: string)
    requires |pattern| > 0 && pattern[0] == Star
    ensures var r := PatternToReg(pattern); r[2] == '.' && r[3] == '*'
  {
    ExpandedLeadingStar(pattern);
    var e := Expanded(pattern);
    var x := e[1..];
    assert e == " " + x;
    assert x[0] == e[..3][1] == '.' && x[1] == e[..3][2] == '*';
    AfterSpaceKeeps(pattern, x, 1);
    var r := PatternToReg(pattern);
    assert r[2] == r[2..4][0] && r[3] == r[2..4][1];
  }

  /** The expansion of a glob that starts with `?` starts with ` .`. */
  lemma ExpandedLeadingQuestion(pattern: string)
    requires |pattern| > 0 && pattern[0] == Question
    ensures |Expanded(pattern)| >= 2 && Expanded(pattern)[..2] == " ."
  {
    ReplaceStep(' ', pattern, Star, ".*");
    var u := ReplaceUnescaped(pattern, Star, ".*");
    ReplaceStep(' ', u, Question, ".");
  }

  /** A `?` at the very start of the glob is expanded to `.`. */
  lemma LeadingQuestionExpands(pattern: string)
    requires |pattern| > 0 && pattern[0] == Question
    ensures PatternToReg(pattern)[2] == '.'
  {
    ExpandedLeadingQuestion(pattern);
    var e := Expanded(pattern);
    var x := e[1..];
    assert e == " " + x;
    assert x[0] == e[..2][1] == '.';
    PatternToRegAfterSpace(pattern, x);
    TrimRightKeeps(x, 0);
    assert TrimRight(x)[0] == '.';
  }

  /** A doubled `*`: the first match consumes the character before the
      second `*`, so the second stays as it is; `.**` is a repetition of a
      repetition, which Go's regular-expression syntax rejects. */
  lemma DoubleStarExample()
    ensures PatternToReg("**") == "\\A" + ".**" + "\\z"
  {
    ReplaceStep(' ', "**", Star, ".*");
    assert ("**")[1..] == "*" && [' '] + ".*" + "*" == " " + ".**";
    ReplaceStep(' ', ".**", Question, ".");
    ReplaceWithoutOperator(".**", Question, ".");
    assert Expanded("**") == " " + ".**";
    PatternToRegOf("**", ".**");
  }

  /** A doubled `?`: only the first is expanded, so the expression matches
      at most one character where the glob asks for exactly two. */
  lemma DoubleQuestionExample()
    ensures PatternToReg("??") == "\\A" + ".?" + "\\z"
  {
    ReplaceWithoutOperator(" " + "??", Star, ".*");
    ReplaceStep(' ', "??", Question, ".");
    assert Expanded("??") == " " + ".?";
    PatternToRegOf("??", ".?");
  }

  /** A backslash-escaped `*` keeps its backslash and is not expanded. */
  lemma EscapedStarExample()
    ensures PatternToReg("a\\*b") == "\\A" + "a\\*b" + "\\z"
  {
    var p := "a\\*b";
    ReplaceStep(' ', p, Star, ".*");
    ReplaceStep('a', p[1..], Star, ".*");
    ReplaceStep('\\', p[2..], Star, ".*");
    ReplaceWithoutOperator(p[2..], Question, ".");
    ReplaceWithoutOperator(p[3..], Star, ".*");
    assert ReplaceUnescaped(" " + p, Star, ".*") == " " + p;
    ReplaceWithoutOperator(" " + p, Question, ".");
    PatternToRegOf(p, p);
  }

  /** The two passes over a glob that starts with `*` and names a file
      extension. */
  lemma ExtensionExpanded()
    ensures Expanded("*.png") == " " + ".*.png"
  {
    var rest := ".png";
    var spaced := [' '] + ("*" + rest);
    assert " " + "*.png" == spaced;
    ReplaceStep(' ', "*" + rest, Star, ".*");
    assert ("*" + rest)[1..] == rest;
    ReplaceWithoutOperator(rest, Star, ".*");
    var stars := [' '] + ".*" + rest;
    assert ReplaceUnescaped(spaced, Star, ".*") == stars;
    ReplaceWithoutOperator(stars, Question, ".");
    assert stars == " " + ".*.png";
  }

  /** A glob that starts with `*` and names a file extension. */
  lemma ExtensionExample()
    ensures PatternToReg("*.png") == "\\A" + ".*.png" + "\\z"
  {
    ExtensionExpanded();
    PatternToRegOf("*.png", ".*.png");
  }

  /** What position `i` of `s` contributes under the evidently intended rule
      of a pass: every `op` directly after a character other than a
      backslash is replaced, whether or not that character is itself an
      `op` that was replaced. */
  function IntendedPiece(s: string, op: char, repl: string, i: nat): string
    requires i < |s|
  {
    if 0 < i && s[i] == op && s[i - 1] != '\\' then repl else [s[i]]
  }

  /** The output of the intended pass, from position `k` on. */
  function IntendedFrom(s: string, op: char, repl: string, k: nat): string
    requires k <= |s|
    decreases |s| - k
  {
    if k == |s| then [] else IntendedPiece(s, op, repl, k) + IntendedFrom(s, op, repl, k + 1)
  }

  /** PatternToReg with each pass replaced by the intended one. */
  function PatternToRegIntended(pattern: string): (r: string)
    ensures pattern == [] <==> r == []
    ensures pattern != [] ==> |r| >= 4 && r[..2] == "\\A" && r[|r| - 2..] == "\\z"
  {
    if pattern == [] then ""
    else
      var stars := IntendedFrom(" " + pattern, Star, ".*", 0);
      "\\A" + TrimSpace(IntendedFrom(stars, Question, ".", 0)) + "\\z"
  }

  /** No `op` directly follows another `op`. */
  predicate NoOperatorRun(s: string, op: char) {
    forall j :: 0 < j < |s| ==> !(s[j - 1] == op && s[j] == op)
  }

  /** Where no `op` directly follows another, a match never has to skip an
      `op` because its preceding character was consumed, so the scan and
      the intended rule agree position by position. */
  lemma {:induction false} ExpandIsIntended(s: string, op: char, repl: string, k: nat)
    requires k <= |s| && NoOperatorRun(s, op)
    ensures ExpandFrom(s, op, repl, k) == IntendedFrom(s, op, repl, k)
    decreases |s| - k
  {
    if k < |s| {
      ExpandIsIntended(s, op, repl, k + 1);
      if 0 < k && s[k] == op {
        assert !MatchEndsAt(s, op, k - 1);
      }
      assert Piece(s, op, repl, k) == IntendedPiece(s, op, repl, k);
    }
  }

  /** A pass over a string without a run of its operator does what was
      intended. */
  lemma ReplaceIsIntended(s: string, op: char, repl: string)
    requires NoOperatorRun(s, op)
    ensures ReplaceUnescaped(s, op, repl) == IntendedFrom(s, op, repl, 0)
  {
    ReplaceIsExpand(s, op, repl);
    ExpandIsIntended(s, op, repl, 0);
  }

  /** A glob whose passes meet no run of their operator is translated as
      intended. */
  lemma PatternToRegAsIntended(pattern: string)
    requires pattern != []
    requires NoOperatorRun(" " + pattern, Star)
    requires NoOperatorRun(ReplaceUnescaped(" " + pattern, Star, ".*"), Question)
    ensures PatternToReg(pattern) == PatternToRegIntended(pattern)
  {
    ReplaceIsIntended(" " + pattern, Star, ".*");
    ReplaceIsIntended(ReplaceUnescaped(" " + pattern, Star, ".*"), Question, ".");
  }

  /** The intended pass changes nothing in a string without its operator. */
  lemma {:induction false} IntendedWithoutOperator(s: string, op: char, repl: string, k: nat)
    requires k <= |s| && op !in s
    ensures IntendedFrom(s, op, repl, k) == s[k..]
    decreases |s| - k
  {
    if k < |s| {
      IntendedWithoutOperator(s, op, repl, k + 1);
      assert s[k..] == [s[k]] + s[k + 1..];
    }
  }

  /** When the intended expansion is a space followed by a `body` that
      neither starts nor ends with white space, the intended regular
      expression is `body`, anchored. */
  lemma PatternToRegIntendedOf(pattern: string, body: string)
    requires pattern != []
    requires IntendedFrom(IntendedFrom(" " + pattern, Star, ".*", 0), Question, ".", 0) == " " + body
    requires body != [] && !IsSpace(body[0]) && !IsSpace(body[|body| - 1])
    ensures PatternToRegIntended(pattern) == "\\A" + body + "\\z"
  {
    TrimAfterSpace(body);
  }

  /** Under the intended rule a doubled `?` stands for exactly two
      characters. */
  lemma IntendedDoubleQuestion()
    ensures PatternToRegIntended("??") == "\\A" + ".." + "\\z"
  {
    var s := " " + "??";
    IntendedWithoutOperator(s, Star, ".*", 0);
    assert IntendedFrom(s, Question, ".", 3) == [];
    assert IntendedFrom(s, Question, ".", 2) == ".";
    assert IntendedFrom(s, Question, ".", 1) == "..";
    assert IntendedFrom(s, Question, ".", 0) == " " + "..";
    PatternToRegIntendedOf("??", "..");
  }

  /** The intended star pass over a doubled `*` with a space in front. */
  lemma IntendedDoubleStarPass()
    ensures IntendedFrom(" " + "**", Star, ".*", 0) == " " + ".*.*"
  {
    var s := " " + "**";
    assert IntendedFrom(s, Star, ".*", 3) == [];
    assert IntendedFrom(s, Star, ".*", 2) == ".*";
    assert IntendedFrom(s, Star, ".*", 1) == ".*.*";
  }

  /** Under the intended rule a doubled `*` expands twice, which is a valid
      regular expression. */
  lemma IntendedDoubleStar()
    ensures PatternToRegIntended("**") == "\\A" + ".*.*" + "\\z"
  {
    IntendedDoubleStarPass();
    IntendedWithoutOperator(" " + ".*.*", Question, ".", 0);
    assert (" " + ".*.*")[0..] == " " + ".*.*";
    PatternToRegIntendedOf("**", ".*.*");
  }
}
