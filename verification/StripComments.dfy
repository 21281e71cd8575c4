/**
 * The comment stripper of the colour check (scripts/check-no-raw-colors.ts): comments are blanked in place, so every
 * match in the stripped text is on the line it is on in the source.
 */
module StripComments {

  // ── Blanking ────────────────────────────────────────────────────────────────────────────────────────

  function Blank(s: string): (b: string)
    ensures |b| == |s| && forall i | 0 <= i < |s| :: b[i] == if s[i] == '\n' then '\n' else ' '
  {
    seq(|s|, i requires 0 <= i < |s| => if s[i] == '\n' then '\n' else ' ')
  }

  /** Same length, and each character is kept or, unless it is a newline, blanked. */
  predicate Blanks(s: string, t: string) {
    |t| == |s| && forall i | 0 <= i < |s| :: t[i] == s[i] || (t[i] == ' ' && s[i] != '\n')
  }

  // ── Block comments ──────────────────────────────────────────────────────────────────────────────────

  predicate Opens(s: string, i: int) { 0 <= i && i + 1 < |s| && s[i] == '/' && s[i + 1] == '*' }
  predicate Closes(s: string, i: int) { 0 <= i && i + 1 < |s| && s[i] == '*' && s[i + 1] == '/' }

  /** The first close at or after i, or |s| when there is none. */
  function CloseFrom(s: string, i: nat): (c: nat)
    requires i <= |s|
    ensures i <= c <= |s| && (c < |s| ==> Closes(s, c) && c + 2 <= |s|)
    ensures forall k | i <= k < c :: !Closes(s, k)
    decreases |s| - i
  {
    if i == |s| then i else if Closes(s, i) then i else CloseFrom(s, i + 1)
  }

  predicate BlockAt(s: string, i: nat) { Opens(s, i) && CloseFrom(s, i + 2) < |s| }

  /** Where the block comment that starts at i ends. */
  function BlockEnd(s: string, i: nat): (e: nat)
    requires BlockAt(s, i)
    ensures i + 4 <= e <= |s|
  {
    CloseFrom(s, i + 2) + 2
  }

  /** The block pass from position i on: leftmost comments first, each to its first close. */
  function Blocks(s: string, i: nat): (t: string)
    requires i <= |s|
    ensures |t| == |s| - i && forall k | 0 <= k < |t| :: t[k] == s[i + k] || (t[k] == ' ' && s[i + k] != '\n')
    decreases |s| - i
  {
    if i == |s| then ""
    else if BlockAt(s, i) then Blank(s[i..BlockEnd(s, i)]) + Blocks(s, BlockEnd(s, i))
    else [s[i]] + Blocks(s, i + 1)
  }

  method StripBlocks(s: string) returns (t: string)
    ensures t == Blocks(s, 0)
  {
    t := "";
    var i := 0;
    while i < |s|
      invariant i <= |s| && t + Blocks(s, i) == Blocks(s, 0)
      decreases |s| - i
    {
      if BlockAt(s, i) {
        var e := BlockEnd(s, i);
        assert t + (Blank(s[i..e]) + Blocks(s, e)) == (t + Blank(s[i..e])) + Blocks(s, e);
        t, i := t + Blank(s[i..e]), e;
      } else {
        assert t + ([s[i]] + Blocks(s, i + 1)) == (t + [s[i]]) + Blocks(s, i + 1);
        t, i := t + [s[i]], i + 1;
      }
    }
    assert t + "" == t;
  }

  /** No complete block comment anywhere. */
  ghost predicate NoBlock(t: string) { forall a: int, b: int | Opens(t, a) && Closes(t, b) :: b < a + 2 }

  lemma {:induction false} NoBlockCons(s: string, i: nat)
    requires i < |s| && !BlockAt(s, i) && NoBlock(Blocks(s, i + 1))
    ensures NoBlock([s[i]] + Blocks(s, i + 1))
  {
    var rest := Blocks(s, i + 1);
    var t := [s[i]] + rest;
    forall a: int, b: int | Opens(t, a) && Closes(t, b) ensures b < a + 2 {
      if a > 0 && b > 0 {
        assert Opens(rest, a - 1) && Closes(rest, b - 1);
      } else if a == 0 && b >= 2 {
        assert Opens(s, i) && Closes(s, i + b);
      }
    }
  }

  lemma {:induction false} NoBlockBlank(blank: string, rest: string)
    requires NoBlock(rest) && forall k | 0 <= k < |blank| :: blank[k] == ' ' || blank[k] == '\n'
    ensures NoBlock(blank + rest)
  {
    var t, n := blank + rest, |blank|;
    forall a: int, b: int | Opens(t, a) && Closes(t, b) ensures b < a + 2 {
      assert a >= n && b >= n;
      assert Opens(rest, a - n) && Closes(rest, b - n);
    }
  }

  lemma {:induction false} BlocksLeaveNone(s: string, i: nat)
    requires i <= |s|
    ensures NoBlock(Blocks(s, i))
    decreases |s| - i
  {
    if i < |s| {
      if BlockAt(s, i) {
        BlocksLeaveNone(s, BlockEnd(s, i));
        NoBlockBlank(Blank(s[i..BlockEnd(s, i)]), Blocks(s, BlockEnd(s, i)));
      } else {
        BlocksLeaveNone(s, i + 1);
        NoBlockCons(s, i);
      }
    }
  }

  lemma {:induction false} NoBlockHere(s: string, i: nat)
    requires NoBlock(s)
    ensures !BlockAt(s, i)
  {
    var c := if i + 2 <= |s| then CloseFrom(s, i + 2) else |s|;
    assert c < |s| ==> Closes(s, c);
  }

  /** Inside a block comment: from an opening to the first close after it. */
  predicate InBlock(s: string, k: nat) { exists a | 0 <= a <= k :: BlockAt(s, a) && k < BlockEnd(s, a) }

  lemma {:induction false} BlocksOnlyComments(s: string, i: nat, k: nat)
    requires i <= k < |s|
    ensures Blocks(s, i)[k - i] == s[k] || InBlock(s, k)
    decreases |s| - i
  {
    if BlockAt(s, i) {
      if k >= BlockEnd(s, i) { BlocksOnlyComments(s, BlockEnd(s, i), k); }
    } else if k > i {
      BlocksOnlyComments(s, i + 1, k);
    }
  }

  lemma {:induction false} NoBlockNoChange(s: string)
    requires NoBlock(s)
    ensures Blocks(s, 0) == s
  {
    forall k | 0 <= k < |s| ensures Blocks(s, 0)[k] == s[k] {
      BlocksOnlyComments(s, 0, k);
      forall a: nat | a <= k ensures !BlockAt(s, a) { NoBlockHere(s, a); }
    }
  }

  // ── Line comments ───────────────────────────────────────────────────────────────────────────────────

  predicate Slashes(s: string, i: int) { 0 <= i && i + 1 < |s| && s[i] == '/' && s[i + 1] == '/' }

  /** A character after which `//` is not a comment: a URL scheme, a quote or an escape. */
  predicate Guards(c: char) { c in {':', '"', '\'', '`', '\\'} }

  function LineEnd(s: string, i: nat): (e: nat)
    requires i <= |s|
    ensures i <= e <= |s| && (e < |s| ==> s[e] == '\n') && forall k | i <= k < e :: s[k] != '\n'
    decreases |s| - i
  {
    if i == |s| || s[i] == '\n' then i else LineEnd(s, i + 1)
  }

  /** A comment starts after this character. */
  predicate StartsComment(s: string, i: nat)
    requires i < |s|
  {
    !Guards(s[i]) && Slashes(s, i + 1)
  }

  /** Where the line pass goes on after position i: behind a comment, or at the next character. */
  function ChunkEnd(s: string, i: nat): (e: nat)
    requires i < |s|
    ensures i < e <= |s|
  {
    if i == 0 && Slashes(s, 0) then LineEnd(s, 0) else if StartsComment(s, i) then LineEnd(s, i + 1) else i + 1
  }

  /** What it writes up to there: the character before a comment is kept. */
  function ChunkText(s: string, i: nat): (t: string)
    requires i < |s|
    ensures |t| == ChunkEnd(s, i) - i && forall k | 0 <= k < |t| :: t[k] == s[i + k] || (t[k] == ' ' && s[i + k] != '\n')
  {
    if i == 0 && Slashes(s, 0) then Blank(s[..LineEnd(s, 0)])
    else if StartsComment(s, i) then [s[i]] + Blank(s[i + 1..LineEnd(s, i + 1)])
    else [s[i]]
  }

  /** The line pass from position i on. */
  function LineComments(s: string, i: nat): (t: string)
    requires i <= |s|
    ensures |t| == |s| - i && forall k | 0 <= k < |t| :: t[k] == s[i + k] || (t[k] == ' ' && s[i + k] != '\n')
    decreases |s| - i
  {
    if i == |s| then "" else
    var chunk, e := ChunkText(s, i), ChunkEnd(s, i);
    var rest := LineComments(s, e);
    assert forall k | 0 <= k < |rest| :: rest[k] == s[e + k] || (rest[k] == ' ' && s[e + k] != '\n');
    chunk + rest
  }

  method StripLines(s: string) returns (t: string)
    ensures t == LineComments(s, 0)
  {
    t := "";
    var i := 0;
    while i < |s|
      invariant i <= |s| && t + LineComments(s, i) == LineComments(s, 0)
      decreases |s| - i
    {
      var chunk, next := ChunkText(s, i), ChunkEnd(s, i);
      assert t + (chunk + LineComments(s, next)) == (t + chunk) + LineComments(s, next);
      t, i := t + chunk, next;
    }
    assert t + "" == t;
  }

  /** No line comment after position 0 of the text. */
  predicate NoInnerLine(t: string) { forall k | 0 <= k < |t| && !Guards(t[k]) :: !Slashes(t, k + 1) }

  predicate NoLine(t: string) { NoInnerLine(t) && !Slashes(t, 0) }

  lemma {:induction false} NoInnerCons(c: char, rest: string)
    requires NoInnerLine(rest) && (Guards(c) || !Slashes(rest, 0))
    ensures NoInnerLine([c] + rest)
  {
    var t := [c] + rest;
    forall k | 0 <= k < |t| && !Guards(t[k]) ensures !Slashes(t, k + 1) {
      if k > 0 { assert t[k] == rest[k - 1] && Slashes(t, k + 1) == Slashes(rest, k); }
    }
  }

  lemma {:induction false} NoInnerBlank(blank: string, rest: string)
    requires NoInnerLine(rest) && (rest == "" || rest[0] == '\n') && forall k | 0 <= k < |blank| :: blank[k] == ' '
    ensures NoInnerLine(blank + rest)
  {
    var t, n := blank + rest, |blank|;
    forall k | 0 <= k < |t| && !Guards(t[k]) ensures !Slashes(t, k + 1) {
      if k >= n { assert t[k] == rest[k - n] && Slashes(t, k + 1) == Slashes(rest, k + 1 - n); }
    }
  }

  /** After a comment's chunk the rest starts a new line or is empty. */
  lemma {:induction false} RestStartsLine(s: string, e: nat)
    requires e <= |s| && (e < |s| ==> s[e] == '\n')
    ensures LineComments(s, e) == "" || LineComments(s, e)[0] == '\n'
  {
  }

  lemma {:induction false} FirstChunk(s: string)
    requires Slashes(s, 0) && NoInnerLine(LineComments(s, LineEnd(s, 0)))
    ensures NoInnerLine(Blank(s[..LineEnd(s, 0)]) + LineComments(s, LineEnd(s, 0)))
  {
    RestStartsLine(s, LineEnd(s, 0));
    NoInnerBlank(Blank(s[..LineEnd(s, 0)]), LineComments(s, LineEnd(s, 0)));
  }

  lemma {:induction false} CommentChunk(s: string, i: nat)
    requires i < |s| && Slashes(s, i + 1) && NoInnerLine(LineComments(s, LineEnd(s, i + 1)))
    ensures NoInnerLine([s[i]] + Blank(s[i + 1..LineEnd(s, i + 1)]) + LineComments(s, LineEnd(s, i + 1)))
  {
    var blank, rest := Blank(s[i + 1..LineEnd(s, i + 1)]), LineComments(s, LineEnd(s, i + 1));
    assert LineEnd(s, i + 1) >= i + 3 && (blank + rest)[0] == blank[0] == ' ';
    RestStartsLine(s, LineEnd(s, i + 1));
    NoInnerBlank(blank, rest);
    NoInnerCons(s[i], blank + rest);
    assert [s[i]] + (blank + rest) == [s[i]] + blank + rest;
  }

  lemma {:induction false} PlainChunk(s: string, i: nat)
    requires i < |s| && (Guards(s[i]) || !Slashes(s, i + 1)) && NoInnerLine(LineComments(s, i + 1))
    ensures NoInnerLine([s[i]] + LineComments(s, i + 1))
  {
    NoInnerCons(s[i], LineComments(s, i + 1));
  }

  /** What a chunk and the rest of the text have in common with the three cases above. */
  ghost predicate ChunkClean(s: string, i: nat)
    requires i < |s|
  {
    NoInnerLine(ChunkText(s, i) + LineComments(s, ChunkEnd(s, i)))
  }

  lemma {:induction false} FirstClean(s: string)
    requires Slashes(s, 0) && NoInnerLine(LineComments(s, ChunkEnd(s, 0)))
    ensures ChunkClean(s, 0)
  {
    FirstChunk(s);
  }

  lemma {:induction false} CommentClean(s: string, i: nat)
    requires i < |s| && StartsComment(s, i) && !(i == 0 && Slashes(s, 0)) && NoInnerLine(LineComments(s, ChunkEnd(s, i)))
    ensures ChunkClean(s, i)
  {
    CommentChunk(s, i);
  }

  lemma {:induction false} PlainIs(s: string, i: nat)
    requires i < |s| && !StartsComment(s, i) && !(i == 0 && Slashes(s, 0))
    ensures ChunkText(s, i) == [s[i]] && ChunkEnd(s, i) == i + 1
  {
  }

  lemma {:induction false} PlainClean(s: string, i: nat)
    requires i < |s| && !StartsComment(s, i) && !(i == 0 && Slashes(s, 0)) && NoInnerLine(LineComments(s, ChunkEnd(s, i)))
    ensures ChunkClean(s, i)
  {
    PlainIs(s, i);
    PlainChunk(s, i);
  }

  lemma {:induction false} ChunkLeavesNone(s: string, i: nat)
    requires i < |s| && NoInnerLine(LineComments(s, ChunkEnd(s, i)))
    ensures ChunkClean(s, i)
  {
    if i == 0 && Slashes(s, 0) { FirstClean(s); } else if StartsComment(s, i) { CommentClean(s, i); } else { PlainClean(s, i); }
  }

  lemma {:induction false} NoSlashesFirst(s: string)
    ensures !Slashes(LineComments(s, 0), 0)
  {
    var t := LineComments(s, 0);
    if Slashes(s, 0) {
      assert t[0] == Blank(s[..LineEnd(s, 0)])[0];
    }
  }

  lemma {:induction false} LinesLeaveNone(s: string, i: nat)
    requires i <= |s|
    ensures NoInnerLine(LineComments(s, i))
    decreases |s| - i
  {
    if i < |s| {
      LinesLeaveNone(s, ChunkEnd(s, i));
      ChunkLeavesNone(s, i);
    }
  }

  /** On a line after `//` that starts the text or does not follow a guard. */
  predicate InLineComment(s: string, k: nat) {
    exists p | 0 <= p <= k :: Slashes(s, p) && (p == 0 || !Guards(s[p - 1])) && k < LineEnd(s, p)
  }

  lemma {:induction false} ChunkOnlyComment(s: string, i: nat, k: nat)
    requires i < |s| && i <= k < ChunkEnd(s, i)
    ensures ChunkText(s, i)[k - i] == s[k] || InLineComment(s, k)
  {
    if ChunkText(s, i)[k - i] != s[k] { assert Slashes(s, i) || Slashes(s, i + 1); }
  }

  lemma {:induction false} LinesOnlyComments(s: string, i: nat, k: nat)
    requires i <= k < |s|
    ensures LineComments(s, i)[k - i] == s[k] || InLineComment(s, k)
    decreases |s| - i
  {
    if k < ChunkEnd(s, i) {
      ChunkOnlyComment(s, i, k);
    } else {
      LinesOnlyComments(s, ChunkEnd(s, i), k);
    }
  }

  lemma {:induction false} NoLineNoChange(s: string)
    requires NoLine(s)
    ensures LineComments(s, 0) == s
  {
    forall k | 0 <= k < |s| ensures LineComments(s, 0)[k] == s[k] {
      LinesOnlyComments(s, 0, k);
      NotInLineComment(s, k);
    }
  }

  lemma {:induction false} NotInLineComment(s: string, k: nat)
    requires NoLine(s)
    ensures !InLineComment(s, k)
  {
    forall p | 0 <= p <= k && Slashes(s, p) ensures p > 0 && Guards(s[p - 1]) {
      assert p > 0 ==> Slashes(s, (p - 1) + 1);
    }
  }

  // ── Every comment is blanked, in the characters themselves ──────────────────────────────────────────

  /** The two characters at i. */
  predicate Pair(s: string, i: int, c: char, d: char) { 0 <= i && i + 1 < |s| && s[i] == c && s[i + 1] == d }

  /** From position i on, the first opener is at a and the first close after it at c. */
  ghost predicate FirstBlock(s: string, i: nat, a: nat, c: nat) {
    && i <= a && a + 2 <= c && Pair(s, a, '/', '*') && Pair(s, c, '*', '/')
    && (forall k | i <= k < a :: !Pair(s, k, '/', '*')) && forall k | a + 2 <= k < c :: !Pair(s, k, '*', '/')
  }

  lemma {:induction false} FirstBlockIs(s: string, i: nat, a: nat, c: nat)
    requires FirstBlock(s, i, a, c)
    ensures BlockAt(s, a) && BlockEnd(s, a) == c + 2 && forall k | i <= k < a :: !BlockAt(s, k)
  {
    var d := CloseFrom(s, a + 2);
    assert Closes(s, c) && (d < c ==> Pair(s, d, '*', '/'));
    forall k | i <= k < a ensures !BlockAt(s, k) { assert !Pair(s, k, '/', '*'); }
  }

  lemma {:induction false} Unsliced(s: string, i: nat, a: nat, rest: string)
    requires i < a <= |s|
    ensures [s[i]] + (s[i + 1..a] + rest) == s[i..a] + rest
  {
    assert s[i..a] == [s[i]] + s[i + 1..a];
  }

  lemma {:induction false} BlocksSkip(s: string, i: nat, a: nat)
    requires i <= a <= |s| && forall k | i <= k < a :: !BlockAt(s, k)
    ensures Blocks(s, i) == s[i..a] + Blocks(s, a)
    decreases a - i
  {
    if i < a {
      BlocksSkip(s, i + 1, a);
      Unsliced(s, i, a, Blocks(s, a));
    } else {
      assert s[i..a] == "";
    }
  }

  /** The block pass keeps what comes before the first comment, turns all of the comment but its line breaks into spaces, and
      goes on behind it. */
  lemma {:induction false} BlocksBlank(s: string, i: nat, a: nat, c: nat) returns (spaces: string)
    requires FirstBlock(s, i, a, c)
    ensures Blocks(s, i) == s[i..a] + (spaces + Blocks(s, c + 2))
    ensures |spaces| == c + 2 - a && forall k | a <= k < c + 2 :: spaces[k - a] == if s[k] == '\n' then '\n' else ' '
  {
    FirstBlockIs(s, i, a, c);
    BlocksSkip(s, i, a);
    spaces := Blank(s[a..c + 2]);
  }

  /** With no opener that is closed behind it, the block pass keeps the text. */
  lemma {:induction false} NoBlocksLeft(s: string, i: nat)
    requires i <= |s| && forall a, c | i <= a && a + 2 <= c :: !(Pair(s, a, '/', '*') && Pair(s, c, '*', '/'))
    ensures Blocks(s, i) == s[i..]
    decreases |s| - i
  {
    if i < |s| {
      if BlockAt(s, i) {
        var c := CloseFrom(s, i + 2);
        assert Pair(s, i, '/', '*') && Pair(s, c, '*', '/');
        assert false;
      } else {
        NoBlocksLeft(s, i + 1);
      }
    }
  }

  /** Two slashes that are not part of a URL, a string's end or an escape: the character before it, if any, says so. */
  predicate Slashed(s: string, p: int) {
    Pair(s, p, '/', '/') && (p == 0 || !(s[p - 1] == ':' || s[p - 1] == '"' || s[p - 1] == '\'' || s[p - 1] == '`' || s[p - 1] == '\\'))
  }

  lemma {:induction false} BeforeBreak(s: string, p: nat, k: nat)
    requires p <= k < |s| && forall j | p <= j <= k :: s[j] != '\n'
    ensures k < LineEnd(s, p)
  {
  }

  lemma {:induction false} InChunk(s: string, i: nat, p: nat, k: nat)
    requires Slashed(s, p) && (i < p || i == p == 0) && p <= k < LineEnd(s, p) && k < ChunkEnd(s, i)
    ensures ChunkText(s, i)[k - i] == ' '
  {
    if !(i == 0 && Slashes(s, 0)) { assert StartsComment(s, i); }
  }

  lemma {:induction false} LinesAt(s: string, i: nat, k: nat)
    requires i <= k < |s|
    ensures LineComments(s, i)[k - i] == if k < ChunkEnd(s, i) then ChunkText(s, i)[k - i] else LineComments(s, ChunkEnd(s, i))[k - ChunkEnd(s, i)]
  {
  }

  lemma {:induction false} RestBlank(s: string, i: nat, p: nat, k: nat)
    requires Slashed(s, p) && (i < p || i == p == 0) && p <= k < LineEnd(s, p)
    ensures LineComments(s, i)[k - i] == ' '
    decreases |s| - i
  {
    LinesAt(s, i, k);
    if k < ChunkEnd(s, i) {
      InChunk(s, i, p, k);
    } else {
      BehindChunk(s, i, p, k);
      RestBlank(s, ChunkEnd(s, i), p, k);
    }
  }

  /** The line pass turns everything from such slashes to the end of the line into spaces. */
  lemma {:induction false} LinesBlank(s: string, p: nat, k: nat)
    requires Slashed(s, p) && p <= k < |s| && forall j | p <= j <= k :: s[j] != '\n'
    ensures LineComments(s, 0)[k] == ' '
  {
    BeforeBreak(s, p, k);
    RestBlank(s, 0, p, k);
  }

  lemma {:induction false} BehindChunk(s: string, i: nat, p: nat, k: nat)
    requires Slashed(s, p) && (i < p || i == p == 0) && p <= k < LineEnd(s, p) && ChunkEnd(s, i) <= k
    ensures ChunkEnd(s, i) < p
  {
  }

  /** Position k lies between an opener and the end of the first close behind it. */
  ghost predicate Enclosed(s: string, k: nat) {
    exists a, c | 0 <= a <= k < c + 2 && a + 2 <= c ::
      Pair(s, a, '/', '*') && Pair(s, c, '*', '/') && (forall j | a + 2 <= j < c :: !Pair(s, j, '*', '/'))
  }

  ghost predicate Behind(s: string, p: int, k: nat)
    requires k < |s|
  {
    0 <= p <= k && Slashed(s, p) && forall j | p <= j <= k :: s[j] != '\n'
  }

  /** And a character is in a comment only when it is enclosed so, or on a line behind such slashes. */
  lemma {:induction false} InCommentMeans(s: string, k: nat)
    requires k < |s|
    ensures InLineComment(s, k) <==> exists p :: Behind(s, p, k)
    ensures InBlock(s, k) ==> Enclosed(s, k)
  {
    if p :| Behind(s, p, k) { BeforeBreak(s, p, k); }
    if p :| 0 <= p <= k && Slashes(s, p) && (p == 0 || !Guards(s[p - 1])) && k < LineEnd(s, p) { assert Behind(s, p, k); }
    if a :| 0 <= a <= k && BlockAt(s, a) && k < BlockEnd(s, a) {
      var c := CloseFrom(s, a + 2);
      forall j | a + 2 <= j < c ensures !Pair(s, j, '*', '/') { assert !Closes(s, j); }
      assert Pair(s, a, '/', '*') && Pair(s, c, '*', '/');
    }
  }

  // ── Both passes ─────────────────────────────────────────────────────────────────────────────────────

  function Strip(src: string): string { LineComments(Blocks(src, 0), 0) }

  /** No character outside a comment is changed, and none to anything but a space. */
  ghost predicate BlanksOnlyComments(src: string, code: string) {
    && Blanks(src, code)
    && forall k | 0 <= k < |src| :: code[k] == src[k] || InBlock(src, k) || InLineComment(Blocks(src, 0), k)
  }

  /** Both replacements in turn: only comments are blanked, every newline stays, and no comment is left. */
  method StripAll(src: string) returns (code: string)
    ensures BlanksOnlyComments(src, code) && NoBlock(code) && NoLine(code)
    ensures code == Strip(src) == Strip(code)
  {
    var t := StripBlocks(src);
    code := StripLines(t);
    StripBlanks(src);
    StripIsIdempotent(src);
    forall k | 0 <= k < |src| ensures code[k] == src[k] || InBlock(src, k) || InLineComment(Blocks(src, 0), k) {
      StripOnlyBlanksComments(src, k);
    }
  }

  lemma {:induction false} BlanksCompose(s: string, t: string, u: string)
    requires Blanks(s, t) && Blanks(t, u)
    ensures Blanks(s, u)
  {
  }

  lemma {:induction false} StripBlanks(src: string)
    ensures Blanks(src, Strip(src))
  {
    BlanksCompose(src, Blocks(src, 0), Strip(src));
  }

  /** Length and newlines are kept; a character changes only to a space, and only inside a comment: a block comment of
      the source, or a line comment of what the block pass left. */
  lemma {:induction false} StripOnlyBlanksComments(src: string, k: nat)
    requires k < |src|
    ensures |Strip(src)| == |src| && (Strip(src)[k] == '\n' <==> src[k] == '\n')
    ensures Strip(src)[k] != src[k] ==> Strip(src)[k] == ' ' && (InBlock(src, k) || InLineComment(Blocks(src, 0), k))
  {
    StripBlanks(src);
    BlocksOnlyComments(src, 0, k);
    LinesOnlyComments(Blocks(src, 0), 0, k);
  }

  lemma {:induction false} BlanksKeepNoBlock(s: string, t: string)
    requires Blanks(s, t) && NoBlock(s)
    ensures NoBlock(t)
  {
    forall a: int, b: int | Opens(t, a) && Closes(t, b) ensures b < a + 2 {
      assert Opens(s, a) && Closes(s, b);
    }
  }

  /** Nothing is left to strip: no block comment, no line comment, and stripping again changes nothing. */
  lemma {:induction false} StripIsIdempotent(src: string)
    ensures NoBlock(Strip(src)) && NoLine(Strip(src)) && Strip(Strip(src)) == Strip(src)
  {
    var t := Blocks(src, 0);
    BlocksLeaveNone(src, 0);
    LinesLeaveNone(t, 0);
    NoSlashesFirst(t);
    BlanksKeepNoBlock(t, Strip(src));
    NoBlockNoChange(Strip(src));
    NoLineNoChange(Strip(src));
  }

  // ── Reported lines ──────────────────────────────────────────────────────────────────────────────────

  /** slice(0, i).split("\n").length */
  function LineOf(s: string, i: nat): nat
    requires i <= |s|
  {
    if i == 0 then 1 else LineOf(s, i - 1) + if s[i - 1] == '\n' then 1 else 0
  }

  /** A position's line is the first, or one more for each line break before it. */
  lemma {:induction false} LineOfCounts(s: string, i: nat)
    requires i <= |s|
    ensures LineOf(s, i) == 1 + multiset(s[..i])['\n']
  {
    if i > 0 {
      LineOfCounts(s, i - 1);
      assert s[..i] == s[..i - 1] + [s[i - 1]];
    }
  }

  lemma {:induction false} LinesAgree(s: string, t: string, i: nat)
    requires Blanks(s, t) && i <= |s|
    ensures LineOf(t, i) == LineOf(s, i)
  {
    if i > 0 { LinesAgree(s, t, i - 1); }
  }

  datatype Violation = Violation(rule: nat, at: nat, line: nat)

  /** A rule's pattern: where it matches in a text. */
  ghost predicate IsPattern(find: string -> seq<nat>) { forall t: string, j: nat | j < |find(t)| :: find(t)[j] < |t| }

  /** One rule's matches in the stripped text, each reported with its line in the source. */
  ghost predicate Reports(src: string, rule: nat, matches: seq<nat>, found: seq<Violation>) {
    && |found| == |matches|
    && forall j | 0 <= j < |found| :: matches[j] <= |src| && found[j] == Violation(rule, matches[j], LineOf(src, matches[j]))
  }

  method ReportRule(src: string, code: string, rule: nat, matches: seq<nat>) returns (found: seq<Violation>)
    requires Blanks(src, code) && forall j | 0 <= j < |matches| :: matches[j] <= |src|
    ensures Reports(src, rule, matches, found)
  {
    found := [];
    for j := 0 to |matches|
      invariant Reports(src, rule, matches[..j], found)
    {
      LinesAgree(src, code, matches[j]);
      found := found + [Violation(rule, matches[j], LineOf(code, matches[j]))];
    }
    assert matches[..|matches|] == matches;
  }

  /** findViolations: every match of every rule's pattern in the stripped text, at its line in the source. */
  method FindViolations(src: string, rules: seq<string -> seq<nat>>) returns (found: seq<seq<Violation>>)
    requires forall r | 0 <= r < |rules| :: IsPattern(rules[r])
    ensures |found| == |rules| && forall r | 0 <= r < |rules| :: Reports(src, r, rules[r](Strip(src)), found[r])
  {
    var code := StripAll(src);
    found := ReportAll(src, code, rules);
  }

  method ReportAll(src: string, code: string, rules: seq<string -> seq<nat>>) returns (found: seq<seq<Violation>>)
    requires Blanks(src, code) && forall r | 0 <= r < |rules| :: IsPattern(rules[r])
    ensures |found| == |rules| && forall r | 0 <= r < |rules| :: Reports(src, r, rules[r](code), found[r])
  {
    found := [];
    for r := 0 to |rules|
      invariant |found| == r && forall q | 0 <= q < r :: Reports(src, q, rules[q](code), found[q])
    {
      assert IsPattern(rules[r]);
      var here := ReportRule(src, code, r, rules[r](code));
      found := found + [here];
    }
  }
}
