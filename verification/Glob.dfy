/** The glob matcher of the gateway: `*` for any run of characters, `?` for any one character,
    anchored to the whole name. */
module Glob {
  import opened Wrappers

  /** What a pattern means. */
  ghost predicate Matches(pattern: string, name: string)
    decreases |pattern| + |name|
  {
    if pattern == [] then name == []
    else if pattern[0] == '*' then
      Matches(pattern[1..], name) || (name != [] && Matches(pattern, name[1..]))
    else
      name != [] && (pattern[0] == '?' || pattern[0] == name[0]) && Matches(pattern[1..], name[1..])
  }

  predicate MatchesChar(p: char, n: char) { p == '?' || p == n }

  /** `segment` holds no star and matches `text` character by character. */
  ghost predicate MatchesPlainly(segment: string, text: string) {
    && |segment| == |text|
    && forall i :: 0 <= i < |segment| ==> segment[i] != '*' && MatchesChar(segment[i], text[i])
  }

  /** A star absorbs any number of leading characters. */
  lemma {:induction false} StarAbsorbs(pattern: string, name: string, k: nat)
    requires pattern != [] && pattern[0] == '*' && k <= |name|
    requires Matches(pattern, name[k..])
    ensures Matches(pattern, name)
    decreases k
  {
    if k > 0 {
      StarAbsorbs(pattern, name[1..], k - 1);
    }
  }

  /** A star match starts the rest of the pattern somewhere. */
  lemma {:induction false} StarSplits(pattern: string, name: string) returns (k: nat)
    requires pattern != [] && pattern[0] == '*' && Matches(pattern, name)
    ensures k <= |name| && Matches(pattern[1..], name[k..])
    decreases |name|
  {
    if Matches(pattern[1..], name) {
      k := 0;
    } else {
      k := StarSplits(pattern, name[1..]);
      k := k + 1;
    }
  }

  /** A star-free stretch of pattern takes exactly its length. */
  lemma {:induction false} PlainSplits(pattern: string, name: string, length: nat)
    requires length <= |pattern| && Matches(pattern, name)
    requires forall i :: 0 <= i < length ==> pattern[i] != '*'
    ensures length <= |name| && MatchesPlainly(pattern[..length], name[..length])
    ensures Matches(pattern[length..], name[length..])
    decreases length
  {
    if length == 0 {
      assert pattern[0..] == pattern && name[0..] == name;
    } else {
      var p, n := pattern[1..], name[1..];
      forall i | 0 <= i < length - 1 ensures p[i] != '*' {
        assert p[i] == pattern[i + 1];
      }
      PlainSplits(p, n, length - 1);
      assert p[length - 1..] == pattern[length..] && n[length - 1..] == name[length..];
      forall i | 0 <= i < length ensures MatchesChar(pattern[..length][i], name[..length][i]) {
        if i > 0 {
          assert p[..length - 1][i - 1] == pattern[i] && n[..length - 1][i - 1] == name[i];
        }
      }
    }
  }

  lemma {:induction false} PlainJoins(pattern: string, name: string, length: nat)
    requires length <= |pattern| && length <= |name|
    requires MatchesPlainly(pattern[..length], name[..length])
    requires Matches(pattern[length..], name[length..])
    ensures Matches(pattern, name)
    decreases length
  {
    if length == 0 {
      assert pattern[0..] == pattern && name[0..] == name;
    } else {
      var p, n := pattern[1..], name[1..];
      assert p[length - 1..] == pattern[length..] && n[length - 1..] == name[length..];
      assert p[..length - 1] == pattern[..length][1..] && n[..length - 1] == name[..length][1..];
      PlainJoins(p, n, length - 1);
      assert pattern[..length][0] == pattern[0] && name[..length][0] == name[0];
    }
  }

  lemma {:induction false} OnlyStarsMatchNothing(pattern: string)
    ensures Matches(pattern, []) <==> forall i :: 0 <= i < |pattern| ==> pattern[i] == '*'
    decreases |pattern|
  {
    if pattern != [] {
      OnlyStarsMatchNothing(pattern[1..]);
      if Matches(pattern[1..], []) {
        forall i | 0 < i < |pattern| ensures pattern[i] == '*' {
          assert pattern[1..][i - 1] == pattern[i];
        }
      }
    }
  }

  // ---- Cutting a name into parts -------------------------------------------------------------

  /** What one character of a pattern stands for: a star for any text, a question mark for any one
      character, and every other character for itself. */
  ghost predicate StandsFor(p: char, part: string) {
    p == '*' || (if p == '?' then |part| == 1 else part == [p])
  }

  function Concat(parts: seq<string>): string {
    if parts == [] then "" else parts[0] + Concat(parts[1..])
  }

  /** The name is the parts in a row, one for each character of the pattern. */
  ghost predicate Cuts(pattern: string, name: string, parts: seq<string>) {
    && |parts| == |pattern| && Concat(parts) == name
    && forall i :: 0 <= i < |parts| ==> StandsFor(pattern[i], parts[i])
  }

  lemma {:induction false} CutsOneMore(p: char, part: string, pattern: string, name: string, parts: seq<string>)
    requires StandsFor(p, part) && Cuts(pattern, name, parts)
    ensures Cuts([p] + pattern, part + name, [part] + parts)
  {
    assert ([part] + parts)[1..] == parts;
  }

  lemma {:induction false} CutOf(pattern: string, name: string) returns (parts: seq<string>)
    requires Matches(pattern, name)
    ensures Cuts(pattern, name, parts)
    decreases |pattern| + |name|
  {
    if pattern == [] {
      parts := [];
    } else if pattern[0] == '*' && !Matches(pattern[1..], name) {
      parts := CutOf(pattern, name[1..]);
      CutsOneMore('*', [name[0]] + parts[0], pattern[1..], Concat(parts[1..]), parts[1..]);
      parts := [[name[0]] + parts[0]] + parts[1..];
      assert ['*'] + pattern[1..] == pattern && [name[0]] + name[1..] == name;
    } else {
      var n := if pattern[0] == '*' then 0 else 1;
      parts := CutOf(pattern[1..], name[n..]);
      CutsOneMore(pattern[0], name[..n], pattern[1..], name[n..], parts);
      parts := [name[..n]] + parts;
      assert [pattern[0]] + pattern[1..] == pattern && name[..n] + name[n..] == name;
    }
  }

  lemma {:induction false} CutMatches(pattern: string, name: string, parts: seq<string>)
    requires Cuts(pattern, name, parts)
    ensures Matches(pattern, name)
  {
    if pattern != [] {
      var k := |parts[0]|;
      assert name == parts[0] + Concat(parts[1..]) && name[k..] == Concat(parts[1..]) && name[..k] == parts[0];
      CutMatches(pattern[1..], name[k..], parts[1..]);
      if pattern[0] == '*' {
        StarAbsorbs(pattern, name, k);
      }
    }
  }

  /** A name matches exactly when it can be cut into parts, one for each character of the pattern in
      order, that these characters stand for. */
  lemma {:induction false} MatchesIffCut(pattern: string, name: string)
    ensures Matches(pattern, name) <==> exists parts: seq<string> :: Cuts(pattern, name, parts)
  {
    if Matches(pattern, name) {
      var parts := CutOf(pattern, name);
    }
    if parts: seq<string> :| Cuts(pattern, name, parts) {
      CutMatches(pattern, name, parts);
    }
  }

  // ---- The walk ------------------------------------------------------------------------------

  /** Where the walk stands: the last star taken, where its current attempt began in the name, and
      that everything between star and cursor matches plainly. Whether the whole name matches
      depends only on the attempts still to come. */
  ghost predicate WalkInv(pattern: string, name: string, p: nat, n: nat, starAt: int, starTaken: nat) {
    && p <= |pattern| && n <= |name| && starTaken <= n
    && -1 <= starAt < p
    && (starAt < 0 ==> p == n && MatchesPlainly(pattern[..p], name[..n]) && starTaken == 0)
    && (starAt >= 0 ==>
          && pattern[starAt] == '*'
          && MatchesPlainly(pattern[starAt + 1..p], name[starTaken..n])
          && (Matches(pattern, name) <==> Matches(pattern[starAt..], name[starTaken..])))
  }

  lemma {:induction false} TailOf(s: string, a: nat, b: nat, c: nat)
    requires a <= b <= c <= |s|
    ensures s[a..][..c - a] == s[a..c] && s[a..][b - a..] == s[b..] && s[a..b] + [] == s[a..b]
  {
  }

  /** Reaching a star: the segment before it sits as early as possible, so giving it up loses nothing. */
  lemma {:induction false} TakeStar(pattern: string, name: string, p: nat, n: nat, starAt: int, starTaken: nat)
    requires WalkInv(pattern, name, p, n, starAt, starTaken) && p < |pattern| && pattern[p] == '*'
    ensures WalkInv(pattern, name, p + 1, n, p, n)
  {
    if starAt < 0 {
      if Matches(pattern, name) {
        PlainSplits(pattern, name, p);
      }
      if Matches(pattern[p..], name[n..]) {
        PlainJoins(pattern, name, p);
      }
    } else {
      var after, text := pattern[starAt + 1..], name[starTaken..];
      var length := p - starAt - 1;
      TailOf(pattern, starAt + 1, p, p);
      TailOf(name, starTaken, n, n);
      if Matches(pattern[p..], name[n..]) {
        PlainJoins(after, text, length);
        assert pattern[starAt..][1..] == after;
      }
      if Matches(pattern[starAt..], text) {
        var k := StarSplits(pattern[starAt..], text);
        assert pattern[starAt..][1..] == after;
        forall i | 0 <= i < length ensures after[i] != '*' {
          assert pattern[starAt + 1..p][i] == after[i];
        }
        PlainSplits(after, text[k..], length);
        assert text[k..][length..] == name[n..][k..];
        StarAbsorbs(pattern[p..], name[n..], k);
      }
    }
    assert pattern[p + 1..p + 1] == "" && name[n..n] == "";
  }

  /** A mismatch after a star: this attempt is lost, so the star must take one more character. */
  lemma {:induction false} Retry(pattern: string, name: string, p: nat, n: nat, starAt: int, starTaken: nat)
    requires WalkInv(pattern, name, p, n, starAt, starTaken) && starAt >= 0 && n < |name|
    requires p == |pattern| || (pattern[p] != '*' && !MatchesChar(pattern[p], name[n]))
    ensures WalkInv(pattern, name, starAt + 1, starTaken + 1, starAt, starTaken + 1)
  {
    var after, text := pattern[starAt + 1..], name[starTaken..];
    var length := p - starAt - 1;
    assert pattern[starAt..][1..] == after && text[1..] == name[starTaken + 1..];
    TailOf(pattern, starAt + 1, p, p);
    TailOf(name, starTaken, n, n);
    forall i | 0 <= i < length ensures after[i] != '*' {
      assert pattern[starAt + 1..p][i] == after[i];
    }
    if Matches(after, text) {
      PlainSplits(after, text, length);
      assert false;
    }
    assert pattern[starAt + 1..starAt + 1] == "" && name[starTaken + 1..starTaken + 1] == "";
  }

  /** At the end of the name the rest of the pattern decides. */
  lemma {:induction false} NameConsumed(pattern: string, name: string, p: nat, starAt: int, starTaken: nat)
    requires WalkInv(pattern, name, p, |name|, starAt, starTaken)
    ensures Matches(pattern, name) <==> Matches(pattern[p..], "")
  {
    var n := |name|;
    assert name[n..] == "";
    if starAt < 0 {
      if Matches(pattern, name) {
        PlainSplits(pattern, name, p);
      }
      if Matches(pattern[p..], "") {
        PlainJoins(pattern, name, p);
      }
    } else {
      var after, text := pattern[starAt + 1..], name[starTaken..];
      var length := p - starAt - 1;
      assert pattern[starAt..][1..] == after;
      TailOf(pattern, starAt + 1, p, p);
      TailOf(name, starTaken, n, n);
      if Matches(pattern[p..], "") {
        PlainJoins(after, text, length);
      }
      if Matches(pattern[starAt..], text) {
        var k := StarSplits(pattern[starAt..], text);
        forall i | 0 <= i < length ensures after[i] != '*' {
          assert pattern[starAt + 1..p][i] == after[i];
        }
        PlainSplits(after, text[k..], length);
        assert k == 0 && text[k..] == text;
      }
    }
  }

  lemma {:induction false} StepForward(pattern: string, name: string, p: nat, n: nat, starAt: int, starTaken: nat)
    requires WalkInv(pattern, name, p, n, starAt, starTaken) && p < |pattern| && n < |name|
    requires pattern[p] != '*' && MatchesChar(pattern[p], name[n])
    ensures WalkInv(pattern, name, p + 1, n + 1, starAt, starTaken)
  {
    var from := starAt + 1;
    assert pattern[from..p + 1] == pattern[from..p] + [pattern[p]];
    assert name[starTaken..n + 1] == name[starTaken..n] + [name[n]];
    assert pattern[..p] == pattern[0..p] && name[..n] == name[0..n];
  }

  lemma {:induction false} NoStarNoMatch(pattern: string, name: string, p: nat, n: nat)
    requires WalkInv(pattern, name, p, n, -1, 0) && n < |name|
    requires p == |pattern| || (pattern[p] != '*' && !MatchesChar(pattern[p], name[n]))
    ensures !Matches(pattern, name)
  {
    if Matches(pattern, name) {
      forall i | 0 <= i < p ensures pattern[i] != '*' {
        assert pattern[..p][i] == pattern[i];
      }
      PlainSplits(pattern, name, p);
      assert false;
    }
  }

  // ---- How long the walk takes ---------------------------------------------------------------

  /** Positions visited so far: those up to the last star; beyond it, with no star in between, those
      on earlier diagonals, and the current diagonal up to the cursor. */
  ghost predicate VisitedInv(visited: set<(int, int)>, pattern: string, name: string, p: nat, n: nat, starAt: int)
    requires starAt >= -1
  {
    forall v :: v in visited ==> Behind(v, pattern, name, p, n, starAt)
  }

  ghost predicate Behind(v: (int, int), pattern: string, name: string, p: nat, n: nat, starAt: int)
    requires starAt >= -1
  {
    && 0 <= v.0 <= |pattern| && 0 <= v.1 < |name|
    && (v.0 <= starAt || (NoStarBetween(pattern, starAt, v.0) && Earlier(v, p, n)))
  }

  ghost predicate NoStarBetween(pattern: string, starAt: int, p: int)
    requires -1 <= starAt && p <= |pattern|
  {
    forall i :: starAt < i < p ==> pattern[i] != '*'
  }

  predicate Earlier(v: (int, int), p: int, n: int) {
    v.1 - v.0 < n - p || (v.1 - v.0 == n - p && v.1 < n)
  }

  lemma {:induction false} NoStarSince(pattern: string, name: string, p: nat, n: nat, starAt: int, starTaken: nat)
    requires WalkInv(pattern, name, p, n, starAt, starTaken)
    ensures NoStarBetween(pattern, starAt, p)
  {
  }

  /** The cursor stands on a new position; moving on along the diagonal, to a later one, or past a
      star keeps the account. */
  lemma {:induction false} VisitedStep(visited: set<(int, int)>, pattern: string, name: string, p: nat, n: nat,
                                       starAt: int, p': nat, n': nat, starAt': int)
    requires -1 <= starAt < p <= |pattern| && n < |name|
    requires VisitedInv(visited, pattern, name, p, n, starAt)
    requires NoStarBetween(pattern, starAt, p)
    requires (starAt' == starAt && Earlier((p, n), p', n')) || (starAt' == p < |pattern| && pattern[p] == '*')
    ensures VisitedInv(visited + {(p, n)}, pattern, name, p', n', starAt')
  {
  }

  /** A set of positions in a grid has at most as many elements as the grid. */
  lemma {:induction false} GridBound(visited: set<(int, int)>, width: nat, height: nat)
    requires forall v :: v in visited ==> 0 <= v.0 <= width && 0 <= v.1 < height
    ensures |visited| <= (width + 1) * height
    decreases height
  {
    if height == 0 {
    } else {
      var row := set v | v in visited && v.1 == height - 1;
      var below := visited - row;
      GridBound(below, width, height - 1);
      RowBound(row, width, height - 1);
      assert (width + 1) * height == (width + 1) * (height - 1) + (width + 1);
    }
  }

  lemma {:induction false} RowBound(row: set<(int, int)>, width: int, y: int)
    requires width >= -1
    requires forall v :: v in row ==> 0 <= v.0 <= width && v.1 == y
    ensures |row| <= width + 1
    decreases width + 1
  {
    if width == -1 {
    } else {
      RowBound(row - {(width, y)}, width - 1, y);
    }
  }

  lemma {:induction false} VisitedBound(visited: set<(int, int)>, pattern: string, name: string, p: nat, n: nat,
                                        starAt: int)
    requires starAt >= -1 && VisitedInv(visited, pattern, name, p, n, starAt)
    ensures |visited| <= (|pattern| + 1) * |name|
  {
    GridBound(visited, |pattern|, |name|);
  }

  /** The trailing stars of a pattern match nothing; anything else needs a character. */
  method OnlyStarsFrom(pattern: string, start: nat) returns (onlyStars: bool)
    requires start <= |pattern|
    ensures onlyStars <==> Matches(pattern[start..], "")
  {
    OnlyStarsMatchNothing(pattern[start..]);
    var p := start;
    while p < |pattern| && pattern[p] == '*'
      invariant start <= p <= |pattern|
      invariant forall i :: start <= i < p ==> pattern[i] == '*'
    {
      p := p + 1;
    }
    onlyStars := p == |pattern|;
  }

  datatype Cursor = Cursor(p: nat, n: nat, starAt: int, starTaken: nat)

  ghost predicate OnTrack(pattern: string, name: string, c: Cursor, visited: set<(int, int)>) {
    && WalkInv(pattern, name, c.p, c.n, c.starAt, c.starTaken)
    && VisitedInv(visited, pattern, name, c.p, c.n, c.starAt)
  }

  lemma {:induction false} WalkStarts(pattern: string, name: string)
    ensures OnTrack(pattern, name, Cursor(0, 0, -1, 0), {})
  {
  }

  lemma {:induction false} VisitsAreNew(pattern: string, name: string, c: Cursor, visited: set<(int, int)>)
    requires OnTrack(pattern, name, c, visited) && c.n < |name|
    ensures (c.p, c.n) !in visited
  {
  }

  lemma {:induction false} StarRound(pattern: string, name: string, c: Cursor, visited: set<(int, int)>)
    requires OnTrack(pattern, name, c, visited) && c.n < |name|
    requires c.p < |pattern| && pattern[c.p] == '*'
    ensures OnTrack(pattern, name, Cursor(c.p + 1, c.n, c.p, c.n), visited + {(c.p, c.n)})
  {
    NoStarSince(pattern, name, c.p, c.n, c.starAt, c.starTaken);
    TakeStar(pattern, name, c.p, c.n, c.starAt, c.starTaken);
    VisitedStep(visited, pattern, name, c.p, c.n, c.starAt, c.p + 1, c.n, c.p);
  }

  lemma {:induction false} MatchRound(pattern: string, name: string, c: Cursor, visited: set<(int, int)>)
    requires OnTrack(pattern, name, c, visited) && c.n < |name|
    requires c.p < |pattern| && pattern[c.p] != '*' && MatchesChar(pattern[c.p], name[c.n])
    ensures OnTrack(pattern, name, c.(p := c.p + 1, n := c.n + 1), visited + {(c.p, c.n)})
  {
    NoStarSince(pattern, name, c.p, c.n, c.starAt, c.starTaken);
    StepForward(pattern, name, c.p, c.n, c.starAt, c.starTaken);
    VisitedStep(visited, pattern, name, c.p, c.n, c.starAt, c.p + 1, c.n + 1, c.starAt);
  }

  lemma {:induction false} RetryRound(pattern: string, name: string, c: Cursor, visited: set<(int, int)>)
    requires OnTrack(pattern, name, c, visited) && c.n < |name| && c.starAt >= 0
    requires c.p == |pattern| || (pattern[c.p] != '*' && !MatchesChar(pattern[c.p], name[c.n]))
    ensures OnTrack(pattern, name, Cursor(c.starAt + 1, c.starTaken + 1, c.starAt, c.starTaken + 1),
                    visited + {(c.p, c.n)})
  {
    NoStarSince(pattern, name, c.p, c.n, c.starAt, c.starTaken);
    Retry(pattern, name, c.p, c.n, c.starAt, c.starTaken);
    VisitedStep(visited, pattern, name, c.p, c.n, c.starAt, c.starAt + 1, c.starTaken + 1, c.starAt);
  }

  lemma {:induction false} LostRound(pattern: string, name: string, c: Cursor, visited: set<(int, int)>)
    requires OnTrack(pattern, name, c, visited) && c.n < |name| && c.starAt < 0
    requires c.p == |pattern| || (pattern[c.p] != '*' && !MatchesChar(pattern[c.p], name[c.n]))
    ensures !Matches(pattern, name) && |visited + {(c.p, c.n)}| <= (|pattern| + 1) * |name|
  {
    NoStarSince(pattern, name, c.p, c.n, c.starAt, c.starTaken);
    NoStarNoMatch(pattern, name, c.p, c.n);
    VisitedStep(visited, pattern, name, c.p, c.n, c.starAt, c.p + 1, c.n + 1, c.starAt);
    VisitedBound(visited + {(c.p, c.n)}, pattern, name, c.p + 1, c.n + 1, c.starAt);
  }

  lemma {:induction false} WalkEnds(pattern: string, name: string, c: Cursor, visited: set<(int, int)>)
    requires OnTrack(pattern, name, c, visited) && c.n >= |name|
    ensures c.p <= |pattern| && (Matches(pattern, name) <==> Matches(pattern[c.p..], ""))
    ensures |visited| <= (|pattern| + 1) * |name|
  {
    NameConsumed(pattern, name, c.p, c.starAt, c.starTaken);
    VisitedBound(visited, pattern, name, c.p, c.n, c.starAt);
  }

  // ---- The walk as a sequence of cursors -----------------------------------------------------

  predicate InBounds(pattern: string, name: string, c: Cursor) {
    c.p <= |pattern| && c.n <= |name| && -1 <= c.starAt < c.p && c.starTaken <= c.n
  }

  /** One round of the main loop; nothing when the match is lost. */
  function Next(pattern: string, name: string, c: Cursor): Option<Cursor>
    requires InBounds(pattern, name, c) && c.n < |name|
  {
    if c.p < |pattern| && pattern[c.p] == '*' then Some(Cursor(c.p + 1, c.n, c.p, c.n))
    else if c.p < |pattern| && MatchesChar(pattern[c.p], name[c.n]) then Some(c.(p := c.p + 1, n := c.n + 1))
    else if c.starAt >= 0 then Some(Cursor(c.starAt + 1, c.starTaken + 1, c.starAt, c.starTaken + 1))
    else None
  }

  ghost predicate IsWalk(pattern: string, name: string, trail: seq<Cursor>) {
    && trail != []
    && var last := |trail| - 1;
       if last == 0 then trail[0] == Cursor(0, 0, -1, 0)
       else
         && IsWalk(pattern, name, trail[..last])
         && InBounds(pattern, name, trail[last - 1]) && trail[last - 1].n < |name|
         && Next(pattern, name, trail[last - 1]) == Some(trail[last])
  }

  /** The positions of all cursors but the last. */
  ghost function Visited(trail: seq<Cursor>): set<(int, int)>
    requires trail != []
  {
    var last := |trail| - 1;
    if last == 0 then {} else Visited(trail[..last]) + {(trail[last - 1].p, trail[last - 1].n)}
  }

  lemma {:induction false} WalkGrows(pattern: string, name: string, trail: seq<Cursor>, next: Cursor)
    requires IsWalk(pattern, name, trail)
    requires var c := trail[|trail| - 1];
             InBounds(pattern, name, c) && c.n < |name| && Next(pattern, name, c) == Some(next)
    ensures IsWalk(pattern, name, trail + [next])
  {
    assert (trail + [next])[..|trail|] == trail;
  }

  /** Every walk keeps the invariant and never returns to a position. */
  lemma {:induction false} WalkIsOnTrack(pattern: string, name: string, trail: seq<Cursor>)
    requires IsWalk(pattern, name, trail)
    ensures OnTrack(pattern, name, trail[|trail| - 1], Visited(trail)) && |Visited(trail)| == |trail| - 1
  {
    var last := |trail| - 1;
    if last == 0 {
      WalkStarts(pattern, name);
    } else {
      var c, before := trail[last - 1], Visited(trail[..last]);
      WalkIsOnTrack(pattern, name, trail[..last]);
      VisitsAreNew(pattern, name, c, before);
      RoundKeepsTrack(pattern, name, c, before);
    }
  }

  lemma {:induction false} RoundKeepsTrack(pattern: string, name: string, c: Cursor, visited: set<(int, int)>)
    requires InBounds(pattern, name, c) && c.n < |name| && OnTrack(pattern, name, c, visited)
    requires Next(pattern, name, c).Some?
    ensures OnTrack(pattern, name, Next(pattern, name, c).value, visited + {(c.p, c.n)})
  {
    if c.p < |pattern| && pattern[c.p] == '*' {
      assert Next(pattern, name, c).value == Cursor(c.p + 1, c.n, c.p, c.n);
      StarRound(pattern, name, c, visited);
    } else if c.p < |pattern| && MatchesChar(pattern[c.p], name[c.n]) {
      assert Next(pattern, name, c).value == c.(p := c.p + 1, n := c.n + 1);
      MatchRound(pattern, name, c, visited);
    } else {
      assert Next(pattern, name, c).value == Cursor(c.starAt + 1, c.starTaken + 1, c.starAt, c.starTaken + 1);
      RetryRound(pattern, name, c, visited);
    }
  }

  /** A walk that is lost: no match, and few rounds. */
  lemma {:induction false} LostWalk(pattern: string, name: string, trail: seq<Cursor>)
    requires IsWalk(pattern, name, trail)
    requires var c := trail[|trail| - 1]; InBounds(pattern, name, c) && c.n < |name| && Next(pattern, name, c) == None
    ensures !Matches(pattern, name) && |trail| <= (|pattern| + 1) * |name|
  {
    var c := trail[|trail| - 1];
    WalkIsOnTrack(pattern, name, trail);
    VisitsAreNew(pattern, name, c, Visited(trail));
    LostRound(pattern, name, c, Visited(trail));
  }

  /** A walk through the whole name: the rest of the pattern decides, after few rounds. */
  lemma {:induction false} WholeWalk(pattern: string, name: string, trail: seq<Cursor>)
    requires IsWalk(pattern, name, trail) && trail[|trail| - 1].n >= |name|
    ensures var c := trail[|trail| - 1];
            c.p <= |pattern| && (Matches(pattern, name) <==> Matches(pattern[c.p..], ""))
    ensures |trail| - 1 <= (|pattern| + 1) * |name|
  {
    WalkIsOnTrack(pattern, name, trail);
    WalkEnds(pattern, name, trail[|trail| - 1], Visited(trail));
  }

  /** True exactly when the pattern matches the whole name; the main loop visits no position twice
      and so runs at most (|pattern| + 1) * |name| times. */
  method GlobMatch(pattern: string, name: string) returns (matched: bool, ghost iterations: nat)
    ensures matched <==> Matches(pattern, name)
    ensures matched <==> exists parts: seq<string> :: Cuts(pattern, name, parts)
    ensures iterations <= (|pattern| + 1) * |name|
  {
    MatchesIffCut(pattern, name);
    var p: nat, n: nat, starAt: int, starTaken: nat := 0, 0, -1, 0;
    ghost var trail := [Cursor(0, 0, -1, 0)];
    while n < |name|
      invariant trail != [] && trail[|trail| - 1] == Cursor(p, n, starAt, starTaken)
      invariant InBounds(pattern, name, trail[|trail| - 1]) && IsWalk(pattern, name, trail)
      decreases |name| - starTaken, |pattern| - starAt, |name| - n
    {
      if p < |pattern| && pattern[p] == '*' {
        starAt, p, starTaken := p, p + 1, n;
      } else if p < |pattern| && (pattern[p] == '?' || pattern[p] == name[n]) {
        p, n := p + 1, n + 1;
      } else if starAt >= 0 {
        starTaken := starTaken + 1;
        p, n := starAt + 1, starTaken;
      } else {
        LostWalk(pattern, name, trail);
        return false, |trail|;
      }
      WalkGrows(pattern, name, trail, Cursor(p, n, starAt, starTaken));
      trail := trail + [Cursor(p, n, starAt, starTaken)];
    }
    WholeWalk(pattern, name, trail);
    iterations := |trail| - 1;
    matched := OnlyStarsFrom(pattern, p);
  }
}
