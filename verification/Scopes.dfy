/** Lock paths and glob "scopes": when two lock paths are considered to conflict. */
module Scopes {

  /** One piece of a scope glob: a run of any characters, a run inside one path
      segment, one character inside a segment, or a literal character. */
  datatype Token = AnyPath | AnySegment | AnyChar | Literal(c: char)

  const SCOPE_PREFIX := "scope:"

  /** The characters `.` does not match in a regular expression without the `s` flag. */
  predicate IsLineTerminator(c: char) {
    c == '\n' || c == '\r' || c == '\U{2028}' || c == '\U{2029}'
  }

  function TokenOf(c: char): Token {
    if c == '*' then AnySegment else if c == '?' then AnyChar else Literal(c)
  }

  function Tokens(pattern: string): seq<Token> {
    if pattern == "" then []
    else if 1 < |pattern| && pattern[0] == '*' && pattern[1] == '*' then [AnyPath] + Tokens(pattern[2..])
    else [TokenOf(pattern[0])] + Tokens(pattern[1..])
  }

  /** What a token is written as. */
  function Spelling(token: Token): string {
    match token
    case AnyPath => "**"
    case AnySegment => "*"
    case AnyChar => "?"
    case Literal(c) => [c]
  }

  function Spelled(tokens: seq<Token>): string {
    if tokens == [] then "" else Spelling(tokens[0]) + Spelled(tokens[1..])
  }

  /** No wildcard is read as a literal, and no two stars as anything but one run over segments. */
  ghost predicate Proper(tokens: seq<Token>) {
    && (forall c :: Literal(c) in tokens ==> c != '*' && c != '?')
    && forall i :: 0 < i < |tokens| && tokens[i - 1] == AnySegment ==> tokens[i] != AnySegment && tokens[i] != AnyPath
  }

  lemma {:induction false} TokensSpell(pattern: string)
    ensures Spelled(Tokens(pattern)) == pattern && Proper(Tokens(pattern))
  {
    if pattern != "" {
      hide Proper;
      var n := if 1 < |pattern| && pattern[0] == '*' && pattern[1] == '*' then 2 else 1;
      TokensSpell(pattern[n..]);
      var token, rest := Tokens(pattern)[0], Tokens(pattern[n..]);
      assert Tokens(pattern) == [token] + rest && Spelling(token) == pattern[..n];
      assert pattern == pattern[..n] + pattern[n..];
      assert token == AnySegment && rest != [] ==> Spelling(rest[0])[0] == pattern[1];
      ProperMore(token, rest);
    } else {
      assert Proper([]);
    }
  }

  lemma ProperMore(token: Token, rest: seq<Token>)
    requires Proper(rest) && token != Literal('*') && token != Literal('?')
    requires token == AnySegment && rest != [] ==> rest[0] != AnySegment && rest[0] != AnyPath
    ensures Proper([token] + rest)
  {
    var tokens := [token] + rest;
    forall i | 0 < i < |tokens| && tokens[i - 1] == AnySegment ensures tokens[i] != AnySegment && tokens[i] != AnyPath {
      assert i > 1 ==> tokens[i - 1] == rest[i - 2] && tokens[i] == rest[i - 1];
    }
  }

  /** A pattern has one reading only. */
  lemma {:induction false} ReadingIsUnique(tokens: seq<Token>)
    requires Proper(tokens)
    ensures Tokens(Spelled(tokens)) == tokens
  {
    if tokens != [] {
      var rest, pattern := tokens[1..], Spelled(tokens);
      assert forall i :: 0 <= i < |rest| ==> rest[i] == tokens[i + 1];
      ReadingIsUnique(rest);
      assert pattern[|Spelling(tokens[0])|..] == Spelled(rest);
      if tokens[0] == AnySegment && rest != [] {
        assert tokens[1] == rest[0] && Spelled(rest) == Spelling(rest[0]) + Spelled(rest[1..]);
        assert rest[0].Literal? ==> Literal(rest[0].c) in tokens;
      }
      assert tokens[0].Literal? ==> Literal(tokens[0].c) in tokens;
    }
  }

  /** The pattern-building loop of `globMatches`. */
  method CompileGlob(pattern: string) returns (tokens: seq<Token>)
    ensures tokens == Tokens(pattern) && Spelled(tokens) == pattern && Proper(tokens)
  {
    hide Proper, Spelled;
    TokensSpell(pattern);
    tokens := [];
    var i := 0;
    while i < |pattern|
      invariant i <= |pattern|
      invariant tokens + Tokens(pattern[i..]) == Tokens(pattern)
    {
      if pattern[i] == '*' && i + 1 < |pattern| && pattern[i + 1] == '*' {
        assert pattern[i..][2..] == pattern[i + 2..];
        tokens := tokens + [AnyPath];
        i := i + 2;
      } else {
        assert pattern[i..][1..] == pattern[i + 1..];
        tokens := tokens + [TokenOf(pattern[i])];
        i := i + 1;
      }
    }
  }

  /** What a single token may consume. */
  predicate Admits(token: Token, piece: string) {
    match token
    case AnyPath => forall i :: 0 <= i < |piece| ==> piece[i] !in ['\n', '\r', '\U{2028}', '\U{2029}']
    case AnySegment => forall i :: 0 <= i < |piece| ==> piece[i] != '/'
    case AnyChar => |piece| == 1 && piece[0] != '/'
    case Literal(c) => piece == [c]
  }

  /** The anchored match, by backtracking over the first token. */
  predicate Matches(tokens: seq<Token>, path: string)
    decreases |tokens| + |path|
  {
    if tokens == [] then path == ""
    else
      match tokens[0]
      case AnyPath =>
        Matches(tokens[1..], path) ||
        (path != "" && !IsLineTerminator(path[0]) && Matches(tokens, path[1..]))
      case AnySegment =>
        Matches(tokens[1..], path) ||
        (path != "" && path[0] != '/' && Matches(tokens, path[1..]))
      case AnyChar => path != "" && path[0] != '/' && Matches(tokens[1..], path[1..])
      case Literal(c) => path != "" && path[0] == c && Matches(tokens[1..], path[1..])
  }

  function Concat(pieces: seq<string>): string {
    if pieces == [] then "" else pieces[0] + Concat(pieces[1..])
  }

  /** `path` can be cut into one piece per token, each admitted by its token. */
  ghost predicate Splits(tokens: seq<Token>, path: string, pieces: seq<string>) {
    |pieces| == |tokens| && Concat(pieces) == path &&
    forall i :: 0 <= i < |tokens| ==> Admits(tokens[i], pieces[i])
  }

  lemma ExtendFirst(tokens: seq<Token>, path: string, rest: seq<string>) returns (pieces: seq<string>)
    requires tokens != [] && path != "" && Splits(tokens, path[1..], rest)
    requires (tokens[0].AnyPath? && !IsLineTerminator(path[0])) || (tokens[0].AnySegment? && path[0] != '/')
    ensures Splits(tokens, path, pieces)
  {
    pieces := [[path[0]] + rest[0]] + rest[1..];
    assert pieces[1..] == rest[1..];
    assert Admits(tokens[0], rest[0]);
    assert Concat(pieces) == [path[0]] + (rest[0] + Concat(rest[1..]));
  }

  lemma {:induction false} MatchGivesPieces(tokens: seq<Token>, path: string) returns (pieces: seq<string>)
    requires Matches(tokens, path)
    ensures Splits(tokens, path, pieces)
    decreases |tokens| + |path|
  {
    if tokens == [] {
      pieces := [];
    } else if tokens[0].AnyPath? || tokens[0].AnySegment? {
      if Matches(tokens[1..], path) {
        var rest := MatchGivesPieces(tokens[1..], path);
        pieces := [""] + rest;
        assert pieces[1..] == rest;
      } else {
        var rest := MatchGivesPieces(tokens, path[1..]);
        pieces := ExtendFirst(tokens, path, rest);
      }
    } else {
      var rest := MatchGivesPieces(tokens[1..], path[1..]);
      pieces := [[path[0]]] + rest;
      assert pieces[1..] == rest;
    }
  }

  lemma {:induction false} PiecesGiveMatch(tokens: seq<Token>, path: string, pieces: seq<string>)
    requires Splits(tokens, path, pieces)
    ensures Matches(tokens, path)
    decreases |tokens| + |path|
  {
    if tokens == [] {
    } else {
      var head, tail := pieces[0], pieces[1..];
      assert path == head + Concat(tail);
      if head == "" {
        assert path == Concat(tail);
        PiecesGiveMatch(tokens[1..], path, tail);
      } else if tokens[0].AnyPath? || tokens[0].AnySegment? {
        var shorter := [head[1..]] + tail;
        assert shorter[1..] == tail;
        assert path[1..] == head[1..] + Concat(tail);
        PiecesGiveMatch(tokens, path[1..], shorter);
      } else {
        assert path[1..] == Concat(tail);
        PiecesGiveMatch(tokens[1..], path[1..], tail);
      }
    }
  }

  /** The backtracking match is the declarative one: a cut into admitted pieces exists. */
  lemma MatchesIffSplit(tokens: seq<Token>, path: string)
    ensures Matches(tokens, path) <==> exists pieces :: Splits(tokens, path, pieces)
  {
    if Matches(tokens, path) {
      var pieces := MatchGivesPieces(tokens, path);
    }
    if pieces :| Splits(tokens, path, pieces) {
      PiecesGiveMatch(tokens, path, pieces);
    }
  }

  predicate GlobMatches(pattern: string, path: string) {
    Matches(Tokens(pattern), path)
  }

  predicate IsWildcard(c: char) {
    c == '*' || c == '?' || c == '['
  }

  /** `pattern` up to its first wildcard. */
  function LiteralPart(pattern: string): (prefix: string)
    ensures prefix <= pattern
    ensures forall i :: 0 <= i < |prefix| ==> !IsWildcard(prefix[i])
    ensures |prefix| < |pattern| ==> IsWildcard(pattern[|prefix|])
  {
    if pattern == "" || IsWildcard(pattern[0]) then ""
    else [pattern[0]] + LiteralPart(pattern[1..])
  }

  /** `text` up to and including its last slash, "" when it has none. */
  function UpToLastSlash(text: string): (prefix: string)
    ensures prefix <= text
    ensures prefix == "" || prefix[|prefix| - 1] == '/'
    ensures forall i :: |prefix| <= i < |text| ==> text[i] != '/'
  {
    if text == "" then ""
    else if text[|text| - 1] == '/' then text
    else UpToLastSlash(text[..|text| - 1])
  }

  function StaticGlobPrefix(pattern: string): string {
    UpToLastSlash(LiteralPart(pattern))
  }

  predicate ScopePrefixesOverlap(a: string, b: string) {
    StaticGlobPrefix(b) <= StaticGlobPrefix(a) || StaticGlobPrefix(a) <= StaticGlobPrefix(b)
  }

  predicate HasScopePrefix(path: string) {
    SCOPE_PREFIX <= path
  }

  /** The glob of a scope path. A bare "scope:" has the empty glob, which the
      conflict test treats as no scope at all (an empty string is falsy). */
  function ScopeGlob(path: string): string {
    if HasScopePrefix(path) then path[|SCOPE_PREFIX|..] else ""
  }

  predicate IsScope(path: string) {
    ScopeGlob(path) != ""
  }

  predicate PathsConflict(a: string, b: string) {
    if a == b then true
    else if IsScope(a) && IsScope(b) then ScopePrefixesOverlap(ScopeGlob(a), ScopeGlob(b))
    else if IsScope(a) then GlobMatches(ScopeGlob(a), b)
    else if IsScope(b) then GlobMatches(ScopeGlob(b), a)
    else false
  }

  lemma ConflictSymmetric(a: string, b: string)
    ensures PathsConflict(a, b) == PathsConflict(b, a)
    ensures PathsConflict(a, a)
  {
  }

  // ---- What a conflict is, from the paths themselves ----

  /** The path of a scope with this glob. */
  predicate OnScope(path: string, glob: string) {
    glob != "" && path == "scope:" + glob
  }

  /** The files a lock path speaks for: itself, or what fits the glob of its scope. */
  ghost predicate Covers(lockPath: string, file: string) {
    lockPath == file || exists glob :: OnScope(lockPath, glob) && Fits(glob, file)
  }

  /** A path names a scope if something follows the prefix. */
  lemma ScopesAre(path: string)
    ensures IsScope(path) <==> "scope:" < path
    ensures IsScope(path) ==> path == "scope:" + ScopeGlob(path)
  {
    if "scope:" <= path { assert path == "scope:" + path[6..]; }
  }

  lemma GlobOf(glob: string)
    ensures ScopeGlob("scope:" + glob) == glob
  {
    assert ("scope:" + glob)[6..] == glob;
  }

  /** Two plain paths conflict if and only if they are the same. */
  lemma FilesConflictIff(a: string, b: string)
    requires !("scope:" < a) && !("scope:" < b)
    ensures PathsConflict(a, b) <==> a == b
  {
    ScopesAre(a);
    ScopesAre(b);
  }

  /** The file can be cut into one piece for each token of the glob. */
  ghost predicate Fits(glob: string, file: string) {
    exists pieces :: Splits(Tokens(glob), file, pieces)
  }

  lemma GlobFits(glob: string, file: string)
    ensures GlobMatches(glob, file) == Fits(glob, file)
  {
    hide Matches;
    MatchesIffSplit(Tokens(glob), file);
    assert Matches(Tokens(glob), file) == exists pieces :: Splits(Tokens(glob), file, pieces);
  }

  /** A scope and a plain path conflict, in either order, if and only if the path fits the glob. */
  lemma ScopeConflictsIff(glob: string, file: string)
    requires glob != "" && !("scope:" < file)
    ensures PathsConflict("scope:" + glob, file) <==> Fits(glob, file)
    ensures PathsConflict(file, "scope:" + glob) <==> Fits(glob, file)
  {
    hide GlobMatches, Fits;
    ScopesAre(file);
    GlobOf(glob);
    assert "scope:" + glob != file;
    assert PathsConflict("scope:" + glob, file) == GlobMatches(glob, file);
    assert PathsConflict(file, "scope:" + glob) == GlobMatches(glob, file);
    GlobFits(glob, file);
  }

  /** A plain file conflicts with exactly the lock paths that speak for it. */
  lemma FileConflictsIff(lockPath: string, file: string)
    requires !("scope:" < file)
    ensures PathsConflict(file, lockPath) <==> Covers(lockPath, file)
  {
    hide PathsConflict, Fits;
    forall glob | OnScope(lockPath, glob) ensures "scope:" < lockPath && glob == lockPath[6..] {
      assert ("scope:" + glob)[6..] == glob;
    }
    if "scope:" < lockPath {
      var glob := lockPath[6..];
      assert OnScope(lockPath, glob) && lockPath != file;
      ScopeConflictsIff(glob, file);
    } else {
      FilesConflictIff(file, lockPath);
    }
  }

  /** The directory a glob cannot leave: the longest beginning that ends in a slash and has no wildcard. */
  ghost predicate IsStaticPrefix(pattern: string, prefix: string) {
    && prefix <= pattern && (prefix == "" || prefix[|prefix| - 1] == '/')
    && (forall i :: 0 <= i < |prefix| ==> prefix[i] !in ['*', '?', '['])
    && forall i :: |prefix| <= i < |pattern| && pattern[i] == '/' ==>
         exists j :: |prefix| <= j < i && pattern[j] in ['*', '?', '[']
  }

  lemma StaticPrefixIs(pattern: string)
    ensures IsStaticPrefix(pattern, StaticGlobPrefix(pattern))
    ensures forall prefix :: IsStaticPrefix(pattern, prefix) ==> prefix == StaticGlobPrefix(pattern)
  {
    var literal, dir := LiteralPart(pattern), StaticGlobPrefix(pattern);
    assert |literal| < |pattern| ==> pattern[|literal|] in ['*', '?', '['];
    forall i | |dir| <= i < |pattern| && pattern[i] == '/'
      ensures exists j :: |dir| <= j < i && pattern[j] in ['*', '?', '[']
    {
      assert i >= |literal| by { assert forall k :: 0 <= k < |literal| ==> literal[k] == pattern[k]; }
    }
    forall prefix | IsStaticPrefix(pattern, prefix) ensures prefix == dir {
      assert prefix == pattern[..|prefix|] && dir == pattern[..|dir|];
    }
  }

  /** Two scopes conflict if and only if one of their directories lies in the other. */
  lemma ScopesConflictIff(a: string, b: string, p: string, q: string)
    requires a != "" && b != "" && IsStaticPrefix(a, p) && IsStaticPrefix(b, q)
    ensures PathsConflict("scope:" + a, "scope:" + b) <==> p <= q || q <= p
  {
    ScopesAre("scope:" + a);
    ScopesAre("scope:" + b);
    GlobOf(a);
    GlobOf(b);
    StaticPrefixIs(a);
    StaticPrefixIs(b);
  }

  lemma {:induction false} MatchStartsWithLiteralPart(pattern: string, path: string)
    requires GlobMatches(pattern, path)
    ensures LiteralPart(pattern) <= path
  {
    if pattern == "" || IsWildcard(pattern[0]) {
    } else {
      MatchStartsWithLiteralPart(pattern[1..], path[1..]);
    }
  }

  lemma PrefixesOfOne<T>(p: seq<T>, q: seq<T>, whole: seq<T>)
    requires p <= whole && q <= whole
    ensures p <= q || q <= p
  {
    assert p == whole[..|p|] && q == whole[..|q|];
    if |p| <= |q| {
      assert p == q[..|p|];
    } else {
      assert q == p[..|q|];
    }
  }

  /** Scope soundness: globs that share a matched path have overlapping static prefixes. */
  lemma SharedMatchOverlaps(a: string, b: string, path: string)
    requires GlobMatches(a, path) && GlobMatches(b, path)
    ensures ScopePrefixesOverlap(a, b)
  {
    MatchStartsWithLiteralPart(a, path);
    MatchStartsWithLiteralPart(b, path);
    PrefixOfPrefix(StaticGlobPrefix(a), LiteralPart(a), path);
    PrefixOfPrefix(StaticGlobPrefix(b), LiteralPart(b), path);
    PrefixesOfOne(StaticGlobPrefix(a), StaticGlobPrefix(b), path);
  }

  lemma PrefixOfPrefix<T>(p: seq<T>, q: seq<T>, whole: seq<T>)
    requires p <= q <= whole
    ensures p <= whole
  {
  }

  /** Two lock paths that speak for the same plain file conflict. */
  lemma CommonFileConflicts(a: string, b: string, file: string)
    requires !IsScope(file)
    requires Covers(a, file) && Covers(b, file)
    ensures PathsConflict(a, b)
  {
    ScopesAre(file);
    FileConflictsIff(a, file);
    FileConflictsIff(b, file);
    if IsScope(a) && IsScope(b) {
      SharedMatchOverlaps(ScopeGlob(a), ScopeGlob(b), file);
    }
  }

  // ---- Directory scopes: where the overlap test is exact ----

  /** The path of a directory: no wildcards, no line terminators, and a slash at its end. */
  predicate IsDirectory(dir: string) {
    && dir != "" && dir[|dir| - 1] == '/'
    && forall i :: 0 <= i < |dir| ==> !IsWildcard(dir[i]) && !IsLineTerminator(dir[i])
  }

  predicate PlainText(text: string) {
    forall i :: 0 <= i < |text| ==> !IsWildcard(text[i])
  }

  lemma {:induction false} LiteralTokens(text: string, path: string)
    requires PlainText(text)
    ensures LiteralPart(text + "**") == text
    ensures Matches(Tokens(text + "**"), text + path) <==> Matches([AnyPath], path)
  {
    var pattern := text + "**";
    if text == "" {
      assert pattern == "**" && text + path == path;
      assert Tokens("**") == [AnyPath] + Tokens("**"[2..]) == [AnyPath];
    } else {
      assert pattern[0] == text[0] && pattern[1..] == text[1..] + "**";
      assert (text + path)[1..] == text[1..] + path;
      LiteralTokens(text[1..], path);
      assert Tokens(pattern) == [Literal(text[0])] + Tokens(pattern[1..]);
      assert ([Literal(text[0])] + Tokens(pattern[1..]))[1..] == Tokens(pattern[1..]);
      assert [text[0]] + text[1..] == text;
    }
  }

  lemma {:induction false} AnyPathMatches(path: string)
    requires forall i :: 0 <= i < |path| ==> !IsLineTerminator(path[i])
    ensures Matches([AnyPath], path)
  {
    if path != "" { AnyPathMatches(path[1..]); }
  }

  lemma DirectoryPrefix(dir: string)
    requires IsDirectory(dir)
    ensures StaticGlobPrefix(dir + "**") == dir
  {
    LiteralTokens(dir, "");
  }

  lemma UnderDirectory(dir: string, path: string)
    requires IsDirectory(dir) && dir <= path
    requires forall i :: 0 <= i < |path| ==> !IsLineTerminator(path[i])
    ensures GlobMatches(dir + "**", path)
  {
    assert path == dir + path[|dir|..];
    LiteralTokens(dir, path[|dir|..]);
    AnyPathMatches(path[|dir|..]);
  }

  /** For scopes over whole directories, conflict means exactly that some path is matched by both. */
  lemma DirectoriesConflictIff(a: string, b: string)
    requires IsDirectory(a) && IsDirectory(b)
    ensures PathsConflict(SCOPE_PREFIX + (a + "**"), SCOPE_PREFIX + (b + "**")) <==>
      exists path :: GlobMatches(a + "**", path) && GlobMatches(b + "**", path)
  {
    var x, y := a + "**", b + "**";
    assert ScopeGlob(SCOPE_PREFIX + x) == x && ScopeGlob(SCOPE_PREFIX + y) == y;
    DirectoryPrefix(a);
    DirectoryPrefix(b);
    UnderDirectory(a, a);
    UnderDirectory(b, b);
    if b <= a { UnderDirectory(b, a); }
    if a <= b { UnderDirectory(a, b); }
    if path :| GlobMatches(x, path) && GlobMatches(y, path) { SharedMatchOverlaps(x, y, path); }
  }

  /** In general the overlap test is only conservative: these two scopes conflict but match no common path. */
  lemma OverlapIsConservative(path: string)
    ensures PathsConflict("scope:a", "scope:b")
    ensures !(GlobMatches(ScopeGlob("scope:a"), path) && GlobMatches(ScopeGlob("scope:b"), path))
  {
    assert ScopeGlob("scope:a") == "a" && ScopeGlob("scope:b") == "b";
    assert StaticGlobPrefix("a") == "" && StaticGlobPrefix("b") == "" by {
      assert LiteralPart("a") <= "a" && LiteralPart("b") <= "b";
    }
  }
}
