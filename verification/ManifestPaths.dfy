/** The path normalizers of a team manifest: split, trim, drop, join. */
module ManifestPaths {
  import opened Prelude
  import opened Text

  /** nonEmpty. */
  function NonEmpty(value: Option<string>): Option<string> {
    if value.Some? && Trim(value.value) != "" then Some(Trim(value.value)) else None
  }

  lemma NonEmptyIdempotent(value: Option<string>)
    ensures NonEmpty(NonEmpty(value)) == NonEmpty(value)
    ensures NonEmpty(value).Some? ==> Trimmed(NonEmpty(value).value) && NonEmpty(value).value != ""
  {
    if value.Some? {
      TrimTrims(value.value);
      TrimIdempotent(value.value);
    }
  }

  function Split(s: string): (pieces: seq<string>)
    ensures pieces != []
  {
    var k := IndexOf(s, '/');
    if k == |s| then [s] else [s[..k]] + Split(s[k + 1..])
  }

  function Join(pieces: seq<string>): string {
    if pieces == [] then ""
    else if |pieces| == 1 then pieces[0]
    else pieces[0] + "/" + Join(pieces[1..])
  }

  /** Trimmed pieces; the empty ones are dropped. */
  function Kept(pieces: seq<string>): seq<string> {
    if pieces == [] then []
    else (if Trim(pieces[0]) == "" then [] else [Trim(pieces[0])]) + Kept(pieces[1..])
  }

  function Segments(s: string): seq<string> { Kept(Split(s)) }

  /** What every segment of an accepted path is. */
  predicate GoodSegment(segment: string, decode: string -> string) {
    && segment != "." && segment != ".." && decode(segment) != "." && decode(segment) != ".."
    && '/' !in decode(segment) && '\\' !in decode(segment)
  }

  /** Letters as a case-insensitive Unicode pattern reads [a-z]. */
  predicate IsLetter(c: char) { 'a' <= c <= 'z' || 'A' <= c <= 'Z' || c as int in {0x17f, 0x212a} }

  predicate IsSchemeChar(c: char) { IsLetter(c) || '0' <= c <= '9' || c in {'+', '.', '-'} }

  /** The text starts like "https:". */
  predicate HasScheme(s: string) {
    exists n | 0 < n < |s| :: s[n] == ':' && IsLetter(s[0]) && forall i | 0 < i < n :: IsSchemeChar(s[i])
  }

  predicate GoodSegments(segments: seq<string>, decode: string -> string) {
    segments != [] && forall segment | segment in segments :: GoodSegment(segment, decode)
  }

  /** normalizeRelativePath; None where it throws. */
  function RelativePath(value: string, decode: string -> string): Option<string> {
    var trimmed := Trim(value);
    if trimmed == "" || HasScheme(trimmed) || trimmed[0] == '/' || '\\' in trimmed then None
    else if !GoodSegments(Segments(trimmed), decode) then None
    else Some(Join(Segments(trimmed)))
  }

  /** normalizeAbsoluteApiPath; a text that starts with a slash has no scheme. */
  function AbsolutePath(value: string, decode: string -> string): Option<string> {
    var trimmed := Trim(value);
    if trimmed == "" || trimmed[0] != '/' || "//" <= trimmed || HasScheme(trimmed) then None
    else if '\\' in trimmed || '?' in trimmed || '#' in trimmed then None
    else if !GoodSegments(Segments(trimmed), decode) then None
    else Some("/" + Join(Segments(trimmed)))
  }

  // --- Splitting undoes joining ---

  /** A segment as the normalizers leave it. */
  predicate Clean(segment: string) { segment != "" && Trimmed(segment) && '/' !in segment }

  lemma {:induction false} SplitHasNoSlash(s: string)
    ensures forall p | p in Split(s) :: '/' !in p
    ensures forall p, c | p in Split(s) && c in p :: c in s
  {
    IndexOfFinds(s, '/');
    var k := IndexOf(s, '/');
    if k < |s| {
      SplitHasNoSlash(s[k + 1..]);
    }
  }

  lemma TrimKeepsChars(s: string)
    ensures forall c | c in Trim(s) :: c in s
  {
    TrimStartIsSuffix(s);
    TrimEndTrims(TrimStart(s));
  }

  lemma {:induction false} TrimStartIsSuffix(s: string)
    ensures |TrimStart(s)| <= |s| && TrimStart(s) == s[|s| - |TrimStart(s)|..]
  {
    if s != "" && IsWhite(s[0]) {
      TrimStartIsSuffix(s[1..]);
    }
  }

  lemma {:induction false} KeptIsClean(pieces: seq<string>)
    requires forall p | p in pieces :: '/' !in p
    ensures forall p | p in Kept(pieces) :: Clean(p)
    ensures forall p, c | p in Kept(pieces) && c in p :: exists q | q in pieces :: c in q
  {
    if pieces != [] {
      TrimTrims(pieces[0]);
      TrimKeepsChars(pieces[0]);
      assert pieces[0] in pieces;
      KeptIsClean(pieces[1..]);
    }
  }

  lemma SegmentsAreClean(s: string)
    ensures forall p | p in Segments(s) :: Clean(p)
    ensures forall p, c | p in Segments(s) && c in p :: c in s
  {
    SplitHasNoSlash(s);
    KeptIsClean(Split(s));
  }

  lemma {:induction false} SplitUndoesJoin(pieces: seq<string>)
    requires pieces != [] && forall p | p in pieces :: '/' !in p
    ensures Split(Join(pieces)) == pieces
  {
    var joined, first := Join(pieces), pieces[0];
    assert first in pieces;
    if |pieces| == 1 {
      IndexOfIsFirst(joined, '/', |joined|);
      assert joined[..|joined|] == joined;
    } else {
      assert joined[..|first|] == first && joined[|first|] == '/';
      IndexOfIsFirst(joined, '/', |first|);
      assert joined[|first| + 1..] == Join(pieces[1..]);
      SplitUndoesJoin(pieces[1..]);
    }
  }

  lemma {:induction false} KeptStays(pieces: seq<string>)
    requires forall p | p in pieces :: Clean(p)
    ensures Kept(pieces) == pieces
  {
    if pieces != [] {
      assert Clean(pieces[0]);
      TrimmedStays(pieces[0]);
      KeptStays(pieces[1..]);
    }
  }

  /** Clean segments come back from the text they were joined into. */
  lemma SegmentsOfJoined(segments: seq<string>)
    requires segments != [] && forall p | p in segments :: Clean(p)
    ensures Segments(Join(segments)) == segments
  {
    SplitUndoesJoin(segments);
    KeptStays(segments);
  }

  lemma SegmentsAfterSlash(s: string)
    ensures Segments("/" + s) == Segments(s)
  {
    var t := "/" + s;
    IndexOfIsFirst(t, '/', 0);
    assert t[1..] == s && t[..0] == "";
    assert Split(t) == [""] + Split(s);
    assert ([""] + Split(s))[1..] == Split(s);
  }

  lemma {:induction false} JoinedEnds(segments: seq<string>)
    requires segments != [] && forall p | p in segments :: Clean(p)
    ensures segments[0] != ""
    ensures var joined := Join(segments);
            && joined != "" && joined[0] == segments[0][0] && Trimmed(joined)
            && forall c | c in joined :: c == '/' || exists p | p in segments :: c in p
  {
    assert Clean(segments[0]) && Clean(segments[|segments| - 1]);
    if |segments| > 1 {
      JoinedEnds(segments[1..]);
      assert forall c | c in Join(segments) :: c in segments[0] || c == '/' || c in Join(segments[1..]);
    }
  }

  lemma FirstSegment(s: string)
    requires s != "" && Trimmed(s) && s[0] != '/'
    ensures Segments(s) != [] && Segments(s)[0] <= s
  {
    var k := IndexOf(s, '/');
    var first := Split(s)[0];
    assert first == s[..k] && first[0] == s[0];
    assert TrimStart(first) == first;
    TrimEndTrims(first);
    TrimEndKeepsStart(first);
  }

  lemma {:induction false} TrimEndKeepsStart(s: string)
    requires s != "" && !IsWhite(s[0])
    ensures TrimEnd(s) != ""
  {
    if IsWhite(s[|s| - 1]) {
      TrimEndKeepsStart(s[..|s| - 1]);
    }
  }

  /** Joining the segments makes no scheme where there was none. */
  lemma SchemeWasThere(s: string)
    requires s != "" && Trimmed(s) && s[0] != '/' && HasScheme(Join(Segments(s)))
    ensures HasScheme(s)
  {
    FirstSegment(s);
    SegmentsAreClean(s);
    var segments := Segments(s);
    var joined, first := Join(segments), segments[0];
    assert Clean(first) && first <= joined && (|joined| > |first| ==> joined[|first|] == '/');
    var n :| 0 < n < |joined| && joined[n] == ':' && IsLetter(joined[0]) && forall i | 0 < i < n ::
        IsSchemeChar(joined[i]);
    assert n < |first|;
    assert forall i | 0 <= i <= n :: joined[i] == s[i];
  }

  // --- What the normalizers promise ---

  /** A normalized relative path: clean good segments and nothing else, which
      normalizing leaves as it is. */
  lemma RelativePathIsNormal(value: string, decode: string -> string)
    requires RelativePath(value, decode).Some?
    ensures var path := RelativePath(value, decode).value;
            && RelativePath(path, decode) == Some(path)
            && path != "" && Trimmed(path) && '\\' !in path && !HasScheme(path)
            && Split(path) == Segments(path) == Segments(Trim(value))
            && forall segment | segment in Split(path) :: Clean(segment) && GoodSegment(segment, decode)
  {
    hide Split, Join, HasScheme, GoodSegment, Clean, Trimmed;
    var trimmed := Trim(value);
    var segments := Segments(trimmed);
    TrimTrims(value);
    SegmentsAreClean(trimmed);
    SegmentsOfJoined(segments);
    SplitUndoesJoin(segments) by { CleanHasNoSlash(segments); }
    JoinedEnds(segments);
    if HasScheme(Join(segments)) {
      SchemeWasThere(trimmed);
    }
    TrimmedStays(Join(segments));
    FirstCharIsNoSlash(segments);
  }

  lemma CleanHasNoSlash(segments: seq<string>)
    requires forall p | p in segments :: Clean(p)
    ensures forall p | p in segments :: '/' !in p
  {
  }

  lemma FirstCharIsNoSlash(segments: seq<string>)
    requires segments != [] && forall p | p in segments :: Clean(p)
    ensures segments[0] != "" && segments[0][0] != '/'
  {
    assert Clean(segments[0]);
  }

  /** A normalized absolute path: one slash, then the same. */
  lemma AbsolutePathIsNormal(value: string, decode: string -> string)
    requires AbsolutePath(value, decode).Some?
    ensures var path := AbsolutePath(value, decode).value;
            && AbsolutePath(path, decode) == Some(path)
            && Trimmed(path) && path[..1] == "/" && '\\' !in path && '?' !in path && '#' !in path
            && Split(path[1..]) == Segments(path) == Segments(Trim(value))
            && forall segment | segment in Split(path[1..]) :: Clean(segment) && GoodSegment(segment, decode)
  {
    hide Split, Join, GoodSegment, Segments;
    var trimmed := Trim(value);
    var segments := Segments(trimmed);
    SegmentsAreClean(trimmed);
    SegmentsOfJoined(segments);
    SplitUndoesJoin(segments);
    JoinedEnds(segments);
    FirstCharIsNoSlash(segments);
    var path := "/" + Join(segments);
    SegmentsAfterSlash(Join(segments));
    assert path[1..] == Join(segments) && path[..1] == "/";
    assert Trimmed(path) && !("//" <= path);
    TrimmedStays(path);
  }
}
